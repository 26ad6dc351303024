/** SettingsHelper: a per-application session that owns named rules and
    targets and pushes them into the one configuration NLog's LogManager
    dispatches against; and the static state the class keeps for the
    whole process (the directory InstanceList and the self-logging
    switch). Locks are left out: every operation runs to completion
    before the next starts. */
module Settings {
  import opened Levels
  import opened Outcomes
  import opened NLogRuntime
  import SelfLogging

  const ConstAppName: string := "NLogConfig"
  const ConstCompany: string := "YoderZone"
  const ConstLogger: string := "YoderZone.NLogConfig.SettingsHelper"
  const ConstRule: string := "NLogLogRule"
  const ConstTarget: string := "NLogTarget"

  function Elems<T>(s: seq<T>): set<T> {
    set x | x in s
  }

  /** The values a map holds under the given keys. */
  function ValuesOf<K, V>(m: map<K, V>, keys: set<K>): set<V> {
    set k | k in keys && k in m :: m[k]
  }

  /** `after` is `before` followed by every element of `wanted` that
      `before` lacks, each exactly once, in some order: what
      UpdateConfiguration does to the rule list. */
  ghost predicate AppendsMissing<T>(before: seq<T>, after: seq<T>, wanted: set<T>) {
    && |before| <= |after|
    && after[..|before|] == before
    && NoDup(after[|before|..])
    && Elems(after[|before|..]) == wanted - Elems(before)
  }

  /** After reconciliation the list holds what it held and everything
      wanted, and nothing else. */
  lemma AppendsMissingMembers<T>(before: seq<T>, after: seq<T>, wanted: set<T>)
    requires AppendsMissing(before, after, wanted)
    ensures forall x :: x in after <==> x in before || x in wanted
  {
    var extra := after[|before|..];
    assert after == before + extra;
    forall x
      ensures x in after <==> x in before || x in wanted
    {
      if x in wanted && x !in before {
        assert x in Elems(extra);
      }
      if x in after && x !in before {
        assert x in Elems(extra);
      }
    }
  }

  /** Reconciliation never creates a duplicate. */
  lemma AppendsMissingNoDup<T>(before: seq<T>, after: seq<T>, wanted: set<T>)
    requires NoDup(before) && AppendsMissing(before, after, wanted)
    ensures NoDup(after)
  {
    var extra := after[|before|..];
    assert after == before + extra;
    forall i, j | 0 <= i < j < |after|
      ensures after[i] != after[j]
    {
      if j >= |before| && i < |before| {
        assert after[j] == extra[j - |before|];
        assert after[j] in Elems(extra);
      } else if i >= |before| {
        assert after[i] == extra[i - |before|] && after[j] == extra[j - |before|];
      }
    }
  }

  /** Reconciling a second time with the same wanted set appends nothing. */
  lemma AppendsMissingIdempotent<T>(before: seq<T>, after: seq<T>, again: seq<T>, wanted: set<T>)
    requires AppendsMissing(before, after, wanted)
    requires AppendsMissing(after, again, wanted)
    ensures again == after
  {
    AppendsMissingMembers(before, after, wanted);
    var extra := again[|after|..];
    assert Elems(extra) == {};
    NoDupElemsCount(extra);
    assert again == again[..|after|] + extra;
  }

  /** A list without duplicates has as many distinct elements as entries. */
  lemma {:induction false} NoDupElemsCount<T>(s: seq<T>)
    requires NoDup(s)
    ensures |Elems(s)| == |s|
  {
    if s != [] {
      NoDupElemsCount(s[1..]);
      assert Elems(s) == {s[0]} + Elems(s[1..]);
      assert s[0] !in Elems(s[1..]);
    }
  }

  /** The targets Close leaves: every entry that is the owned target under
      its own key goes, every other entry stays. */
  function DropOwned(c: map<string, Target>, own: map<string, Target>): map<string, Target> {
    map k | k in c && !(k in own && own[k] == c[k]) :: c[k]
  }

  /** RemoveRule's search loop: the key of the first entry found whose
      value is `rule`, or "" when no entry holds it (the enumeration order
      of a Dictionary is unspecified, so any matching key may come first). */
  method FindRuleName(rules: map<string, LoggingRule>, rule: LoggingRule) returns (name: string)
    ensures (name in rules && rules[name] == rule) || (name == "" && rule !in rules.Values)
  {
    name := "";
    var remaining := rules.Keys;
    while remaining != {}
      invariant remaining <= rules.Keys
      invariant forall k :: k in rules && k !in remaining ==> rules[k] != rule
      decreases remaining
    {
      var k :| k in remaining;
      if rules[k] == rule {
        return k;
      }
      remaining := remaining - {k};
    }
  }

  /** One application's settings session. */
  class SettingsHelper {
    const statics: Statics
    var applicationName: string
    var companyName: string
    var logFilesFolder: string
    /** The cached shared configuration (null until first needed). */
    var config: LoggingConfiguration?
    /** The owned rules by name (a null Dictionary is None). */
    var rules: Option<map<string, LoggingRule>>
    /** The owned targets by name. */
    var targets: Option<map<string, Target>>
    /** Whether the handler is registered for LogManager.ConfigurationChanged. */
    var subscribed: bool

    /** Every owned target is keyed by its own name (AddTarget keys it so). */
    ghost predicate Valid()
      reads this
    {
      targets.Some? ==> NamesMatch(targets.value)
    }

    /** The configuration the lazy getter would return without allocating. */
    ghost function Current(): LoggingConfiguration?
      reads this, statics.logManager
    {
      if config != null then config else statics.logManager.configuration
    }

    /** Both configurations the session can reach are well formed. */
    ghost predicate ConfigsValid()
      reads this, statics.logManager, config, statics.logManager.configuration
    {
      && (config != null ==> config.Valid())
      && (statics.logManager.configuration != null ==> statics.logManager.configuration.Valid())
    }

    function OwnedRules(): map<string, LoggingRule>
      reads this
    {
      if rules.Some? then rules.value else map[]
    }

    function OwnedTargets(): map<string, Target>
      reads this
    {
      if targets.Some? then targets.value else map[]
    }

    /** The rules of the configuration the getter resolves to (a fresh one
        starts empty). */
    ghost function PendingRules(): seq<LoggingRule>
      reads this, statics.logManager, Current()
    {
      if Current() == null then [] else Current().rules
    }

    ghost function PendingTargets(): map<string, Target>
      reads this, statics.logManager, Current()
    {
      if Current() == null then map[] else Current().targets
    }

    /** The lazy getter has run: the cached configuration is the old one,
        else LogManager's, else a fresh one now installed in LogManager. */
    twostate predicate Resolved()
      reads this, statics.logManager
    {
      && config != null
      && (old(Current()) != null ==>
            config == old(Current()) && statics.logManager.configuration == old(statics.logManager.configuration))
      && (old(Current()) == null ==> fresh(config) && statics.logManager.configuration == config)
    }

    /** The effect of UpdateConfiguration with the given owned maps: the
        owned targets are registered under their names, the owned rules
        that were missing are appended once each, nothing is removed, and
        one rebuild is requested. */
    twostate predicate Pushed(ownRules: map<string, LoggingRule>, ownTargets: map<string, Target>)
      reads this, statics.logManager, config
    {
      && Resolved()
      && config.targets == old(PendingTargets()) + ownTargets
      && AppendsMissing(old(PendingRules()), config.rules, ownRules.Values)
      && statics.logManager.rebuilds == old(statics.logManager.rebuilds) + 1
    }

    /** The properties set at creation are kept. */
    twostate predicate SameProperties()
      reads this
    {
      && applicationName == old(applicationName)
      && companyName == old(companyName)
      && logFilesFolder == old(logFilesFolder)
    }

    /** The private constructor and the object initializer of
        NewConfiguration: the handler is subscribed, nothing is owned. */
    constructor (statics: Statics, applicationName: string, companyName: string, logFilesFolder: string)
      ensures this.statics == statics && this.applicationName == applicationName
      ensures this.companyName == companyName && this.logFilesFolder == logFilesFolder
      ensures config == null && rules == None && targets == None && subscribed
      ensures Valid()
    {
      this.statics := statics;
      this.applicationName := applicationName;
      this.companyName := companyName;
      this.logFilesFolder := logFilesFolder;
      config := null;
      rules := None;
      targets := None;
      subscribed := true;
    }

    /** The lazy Configuration getter. */
    method Configuration() returns (c: LoggingConfiguration)
      requires ConfigsValid()
      modifies this`config, statics.logManager`configuration
      ensures c == config && Resolved() && ConfigsValid()
      ensures c.targets == old(PendingTargets()) && c.rules == old(PendingRules())
    {
      if config == null {
        if statics.logManager.configuration == null {
          statics.logManager.configuration := new LoggingConfiguration();
        }
        config := statics.logManager.configuration;
      }
      c := config;
    }

    /** The lazy Rules getter. */
    method RulesMap() returns (m: map<string, LoggingRule>)
      modifies this`rules
      ensures m == old(OwnedRules()) && rules == Some(m)
    {
      if rules.None? {
        rules := Some(map[]);
      }
      m := rules.value;
    }

    /** The lazy Targets getter. */
    method TargetsMap() returns (m: map<string, Target>)
      requires Valid()
      modifies this`targets
      ensures m == old(OwnedTargets()) && targets == Some(m) && Valid()
    {
      if targets.None? {
        targets := Some(map[]);
      }
      m := targets.value;
    }

    /** UpdateConfiguration: additive reconciliation of the owned entries
        into the current configuration, then one rebuild. */
    method UpdateConfiguration()
      requires Valid() && ConfigsValid()
      modifies this, statics.logManager, Current()
      ensures Valid() && ConfigsValid() && SameProperties() && subscribed == old(subscribed)
      ensures rules == Some(old(OwnedRules())) && targets == Some(old(OwnedTargets()))
      ensures Pushed(old(OwnedRules()), old(OwnedTargets()))
    {
      var c := Configuration();
      var ts := TargetsMap();
      AddMissingTargets(c, ts);
      var rs := RulesMap();
      AddMissingRules(c, rs);
      statics.logManager.ReconfigExistingLoggers();
    }

    /** Neither configuration was changed or swapped. */
    twostate predicate Untouched()
      reads this, statics.logManager, Current()
    {
      && config == old(config)
      && statics.logManager.configuration == old(statics.logManager.configuration)
      && (Current() != null ==> unchanged(Current()))
    }

    /** AddRule: Rules.Add(name, rule), failing on a name already owned,
        then UpdateConfiguration unless deferred. */
    method AddRule(name: string, rule: LoggingRule, deferUpdate: bool) returns (res: Outcome)
      requires Valid() && ConfigsValid()
      modifies this, statics.logManager, Current()
      ensures Valid() && ConfigsValid() && SameProperties() && subscribed == old(subscribed)
      ensures name in old(OwnedRules()) ==> res == Fail(DuplicateKey) && rules == Some(old(OwnedRules()))
      ensures name !in old(OwnedRules()) ==> res == Pass && rules == Some(old(OwnedRules())[name := rule])
      ensures res.Fail? || deferUpdate ==>
                targets == old(targets) && Untouched() && unchanged(statics.logManager)
      ensures res.Pass? && !deferUpdate ==>
                targets == Some(old(OwnedTargets())) && Pushed(OwnedRules(), OwnedTargets())
    {
      var m := RulesMap();
      if name in m {
        return Fail(DuplicateKey);
      }
      rules := Some(m[name := rule]);
      if deferUpdate {
        return Pass;
      }
      UpdateConfiguration();
      res := Pass;
    }

    /** AddTarget: Targets.Add(target.Name, target), failing on a name
        already owned, then UpdateConfiguration unless deferred. */
    method AddTarget(target: Target, deferUpdate: bool) returns (res: Outcome)
      requires Valid() && ConfigsValid()
      modifies this, statics.logManager, Current()
      ensures Valid() && ConfigsValid() && SameProperties() && subscribed == old(subscribed)
      ensures target.name in old(OwnedTargets()) ==> res == Fail(DuplicateKey) && targets == Some(old(OwnedTargets()))
      ensures target.name !in old(OwnedTargets()) ==>
                res == Pass && targets == Some(old(OwnedTargets())[target.name := target])
      ensures res.Fail? || deferUpdate ==>
                rules == old(rules) && Untouched() && unchanged(statics.logManager)
      ensures res.Pass? && !deferUpdate ==>
                rules == Some(old(OwnedRules())) && Pushed(OwnedRules(), OwnedTargets())
    {
      var m := TargetsMap();
      if target.name in m {
        return Fail(DuplicateKey);
      }
      targets := Some(m[target.name := target]);
      if deferUpdate {
        return Pass;
      }
      UpdateConfiguration();
      res := Pass;
    }

    /** GetRule: the owned rule of that name, or null; the lookup goes
        through the lazy Rules getter. */
    method GetRule(name: string) returns (r: Option<LoggingRule>)
      modifies this`rules
      ensures rules == Some(old(OwnedRules()))
      ensures r.None? <==> name !in OwnedRules()
      ensures r.Some? ==> r.value == OwnedRules()[name]
    {
      var m := RulesMap();
      if name in m {
        r := Some(m[name]);
      } else {
        r := None;
      }
    }

    /** GetTarget: the owned target of that name, or null. */
    method GetTarget(name: string) returns (t: Option<Target>)
      requires Valid()
      modifies this`targets
      ensures Valid() && targets == Some(old(OwnedTargets()))
      ensures t.None? <==> name !in OwnedTargets()
      ensures t.Some? ==> t.value == OwnedTargets()[name] && t.value.name == name
    {
      var m := TargetsMap();
      if name in m {
        t := Some(m[name]);
      } else {
        t := None;
      }
    }

    /** RemoveRule: the search loop's key, if not "", leaves the owned map;
        the rule leaves the cached configuration whether owned or not;
        then UpdateConfiguration unless deferred. A null owned map or a
        null cached configuration is a NullReference, the second one after
        the owned map has been edited. */
    method RemoveRule(rule: LoggingRule, deferUpdate: bool) returns (res: Outcome)
      requires Valid() && ConfigsValid()
      modifies this, statics.logManager, Current()
      ensures Valid() && ConfigsValid() && SameProperties() && subscribed == old(subscribed)
      ensures old(rules).None? ==>
                res == Fail(NullReference) && rules == None && targets == old(targets) && Untouched()
                && statics.logManager.rebuilds == old(statics.logManager.rebuilds)
      ensures old(rules).Some? ==> rules.Some? && RuleDropped(old(OwnedRules()), OwnedRules(), rule)
      ensures old(rules).Some? && old(config) == null ==>
                res == Fail(NullReference) && targets == old(targets) && Untouched()
                && statics.logManager.rebuilds == old(statics.logManager.rebuilds)
      ensures old(rules).Some? && old(config) != null ==>
                && res == Pass && config == old(config)
                && statics.logManager.configuration == old(statics.logManager.configuration)
      ensures old(rules).Some? && old(config) != null && deferUpdate ==>
                && targets == old(targets)
                && config.rules == Without(old(config.rules), {rule})
                && config.targets == old(config.targets)
                && statics.logManager.rebuilds == old(statics.logManager.rebuilds)
      ensures old(rules).Some? && old(config) != null && !deferUpdate ==>
                && targets == Some(old(OwnedTargets()))
                && config.targets == old(config.targets) + OwnedTargets()
                && AppendsMissing(Without(old(config.rules), {rule}), config.rules, OwnedRules().Values)
                && statics.logManager.rebuilds == old(statics.logManager.rebuilds) + 1
    {
      if rules.None? {
        return Fail(NullReference);
      }
      var ruleName := FindRuleName(rules.value, rule);
      if ruleName != "" {
        rules := Some(rules.value - {ruleName});
      }
      if config == null {
        return Fail(NullReference);
      }
      RemoveFirstNoDup(config.rules, rule);
      config.RemoveRule(rule);
      WithoutNoDup(old(config.rules), {rule});
      if deferUpdate {
        return Pass;
      }
      UpdateConfiguration();
      res := Pass;
    }

    /** The effect on the configuration of removing the target `name` and
        then, when `pushed`, running UpdateConfiguration with the given
        owned maps. */
    twostate predicate TargetDropped(name: string, pushed: bool,
                                     ownRules: map<string, LoggingRule>, ownTargets: map<string, Target>)
      reads this, statics.logManager, config
    {
      && Resolved()
      && config.targets == (old(PendingTargets()) - {name}) + (if pushed then ownTargets else map[])
      && (pushed ==> AppendsMissing(old(PendingRules()), config.rules, ownRules.Values))
      && (!pushed ==> config.rules == old(PendingRules()))
      && statics.logManager.rebuilds == old(statics.logManager.rebuilds) + (if pushed then 1 else 0)
    }

    /** RemoveTarget(target, deferUpdate): the configuration, resolved by
        the lazy getter, drops the name; so does the owned map, which is a
        NullReference when null; then UpdateConfiguration unless
        deferred. */
    method RemoveTarget(target: Target, deferUpdate: bool) returns (res: Outcome)
      requires Valid() && ConfigsValid()
      modifies this, statics.logManager, Current()
      ensures Valid() && ConfigsValid() && SameProperties() && subscribed == old(subscribed)
      ensures res == if old(targets).None? then Fail(NullReference) else Pass
      ensures targets == if old(targets).None? then None else Some(old(OwnedTargets()) - {target.name})
      ensures rules == if res.Pass? && !deferUpdate then Some(old(OwnedRules())) else old(rules)
      ensures TargetDropped(target.name, res.Pass? && !deferUpdate, OwnedRules(), OwnedTargets())
    {
      var c := Configuration();
      c.RemoveTarget(target.name);
      if targets.None? {
        return Fail(NullReference);
      }
      targets := Some(targets.value - {target.name});
      if deferUpdate {
        return Pass;
      }
      UpdateConfiguration();
      res := Pass;
    }

    /** RemoveTarget(name, deferUpdate): the owned target of that name, by
        the Targets field's indexer, is removed as above. */
    method RemoveTargetNamed(name: string, deferUpdate: bool) returns (res: Outcome)
      requires Valid() && ConfigsValid()
      modifies this, statics.logManager, Current()
      ensures Valid() && ConfigsValid() && SameProperties() && subscribed == old(subscribed)
      ensures old(targets).None? || name !in old(OwnedTargets()) ==>
                && res == Fail(if old(targets).None? then NullReference else KeyNotFound)
                && rules == old(rules) && targets == old(targets) && Untouched()
                && statics.logManager.rebuilds == old(statics.logManager.rebuilds)
      ensures name in old(OwnedTargets()) ==>
                && res == Pass
                && targets == Some(old(OwnedTargets()) - {name})
                && rules == (if deferUpdate then old(rules) else Some(old(OwnedRules())))
                && TargetDropped(name, !deferUpdate, OwnedRules(), OwnedTargets())
    {
      if targets.None? {
        return Fail(NullReference);
      }
      if name !in targets.value {
        return Fail(KeyNotFound);
      }
      res := RemoveTarget(targets.value[name], deferUpdate);
    }

    /** The LogManager.ConfigurationChanged handler, called with the new
        configuration while the session is subscribed: a notification of
        the configuration the getter already resolves to is ignored;
        otherwise the session adopts the new one (or, when it is null,
        whatever the getter resolves next) and pushes its entries into
        it. */
    method OnConfigurationChanged(newConfig: LoggingConfiguration?)
      requires subscribed && Valid() && ConfigsValid()
      requires newConfig != null ==> newConfig.Valid()
      modifies this, statics.logManager, config, statics.logManager.configuration, newConfig
      ensures Valid() && ConfigsValid() && SameProperties() && subscribed && config != null
      ensures newConfig != null && newConfig == old(Current()) ==>
                && config == newConfig && rules == old(rules) && targets == old(targets)
                && unchanged(newConfig) && unchanged(statics.logManager)
      ensures newConfig != null && newConfig != old(Current()) ==>
                && config == newConfig
                && rules == Some(old(OwnedRules())) && targets == Some(old(OwnedTargets()))
                && newConfig.targets == old(newConfig.targets) + OwnedTargets()
                && AppendsMissing(old(newConfig.rules), newConfig.rules, OwnedRules().Values)
                && statics.logManager.rebuilds == old(statics.logManager.rebuilds) + 1
      ensures newConfig == null ==>
                && config == statics.logManager.configuration
                && rules == Some(old(OwnedRules())) && targets == Some(old(OwnedTargets()))
                && statics.logManager.rebuilds == old(statics.logManager.rebuilds) + 1
      ensures newConfig == null && old(statics.logManager.configuration) != null ==>
                && config == old(statics.logManager.configuration)
                && config.targets == old(statics.logManager.configuration.targets) + OwnedTargets()
                && AppendsMissing(old(statics.logManager.configuration.rules), config.rules, OwnedRules().Values)
      ensures newConfig == null && old(statics.logManager.configuration) == null ==>
                && fresh(config) && config.targets == OwnedTargets()
                && AppendsMissing([], config.rules, OwnedRules().Values)
      ensures newConfig != null && old(Current()) != null ==>
                statics.logManager.configuration == old(statics.logManager.configuration)
      ensures old(config) != null && old(config) != newConfig
              && (newConfig != null || old(config) != old(statics.logManager.configuration)) ==>
                unchanged(old(config))
    {
      var c := Configuration();
      if newConfig == c {
        return;
      }
      config := newConfig;
      UpdateConfiguration();
    }

    /** Close: unsubscribes; removes the owned rules present in the
        configuration and clears the owned rule map; then, only when the
        owned target map is not null, removes the owned targets present
        in the configuration, clears that map, drops the application's
        name from InstanceList and requests a rebuild. The configuration
        getter runs only when an owned map has an entry to test. */
    method Close()
      requires Valid() && ConfigsValid()
      modifies this, statics`instanceList, statics.logManager, Current()
      ensures Valid() && ConfigsValid() && SameProperties() && !subscribed
      ensures rules == None && targets == None
      ensures statics.instanceList
              == if old(targets).None? then old(statics.instanceList) else old(statics.instanceList) - {applicationName}
      ensures statics.logManager.rebuilds
              == old(statics.logManager.rebuilds) + (if old(targets).None? then 0 else 1)
      ensures old(OwnedRules()) == map[] && old(OwnedTargets()) == map[] ==> Untouched()
      ensures old(OwnedRules()) != map[] || old(OwnedTargets()) != map[] ==>
                && Resolved()
                && config.rules == Without(old(PendingRules()), old(OwnedRules()).Values)
                && config.targets == DropOwned(old(PendingTargets()), old(OwnedTargets()))
    {
      ghost var pending := PendingRules();
      ghost var owned := OwnedRules().Values;
      WithoutAbsent(pending, {});
      subscribed := false;
      if rules.Some? {
        ReleaseRules();
      } else {
        assert owned == {};
      }
      if targets.None? {
        return;
      }
      ghost var mid := PendingRules();
      assert old(OwnedRules()) == map[] ==> owned == {} && mid == pending;
      ReleaseTargets();
      statics.instanceList := statics.instanceList - {applicationName};
      statics.logManager.ReconfigExistingLoggers();
    }

    /** Close with the early return removed: the teardown completes, the
        name leaves InstanceList and one rebuild is requested whether or
        not the owned target map was ever created. */
    method CloseCorrected()
      requires Valid() && ConfigsValid()
      modifies this, statics`instanceList, statics.logManager, Current()
      ensures Valid() && ConfigsValid() && SameProperties() && !subscribed
      ensures rules == None && targets == None
      ensures statics.instanceList == old(statics.instanceList) - {applicationName}
      ensures statics.logManager.rebuilds == old(statics.logManager.rebuilds) + 1
      ensures old(OwnedRules()) == map[] && old(OwnedTargets()) == map[] ==> Untouched()
      ensures old(OwnedRules()) != map[] || old(OwnedTargets()) != map[] ==>
                && Resolved()
                && config.rules == Without(old(PendingRules()), old(OwnedRules()).Values)
                && config.targets == DropOwned(old(PendingTargets()), old(OwnedTargets()))
    {
      ghost var pending := PendingRules();
      ghost var owned := OwnedRules().Values;
      WithoutAbsent(pending, {});
      subscribed := false;
      ReleaseRules();
      ghost var mid := PendingRules();
      assert old(OwnedRules()) == map[] ==> owned == {} && mid == pending;
      ReleaseTargets();
      statics.instanceList := statics.instanceList - {applicationName};
      statics.logManager.ReconfigExistingLoggers();
    }

    /** Close's first block: the owned rules leave the configuration and
        the owned rule map is released. */
    method ReleaseRules()
      requires ConfigsValid()
      modifies this`rules, this`config, statics.logManager`configuration, Current()
      ensures ConfigsValid() && rules == None
      ensures old(OwnedRules()) == map[] ==> Untouched()
      ensures old(OwnedRules()) != map[] ==>
                && Resolved()
                && config.rules == Without(old(PendingRules()), old(OwnedRules()).Values)
                && config.targets == old(PendingTargets())
    {
      if rules.Some? && rules.value != map[] {
        // the filter evaluates the getter for every entry; from the first
        // evaluation on it returns the same object
        var c := Configuration();
        RemoveOwnedRules(c, rules.value);
      }
      rules := None;
    }

    /** Close's second block: the owned targets leave the configuration and
        the owned target map is released. */
    method ReleaseTargets()
      requires Valid() && ConfigsValid()
      modifies this`targets, this`config, statics.logManager`configuration, Current()
      ensures Valid() && ConfigsValid() && targets == None
      ensures old(OwnedTargets()) == map[] ==> Untouched()
      ensures old(OwnedTargets()) != map[] ==>
                && Resolved()
                && config.targets == DropOwned(old(PendingTargets()), old(OwnedTargets()))
                && config.rules == old(PendingRules())
    {
      if targets.Some? && targets.value != map[] {
        var c := Configuration();
        RemoveOwnedTargets(c, targets.value);
      }
      targets := None;
    }
  }

  /** What RemoveRule does to the owned map: the key the search finds
      goes, unless it is "" (the search's "not found" value), and nothing
      changes when no key holds the rule. */
  ghost predicate RuleDropped(before: map<string, LoggingRule>, after: map<string, LoggingRule>, rule: LoggingRule) {
    || (rule !in before.Values && after == before)
    || (exists k :: k in before && before[k] == rule && after == (if k == "" then before else before - {k}))
  }

  /** UpdateConfiguration's target loop: every owned target not among
      the configuration's targets is added under its name. */
  method AddMissingTargets(c: LoggingConfiguration, ts: map<string, Target>)
    requires c.Valid() && NamesMatch(ts)
    modifies c
    ensures c.Valid() && c.targets == old(c.targets) + ts && c.rules == old(c.rules)
  {
    var remaining := ts.Keys;
    while remaining != {}
      invariant remaining <= ts.Keys
      invariant c.targets == old(c.targets) + (map k | k in ts && k !in remaining :: ts[k])
      invariant c.Valid() && c.rules == old(c.rules)
      decreases remaining
    {
      var k :| k in remaining;
      var t := ts[k];
      if t !in c.targets.Values {
        c.AddTarget(t.name, t);
      } else {
        var k' :| k' in c.targets && c.targets[k'] == t;
        assert k' == k;
      }
      remaining := remaining - {k};
    }
  }

  /** UpdateConfiguration's rule loop: every owned rule not in the list is
      appended. */
  method AddMissingRules(c: LoggingConfiguration, rs: map<string, LoggingRule>)
    requires c.Valid()
    modifies c
    ensures c.Valid() && AppendsMissing(old(c.rules), c.rules, rs.Values) && c.targets == old(c.targets)
  {
    var remaining := rs.Keys;
    while remaining != {}
      invariant remaining <= rs.Keys
      invariant AppendsMissing(old(c.rules), c.rules, ValuesOf(rs, rs.Keys - remaining))
      invariant c.Valid() && c.targets == old(c.targets)
      decreases remaining
    {
      var k :| k in remaining;
      var r := rs[k];
      ghost var before := c.rules;
      ghost var done := ValuesOf(rs, rs.Keys - remaining);
      if r !in c.rules {
        c.AddRule(r);
      }
      remaining := remaining - {k};
      AppendStep(old(c.rules), before, c.rules, done, r);
      assert ValuesOf(rs, rs.Keys - remaining) == done + {r};
    }
    assert ValuesOf(rs, rs.Keys) == rs.Values;
  }

  /** Close's rule loop: each owned rule the list holds is removed. */
  method RemoveOwnedRules(c: LoggingConfiguration, rs: map<string, LoggingRule>)
    requires c.Valid()
    modifies c
    ensures c.Valid() && c.rules == Without(old(c.rules), rs.Values) && c.targets == old(c.targets)
  {
    var remaining := rs.Keys;
    WithoutAbsent(c.rules, {});
    assert ValuesOf(rs, rs.Keys - remaining) == {};
    while remaining != {}
      invariant remaining <= rs.Keys
      invariant c.rules == Without(old(c.rules), ValuesOf(rs, rs.Keys - remaining))
      invariant c.Valid() && c.targets == old(c.targets)
      decreases remaining
    {
      var k :| k in remaining;
      var r := rs[k];
      ghost var done := ValuesOf(rs, rs.Keys - remaining);
      if r in c.rules {
        RemoveFirstNoDup(c.rules, r);
        c.RemoveRule(r);
        WithoutNoDup(old(c.rules), done + {r});
      } else {
        WithoutAbsent(c.rules, {r});
      }
      WithoutWithout(old(c.rules), done, {r});
      remaining := remaining - {k};
      assert ValuesOf(rs, rs.Keys - remaining) == done + {r};
    }
    assert rs.Keys - remaining == rs.Keys;
    assert ValuesOf(rs, rs.Keys) == rs.Values;
  }

  /** Close's target loop: each owned target the configuration holds is
      removed by its key. */
  method RemoveOwnedTargets(c: LoggingConfiguration, ts: map<string, Target>)
    requires c.Valid() && NamesMatch(ts)
    modifies c
    ensures c.Valid() && c.targets == DropOwned(old(c.targets), ts) && c.rules == old(c.rules)
  {
    var remaining := ts.Keys;
    while remaining != {}
      invariant remaining <= ts.Keys
      invariant c.targets == DropOwned(old(c.targets), map k | k in ts && k !in remaining :: ts[k])
      invariant c.Valid() && c.rules == old(c.rules)
      decreases remaining
    {
      var k :| k in remaining;
      var t := ts[k];
      if t in c.targets.Values {
        c.RemoveTarget(k);
      }
      remaining := remaining - {k};
    }
    assert (map k | k in ts && k !in remaining :: ts[k]) == ts;
  }

  /** One pass of UpdateConfiguration's rule loop keeps AppendsMissing. */
  lemma AppendStep<T>(base: seq<T>, before: seq<T>, after: seq<T>, done: set<T>, r: T)
    requires AppendsMissing(base, before, done) && NoDup(before)
    requires after == if r in before then before else before + [r]
    ensures AppendsMissing(base, after, done + {r}) && NoDup(after)
  {
    AppendsMissingMembers(base, before, done);
    if r !in before {
      assert after[..|base|] == before[..|base|];
      assert after[|base|..] == before[|base|..] + [r];
    }
  }

  /** Appending the one missing element puts it at the end. */
  lemma {:induction false} AppendsMissingSingle<T>(before: seq<T>, after: seq<T>, x: T)
    requires AppendsMissing(before, after, {x}) && x !in before
    ensures after == before + [x]
  {
    var extra := after[|before|..];
    assert Elems(extra) == {x};
    NoDupElemsCount(extra);
    assert extra[0] in Elems(extra);
    assert after == before + extra;
  }

  /** InitializeInternalLogging's loop: EnableLoggingForLevel for each
      requested level in turn, stopped by the first Off. */
  method EnableEach(rule: LoggingRule, levels: seq<LogLevel>) returns (res: Outcome)
    requires rule.levels == {}
    modifies rule`levels
    ensures res == if Off in levels then Fail(IndexOutOfRange) else Pass
    ensures res.Pass? ==> forall l: LogLevel :: l in rule.levels <==> l in levels
  {
    var i := 0;
    while i < |levels|
      invariant 0 <= i <= |levels| && Off !in levels[..i]
      invariant forall l: LogLevel :: l in rule.levels <==> l in levels[..i]
    {
      res := rule.EnableLoggingForLevel(levels[i]);
      if res.Fail? {
        return;
      }
      assert levels[..i + 1] == levels[..i] + [levels[i]];
      i := i + 1;
    }
    assert levels[..i] == levels;
    res := Pass;
  }

  /** The default of NewConfiguration's logFilesFolder parameter. */
  const DefaultLogFilesFolder: string := "logs"

  /** The static state of SettingsHelper. InstanceList's lazy creation is
      not observable (every access goes through its getter), so the
      directory is a map from the start. */
  class Statics {
    const logManager: LogManager
    var initialized: bool
    var instanceList: map<string, SettingsHelper>
    var isNLogConfigLogEnabled: bool
    var nLogConfigLogLevel: LogLevel

    constructor (logManager: LogManager)
      ensures this.logManager == logManager
      ensures !initialized && instanceList == map[]
      ensures !isNLogConfigLogEnabled && nLogConfigLogLevel == Off
    {
      this.logManager := logManager;
      initialized := false;
      instanceList := map[];
      isNLogConfigLogEnabled := false;
      nLogConfigLogLevel := Off;
    }

    /** LogManager's configuration is well formed and every registered
        session is a session of this process state. */
    ghost predicate Valid()
      reads this, logManager, logManager.configuration, instanceList.Values
    {
      && (logManager.configuration != null ==> logManager.configuration.Valid())
      && forall n :: n in instanceList ==> instanceList[n].statics == this && instanceList[n].Valid()
    }

    /** The session registered under `app`, as a frame. */
    function Session(app: string): set<SettingsHelper>
      reads this
    {
      if app in instanceList then {instanceList[app]} else {}
    }

    /** InstanceList[app].Rules[ruleName], when both lookups succeed. */
    function FindRule(app: string, ruleName: string): Option<LoggingRule>
      reads this, Session(app)
    {
      if app in instanceList && ruleName in instanceList[app].OwnedRules()
      then Some(instanceList[app].OwnedRules()[ruleName])
      else None
    }

    /** The rule FindRule finds, as a frame. */
    function RuleObject(app: string, ruleName: string): set<LoggingRule>
      reads this, Session(app)
    {
      if FindRule(app, ruleName).Some? then {FindRule(app, ruleName).value} else {}
    }

    /** The targets of LogManager's configuration (none when it is null). */
    ghost function ManagerTargets(): map<string, Target>
      reads this, logManager, logManager.configuration
    {
      if logManager.configuration == null then map[] else logManager.configuration.targets
    }

    ghost function ManagerRules(): seq<LoggingRule>
      reads this, logManager, logManager.configuration
    {
      if logManager.configuration == null then [] else logManager.configuration.rules
    }

    /** LogManager and its configuration are as they were. */
    twostate predicate ManagerUnchanged()
      reads this, logManager, logManager.configuration
    {
      && unchanged(logManager)
      && (logManager.configuration != null ==> unchanged(logManager.configuration))
    }

    /** NewConfiguration: a new subscribed session is created, then
        registered under its application name; Dictionary.Add rejects a
        name already registered, and the new session, already subscribed,
        is then lost. */
    method NewConfiguration(applicationName: string, companyName: string, logFilesFolder: string)
      returns (res: Result<SettingsHelper>)
      requires Valid()
      modifies this`instanceList
      ensures Valid()
      ensures applicationName in old(instanceList) ==>
                res == Failure(DuplicateKey) && instanceList == old(instanceList)
      ensures applicationName !in old(instanceList) ==>
                res.Success? && instanceList == old(instanceList)[applicationName := res.value]
      ensures res.Success? ==>
                && fresh(res.value) && res.value.statics == this && res.value.subscribed
                && res.value.applicationName == applicationName
                && res.value.companyName == companyName
                && res.value.logFilesFolder == logFilesFolder
                && res.value.config == null && res.value.rules == None && res.value.targets == None
    {
      var session := new SettingsHelper(this, applicationName, companyName, logFilesFolder);
      if applicationName in instanceList {
        return Failure(DuplicateKey);
      }
      instanceList := instanceList[applicationName := session];
      res := Success(session);
    }

    /** SetRuleLevel: an unknown application is ignored; otherwise the
        named rule of that session, by the Rules indexer, gets the one
        level enabled or disabled. */
    method SetRuleLevel(applicationName: string, ruleName: string, logLevel: LogLevel, enable: bool)
      returns (res: Outcome)
      modifies Session(applicationName)`rules, RuleObject(applicationName, ruleName)`levels
      ensures applicationName !in instanceList ==> res == Pass
      ensures applicationName in instanceList ==>
                instanceList[applicationName].rules == Some(old(instanceList[applicationName].OwnedRules()))
      ensures applicationName in instanceList && old(FindRule(applicationName, ruleName)).None? ==>
                res == Fail(KeyNotFound)
      ensures old(FindRule(applicationName, ruleName)).Some? ==>
                var rule := old(FindRule(applicationName, ruleName)).value;
                && (logLevel == Off ==> res == Fail(IndexOutOfRange) && rule.levels == old(rule.levels))
                && (logLevel != Off ==>
                      && res == Pass
                      && rule.levels == if enable then old(rule.levels) + {logLevel} else old(rule.levels) - {logLevel})
    {
      if applicationName !in instanceList {
        return Pass;
      }
      var m := instanceList[applicationName].RulesMap();
      if ruleName !in m {
        return Fail(KeyNotFound);
      }
      var rule := m[ruleName];
      if enable {
        res := rule.EnableLoggingForLevel(logLevel);
      } else {
        res := rule.DisableLoggingForLevel(logLevel);
      }
    }

    /** SetRuleLoggingLevel: the named rule, by both indexers, gets every
        level of LogLevelList enabled when at least the threshold and
        disabled otherwise. */
    method SetRuleLoggingLevel(applicationName: string, ruleName: string, logLevel: LogLevel)
      returns (res: Outcome)
      modifies Session(applicationName)`rules, RuleObject(applicationName, ruleName)`levels
      ensures applicationName in instanceList ==>
                instanceList[applicationName].rules == Some(old(instanceList[applicationName].OwnedRules()))
      ensures old(FindRule(applicationName, ruleName)).None? ==> res == Fail(KeyNotFound)
      ensures old(FindRule(applicationName, ruleName)).Some? ==>
                res == Pass && old(FindRule(applicationName, ruleName)).value.levels == AtLeast(logLevel)
    {
      if applicationName !in instanceList {
        return Fail(KeyNotFound);
      }
      var m := instanceList[applicationName].RulesMap();
      if ruleName !in m {
        return Fail(KeyNotFound);
      }
      var rule: LoggingRule := m[ruleName];
      var items := LogLevelList();
      for i := 0 to |items|
        modifies rule`levels
        invariant rule.levels == ApplyThreshold(old(rule.levels), items[..i], logLevel)
      {
        var item := items[i];
        var done: Outcome;
        if IsAtLeast(item, logLevel) {
          done := rule.EnableLoggingForLevel(item);
        } else {
          done := rule.DisableLoggingForLevel(item);
        }
        assert items[..i + 1][..i] == items[..i];
      }
      assert items[..|items|] == items;
      ThresholdOverridesPrior(old(rule.levels), logLevel);
      res := Pass;
    }

    /** InitializeInternalLogging, without its diagnostic messages: runs
        once; registers the session "NLogConfig", gives it the file target
        "NLogTarget" (deferred), builds the rule for the class's logger
        starting from Off, enables each requested level in turn, and adds
        the rule as "NLogLogRule", which pushes both into LogManager's
        configuration. */
    method InitializeInternalLogging(levels: seq<LogLevel>) returns (res: Outcome)
      requires Valid()
      modifies this`initialized, this`instanceList, logManager, logManager.configuration
      ensures Valid() && initialized
      ensures logManager.configuration == old(logManager.configuration) || fresh(logManager.configuration)
      ensures old(initialized) || ConstAppName in old(instanceList) ==>
                && res == (if old(initialized) then Pass else Fail(DuplicateKey))
                && instanceList == old(instanceList)
                && ManagerUnchanged()
      ensures !old(initialized) && ConstAppName !in old(instanceList) ==>
                && ConstAppName in instanceList
                && var session := instanceList[ConstAppName];
                && fresh(session) && instanceList == old(instanceList)[ConstAppName := session]
                && session.companyName == ConstCompany && session.logFilesFolder == DefaultLogFilesFolder
                && session.OwnedTargets().Keys == {ConstTarget}
                && (Off in levels ==>
                      && res == Fail(IndexOutOfRange) && session.rules == None
                      && ManagerUnchanged())
                && (Off !in levels ==>
                      && res == Pass
                      && session.OwnedRules().Keys == {ConstRule}
                      && var rule := session.OwnedRules()[ConstRule];
                      && var target := session.OwnedTargets()[ConstTarget];
                      && fresh(rule) && rule.loggerNamePattern == ConstLogger && rule.targets == [target]
                      && (forall l: LogLevel :: l in rule.levels <==> l in levels)
                      && logManager.configuration != null
                      && logManager.configuration.targets == old(ManagerTargets())[ConstTarget := target]
                      && logManager.configuration.rules == old(ManagerRules()) + [rule]
                      && logManager.rebuilds == old(logManager.rebuilds) + 1)
    {
      if initialized {
        return Pass;
      }
      initialized := true;
      var created := NewConfiguration(ConstAppName, ConstCompany, DefaultLogFilesFolder);
      if created.Failure? {
        return Fail(created.error);
      }
      res := AddInternalEntries(created.value, levels);
    }

    /** InitializeInternalLogging's registration, on the new session. */
    method AddInternalEntries(session: SettingsHelper, levels: seq<LogLevel>) returns (res: Outcome)
      requires session.statics == this && session.config == null && session.rules == None && session.targets == None
      requires logManager.configuration != null ==> logManager.configuration.Valid()
      modifies session, logManager, logManager.configuration
      ensures session.Valid() && session.SameProperties() && session.subscribed == old(session.subscribed)
      ensures logManager.configuration != null ==> logManager.configuration.Valid()
      ensures logManager.configuration == old(logManager.configuration) || fresh(logManager.configuration)
      ensures session.OwnedTargets().Keys == {ConstTarget}
      ensures Off in levels ==>
                res == Fail(IndexOutOfRange) && session.rules == None && ManagerUnchanged()
      ensures Off !in levels ==>
                && res == Pass
                && session.OwnedRules().Keys == {ConstRule}
                && var rule := session.OwnedRules()[ConstRule];
                && var target := session.OwnedTargets()[ConstTarget];
                && fresh(rule) && rule.loggerNamePattern == ConstLogger && rule.targets == [target]
                && (forall l: LogLevel :: l in rule.levels <==> l in levels)
                && logManager.configuration != null
                && logManager.configuration.targets == old(ManagerTargets())[ConstTarget := target]
                && logManager.configuration.rules == old(ManagerRules()) + [rule]
                && logManager.rebuilds == old(logManager.rebuilds) + 1
    {
      var fileTarget := new Target(ConstTarget);
      var added := session.AddTarget(fileTarget, true);
      var rule: LoggingRule := new LoggingRule(ConstLogger, fileTarget, Off);
      var enabled := EnableEach(rule, levels);
      if enabled.Fail? {
        return enabled;
      }
      res := session.AddRule(ConstRule, rule, false);
      AppendsMissingSingle(old(ManagerRules()), logManager.configuration.rules, rule);
    }

    /** The self-logging state: both static fields, the levels of the
        rule "NLogLogRule" of the session "NLogConfig", and the rebuild
        count. */
    ghost function SelfLog(): SelfLogging.State
      reads this, logManager, Session(ConstAppName), RuleObject(ConstAppName, ConstRule)
    {
      var r := FindRule(ConstAppName, ConstRule);
      SelfLogging.State(isNLogConfigLogEnabled, nLogConfigLogLevel,
                        if r.None? then None else Some(r.value.levels), logManager.rebuilds)
    }

    /** The IsNLogConfigLogEnabled setter; an exception from
        SetRuleLoggingLevel escapes after the field is assigned. */
    method SetIsNLogConfigLogEnabled(value: bool) returns (res: Outcome)
      modifies this`isNLogConfigLogEnabled, this`nLogConfigLogLevel, logManager`rebuilds
      modifies Session(ConstAppName)`rules, RuleObject(ConstAppName, ConstRule)`levels
      ensures (SelfLog(), res) == SelfLogging.SetEnabled(old(SelfLog()), value)
      ensures FindRule(ConstAppName, ConstRule) == old(FindRule(ConstAppName, ConstRule))
      decreases if value && nLogConfigLogLevel == Off then 2 else 0
    {
      if isNLogConfigLogEnabled == value {
        return Pass;
      }
      isNLogConfigLogEnabled := value;
      if value {
        if nLogConfigLogLevel == Off {
          res := SetNLogConfigLogLevel(Info);
          return;
        }
        res := SetRuleLoggingLevel(ConstAppName, ConstRule, nLogConfigLogLevel);
      } else {
        res := SetRuleLoggingLevel(ConstAppName, ConstRule, Off);
      }
      if res.Fail? {
        return;
      }
      logManager.ReconfigExistingLoggers();
    }

    /** The NLogConfigLogLevel setter. */
    method SetNLogConfigLogLevel(value: LogLevel) returns (res: Outcome)
      modifies this`isNLogConfigLogEnabled, this`nLogConfigLogLevel, logManager`rebuilds
      modifies Session(ConstAppName)`rules, RuleObject(ConstAppName, ConstRule)`levels
      ensures (SelfLog(), res) == SelfLogging.SetLevel(old(SelfLog()), value)
      ensures FindRule(ConstAppName, ConstRule) == old(FindRule(ConstAppName, ConstRule))
      decreases if value == Off || !isNLogConfigLogEnabled then 1 else 0
    {
      if nLogConfigLogLevel == value {
        return Pass;
      }
      nLogConfigLogLevel := value;
      if value == Off {
        res := SetIsNLogConfigLogEnabled(false);
        return;
      }
      res := SetRuleLoggingLevel(ConstAppName, ConstRule, value);
      if res.Fail? {
        return;
      }
      if isNLogConfigLogEnabled {
        logManager.ReconfigExistingLoggers();
      } else {
        res := SetIsNLogConfigLogEnabled(true);
      }
    }
  }
}
