/** Concrete runs of the settings helper on a process state of its own,
    each stating what the run ends with. */
module Scenarios {
  import opened Levels
  import opened Outcomes
  import opened NLogRuntime
  import opened Settings
  import opened SelfLogging

  lemma SingletonValues<K, V>(k: K, v: V)
    ensures map[k := v].Values == {v}
  {
    assert map[k := v][k] == v;
  }

  /** A fresh process: no configuration installed yet, nothing registered. */
  method NewProcess() returns (statics: Statics)
    ensures fresh(statics) && fresh(statics.logManager)
    ensures statics.logManager.configuration == null && statics.logManager.rebuilds == 0
    ensures statics.instanceList == map[] && !statics.initialized && statics.Valid()
    ensures !statics.isNLogConfigLogEnabled && statics.nLogConfigLogLevel == Off
  {
    var manager := new LogManager(null);
    statics := new Statics(manager);
  }

  /** Deferred adds leave LogManager alone; the commit installs a
      configuration holding exactly the session's entries. */
  method DeferredBatch() returns (untouched: bool, committed: bool)
    ensures untouched && committed
  {
    var statics := NewProcess();
    var created := statics.NewConfiguration("App", "Co", DefaultLogFilesFolder);
    var session := created.value;
    var target := new Target("file");
    var rule := new LoggingRule("*", target, Info);
    var added := session.AddTarget(target, true);
    added := session.AddRule("main", rule, true);
    untouched := statics.logManager.configuration == null && statics.logManager.rebuilds == 0;
    session.UpdateConfiguration();
    var c := statics.logManager.configuration;
    AppendsMissingSingle([], c.rules, rule);
    committed := c.targets == map["file" := target] && c.rules == [rule] && statics.logManager.rebuilds == 1;
  }

  /** Registers a session under `app` and commits one target and one rule
      through it. */
  method Commit(statics: Statics, app: string, targetName: string, ruleName: string)
    returns (session: SettingsHelper, target: Target, rule: LoggingRule)
    requires statics.Valid() && app !in statics.instanceList
    modifies statics`instanceList, statics.logManager, statics.logManager.configuration
    ensures statics.Valid() && fresh(session) && fresh(target) && fresh(rule)
    ensures statics.instanceList == old(statics.instanceList)[app := session]
    ensures session.statics == statics && session.applicationName == app && session.subscribed
    ensures session.Valid() && session.ConfigsValid()
    ensures session.rules == Some(map[ruleName := rule]) && session.targets == Some(map[targetName := target])
    ensures target.name == targetName
    ensures session.config != null && session.config == statics.logManager.configuration
    ensures old(statics.logManager.configuration) != null ==>
              statics.logManager.configuration == old(statics.logManager.configuration)
    ensures old(statics.logManager.configuration) == null ==> fresh(statics.logManager.configuration)
    ensures session.config.targets == old(statics.ManagerTargets())[targetName := target]
    ensures session.config.rules == old(statics.ManagerRules()) + [rule]
    ensures statics.logManager.rebuilds == old(statics.logManager.rebuilds) + 1
  {
    var created := statics.NewConfiguration(app, "Co", DefaultLogFilesFolder);
    session := created.value;
    target := new Target(targetName);
    rule := new LoggingRule(app + ".*", target, Info);
    var added := session.AddTarget(target, true);
    added := session.AddRule(ruleName, rule, false);
    AppendsMissingSingle(old(statics.ManagerRules()), session.config.rules, rule);
  }

  /** Closing one session removes its rule and leaves another session's
      rule in place. */
  method CloseKeepsOtherSessions() returns (ownGone: bool, otherKept: bool)
    ensures ownGone && otherKept
  {
    var statics := NewProcess();
    var a, targetA, r1 := Commit(statics, "A", "fileA", "r1");
    var b, targetB, r2 := Commit(statics, "B", "fileB", "r2");
    var c := statics.logManager.configuration;
    assert c.rules == [r1, r2];
    assert a.OwnedRules() == map["r1" := r1];
    assert a.OwnedRules()["r1"] in a.OwnedRules().Values;
    assert a.OwnedRules().Values == {r1};
    a.Close();
    assert c.rules == Without([r1, r2], {r1});
    WithoutMembers([r1, r2], {r1});
    ownGone := r1 !in c.rules && "fileA" !in c.targets && "A" !in statics.instanceList;
    otherKept := r2 in c.rules && c.targets["fileB"] == targetB && statics.instanceList["B"] == b;
  }

  /** A second session under a name in use is rejected; once the first
      session, which held a target, is closed, the name can be reused. */
  method DuplicateThenRecreate() returns (rejected: bool, recreated: bool)
    ensures rejected && recreated
  {
    var statics := NewProcess();
    var first := statics.NewConfiguration("x", "Co", DefaultLogFilesFolder);
    var second := statics.NewConfiguration("x", "Co", DefaultLogFilesFolder);
    rejected := second == Failure(DuplicateKey);
    var session := first.value;
    var target := new Target("file");
    var added := session.AddTarget(target, true);
    session.Close();
    var third := statics.NewConfiguration("x", "Co", DefaultLogFilesFolder);
    recreated := third.Success? && statics.instanceList["x"] == third.value;
  }

  /** As written, Close returns before deregistering a session whose
      target map was never created, so the name stays taken. */
  method TargetlessCloseKeepsName() returns (stillRegistered: bool, rejected: bool)
    ensures stillRegistered && rejected
  {
    var statics := NewProcess();
    var first := statics.NewConfiguration("x", "Co", DefaultLogFilesFolder);
    var session := first.value;
    session.Close();
    stillRegistered := "x" in statics.instanceList && statics.instanceList["x"] == session;
    var again := statics.NewConfiguration("x", "Co", DefaultLogFilesFolder);
    rejected := again == Failure(DuplicateKey);
  }

  /** With the corrected Close the same sequence frees the name. */
  method CorrectedCloseFreesName() returns (recreated: bool)
    ensures recreated
  {
    var statics := NewProcess();
    var first := statics.NewConfiguration("x", "Co", DefaultLogFilesFolder);
    var session := first.value;
    session.CloseCorrected();
    var again := statics.NewConfiguration("x", "Co", DefaultLogFilesFolder);
    recreated := again.Success?;
  }

  /** A threshold of Warn, then Debug switched on by itself. */
  method ThresholdThenSingleLevel() returns (threshold: bool, single: bool)
    ensures threshold && single
  {
    var statics := NewProcess();
    var session, target, rule := Commit(statics, "App", "file", "main");
    var res := statics.SetRuleLoggingLevel("App", "main", Warn);
    threshold := res == Pass && rule.levels == AtLeast(Warn);
    assert AtLeast(Warn) == {Warn, Error, Fatal};
    res := statics.SetRuleLevel("App", "main", Debug, true);
    single := res == Pass && rule.levels == {Debug, Warn, Error, Fatal};
  }

  /** SetRuleLevel ignores an unknown application; SetRuleLoggingLevel
      fails on it, and both fail on an unknown rule name. */
  method UnknownNames() returns (ignored: bool, failed: bool)
    ensures ignored && failed
  {
    var statics := NewProcess();
    var session, target, rule := Commit(statics, "App", "file", "main");
    var levelsBefore := rule.levels;
    var skipped := statics.SetRuleLevel("Nope", "main", Debug, false);
    ignored := skipped == Pass && rule.levels == levelsBefore;
    var noApp := statics.SetRuleLoggingLevel("Nope", "main", Warn);
    var noRule := statics.SetRuleLevel("App", "other", Warn, true);
    failed := noApp == Fail(KeyNotFound) && noRule == Fail(KeyNotFound) && rule.levels == levelsBefore;
  }

  /** When another configuration replaces the shared one, the session
      pushes its entries into the replacement; a notification of the
      configuration it already uses changes nothing. */
  method SelfHeal() returns (sameIgnored: bool, healed: bool)
    ensures sameIgnored && healed
  {
    var statics := NewProcess();
    var session, target, rule := Commit(statics, "App", "file", "main");
    var c := statics.logManager.configuration;
    var rebuilds := statics.logManager.rebuilds;
    session.OnConfigurationChanged(c);
    sameIgnored := session.config == c && c.rules == [rule] && statics.logManager.rebuilds == rebuilds;
    var replacement := new LoggingConfiguration();
    statics.logManager.configuration := replacement;
    session.OnConfigurationChanged(replacement);
    SingletonValues("main", rule);
    AppendsMissingSingle([], replacement.rules, rule);
    healed := session.config == replacement && replacement.rules == [rule]
              && replacement.targets == map["file" := target];
  }

  /** A second UpdateConfiguration leaves the configuration's contents as
      the first left them. */
  method UpdateTwiceIsStable() returns (stable: bool)
    ensures stable
  {
    var statics := NewProcess();
    var session, target, rule := Commit(statics, "App", "file", "main");
    var c := statics.logManager.configuration;
    var rulesOnce, targetsOnce := c.rules, c.targets;
    session.UpdateConfiguration();
    AppendsMissingIdempotent([], rulesOnce, c.rules, {rule});
    stable := c.rules == rulesOnce && c.targets == targetsOnce;
  }

  /** A second Close changes nothing: no rebuild, the directory as it was. */
  method SecondCloseIsNoOp() returns (noOp: bool)
    ensures noOp
  {
    var statics := NewProcess();
    var session, target, rule := Commit(statics, "App", "file", "main");
    session.Close();
    var c := statics.logManager.configuration;
    var rebuilds, directory, rulesAfter := statics.logManager.rebuilds, statics.instanceList, c.rules;
    session.Close();
    noOp := statics.logManager.rebuilds == rebuilds && statics.instanceList == directory && c.rules == rulesAfter;
  }

  /** RemoveRule on a rule owned under the empty name: the search's ""
      reads as "not found", the owned entry stays, and the commit that
      follows puts the rule straight back. */
  method EmptyNameRuleComesBack() returns (stillOwned: bool, stillActive: bool)
    ensures stillOwned && stillActive
  {
    var statics := NewProcess();
    var session, target, rule := Commit(statics, "App", "file", "");
    var before := session.config.rules;
    var res := session.RemoveRule(rule, false);
    stillOwned := res == Pass && session.rules == Some(map["" := rule]);
    SingletonValues("", rule);
    AppendsMissingMembers(Without(before, {rule}), session.config.rules, session.OwnedRules().Values);
    stillActive := rule in session.config.rules;
  }

  /** RemoveRule on a rule owned under a real name removes it for good. */
  method NamedRuleIsRemoved() returns (gone: bool)
    ensures gone
  {
    var statics := NewProcess();
    var session, target, rule := Commit(statics, "App", "file", "main");
    var before := session.config.rules;
    var res := session.RemoveRule(rule, false);
    assert session.OwnedRules() == map[];
    assert session.OwnedRules().Values == {};
    AppendsMissingMembers(Without(before, {rule}), session.config.rules, {});
    WithoutMembers(before, {rule});
    gone := res == Pass && rule !in session.config.rules && session.rules == Some(map[]);
  }

  /** Internal logging starts with no level enabled; switching it on
      picks Info, and setting the level to Off switches it off again. A
      second initialisation does nothing. */
  method SelfLoggingSwitch() returns (startsOff: bool, onAtInfo: bool, offAgain: bool, onceOnly: bool)
    ensures startsOff && onAtInfo && offAgain && onceOnly
  {
    var statics := NewProcess();
    var init := statics.InitializeInternalLogging([]);
    var rule := statics.FindRule(ConstAppName, ConstRule).value;
    startsOff := init == Pass && rule.levels == {} && !statics.isNLogConfigLogEnabled;
    var directory := statics.instanceList;
    var again := statics.InitializeInternalLogging([Debug]);
    onceOnly := again == Pass && statics.instanceList == directory && rule.levels == {};
    EnableFromOffPicksInfo(statics.SelfLog());
    var res := statics.SetIsNLogConfigLogEnabled(true);
    onAtInfo := res == Pass && statics.isNLogConfigLogEnabled && statics.nLogConfigLogLevel == Info
                && rule.levels == AtLeast(Info);
    SetLevelConsistent(statics.SelfLog(), Off);
    res := statics.SetNLogConfigLogLevel(Off);
    assert AtLeast(Off) == {};
    offAgain := res == Pass && !statics.isNLogConfigLogEnabled && statics.nLogConfigLogLevel == Off
                && rule.levels == {};
  }

  /** Initialising with Debug enables Debug while the switch reads
      disabled; assigning false or Off, which the properties already hold,
      leaves Debug enabled. */
  method DisabledSwitchLeavesLevels() returns (outOfStep: bool, stillLogging: bool)
    ensures outOfStep && stillLogging
  {
    var statics := NewProcess();
    var init := statics.InitializeInternalLogging([Debug]);
    var rule := statics.FindRule(ConstAppName, ConstRule).value;
    outOfStep := init == Pass && rule.levels == {Debug}
                 && !statics.isNLogConfigLogEnabled && statics.nLogConfigLogLevel == Off;
    InitialWithLevelsOutOfStep({Debug});
    var off := statics.SetIsNLogConfigLogEnabled(false);
    var level := statics.SetNLogConfigLogLevel(Off);
    stillLogging := off == Pass && level == Pass && rule.levels == {Debug};
  }

  /** The exceptions the session lets escape: a duplicate rule name, a
      missing target name, and null owned maps on a fresh session. */
  method ErrorPaths() returns (duplicate: bool, missing: bool, nulls: bool)
    ensures duplicate && missing && nulls
  {
    var statics := NewProcess();
    var created := statics.NewConfiguration("Fresh", "Co", DefaultLogFilesFolder);
    var unused := created.value;
    var target := new Target("file");
    var rule := new LoggingRule("*", target, Info);
    var noRules := unused.RemoveRule(rule, true);
    var noTargets := unused.RemoveTargetNamed("file", true);
    nulls := noRules == Fail(NullReference) && noTargets == Fail(NullReference);
    var session, owned, ownedRule := Commit(statics, "App", "file", "main");
    var again := session.AddRule("main", rule, true);
    duplicate := again == Fail(DuplicateKey) && session.rules == Some(map["main" := ownedRule]);
    var absent := session.RemoveTargetNamed("other", false);
    var found := session.GetTarget("other");
    missing := absent == Fail(KeyNotFound) && found.None?;
  }
}
