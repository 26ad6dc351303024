/** The parts of the NLog runtime the settings helper touches, reduced to
    what the helper can observe: a target is a named object, a rule an
    object with a mutable set of enabled levels, a configuration a map
    of named targets beside a list of rules, and the log manager the
    holder of the current configuration plus a count of the rebuilds
    (ReconfigExistingLoggers) requested of it. */
module NLogRuntime {
  import opened Levels
  import opened Outcomes

  /** No element occurs twice. */
  predicate NoDup<T(==)>(s: seq<T>) {
    forall i, j :: 0 <= i < j < |s| ==> s[i] != s[j]
  }

  /** List<T>.Remove: drops the first occurrence of `x`, if there is one. */
  function RemoveFirst<T(==)>(s: seq<T>, x: T): seq<T> {
    if s == [] then []
    else if s[0] == x then s[1..]
    else [s[0]] + RemoveFirst(s[1..], x)
  }

  /** `s` without the elements of `xs`, the order of the rest kept. */
  function Without<T(==)>(s: seq<T>, xs: set<T>): seq<T> {
    if s == [] then []
    else (if s[0] in xs then [] else [s[0]]) + Without(s[1..], xs)
  }

  lemma {:induction false} WithoutMembers<T>(s: seq<T>, xs: set<T>)
    ensures forall x :: x in Without(s, xs) <==> x in s && x !in xs
  {
    if s != [] {
      WithoutMembers(s[1..], xs);
    }
  }

  lemma {:induction false} WithoutNoDup<T>(s: seq<T>, xs: set<T>)
    requires NoDup(s)
    ensures NoDup(Without(s, xs))
  {
    if s != [] {
      WithoutNoDup(s[1..], xs);
      WithoutMembers(s[1..], xs);
    }
  }

  /** Removing what is not there changes nothing. */
  lemma {:induction false} WithoutAbsent<T>(s: seq<T>, xs: set<T>)
    requires forall x :: x in xs ==> x !in s
    ensures Without(s, xs) == s
  {
    if s != [] {
      WithoutAbsent(s[1..], xs);
    }
  }

  /** Filtering twice is filtering once by the union. */
  lemma {:induction false} WithoutWithout<T>(s: seq<T>, xs: set<T>, ys: set<T>)
    ensures Without(Without(s, xs), ys) == Without(s, xs + ys)
  {
    if s != [] {
      WithoutWithout(s[1..], xs, ys);
      if s[0] in xs {
        assert Without(s, xs) == Without(s[1..], xs);
      } else {
        assert Without(s, xs) == [s[0]] + Without(s[1..], xs);
        assert Without(s, xs)[1..] == Without(s[1..], xs);
      }
    }
  }

  /** On a list without duplicates, List.Remove removes the element
      altogether. */
  lemma {:induction false} RemoveFirstNoDup<T>(s: seq<T>, x: T)
    requires NoDup(s)
    ensures RemoveFirst(s, x) == Without(s, {x})
  {
    if s != [] {
      if s[0] == x {
        assert forall y :: y in s[1..] ==> y != x;
        WithoutAbsent(s[1..], {x});
      } else {
        RemoveFirstNoDup(s[1..], x);
      }
    }
  }

  /** Every key names the target it maps to (how AddTarget keys targets). */
  ghost predicate NamesMatch(m: map<string, Target>) {
    forall k :: k in m ==> m[k].name == k
  }

  /** An output sink; for the helper only its name and its identity matter. */
  class Target {
    const name: string

    constructor (name: string)
      ensures this.name == name
    {
      this.name := name;
    }
  }

  /** NLog's LoggingRule: a logger-name pattern, its targets and the set of
      levels it is enabled for. */
  class LoggingRule {
    const loggerNamePattern: string
    const targets: seq<Target>
    var levels: set<Severity>

    /** new LoggingRule(pattern, minLevel, target): every level from
        minLevel up is enabled; with Off none is. */
    constructor (loggerNamePattern: string, target: Target, minLevel: LogLevel)
      ensures this.loggerNamePattern == loggerNamePattern && targets == [target]
      ensures levels == AtLeast(minLevel)
    {
      this.loggerNamePattern := loggerNamePattern;
      targets := [target];
      levels := AtLeast(minLevel);
    }

    /** EnableLoggingForLevel; Off has no slot in NLog's per-level table. */
    method EnableLoggingForLevel(level: LogLevel) returns (res: Outcome)
      modifies this`levels
      ensures level == Off ==> res == Fail(IndexOutOfRange) && levels == old(levels)
      ensures level != Off ==> res == Pass && levels == old(levels) + {level}
    {
      if level == Off {
        return Fail(IndexOutOfRange);
      }
      levels := levels + {level};
      return Pass;
    }

    /** DisableLoggingForLevel, with the same restriction. */
    method DisableLoggingForLevel(level: LogLevel) returns (res: Outcome)
      modifies this`levels
      ensures level == Off ==> res == Fail(IndexOutOfRange) && levels == old(levels)
      ensures level != Off ==> res == Pass && levels == old(levels) - {level}
    {
      if level == Off {
        return Fail(IndexOutOfRange);
      }
      levels := levels - {level};
      return Pass;
    }
  }

  /** NLog's LoggingConfiguration: the named targets (ConfiguredNamedTargets,
      which also stands for AllTargets) and the list LoggingRules. */
  class LoggingConfiguration {
    var targets: map<string, Target>
    var rules: seq<LoggingRule>

    /** No rule is listed twice and every target is keyed by its name. */
    ghost predicate Valid()
      reads this
    {
      NoDup(rules) && NamesMatch(targets)
    }

    constructor ()
      ensures targets == map[] && rules == [] && Valid()
    {
      targets := map[];
      rules := [];
    }

    /** AddTarget(name, target): registers or replaces the entry for `name`. */
    method AddTarget(name: string, target: Target)
      modifies this
      ensures targets == old(targets)[name := target] && rules == old(rules)
    {
      targets := targets[name := target];
    }

    /** RemoveTarget(name): drops the entry for `name`, if any. */
    method RemoveTarget(name: string)
      modifies this
      ensures targets == old(targets) - {name} && rules == old(rules)
    {
      targets := targets - {name};
    }

    /** LoggingRules.Add. */
    method AddRule(rule: LoggingRule)
      modifies this
      ensures rules == old(rules) + [rule] && targets == old(targets)
    {
      rules := rules + [rule];
    }

    /** LoggingRules.Remove: only the first occurrence goes. */
    method RemoveRule(rule: LoggingRule)
      modifies this
      ensures rules == RemoveFirst(old(rules), rule) && targets == old(targets)
    {
      rules := RemoveFirst(rules, rule);
    }
  }

  /** NLog's LogManager: the current configuration (null until one is
      installed) and the number of ReconfigExistingLoggers calls. */
  class LogManager {
    var configuration: LoggingConfiguration?
    var rebuilds: nat

    constructor (configuration: LoggingConfiguration?)
      ensures this.configuration == configuration && rebuilds == 0
    {
      this.configuration := configuration;
      rebuilds := 0;
    }

    /** ReconfigExistingLoggers: rebuilds the dispatch tables. */
    method ReconfigExistingLoggers()
      modifies this`rebuilds
      ensures rebuilds == old(rebuilds) + 1
    {
      rebuilds := rebuilds + 1;
    }
  }
}
