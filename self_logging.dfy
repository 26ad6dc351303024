/** The self-logging switch of the settings helper: the static properties
    IsNLogConfigLogEnabled and NLogConfigLogLevel, whose setters call each
    other, and the internal rule "NLogLogRule" that they keep in step.
    This module states the two setters as functions on an abstract state;
    Settings.Statics implements them on the heap and is proved equal to
    them. */
module SelfLogging {
  import opened Levels
  import opened Outcomes

  /** The observable state: the two static fields, the enabled levels of
      the internal rule (None when no session "NLogConfig" holds a rule
      "NLogLogRule") and the number of rebuilds requested. */
  datatype State = State(enabled: bool, level: LogLevel, rule: Option<set<Severity>>, rebuilds: nat)

  /** SetRuleLoggingLevel("NLogConfig", "NLogLogRule", threshold): fails
      with KeyNotFound when the internal rule is missing. */
  function Threshold(s: State, threshold: LogLevel): (State, Outcome) {
    if s.rule.None? then (s, Fail(KeyNotFound))
    else (s.(rule := Some(AtLeast(threshold))), Pass)
  }

  /** LogManager.ReconfigExistingLoggers. */
  function Rebuild(s: State): State {
    s.(rebuilds := s.rebuilds + 1)
  }

  /** The IsNLogConfigLogEnabled setter. */
  function SetEnabled(s: State, value: bool): (State, Outcome)
    decreases if value && s.level == Off then 2 else 0
  {
    if s.enabled == value then (s, Pass)
    else
      var s1 := s.(enabled := value);
      if value && s1.level == Off then SetLevel(s1, Info)
      else
        var (s2, o) := Threshold(s1, if value then s1.level else Off);
        if o.Fail? then (s2, o) else (Rebuild(s2), Pass)
  }

  /** The NLogConfigLogLevel setter. */
  function SetLevel(s: State, value: LogLevel): (State, Outcome)
    decreases if value == Off || !s.enabled then 1 else 0
  {
    if s.level == value then (s, Pass)
    else
      var s1 := s.(level := value);
      if value == Off then SetEnabled(s1, false)
      else
        var (s2, o) := Threshold(s1, value);
        if o.Fail? then (s2, o)
        else if s2.enabled then (Rebuild(s2), Pass)
        else SetEnabled(s2, true)
  }

  /** The initial state: disabled, level Off (the field initialiser, not
      the Info its remark announces). */
  function Initial(rule: Option<set<Severity>>): State {
    State(false, Off, rule, 0)
  }

  /** Enabled implies a real level. */
  ghost predicate LevelSane(s: State) {
    s.enabled ==> s.level != Off
  }

  /** The internal rule enables exactly the levels at or above the level,
      and none while disabled. */
  ghost predicate RuleInStep(s: State) {
    s.rule.Some? ==> s.rule.value == AtLeast(if s.enabled then s.level else Off)
  }

  ghost predicate Consistent(s: State) {
    LevelSane(s) && RuleInStep(s)
  }

  lemma {:induction false} InitialIsConsistent(rule: Option<set<Severity>>)
    requires rule.Some? ==> rule.value == {}
    ensures Consistent(Initial(rule))
  {
    if rule.Some? {
      assert AtLeast(Off) == {};
    }
  }

  /** InitializeInternalLogging(levels) with any level creates the internal
      rule with those levels while the switch stays disabled at Off: the
      state is out of step, and assigning false or Off, the values the
      properties already hold, leaves the levels enabled. Only a call that
      changes a value brings the rule in step (SetEnabledConsistent,
      SetLevelConsistent). */
  lemma {:induction false} InitialWithLevelsOutOfStep(levels: set<Severity>)
    requires levels != {}
    ensures !Consistent(Initial(Some(levels)))
    ensures SetEnabled(Initial(Some(levels)), false) == (Initial(Some(levels)), Pass)
    ensures SetLevel(Initial(Some(levels)), Off) == (Initial(Some(levels)), Pass)
    ensures Consistent(SetEnabled(Initial(Some(levels)), true).0)
  {
    assert AtLeast(Off) == {};
    SetEnabledConsistent(Initial(Some(levels)), true);
  }

  /** Setting either property to its current value is a no-op. */
  lemma {:induction false} EqualValueIsNoOp(s: State, enabled: bool, level: LogLevel)
    ensures s.enabled == enabled ==> SetEnabled(s, enabled) == (s, Pass)
    ensures s.level == level ==> SetLevel(s, level) == (s, Pass)
  {
  }

  /** Enabling while the level is Off raises the level to Info. */
  lemma {:induction false} EnableFromOffPicksInfo(s: State)
    requires !s.enabled && s.level == Off
    ensures SetEnabled(s, true).0.enabled && SetEnabled(s, true).0.level == Info
    ensures SetEnabled(s, true).1 == (if s.rule.None? then Fail(KeyNotFound) else Pass)
    ensures s.rule.Some? ==> SetEnabled(s, true).0.rule == Some(AtLeast(Info))
  {
    var s1 := s.(enabled := true);
    assert SetEnabled(s, true) == SetLevel(s1, Info);
  }

  /** The IsNLogConfigLogEnabled setter keeps the state consistent, and a
      call that changes the value makes it consistent whatever it was. */
  lemma {:induction false} SetEnabledConsistent(s: State, value: bool)
    requires Consistent(s) || s.enabled != value
    ensures Consistent(SetEnabled(s, value).0)
  {
    if s.enabled != value {
      var s1 := s.(enabled := value);
      if value && s1.level == Off {
        assert SetEnabled(s, value) == SetLevel(s1, Info);
      }
    }
  }

  /** The NLogConfigLogLevel setter keeps the state consistent; a call
      that changes the level makes it consistent whatever it was, except
      when it sets Off while already disabled, which leaves the rule as it
      was. */
  lemma {:induction false} SetLevelConsistent(s: State, value: LogLevel)
    requires Consistent(s) || (s.level != value && (value != Off || s.enabled))
    ensures Consistent(SetLevel(s, value).0)
  {
    if s.level != value {
      var s1 := s.(level := value);
      if value == Off {
        assert SetLevel(s, value) == SetEnabled(s1, false);
        if s.enabled {
          assert SetEnabled(s1, false).0.rule == if s1.rule.None? then None else Some(AtLeast(Off));
        }
      } else {
        var (s2, o) := Threshold(s1, value);
        if o.Pass? && !s2.enabled {
          assert SetLevel(s, value) == SetEnabled(s2, true);
          assert s2.level != Off;
        }
      }
    }
  }

  /** The exception left out of the previous lemma: setting Off while
      disabled does not touch the rule. */
  lemma {:induction false} DisabledOffKeepsRule(s: State)
    requires !s.enabled && s.level != Off
    ensures SetLevel(s, Off) == (s.(level := Off), Pass)
  {
    assert SetLevel(s, Off) == SetEnabled(s.(level := Off), false);
  }

  /** A call that changes an enabled internal rule requests exactly one
      rebuild; a call that changes nothing, or that only lowers the level
      to Off while disabled, requests none. */
  lemma {:induction false} SetEnabledRebuildsOnce(s: State, value: bool)
    requires s.rule.Some?
    ensures SetEnabled(s, value).1 == Pass
    ensures SetEnabled(s, value).0.rebuilds == s.rebuilds + (if s.enabled == value then 0 else 1)
  {
    if s.enabled != value {
      var s1 := s.(enabled := value);
      if value && s1.level == Off {
        assert SetEnabled(s, value) == SetLevel(s1, Info);
      }
    }
  }

  lemma {:induction false} SetLevelRebuildsOnce(s: State, value: LogLevel)
    requires s.rule.Some?
    ensures SetLevel(s, value).1 == Pass
    ensures SetLevel(s, value).0.rebuilds
            == s.rebuilds + (if s.level == value || (value == Off && !s.enabled) then 0 else 1)
  {
    if s.level != value {
      var s1 := s.(level := value);
      if value == Off {
        assert SetLevel(s, value) == SetEnabled(s1, false);
      } else {
        var (s2, o) := Threshold(s1, value);
        if !s2.enabled {
          assert SetLevel(s, value) == SetEnabled(s2, true);
        }
      }
    }
  }

  /** Without the internal rule, a call that would touch it fails with
      KeyNotFound, after the fields have already been assigned. */
  lemma {:induction false} MissingRuleFails(s: State, value: bool)
    requires s.rule.None? && s.enabled != value
    ensures SetEnabled(s, value).1 == Fail(KeyNotFound)
    ensures SetEnabled(s, value).0.enabled == value
    ensures SetEnabled(s, value).0.rebuilds == s.rebuilds
  {
    var s1 := s.(enabled := value);
    if value && s1.level == Off {
      assert SetEnabled(s, value) == SetLevel(s1, Info);
    }
  }

  /** An outer assignment to one of the two properties. */
  datatype Assignment = SetEnabledTo(enabled: bool) | SetLevelTo(level: LogLevel)

  /** The state after a sequence of outer assignments, in order. */
  function Run(s: State, calls: seq<Assignment>): State
    decreases |calls|
  {
    if calls == [] then s
    else
      var s1 := Run(s, calls[..|calls| - 1]);
      match calls[|calls| - 1]
      case SetEnabledTo(v) => SetEnabled(s1, v).0
      case SetLevelTo(v) => SetLevel(s1, v).0
  }

  /** From a consistent state, every sequence of outer assignments leaves
      the state consistent and the internal rule present or absent as it
      was. */
  lemma {:induction false} RunConsistent(s: State, calls: seq<Assignment>)
    requires Consistent(s)
    ensures Consistent(Run(s, calls)) && Run(s, calls).rule.Some? == s.rule.Some?
  {
    if calls != [] {
      var front := calls[..|calls| - 1];
      RunConsistent(s, front);
      var s1 := Run(s, front);
      match calls[|calls| - 1]
      case SetEnabledTo(v) =>
        SetEnabledConsistent(s1, v);
        SetEnabledKeepsRulePresence(s1, v);
      case SetLevelTo(v) =>
        SetLevelConsistent(s1, v);
        SetLevelKeepsRulePresence(s1, v);
    }
  }

  /** The setters never create or drop the internal rule. */
  lemma SetEnabledKeepsRulePresence(s: State, value: bool)
    ensures SetEnabled(s, value).0.rule.Some? == s.rule.Some?
  {
    if s.enabled != value && value && s.level == Off {
      assert SetEnabled(s, value) == SetLevel(s.(enabled := value), Info);
    }
  }

  lemma SetLevelKeepsRulePresence(s: State, value: LogLevel)
    ensures SetLevel(s, value).0.rule.Some? == s.rule.Some?
  {
    if s.level != value {
      var s1 := s.(level := value);
      if value == Off {
        assert SetLevel(s, value) == SetEnabled(s1, false);
      } else if s1.rule.Some? && !s1.enabled {
        assert SetLevel(s, value) == SetEnabled(s1.(rule := Some(AtLeast(value))), true);
      }
    }
  }
}
