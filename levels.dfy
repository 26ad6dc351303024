/** NLog's severity scale and the threshold algorithm of
    SettingsHelper.SetRuleLoggingLevel. */
module Levels {

  /** NLog's log levels, in ordinal order; Off is the "disabled" sentinel. */
  datatype LogLevel = Trace | Debug | Info | Warn | Error | Fatal | Off {

    /** NLog's LogLevel.Ordinal: Trace = 0 up to Fatal = 5, and Off = 6. */
    function Ordinal(): nat {
      match this
      case Trace => 0
      case Debug => 1
      case Info => 2
      case Warn => 3
      case Error => 4
      case Fatal => 5
      case Off => 6
    }
  }

  /** A real severity: a level a rule can enable. */
  type Severity = l: LogLevel | l != Off witness Trace

  /** NLog's `level >= threshold`, a comparison of ordinals. */
  predicate IsAtLeast(level: LogLevel, threshold: LogLevel) {
    level.Ordinal() >= threshold.Ordinal()
  }

  /** The real severities that a threshold leaves enabled. */
  function AtLeast(threshold: LogLevel): (r: set<Severity>)
    ensures forall l: LogLevel :: l in r <==> l != Off && IsAtLeast(l, threshold)
  {
    set l: Severity | l in {Trace, Debug, Info, Warn, Error, Fatal} && IsAtLeast(l, threshold)
  }

  /** SettingsHelper.LogLevelList: the six real levels, in the order the
      property yields them. */
  function LogLevelList(): (r: seq<Severity>)
    ensures |r| == 6
    ensures forall l: LogLevel :: l in r <==> l != Off
    ensures forall i, j :: 0 <= i < j < |r| ==> r[i] != r[j]
  {
    [Debug, Error, Fatal, Info, Trace, Warn]
  }

  /** One pass of SetRuleLoggingLevel's loop: enable the item when it is at
      least the threshold, disable it otherwise. */
  function ThresholdStep(levels: set<Severity>, item: Severity, threshold: LogLevel): set<Severity> {
    if IsAtLeast(item, threshold) then levels + {item} else levels - {item}
  }

  /** The enabled levels after the loop has visited `items` in order. */
  function ApplyThreshold(levels: set<Severity>, items: seq<Severity>, threshold: LogLevel): set<Severity>
    decreases |items|
  {
    if items == [] then levels
    else ThresholdStep(ApplyThreshold(levels, items[..|items| - 1], threshold), items[|items| - 1], threshold)
  }

  /** The loop decides every level it visits by the threshold alone and
      leaves every other level as it was. */
  lemma {:induction false} ApplyThresholdSpec(levels: set<Severity>, items: seq<Severity>, threshold: LogLevel)
    ensures ApplyThreshold(levels, items, threshold)
            == (levels - (set l | l in items)) + (set l | l in items && IsAtLeast(l, threshold))
  {
    if items != [] {
      var front := items[..|items| - 1];
      ApplyThresholdSpec(levels, front, threshold);
      assert items == front + [items[|items| - 1]];
    }
  }

  /** Threshold setting: after the loop over LogLevelList, exactly the
      levels at or above the threshold are enabled, whatever was enabled
      before. */
  lemma ThresholdOverridesPrior(levels: set<Severity>, threshold: LogLevel)
    ensures ApplyThreshold(levels, LogLevelList(), threshold) == AtLeast(threshold)
  {
    ApplyThresholdSpec(levels, LogLevelList(), threshold);
  }

  /** Applying the same threshold twice changes nothing the second time. */
  lemma ThresholdIdempotent(levels: set<Severity>, threshold: LogLevel)
    ensures var once := ApplyThreshold(levels, LogLevelList(), threshold);
            ApplyThreshold(once, LogLevelList(), threshold) == once
  {
    ThresholdOverridesPrior(levels, threshold);
    ThresholdOverridesPrior(AtLeast(threshold), threshold);
  }

  /** A threshold of Off disables every level. */
  lemma ThresholdOffDisablesAll(levels: set<Severity>)
    ensures ApplyThreshold(levels, LogLevelList(), Off) == {}
  {
    ThresholdOverridesPrior(levels, Off);
  }

  /** The levels a threshold enables form an upper set of the order: no
      gaps between the lowest enabled level and Fatal. */
  lemma {:induction false} ThresholdIsUpperSet(levels: set<Severity>, threshold: LogLevel, l: Severity, m: Severity)
    requires l in ApplyThreshold(levels, LogLevelList(), threshold)
    requires l.Ordinal() <= m.Ordinal()
    ensures m in ApplyThreshold(levels, LogLevelList(), threshold)
  {
    ThresholdOverridesPrior(levels, threshold);
  }
}
