# NLogConfig's SettingsHelper in Dafny

NLogConfig wraps NLog's programmatic configuration in a per-application
*settings session*, the class `SettingsHelper`. A session owns named rules
and named targets. It keeps them in two lazily created dictionaries and
pushes them into the one configuration that NLog's `LogManager` dispatches
against. Pushing adds what is missing: a rule already listed is not added
again, and no rule is removed. Each owned target is registered under its
name, which replaces any other target registered under that name. Adds and removes can defer the push so a batch is
committed at once. When the shared configuration is replaced, a
subscribed session pushes its entries into the replacement. `Close` takes
out only the session's own entries.

The class also has process-wide static state:

- the directory `InstanceList` of sessions by application name;
- a run-once switch for the library's own diagnostic logging;
- two interlocked static properties, `IsNLogConfigLogEnabled` and
  `NLogConfigLogLevel`, that keep the internal rule "NLogLogRule" of the
  session "NLogConfig" in step.

## How the model is built

- `levels.dfy` (module `Levels`): NLog's `LogLevel` with its ordinals,
  the six-level list `LogLevelList`, and `AtLeast`, the reference set of
  real levels at or above a threshold. It holds the enable/disable loop of
  `SetRuleLoggingLevel` as a function `ApplyThreshold`, with its lemmas.
- `outcomes.dfy` (module `Outcomes`): the .NET exceptions the code lets
  escape, as values. These are `KeyNotFoundException`, the `ArgumentException`
  of `Dictionary.Add` (`DuplicateKey`), `NullReferenceException`, and the
  index error raised when NLog is asked to enable `LogLevel.Off`.
- `nlog_runtime.dfy` (module `NLogRuntime`): the NLog objects the helper
  touches, as classes.
  - A `Target` is a named object.
  - A `LoggingRule` has a mutable set of enabled levels.
  - A `LoggingConfiguration` has a map of named targets and a rule list.
  - The `LogManager` holds the current configuration and a count of
    `ReconfigExistingLoggers` calls (rebuilds).
  - The module also gives `List.Remove` as `RemoveFirst`.
- `self_logging.dfy` (module `SelfLogging`): the two static setters as pure
  functions on an abstract state, with their invariants proved.
- `settings.dfy` (module `Settings`): `SettingsHelper` as a class whose
  fields `config`, `rules` and `targets` its methods update in place. A
  null dictionary is `None`. `Statics` holds the static fields. Every
  loop of the source is a `while` or `for` loop with its invariants. The
  loops are those of `UpdateConfiguration`, `Close`, `RemoveRule`'s
  search, `SetRuleLoggingLevel` and `InitializeInternalLogging`. The
  static setters are proved equal to the `SelfLogging` functions.
- `scenarios.dfy` (module `Scenarios`): concrete runs on a fresh process
  state, each ending in a proved outcome.

Two invariants of NLog's data are preconditions throughout, as
`LoggingConfiguration.Valid`:

- no rule is listed twice;
- every target is registered under its own name, which is how both
  `AddTarget`s register it.

Under them the source's identity tests (`AllTargets.Contains`,
`LoggingRules.Contains`) agree with key tests. As a result:

- `UpdateConfiguration` leaves exactly the old targets plus the owned ones,
  and the old rules followed by each missing owned rule once
  (`AppendsMissing`).
- `Close` leaves the old rules without the owned ones (`Without`), and the
  old targets without the owned entries (`DropOwned`).

A `Dictionary` has no specified enumeration order, so each loop over one
picks any remaining key.

Several behaviours of the code are kept as written:

- A Dictionary under a null field is a NullReference. `RemoveRule`
  dereferences `rules`, then `config`. `RemoveTarget` dereferences
  `targets`, after it has already removed the name from the configuration.
  `RemoveTarget(name)` dereferences `targets` and then fails with
  KeyNotFound on a missing name.
- `RemoveRule` removes the rule from the cached configuration even when the
  session does not own it.
- `RemoveRule`'s search uses "" to mean "not found". So a rule owned under
  the empty name stays owned, and a non-deferred call pushes it straight
  back (`Scenarios.EmptyNameRuleComesBack`).
- The lazy getters have side effects. `GetRule` and `GetTarget` create an
  empty dictionary, so they are methods. The configuration getter installs
  a new configuration in `LogManager` when there is none.
- `NewConfiguration` builds and subscribes the new session before
  `Dictionary.Add` rejects a duplicate name.
- The initial `NLogConfigLogLevel` is `Off`, as the field initialiser has
  it, although the remark beside the field says the default is Info.
- `UpdateConfiguration` tests a target's presence by identity and then
  registers it by name. So an owned target replaces a different target of
  the same name that another session registered.
- `InitializeInternalLogging(levels)` creates the internal rule with the
  requested levels, but leaves `IsNLogConfigLogEnabled` false and the level
  Off. With any level requested, the rule is then out of step with the
  switch. Assigning false or Off, the values the properties already hold,
  leaves those levels enabled (`SelfLogging.InitialWithLevelsOutOfStep`,
  `Scenarios.DisabledSwitchLeavesLevels`). `SelfLogging.InitialIsConsistent`
  covers only `InitializeInternalLogging([])`. The first assignment that
  changes a value brings the rule in step.
- `Close` returns early when the owned target map is null. It then skips
  both the directory removal and the rebuild (see Findings).

## Model

| member | source | states |
|---|---|---|
| `Levels.LogLevelList` | NLogConfig/SettingsHelper.cs:333-344 | six entries, all distinct, covering exactly the levels other than Off |
| `Levels.ApplyThresholdSpec` | NLogConfig/SettingsHelper.cs:626-636 | the loop decides each visited level by the threshold alone and leaves every unvisited level as it was |
| `Levels.ThresholdOverridesPrior` | NLogConfig/SettingsHelper.cs:620-637 | after the loop over LogLevelList the enabled set is exactly the levels at or above the threshold, whatever was enabled before |
| `Levels.ThresholdIdempotent` | NLogConfig/SettingsHelper.cs:620-637 | applying the same threshold a second time changes nothing |
| `Levels.ThresholdOffDisablesAll` | NLogConfig/SettingsHelper.cs:620-637 | a threshold of Off disables every level |
| `Levels.ThresholdIsUpperSet` | NLogConfig/SettingsHelper.cs:626-636 | if a level is enabled after the loop, so is every higher level |
| `NLogRuntime.RemoveFirstNoDup` | NLogConfig/SettingsHelper.cs:712 | on a list without duplicates, List.Remove removes every occurrence of the element |
| `NLogRuntime.WithoutWithout` | NLogConfig/SettingsHelper.cs:707-713 | removing one set of rules and then another is removing their union, the basis of Close's loop invariant |
| `NLogRuntime.WithoutMembers` | NLogConfig/SettingsHelper.cs:707-713 | an element survives the removal iff it was listed and is not among the removed |
| `NLogRuntime.WithoutNoDup` | NLogConfig/SettingsHelper.cs:707-713 | removal never introduces a duplicate |
| `NLogRuntime.WithoutAbsent` | NLogConfig/SettingsHelper.cs:710 | removing rules that are not listed leaves the list as it was |
| `NLogRuntime.LoggingRule.constructor` | NLogConfig/RuleFactory.cs:118-124 | the new rule has the pattern, the one target, and every level from minLevel up enabled (none for Off) |
| `NLogRuntime.LoggingRule.EnableLoggingForLevel` | NLogConfig/SettingsHelper.cs:504 | a real level is added to the enabled set; Off fails with IndexOutOfRange and changes nothing |
| `NLogRuntime.LoggingRule.DisableLoggingForLevel` | NLogConfig/SettingsHelper.cs:604 | a real level is removed from the enabled set; Off fails with IndexOutOfRange and changes nothing |
| `NLogRuntime.LoggingConfiguration.RemoveRule` | NLogConfig/SettingsHelper.cs:798 | the rule list loses the first occurrence of the rule and the targets are untouched |
| `SelfLogging.InitialIsConsistent` | NLogConfig/SettingsHelper.cs:97-111 | the initial state with a rule that has no level, as `InitializeInternalLogging([])` leaves it, satisfies the invariant |
| `SelfLogging.EqualValueIsNoOp` | NLogConfig/SettingsHelper.cs:211-214 | setting either property to its current value changes nothing and succeeds |
| `SelfLogging.EnableFromOffPicksInfo` | NLogConfig/SettingsHelper.cs:218-224 | enabling while the level is Off sets the level to Info and the rule to Info and above; it fails with KeyNotFound when the internal rule is missing |
| `SelfLogging.SetEnabledConsistent` | NLogConfig/SettingsHelper.cs:209-234 | the enabled setter keeps "enabled implies a real level" and "the rule enables exactly the levels at or above the level, none while disabled"; a call that changes the value restores both |
| `SelfLogging.SetLevelConsistent` | NLogConfig/SettingsHelper.cs:249-274 | the level setter keeps the same invariant; a call that changes the level restores it unless it sets Off while disabled |
| `SelfLogging.DisabledOffKeepsRule` | NLogConfig/SettingsHelper.cs:259-263 | setting Off while disabled only records the level: the rule and the rebuild count stay |
| `SelfLogging.SetEnabledRebuildsOnce` | NLogConfig/SettingsHelper.cs:209-234 | with the internal rule present, the call succeeds and requests one rebuild iff it changes the value |
| `SelfLogging.SetLevelRebuildsOnce` | NLogConfig/SettingsHelper.cs:249-274 | with the internal rule present, the call succeeds and requests one rebuild iff it changes the level, except Off while disabled, which requests none |
| `SelfLogging.MissingRuleFails` | NLogConfig/SettingsHelper.cs:226-230 | without the internal rule, an IsNLogConfigLogEnabled assignment that changes the value fails with KeyNotFound after the field is assigned and requests no rebuild |
| `SelfLogging.SetEnabledKeepsRulePresence` | NLogConfig/SettingsHelper.cs:209-234 | the enabled setter never creates or drops the internal rule |
| `SelfLogging.SetLevelKeepsRulePresence` | NLogConfig/SettingsHelper.cs:249-274 | the level setter never creates or drops the internal rule |
| `SelfLogging.RunConsistent` | NLogConfig/SettingsHelper.cs:203-275 | from a consistent state, any sequence of assignments to the two properties, in any order, leaves the state consistent and the rule present or absent as before |
| `SelfLogging.InitialWithLevelsOutOfStep` | NLogConfig/SettingsHelper.cs:473-507 | after initialisation with any level, the state is out of step; assigning false or Off is then a no-op that keeps the levels, while enabling brings the rule in step |
| `Settings.AppendsMissingMembers` | NLogConfig/SettingsHelper.cs:870-874 | after the rule loop the list holds exactly the old rules and the owned ones |
| `Settings.AppendsMissingNoDup` | NLogConfig/SettingsHelper.cs:870-874 | the rule loop never lists a rule twice |
| `Settings.AppendsMissingIdempotent` | NLogConfig/SettingsHelper.cs:855-878 | a second push of the same owned rules appends nothing |
| `Settings.AppendsMissingSingle` | NLogConfig/SettingsHelper.cs:870-874 | pushing one rule that is not listed appends it at the end |
| `Settings.NoDupElemsCount` | NLogConfig/SettingsHelper.cs:870-874 | a rule list without duplicates has as many distinct rules as entries |
| `Settings.AppendStep` | NLogConfig/SettingsHelper.cs:870-874 | one pass of the rule loop keeps the reconciliation invariant |
| `Settings.FindRuleName` | NLogConfig/SettingsHelper.cs:783-791 | the result is a key that owns the rule, or "" when no key owns it |
| `Settings.AddMissingTargets` | NLogConfig/SettingsHelper.cs:862-868 | the configuration's targets become the old ones plus every owned target under its name; rules untouched |
| `Settings.AddMissingRules` | NLogConfig/SettingsHelper.cs:870-874 | each owned rule not listed is appended once and nothing else changes |
| `Settings.RemoveOwnedRules` | NLogConfig/SettingsHelper.cs:705-714 | the rule list loses exactly the owned rules, the order of the rest kept |
| `Settings.RemoveOwnedTargets` | NLogConfig/SettingsHelper.cs:724-730 | the targets lose exactly the entries holding an owned target under its key; the rest stay |
| `Settings.EnableEach` | NLogConfig/SettingsHelper.cs:502-505 | fails with IndexOutOfRange iff Off is requested; otherwise the rule enables exactly the requested levels |
| `Settings.SettingsHelper.constructor` | NLogConfig/SettingsHelper.cs:155-158 | a new session is subscribed, owns nothing and caches no configuration |
| `Settings.SettingsHelper.Configuration` | NLogConfig/SettingsHelper.cs:352-360 | returns the cached configuration, else LogManager's (now cached), else a fresh empty one installed in both |
| `Settings.SettingsHelper.RulesMap` | NLogConfig/SettingsHelper.cs:376-382 | returns the owned rules, creating an empty map when null |
| `Settings.SettingsHelper.TargetsMap` | NLogConfig/SettingsHelper.cs:390-396 | returns the owned targets, creating an empty map when null |
| `Settings.SettingsHelper.UpdateConfiguration` | NLogConfig/SettingsHelper.cs:855-878 | the resolved configuration ends with the old targets overridden by the owned ones, name by name, so an owned target replaces another of the same name; its rules are the old rules followed by each owned rule not yet listed, once; one rebuild |
| `Settings.SettingsHelper.AddRule` | NLogConfig/SettingsHelper.cs:653-667 | an owned name fails with DuplicateKey and changes nothing else; otherwise the rule is owned under the name and, unless deferred, pushed; deferred leaves LogManager untouched |
| `Settings.SettingsHelper.AddTarget` | NLogConfig/SettingsHelper.cs:680-694 | the same for targets, keyed by the target's name |
| `Settings.SettingsHelper.GetRule` | NLogConfig/SettingsHelper.cs:748-752 | null iff the name is not owned, otherwise the owned rule; the owned map now exists |
| `Settings.SettingsHelper.GetTarget` | NLogConfig/SettingsHelper.cs:763-767 | null iff the name is not owned, otherwise the owned target, whose name is the key |
| `Settings.SettingsHelper.RemoveRule` | NLogConfig/SettingsHelper.cs:779-807 | NullReference on a null owned map (nothing changes) or a null cache (after the owned key is dropped); else the rule leaves the cached configuration, owned or not, and unless deferred the owned entries are pushed back |
| `Settings.SettingsHelper.RemoveTarget` | NLogConfig/SettingsHelper.cs:819-835 | the resolved configuration drops the name; NullReference when the owned map is null, else the owned map drops it too and, unless deferred, the rest is pushed |
| `Settings.SettingsHelper.RemoveTargetNamed` | NLogConfig/SettingsHelper.cs:847-850 | NullReference on a null owned map, KeyNotFound on an unknown name, both changing nothing; otherwise as RemoveTarget for that name |
| `Settings.SettingsHelper.OnConfigurationChanged` | NLogConfig/SettingsHelper.cs:894-906 | a notification of the configuration already resolved changes nothing; otherwise the session adopts the new one and every owned entry is present in it, one rebuild; a non-null notification leaves LogManager's configuration field as it was when one was resolvable, and the previously cached configuration is left untouched unless it is the one pushed into |
| `Settings.SettingsHelper.Close` | NLogConfig/SettingsHelper.cs:699-737 | unsubscribes; exactly the owned rules and owned targets leave the configuration and others stay; both maps are released; the name leaves InstanceList with one rebuild only when the target map was not null; with nothing owned the configuration is untouched |
| `Settings.SettingsHelper.ReleaseRules` | NLogConfig/SettingsHelper.cs:705-717 | the owned rules leave the configuration and the owned rule map is null after |
| `Settings.SettingsHelper.ReleaseTargets` | NLogConfig/SettingsHelper.cs:724-733 | the owned targets leave the configuration and the owned target map is null after |
| `Settings.SettingsHelper.CloseCorrected` | NLogConfig/SettingsHelper.cs:699-737 | the same teardown, with the name always leaving InstanceList and one rebuild always requested |
| `Settings.Statics.constructor` | NLogConfig/SettingsHelper.cs:87-111 | not initialised, empty directory, self-logging disabled at level Off |
| `Settings.Statics.NewConfiguration` | NLogConfig/SettingsHelper.cs:543-565 | a fresh subscribed session with the given properties is registered under its name, or DuplicateKey with the directory unchanged |
| `Settings.Statics.SetRuleLevel` | NLogConfig/SettingsHelper.cs:582-606 | an unknown application changes nothing; an unknown rule fails with KeyNotFound; otherwise exactly the one level is enabled or disabled (Off fails) |
| `Settings.Statics.SetRuleLoggingLevel` | NLogConfig/SettingsHelper.cs:620-637 | an unknown application or rule fails with KeyNotFound; otherwise the rule enables exactly the levels at or above the threshold |
| `Settings.Statics.InitializeInternalLogging` | NLogConfig/SettingsHelper.cs:473-507 | runs once; registers "NLogConfig" (DuplicateKey if taken); a requested Off fails after the target is owned; otherwise the internal target and rule are registered and pushed with one rebuild |
| `Settings.Statics.AddInternalEntries` | NLogConfig/SettingsHelper.cs:489-507 | the file target is owned under "NLogTarget"; the rule for the class's logger enables exactly the requested levels and is appended to LogManager's configuration |
| `Settings.Statics.SetIsNLogConfigLogEnabled` | NLogConfig/SettingsHelper.cs:203-235 | the new self-logging state and outcome are those of SelfLogging.SetEnabled on the old state |
| `Settings.Statics.SetNLogConfigLogLevel` | NLogConfig/SettingsHelper.cs:243-275 | the new self-logging state and outcome are those of SelfLogging.SetLevel on the old state |
| `Scenarios.DeferredBatch` | NLogConfig/SettingsHelper.cs:653-694 | deferred adds leave LogManager without a configuration and rebuilds; the commit installs exactly the session's target and rule with one rebuild |
| `Scenarios.Commit` | NLogConfig/SettingsHelper.cs:543-565 | registering a session and committing one target and one rule appends exactly those to LogManager's configuration |
| `Scenarios.CloseKeepsOtherSessions` | NLogConfig/SettingsHelper.cs:699-737 | with sessions A (rule r1) and B (rule r2) committed, A.Close leaves r1 and A's target absent and r2, B's target and B's registration present |
| `Scenarios.DuplicateThenRecreate` | NLogConfig/SettingsHelper.cs:563 | a second session under a used name fails with DuplicateKey; after the first, holding a target, is closed, the name is reusable |
| `Scenarios.TargetlessCloseKeepsName` | NLogConfig/SettingsHelper.cs:719-722 | closing a session whose target map was never created leaves it registered, so recreating the name fails |
| `Scenarios.CorrectedCloseFreesName` | NLogConfig/SettingsHelper.cs:734 | with CloseCorrected the same sequence frees the name |
| `Scenarios.ThresholdThenSingleLevel` | NLogConfig/SettingsHelper.cs:597-604 | a threshold of Warn, then Debug enabled alone, leaves exactly Debug, Warn, Error and Fatal |
| `Scenarios.UnknownNames` | NLogConfig/SettingsHelper.cs:590-597 | SetRuleLevel ignores an unknown application; SetRuleLoggingLevel fails on it and SetRuleLevel on an unknown rule, levels unchanged |
| `Scenarios.SelfHeal` | NLogConfig/SettingsHelper.cs:898-905 | a notification of the current configuration changes nothing; after a replacement the session's rule and target are in the replacement |
| `Scenarios.UpdateTwiceIsStable` | NLogConfig/SettingsHelper.cs:862-874 | a second UpdateConfiguration leaves the contents as the first left them |
| `Scenarios.SecondCloseIsNoOp` | NLogConfig/SettingsHelper.cs:705-722 | a second Close requests no rebuild and changes neither the directory nor the rules |
| `Scenarios.EmptyNameRuleComesBack` | NLogConfig/SettingsHelper.cs:783-805 | a rule owned under "" stays owned after RemoveRule and is back in the configuration after the commit |
| `Scenarios.NamedRuleIsRemoved` | NLogConfig/SettingsHelper.cs:783-805 | a rule owned under a real name leaves both the owned map and the configuration |
| `Scenarios.SelfLoggingSwitch` | NLogConfig/SettingsHelper.cs:203-275 | internal logging starts with no level; enabling picks Info and enables Info and above; level Off disables it and clears the rule; a second initialisation does nothing |
| `Scenarios.DisabledSwitchLeavesLevels` | NLogConfig/SettingsHelper.cs:473-507 | after initialising with Debug, the switch reads disabled at Off; assigning false and Off succeeds and Debug stays enabled |
| `Scenarios.ErrorPaths` | NLogConfig/SettingsHelper.cs:653-667 | a duplicate rule name fails; an unknown target name fails with KeyNotFound and GetTarget returns null; null owned maps give NullReference |

## Left out

- Locks (`configLock`) are left out. Every operation runs to completion
  before the next starts.
- The finalizer is left out. `Close` is the only teardown path.
- `GetNameForLogger` and `CreateLogger` walk CLR stack frames, and all
  `settingsHelperLogger` output is diagnostic only. Neither is modelled.
- `ApplicationDataFolder` and `LogFilesPath` are an environment lookup and
  `Path.Combine`. The properties `ApplicationName`, `CompanyName` and
  `LogFilesFolder` are plain fields; their public setters are field writes
  and are not separate methods.
- `IsInternalLoggingInitialized` is a plain read and write of `initialized`.
  It is not a separate method.
- FileTargetFactory.cs is not part of this model. Its file target is
  reduced to a `Target` with the name "NLogTarget", so the layout and path
  are not modelled.
- RuleFactory.cs is reduced to the `LoggingRule` constructor. Its static
  `Rule` field is not modelled.
- LogManager's dispatch is not modelled. `ReconfigExistingLoggers` is a
  rebuild counter.
- `AllTargets` and `ConfiguredNamedTargets` are both the named-target map.
- Events are not modelled. `LogManager` does not raise
  `ConfigurationChanged` in the model, including when the configuration
  getter installs a new configuration. `OnConfigurationChanged` is called
  directly, with the new configuration, on a subscribed session.
  Subscription is a flag.
- Close filters through the getter for every entry. From the first
  evaluation on, the getter returns the same object, so the model calls it
  once before each loop, and only when there is an entry to test.
- Two invariants of a configuration are preconditions, not checked
  behaviour: no rule is listed twice, and every target is under its own name
  (`LoggingConfiguration.Valid`). The helper keeps them for what it adds, but
  code outside the helper could break them. The owned target map keeps its
  invariant (`SettingsHelper.Valid`) through every method.
- The `ArgumentNullException` contracts of `AddTarget` and `RemoveTarget`
  cannot fail: Dafny references are non-null unless declared otherwise.
- SelfLogging.InitialIsConsistent, SelfLogging.RunConsistent: the invariant
  is proved only from consistent states, and the state that
  `InitializeInternalLogging` creates with a level is not one. Until a
  value changes, the switch does not govern the internal rule. The code
  does this as written and the model keeps it.
- Null names and null objects are left out, because Dafny's strings and the
  non-`?` references used here cannot be null. In the code, a null name
  throws in `Dictionary.Add` and `TryGetValue` (563, 658, 685, 751).
  `InitializeInternalLogging(null)` throws NullReference at 502.
  `AddRule(name, null)` succeeds, and `UpdateConfiguration` then appends
  null to `LoggingRules` (873).
- `EnableLoggingForLevel(Off)` failing with an index error reflects how NLog
  stores levels. That code is not part of this model.

## Findings

| source | as written | input that shows it | evidently intended | confidence | as-written member | corrected member |
|---|---|---|---|---|---|---|
| NLogConfig/SettingsHelper.cs:719-722 | `Close` returns when the owned target map is null, before `InstanceList.Remove` and the rebuild | `NewConfiguration("x", …)`, then `Close()` with no target ever added, then `NewConfiguration("x", …)`: the last call fails with DuplicateKey | the name leaves the directory and one rebuild is requested whatever the session held, so a closed name can be reused | medium, not executed | `Scenarios.TargetlessCloseKeepsName` | `Settings.SettingsHelper.CloseCorrected` |

`Settings.SettingsHelper.Close` stays as written and is what the other
scenarios use. `Scenarios.CorrectedCloseFreesName` shows the corrected
teardown freeing the name.
