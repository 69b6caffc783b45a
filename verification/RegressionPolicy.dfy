/** Run planner: FAST / REGRESSION / FULL (`engine/regression_policy.py`). */
module RegressionPolicy {
  import opened Wrappers
  import opened BugStore
  import opened FeatureRegistry
  import opened RegressionProtection

  datatype Mode = FastMode | RegressionMode | FullMode | OtherMode(name: string)

  datatype PlanAction = RunFeature | SkipStable

  datatype Reason =
    | FullRunsEverything | ImpactedBySource | HistoricalCases | UnresolvedRegression
    | BecauseOfStatus(status: FeatureStatus) | NoRelatedChange | NeedsMoreCoverage

  datatype Decision = Decision(feature: string, action: PlanAction, reason: Reason)

  datatype Plan = Plan(mode: Mode, decisions: seq<Decision>, mandatory: set<string>, skipCount: nat, runCount: nat)

  // ---------------------------------------------------------- specification

  predicate BelongsTo(b: Bug, key: string) {
    b.regressionTestCase != "" && b.feature != "" && b.feature == key
  }

  /** The regression test cases that bug history attached to a feature. */
  function HistoryTests(bugs: seq<Bug>, key: string): set<string> {
    set i | 0 <= i < |bugs| && BelongsTo(bugs[i], key) :: bugs[i].regressionTestCase
  }

  predicate HasRegressedBug(bugs: seq<Bug>, key: string) {
    exists i :: 0 <= i < |bugs| && bugs[i].feature == key && key != "" && bugs[i].status == Regression
  }

  /** Does the plan run the feature? */
  predicate Runs(mode: Mode, impacted: set<string>, s: Qa, key: string)
    requires key in s.features
  {
    match mode
    case FullMode => true
    case RegressionMode =>
      || key in impacted
      || HistoryTests(s.bugs, key) != {}
      || HasRegressedBug(s.bugs, key)
      || s.features[key].status != Stable
    case _ => s.features[key].status != Stable
  }

  predicate BringsHistory(mode: Mode, impacted: set<string>, s: Qa, key: string)
    requires key in s.features
  {
    Runs(mode, impacted, s, key) && (mode.FastMode? ==> s.features[key].status != Covered)
  }

  function Mandatory(mode: Mode, impacted: set<string>, s: Qa): set<string> {
    set k, t | k in s.features && BringsHistory(mode, impacted, s, k) && t in HistoryTests(s.bugs, k) :: t
  }

  /** One decision per feature, the right action, the right mandatory tests. */
  ghost predicate PlanFor(plan: Plan, mode: Mode, impacted: set<string>, s: Qa) {
    && plan.mode == mode
    && (forall k :: k in s.features <==> exists i :: 0 <= i < |plan.decisions| && plan.decisions[i].feature == k)
    && (forall i, j :: 0 <= i < j < |plan.decisions| ==> plan.decisions[i].feature != plan.decisions[j].feature)
    && (forall i :: 0 <= i < |plan.decisions| ==> Decides(plan.decisions[i], mode, impacted, s))
    && plan.mandatory == Mandatory(mode, impacted, s)
    && plan.skipCount + plan.runCount == |plan.decisions|
    && plan.runCount == CountRuns(plan.decisions)
  }

  function CountRuns(decisions: seq<Decision>): nat {
    if decisions == [] then 0
    else CountRuns(decisions[..|decisions| - 1]) + if decisions[|decisions| - 1].action == RunFeature then 1 else 0
  }

  ghost predicate Decides(d: Decision, mode: Mode, impacted: set<string>, s: Qa) {
    d.feature in s.features && (d.action == RunFeature <==> Runs(mode, impacted, s, d.feature))
  }

  function Elements(tests: seq<string>): set<string> {
    set t | t in tests
  }

  /** The mandatory tests that a list of features brings along. */
  function BroughtBy(mode: Mode, impacted: set<string>, s: Qa, listed: seq<string>): set<string>
    requires forall i :: 0 <= i < |listed| ==> listed[i] in s.features
  {
    if listed == [] then {}
    else
      var k := listed[|listed| - 1];
      BroughtBy(mode, impacted, s, listed[..|listed| - 1]) +
      if BringsHistory(mode, impacted, s, k) then HistoryTests(s.bugs, k) else {}
  }

  lemma {:induction false} BroughtByMembers(mode: Mode, impacted: set<string>, s: Qa, listed: seq<string>)
    requires forall i :: 0 <= i < |listed| ==> listed[i] in s.features
    ensures forall t :: t in BroughtBy(mode, impacted, s, listed) <==>
              exists i :: 0 <= i < |listed| && BringsHistory(mode, impacted, s, listed[i])
                          && t in HistoryTests(s.bugs, listed[i])
  {
    hide BringsHistory, HistoryTests;
    if listed != [] {
      var init := listed[..|listed| - 1];
      BroughtByMembers(mode, impacted, s, init);
      assert forall i :: 0 <= i < |init| ==> listed[i] == init[i];
    }
  }

  lemma AllBroughtIsMandatory(mode: Mode, impacted: set<string>, s: Qa, listed: seq<string>)
    requires ListsAll(listed, s.features)
    ensures BroughtBy(mode, impacted, s, listed) == Mandatory(mode, impacted, s)
  {
    BroughtByMembers(mode, impacted, s, listed);
    hide BringsHistory, HistoryTests, BroughtBy;
    forall t | t in Mandatory(mode, impacted, s)
      ensures t in BroughtBy(mode, impacted, s, listed)
    {
      var k :| k in s.features && BringsHistory(mode, impacted, s, k) && t in HistoryTests(s.bugs, k);
      assert k in listed;
    }
  }

  // ------------------------------------------------------------ the planner

  ghost predicate CasesFor(out: map<string, seq<string>>, bugs: seq<Bug>, k: string) {
    && (k in out <==> HistoryTests(bugs, k) != {})
    && (k in out ==> NoDuplicates(out[k]) && Elements(out[k]) == HistoryTests(bugs, k))
  }

  function AddCase(out: map<string, seq<string>>, b: Bug): map<string, seq<string>> {
    if b.regressionTestCase == "" || b.feature == "" then out
    else
      var tests := if b.feature in out then out[b.feature] else [];
      out[b.feature := if b.regressionTestCase in tests then tests else tests + [b.regressionTestCase]]
  }

  lemma CaseStep(out: map<string, seq<string>>, bugs: seq<Bug>, i: nat, k: string)
    requires i < |bugs| && CasesFor(out, bugs[..i], k)
    ensures CasesFor(AddCase(out, bugs[i]), bugs[..i + 1], k)
  {
    HistoryGrows(bugs, i, k);
    if BelongsTo(bugs[i], k) {
      AppendNew(if k in out then out[k] else [], bugs[i].regressionTestCase);
    }
  }

  ghost predicate AllCases(out: map<string, seq<string>>, bugs: seq<Bug>) {
    forall k :: CasesFor(out, bugs, k)
  }

  lemma AllCasesStep(out: map<string, seq<string>>, bugs: seq<Bug>, i: nat)
    requires i < |bugs| && AllCases(out, bugs[..i])
    ensures AllCases(AddCase(out, bugs[i]), bugs[..i + 1])
  {
    var longer := bugs[..i + 1];
    forall k
      ensures CasesFor(AddCase(out, bugs[i]), longer, k)
    {
      CaseStep(out, bugs, i, k);
      hide CasesFor, AddCase;
    }
  }

  /** `_regression_test_cases_by_feature`: a list without repetitions for each
      feature that has any. */
  method CasesByFeature(bugs: seq<Bug>) returns (out: map<string, seq<string>>)
    ensures forall k :: CasesFor(out, bugs, k)
  {
    out := map[];
    assert AllCases(out, bugs[..0]);
    hide CasesFor;
    for i := 0 to |bugs|
      invariant AllCases(out, bugs[..i])
    {
      ghost var before := out;
      var tc, feature := bugs[i].regressionTestCase, bugs[i].feature;
      if tc != "" && feature != "" {
        if feature !in out {
          out := out[feature := []];
        }
        if tc !in out[feature] {
          out := out[feature := out[feature] + [tc]];
        }
      }
      assert out == AddCase(before, bugs[i]);
      AllCasesStep(before, bugs, i);
    }
    assert bugs[..|bugs|] == bugs;
  }

  lemma AppendNew(tests: seq<string>, tc: string)
    requires NoDuplicates(tests)
    ensures tc !in tests ==> NoDuplicates(tests + [tc]) && Elements(tests + [tc]) == Elements(tests) + {tc}
    ensures tc in tests ==> Elements(tests) == Elements(tests) + {tc}
    ensures tests == [] ==> Elements(tests) == {}
  {
  }

  lemma HistoryGrows(bugs: seq<Bug>, i: nat, k: string)
    requires i < |bugs|
    ensures HistoryTests(bugs[..i + 1], k) ==
              HistoryTests(bugs[..i], k) + if BelongsTo(bugs[i], k) then {bugs[i].regressionTestCase} else {}
  {
  }

  /** `_features_with_unresolved_regression`. */
  function RegressedFeatures(bugs: seq<Bug>): (r: set<string>)
    ensures forall k :: k in r <==> HasRegressedBug(bugs, k)
  {
    set i | 0 <= i < |bugs| && bugs[i].status == Regression && bugs[i].feature != "" :: bugs[i].feature
  }

  /** The decision for one feature, with the branch structure of `compute_run_plan`.
      The historical-cases reason tests the key against the feature's own cases
      rather than against the features that have any, so it can be off; the
      action is not. */
  function Decide(mode: Mode, impacted: set<string>, cases: map<string, seq<string>>, regressed: set<string>,
                  key: string, status: FeatureStatus): Decision
  {
    var history := if key in cases then cases[key] else [];
    match mode
    case FullMode => Decision(key, RunFeature, FullRunsEverything)
    case RegressionMode =>
      if key in impacted || key in cases || key in regressed || status != Stable then
        Decision(key, RunFeature,
          if key in impacted then ImpactedBySource
          else if key in history then HistoricalCases
          else if key in regressed then UnresolvedRegression
          else BecauseOfStatus(status))
      else Decision(key, SkipStable, NoRelatedChange)
    case _ =>
      if status == Stable then Decision(key, SkipStable, NoRelatedChange)
      else if status != Covered then Decision(key, RunFeature, BecauseOfStatus(status))
      else Decision(key, RunFeature, NeedsMoreCoverage)
  }

  /** The decision runs the feature exactly when the specification says so, and
      carries its history exactly when it should. */
  lemma DecideIsRight(mode: Mode, impacted: set<string>, cases: map<string, seq<string>>, regressed: set<string>,
                      key: string, s: Qa)
    requires key in s.features && !mode.OtherMode?
    requires forall k :: CasesFor(cases, s.bugs, k)
    requires forall k :: k in regressed <==> HasRegressedBug(s.bugs, k)
    ensures var d := Decide(mode, impacted, cases, regressed, key, s.features[key].status);
            && d.feature == key
            && Decides(d, mode, impacted, s)
            && (d.action == RunFeature && d.reason != NeedsMoreCoverage <==> BringsHistory(mode, impacted, s, key))
            && (if key in cases then Elements(cases[key]) else {}) == HistoryTests(s.bugs, key)
  {
    assert CasesFor(cases, s.bugs, key);
    hide HistoryTests, HasRegressedBug;
  }

  lemma OneMoreDecision(mode: Mode, impacted: set<string>, s: Qa, listed: seq<string>, i: nat,
                        decisions: seq<Decision>, d: Decision)
    requires i < |listed| && forall j :: 0 <= j < |listed| ==> listed[j] in s.features
    ensures BroughtBy(mode, impacted, s, listed[..i + 1]) == BroughtBy(mode, impacted, s, listed[..i]) +
              if BringsHistory(mode, impacted, s, listed[i]) then HistoryTests(s.bugs, listed[i]) else {}
    ensures CountRuns(decisions + [d]) == CountRuns(decisions) + if d.action == RunFeature then 1 else 0
  {
    assert (decisions + [d])[..|decisions|] == decisions && listed[..i + 1][..i] == listed[..i];
  }

  method DecideAll(mode: Mode, impacted: set<string>, cases: map<string, seq<string>>, regressed: set<string>,
                   listed: seq<string>, features: map<string, Feature>, ghost s: Qa)
    returns (decisions: seq<Decision>, mandatory: set<string>, skips: nat, runs: nat)
    requires s.features == features && !mode.OtherMode?
    requires forall i :: 0 <= i < |listed| ==> listed[i] in features
    requires forall k :: CasesFor(cases, s.bugs, k)
    requires forall k :: k in regressed <==> HasRegressedBug(s.bugs, k)
    ensures |decisions| == |listed|
    ensures forall i :: 0 <= i < |listed| ==>
              decisions[i].feature == listed[i] && Decides(decisions[i], mode, impacted, s)
    ensures mandatory == BroughtBy(mode, impacted, s, listed)
    ensures skips + runs == |decisions| && runs == CountRuns(decisions)
  {
    hide Mandatory;
    decisions, mandatory, skips, runs := [], {}, 0, 0;
    for i := 0 to |listed|
      invariant |decisions| == i
      invariant forall j :: 0 <= j < i ==> decisions[j].feature == listed[j] && Decides(decisions[j], mode, impacted, s)
      invariant mandatory == BroughtBy(mode, impacted, s, listed[..i])
      invariant skips + runs == i && runs == CountRuns(decisions)
    {
      var key := listed[i];
      DecideIsRight(mode, impacted, cases, regressed, key, s);
      hide Decide, Decides, Runs, BringsHistory, HistoryTests, HasRegressedBug, CasesFor, BroughtBy, CountRuns;
      var d := Decide(mode, impacted, cases, regressed, key, features[key].status);
      OneMoreDecision(mode, impacted, s, listed, i, decisions, d);
      decisions := decisions + [d];
      if d.action == RunFeature {
        runs := runs + 1;
        if d.reason != NeedsMoreCoverage && key in cases {
          mandatory := mandatory + Elements(cases[key]);
        }
      } else {
        skips := skips + 1;
      }
    }
    assert listed[..|listed|] == listed;
  }

  method ComputeRunPlan(registry: Registry, mode: Mode, impactedFeatures: seq<string>)
    returns (r: Result<Plan, string>)
    requires registry.Valid()
    modifies registry`features
    ensures registry.Valid()
    ensures mode.OtherMode? ==> r.Failure? && registry.View() == old(registry.View())
    ensures !mode.OtherMode? ==> registry.View() == Bootstrapped(old(registry.View()))
    ensures !mode.OtherMode? ==>
              r.Success? && PlanFor(r.value, mode, (set x | x in impactedFeatures), registry.View())
  {
    hide Bootstrapped, PlanFor;
    if mode.OtherMode? {
      return Failure(mode.name);
    }
    var listed := registry.ListFeatures();
    var features, bugs := registry.features, registry.table.rows;
    ghost var s := registry.View();
    var cases := CasesByFeature(bugs);
    var regressed := RegressedFeatures(bugs);
    var impacted := set x | x in impactedFeatures;
    var decisions, mandatory, skips, runs := DecideAll(mode, impacted, cases, regressed, listed, features, s);
    r := Success(Plan(mode, decisions, mandatory, skips, runs));
    DecisionsMakeAPlan(r.value, impacted, s, listed);
  }

  lemma DecisionsMakeAPlan(plan: Plan, impacted: set<string>, s: Qa, listed: seq<string>)
    requires ListsAll(listed, s.features) && |plan.decisions| == |listed|
    requires forall i :: 0 <= i < |listed| ==>
               plan.decisions[i].feature == listed[i] && Decides(plan.decisions[i], plan.mode, impacted, s)
    requires plan.mandatory == BroughtBy(plan.mode, impacted, s, listed)
    requires plan.skipCount + plan.runCount == |plan.decisions| && plan.runCount == CountRuns(plan.decisions)
    ensures PlanFor(plan, plan.mode, impacted, s)
  {
    AllBroughtIsMandatory(plan.mode, impacted, s, listed);
    hide Decides, BroughtBy, Mandatory, CountRuns;
    forall k | k in s.features
      ensures exists i :: 0 <= i < |plan.decisions| && plan.decisions[i].feature == k
    {
      assert k in listed;
      var i :| 0 <= i < |listed| && listed[i] == k;
      assert plan.decisions[i].feature == k;
    }
  }

  // --------------------------------------------------------------- theorems

  /** Plans are nested: FAST within REGRESSION within FULL; and every mandatory
      regression test of FULL is already mandatory in REGRESSION. */
  lemma PlansAreNested(s: Qa, impacted: set<string>)
    ensures forall k :: k in s.features && Runs(FastMode, impacted, s, k) ==> Runs(RegressionMode, impacted, s, k)
    ensures forall k :: k in s.features ==> Runs(FullMode, impacted, s, k)
    ensures Mandatory(FastMode, impacted, s) <= Mandatory(RegressionMode, impacted, s)
    ensures Mandatory(RegressionMode, impacted, s) == Mandatory(FullMode, impacted, s)
  {
  }

  /** End to end, over every run: a plan of any mode skips a feature only if no
      regression run is pending for it and, unless an upsert has outrun the streak
      of a STABLE feature, only if it has the minimum number of PASS results since
      its last FAIL or source change.  The REGRESSION mode moreover never skips a
      feature with a regressed bug or with a historical regression test. */
  lemma NoUnearnedSkip(actions: seq<Action>, mode: Mode, impacted: set<string>, key: string)
    requires key in RunFrom(EMPTY, actions).features && !Runs(mode, impacted, RunFrom(EMPTY, actions), key)
    ensures var s := RunFrom(EMPTY, actions);
            && (NeverOutruns(actions) ==> PassesSince(actions, key) >= s.features[key].minPasses)
            && !s.features[key].needsRegression
            && !mode.FullMode?
            && (mode.RegressionMode? ==> key !in impacted && !HasRegressedBug(s.bugs, key)
                                         && HistoryTests(s.bugs, key) == {})
  {
    StreakIsExact(actions, key);
    MinimumHonouredOverRuns(actions);
  }

  /** A failure or a registered source change forces the feature into every plan
      until it has passed often enough again. */
  lemma FailureForcesRuns(actions: seq<Action>, mode: Mode, impacted: set<string>, key: string)
    requires NeverOutruns(actions)
    requires key in RunFrom(EMPTY, actions).features
    requires PassesSince(actions, key) < RunFrom(EMPTY, actions).features[key].minPasses
    ensures Runs(mode, impacted, RunFrom(EMPTY, actions), key)
  {
    if !Runs(mode, impacted, RunFrom(EMPTY, actions), key) {
      NoUnearnedSkip(actions, mode, impacted, key);
      assert false;
    }
  }

  /** A remark: FAST plans do not look at bugs.  No bug operation changes their
      decisions, so a STABLE feature whose bug regresses stays skipped there. */
  lemma FastIgnoresBugs(s: Qa, b: BugAction, impacted: set<string>, key: string)
    requires key in s.features
    ensures Runs(FastMode, impacted, Step(s, OnBug(b)), key) <==> Runs(FastMode, impacted, s, key)
  {
  }
}
