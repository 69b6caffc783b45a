/** Theorems about every run of the registry and bug operations, starting from
    an empty store. */
module RegressionProtection {
  import opened Wrappers
  import opened BugIds
  import opened BugStore
  import opened FeatureRegistry

  // ------------------------------------------------------------- the streak

  /** PASS results of `key` since its latest FAIL or source change, read off
      the history alone. */
  function PassesSince(actions: seq<Action>, key: string): nat {
    if actions == [] then 0
    else
      var a, before := actions[|actions| - 1], PassesSince(actions[..|actions| - 1], key);
      if a.Record? && a.key == key then if a.passed then before + 1 else 0
      else if a.MarkChanged? && a.key == key then 0
      else before
  }

  predicate FeatureInvariant(f: Feature) {
    && (f.status == Broken ==> f.passes == 0)
    && (f.status == Stable ==> !f.needsRegression)
  }

  ghost predicate RegistryInvariant(features: map<string, Feature>) {
    forall k :: k in features ==> FeatureInvariant(features[k])
  }

  lemma StepKeepsInvariant(s: Qa, a: Action)
    requires RegistryInvariant(s.features)
    ensures RegistryInvariant(Step(s, a).features)
  {
  }

  /** What one step does to the streak of one feature. */
  lemma StreakStep(s: Qa, a: Action, key: string)
    requires RegistryInvariant(s.features)
    ensures var after := Step(s, a).features;
            && (key in s.features ==> key in after)
            && (key in after && !(a.Record? && a.key == key) && !(a.MarkChanged? && a.key == key) ==>
                  after[key].passes == if key in s.features then s.features[key].passes else 0)
            && (a.Record? && a.key == key ==>
                  && key in after
                  && after[key].passes == if !a.passed then 0
                                          else 1 + if key in s.features then s.features[key].passes else 0)
            && (a.MarkChanged? && a.key == key ==> key in after && after[key].passes == 0)
  {
  }

  /** In every interleaving of all operations the stored streak is the one the
      history shows.  The source change that a BROKEN feature ignores is covered
      because BROKEN implies a streak of zero; STABLE implies that no regression
      run is pending. */
  lemma {:induction false} StreakIsExact(actions: seq<Action>, key: string)
    ensures var features := RunFrom(EMPTY, actions).features;
            && RegistryInvariant(features)
            && (if key in features then features[key].passes == PassesSince(actions, key)
                else PassesSince(actions, key) == 0)
  {
    if actions != [] {
      var before, a := actions[..|actions| - 1], actions[|actions| - 1];
      StreakIsExact(before, key);
      StepKeepsInvariant(RunFrom(EMPTY, before), a);
      StreakStep(RunFrom(EMPTY, before), a, key);
      assert RunFrom(EMPTY, actions) == Step(RunFrom(EMPTY, before), a);
      hide Step;
    }
  }

  // -------------------------------------------------------------- promotion

  /** STABLE is entered only when all six conditions hold, whatever the
      operation that enters it. */
  lemma PromotionNeedsEverything(s: Qa, a: Action, key: string)
    requires key in Step(s, a).features && Step(s, a).features[key].status == Stable
    requires key in s.features ==> s.features[key].status != Stable
    ensures Promotable(Step(s, a).features[key], Step(s, a).bugs, key)
    ensures (a.Record? && a.passed) || a.Evaluate? || a.ClearNeedsRegression?
    ensures a.key == key
  {
  }

  // ----------------------------------------------------- the minimum streak

  ghost predicate MinimumHonoured(features: map<string, Feature>) {
    forall k :: k in features && features[k].status == Stable ==> features[k].passes >= features[k].minPasses
  }

  /** The upsert that breaks the promise of STABLE: it sets the minimum of a
      STABLE feature above the streak it has. */
  predicate OutrunsStreak(s: Qa, a: Action) {
    && a.Upsert? && a.key in s.features && s.features[a.key].status == Stable
    && a.minimum.Some? && a.minimum.value > s.features[a.key].passes
  }

  /** A step keeps "STABLE has the minimum streak" exactly when it is not such
      an upsert. */
  lemma MinimumHonouredStep(s: Qa, a: Action)
    requires MinimumHonoured(s.features)
    ensures MinimumHonoured(Step(s, a).features) <==> !OutrunsStreak(s, a)
  {
    if OutrunsStreak(s, a) {
      var f := Step(s, a).features[a.key];
      assert f.status == Stable && f.passes < f.minPasses;
    } else if a.Upsert? {
      var after := Step(s, a).features;
      assert forall k :: k in after && k != a.key ==> after[k] == s.features[k];
    }
  }

  /** No upsert of the run sets the minimum of a feature that is STABLE at the time
      above the streak it has. */
  predicate NeverOutruns(actions: seq<Action>) {
    actions == [] ||
    (NeverOutruns(actions[..|actions| - 1])
     && !OutrunsStreak(RunFrom(EMPTY, actions[..|actions| - 1]), actions[|actions| - 1]))
  }

  ghost predicate AlwaysHonoured(actions: seq<Action>) {
    forall k :: 0 <= k <= |actions| ==> MinimumHonoured(RunFrom(EMPTY, actions[..k]).features)
  }

  /** Over every run: STABLE features have their minimum streak all along if and
      only if no such upsert occurs. */
  lemma {:induction false} MinimumHonouredOverRuns(actions: seq<Action>)
    ensures NeverOutruns(actions) <==> AlwaysHonoured(actions)
    ensures NeverOutruns(actions) ==> MinimumHonoured(RunFrom(EMPTY, actions).features)
  {
    assert actions[..|actions|] == actions;
    if actions == [] {
      assert RunFrom(EMPTY, actions[..0]) == EMPTY;
    } else {
      var before, last := actions[..|actions| - 1], actions[|actions| - 1];
      MinimumHonouredOverRuns(before);
      assert forall k :: 0 <= k <= |before| ==> before[..k] == actions[..k];
      assert before[..|before|] == before;
      assert AlwaysHonoured(actions)
             <==> AlwaysHonoured(before) && MinimumHonoured(RunFrom(EMPTY, actions).features) by {
        hide MinimumHonoured, RunFrom;
      }
      if MinimumHonoured(RunFrom(EMPTY, before).features) {
        MinimumHonouredStep(RunFrom(EMPTY, before), last);
      }
      hide Step, MinimumHonoured, OutrunsStreak;
    }
  }

  // ------------------------------------------------------ a source change

  predicate NeverClears(actions: seq<Action>, key: string) {
    forall i :: 0 <= i < |actions| ==> actions[i] != ClearNeedsRegression(key)
  }

  predicate Pending(features: map<string, Feature>, key: string) {
    key in features && features[key].needsRegression && features[key].status != Stable
  }

  lemma {:induction false} PendingStaysPending(s: Qa, actions: seq<Action>, key: string)
    requires Pending(s.features, key) && NeverClears(actions, key)
    ensures Pending(RunFrom(s, actions).features, key)
    decreases |actions|
  {
    if actions != [] {
      PendingStaysPending(s, actions[..|actions| - 1], key);
    }
  }

  /** Is the source change recorded as a pending regression run? */
  predicate ChangeRegisters(s: Qa, key: string) {
    key !in s.features || s.features[key].status != Broken || s.features[key].needsRegression
  }

  /** After a source change a feature cannot become STABLE before its regression
      run is cleared, provided it was not BROKEN at the time (or already had a
      pending run). */
  lemma ChangeBlocksStable(s: Qa, key: string, actions: seq<Action>)
    requires RegistryInvariant(s.features) && ChangeRegisters(s, key) && NeverClears(actions, key)
    ensures Pending(RunFrom(Step(s, MarkChanged(key)), actions).features, key)
  {
    PendingStaysPending(Step(s, MarkChanged(key)), actions, key);
  }

  /** Only the streak stands between this feature and STABLE. */
  predicate OnlyLacksPasses(f: Feature, bugs: seq<Bug>, key: string) {
    f.testCases != [] && f.sourcePaths != [] && !f.coverageGap && !f.needsRegression && !HasUnresolvedBug(bugs, key)
  }

  function Passes(key: string, testCase: string, n: nat): seq<Action> {
    seq(n, _ => Record(key, testCase, true))
  }

  function PassRuns(key: string, testCase: string, n: nat): seq<TestRun> {
    seq(n, _ => TestRun(key, testCase, true))
  }

  function AfterPasses(f: Feature, n: nat): Feature {
    f.(status := if n == 0 then Broken else if n >= f.minPasses then Stable else Covered, passes := n)
  }

  lemma OneMorePass(s: Qa, key: string, testCase: string, f: Feature, n: nat)
    requires OnlyLacksPasses(f, s.bugs, key)
    requires key in s.features && s.features[key] == AfterPasses(f, n)
    ensures Step(s, Record(key, testCase, true))
         == Qa(s.features[key := AfterPasses(f, n + 1)], s.runs + [TestRun(key, testCase, true)], s.bugs)
  {
    hide HasUnresolvedBug;
  }

  /** The change of a BROKEN feature is forgotten: the feature needs nothing but
      its minimum of PASS results to become STABLE, as if its sources had not
      changed, and nothing else in the store has moved. */
  lemma {:induction false} PassesAloneReachStable(s: Qa, key: string, testCase: string, n: nat)
    requires RegistryInvariant(s.features) && key in s.features && s.features[key].status == Broken
    requires OnlyLacksPasses(s.features[key], s.bugs, key)
    ensures RunFrom(Step(s, MarkChanged(key)), Passes(key, testCase, n))
         == Qa(s.features[key := AfterPasses(s.features[key], n)], s.runs + PassRuns(key, testCase, n), s.bugs)
    ensures n >= 1 && n >= s.features[key].minPasses ==> AfterPasses(s.features[key], n).status == Stable
  {
    if n == 0 {
      assert Passes(key, testCase, 0) == [];
      assert s.runs + PassRuns(key, testCase, 0) == s.runs;
      assert s.features[key].passes == 0;
      assert s.features[key := s.features[key]] == s.features;
    } else {
      var f, runs := s.features[key], s.runs + PassRuns(key, testCase, n - 1);
      PassesAloneReachStable(s, key, testCase, n - 1);
      assert Passes(key, testCase, n)[..n - 1] == Passes(key, testCase, n - 1);
      OneMorePass(Qa(s.features[key := AfterPasses(f, n - 1)], runs, s.bugs), key, testCase, f, n - 1);
      hide Step, OnlyLacksPasses, AfterPasses, RegistryInvariant;
      assert runs + [TestRun(key, testCase, true)] == s.runs + PassRuns(key, testCase, n);
      assert s.features[key := AfterPasses(f, n - 1)][key := AfterPasses(f, n)] == s.features[key := AfterPasses(f, n)];
    }
  }

  function IgnoreFirst(bugs: seq<Bug>, n: nat): seq<Action>
    requires n <= |bugs|
  {
    seq(n, i requires 0 <= i < n => OnBug(Ignore(bugs[i].id)))
  }

  function IgnoredUpTo(bugs: seq<Bug>, n: nat): seq<Bug>
    requires n <= |bugs|
  {
    seq(|bugs|, i requires 0 <= i < |bugs| => if i < n then bugs[i].(status := Ignored) else bugs[i])
  }

  lemma {:induction false} IgnoringAllBugs(s: Qa, n: nat)
    requires TableInvariant(s.bugs) && n <= |s.bugs|
    ensures RunFrom(s, IgnoreFirst(s.bugs, n)) == s.(bugs := IgnoredUpTo(s.bugs, n))
  {
    hide TableInvariant, Apply;
    if n == 0 {
      assert IgnoredUpTo(s.bugs, 0) == s.bugs;
      assert IgnoreFirst(s.bugs, 0) == [];
    } else {
      IgnoringAllBugs(s, n - 1);
      assert IgnoreFirst(s.bugs, n)[..n - 1] == IgnoreFirst(s.bugs, n - 1);
      assert IgnoreFirst(s.bugs, n)[n - 1] == OnBug(Ignore(s.bugs[n - 1].id));
      IgnoreOne(s.bugs, n - 1);
      hide IgnoredUpTo, IgnoreFirst;
    }
  }

  lemma IgnoreOne(bugs: seq<Bug>, k: nat)
    requires TableInvariant(bugs) && k < |bugs|
    ensures Apply(IgnoredUpTo(bugs, k), Ignore(bugs[k].id)) == IgnoredUpTo(bugs, k + 1)
  {
    var now := IgnoredUpTo(bugs, k);
    var i := ById(now, bugs[k].id);
    assert now[k] == bugs[k] && i <= k;
    if i < k {
      assert now[i].id == bugs[i].id;
      IssuedIdsAreDistinct(Ids(bugs), i, k);
    }
    hide TableInvariant, ById;
    assert now[k := bugs[k].(status := Ignored)] == IgnoredUpTo(bugs, k + 1);
  }

  /** The proviso is exact: from a BROKEN feature without a pending run some
      continuation reaches STABLE without ever clearing one, whatever its bugs,
      tests and minimum are. */
  lemma BrokenForgetsChange(s: Qa, key: string) returns (actions: seq<Action>)
    requires TableInvariant(s.bugs) && !ChangeRegisters(s, key)
    ensures NeverClears(actions, key)
    ensures var features := RunFrom(Step(s, MarkChanged(key)), actions).features;
            key in features && features[key].status == Stable
  {
    assert Step(s, MarkChanged(key)) == s;
    hide Step;
    var up := Upsert(key, Some(["a.py"]), Some(["t"]), Some([]), Some(1));
    var ignore, rest := IgnoreFirst(s.bugs, |s.bugs|), [up, CheckGap(key), Record(key, "t", true)];
    actions := ignore + rest;
    IgnoringAllBugs(s, |s.bugs|);
    RunFromConcat(s, ignore, rest);
    NoBugsLeft(s, key, up);
    hide RunFrom, IgnoredUpTo, TableInvariant, IgnoreFirst;
  }

  lemma NoBugsLeft(s: Qa, key: string, up: Action)
    requires up == Upsert(key, Some(["a.py"]), Some(["t"]), Some([]), Some(1))
    requires key in s.features && s.features[key].status == Broken && !s.features[key].needsRegression
    ensures var actions := [up, CheckGap(key), Record(key, "t", true)];
            var features := RunFrom(s.(bugs := IgnoredUpTo(s.bugs, |s.bugs|)), actions).features;
            key in features && features[key].status == Stable
  {
    var s0 := s.(bugs := IgnoredUpTo(s.bugs, |s.bugs|));
    var actions := [up, CheckGap(key), Record(key, "t", true)];
    assert !HasUnresolvedBug(s0.bugs, key);
    var s1 := Step(s0, up);
    var s2 := Step(s1, CheckGap(key));
    assert RunFrom(s0, actions[..2][..1]) == s1 by {
      assert actions[..2][..1] == [up];
      RunOne(s0, up);
    }
    assert RunFrom(s0, actions[..2]) == s2;
    assert RunFrom(s0, actions) == Step(s2, Record(key, "t", true));
  }

  ghost predicate ReachesStable(s: Qa, actions: seq<Action>, key: string) {
    key in RunFrom(s, actions).features && RunFrom(s, actions).features[key].status == Stable
  }

  /** A source change keeps a feature out of STABLE until its regression run is
      cleared, in every continuation, if and only if the change registers. */
  lemma ChangeBlocksExactlyWhenRegistered(s: Qa, key: string)
    requires RegistryInvariant(s.features) && TableInvariant(s.bugs)
    ensures ChangeRegisters(s, key)
            <==> forall actions :: NeverClears(actions, key) ==> !ReachesStable(Step(s, MarkChanged(key)), actions, key)
  {
    if ChangeRegisters(s, key) {
      forall actions | NeverClears(actions, key)
        ensures !ReachesStable(Step(s, MarkChanged(key)), actions, key)
      {
        ChangeBlocksStable(s, key, actions);
      }
    } else {
      var actions := BrokenForgetsChange(s, key);
      assert ReachesStable(Step(s, MarkChanged(key)), actions, key);
    }
  }

  // ----------------------------------------------- verification of a bug fix

  /** What verifying a bug does to the store: a passing verify with a test case
      also attaches the case, counts as a PASS, and clears the pending run. */
  function VerifyActions(s: Qa, id: string, passed: bool, testCase: string, now: nat): seq<Action> {
    var verify := Verify(id, passed, testCase, now);
    if !Accepts(s.bugs, verify) then [OnBug(verify)]
    else
      var feature := s.bugs[ById(s.bugs, id)].feature;
      if !passed || feature == "" || testCase == "" then [OnBug(verify)]
      else [OnBug(verify)] + AttachActions(s, feature, testCase) +
           [Record(feature, testCase, true)] + [ClearNeedsRegression(feature)]
  }

  method VerifyBug(registry: Registry, id: string, passed: bool, testCase: string, now: nat)
    returns (r: Result<Bug, BugStateError>)
    requires registry.Valid()
    modifies registry`features, registry`runs, registry.table
    ensures registry.Valid()
    ensures r.Success? <==> Accepts(old(registry.View()).bugs, Verify(id, passed, testCase, now))
    ensures registry.View()
         == RunFrom(old(registry.View()), VerifyActions(old(registry.View()), id, passed, testCase, now))
  {
    ghost var s := registry.View();
    ghost var verify := Verify(id, passed, testCase, now);
    RunOne(s, OnBug(verify));
    var i := ById(registry.table.rows, id);
    r := registry.table.Transition(Verify(id, passed, testCase, now));
    ghost var s1 := registry.View();
    if r.Success? {
      VerifyKeepsFeature(s.bugs, verify);
      var feature := registry.table.rows[i].feature;
      if passed && feature != "" && testCase != "" {
        registry.AttachRegressionTestCase(feature, testCase);
        ghost var attach := AttachActions(s, feature, testCase);
        RunFromConcat(s, [OnBug(verify)], attach);
        ghost var s2 := registry.View();
        var _ := registry.RecordResult(feature, testCase, Some(true));
        RunOne(s2, Record(feature, testCase, true));
        RunFromConcat(s, [OnBug(verify)] + attach, [Record(feature, testCase, true)]);
        ghost var s3 := registry.View();
        var _ := registry.ClearPendingRegression(feature);
        RunOne(s3, ClearNeedsRegression(feature));
        RunFromConcat(s, [OnBug(verify)] + attach + [Record(feature, testCase, true)], [ClearNeedsRegression(feature)]);
      }
    }
  }

  lemma VerifyKeepsFeature(bugs: seq<Bug>, a: BugAction)
    requires a.Verify? && Accepts(bugs, a)
    ensures var i := ById(bugs, a.id);
            i < |bugs| && |Apply(bugs, a)| == |bugs| && Apply(bugs, a)[i].feature == bugs[i].feature
  {
  }
}
