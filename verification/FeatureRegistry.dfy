/** Feature stability registry (`engine/feature_registry.py`).

    `Qa` is the shared metadata store: feature rows, the log of test-case runs
    and the bug rows.  `Action` lists the primitive operations; composite
    operations (declare a behaviour, attach a test case, impact detection, bug
    verification) are sequences of them, so a theorem about every action
    sequence covers every interleaving of all operations. */
module FeatureRegistry {
  import opened Wrappers
  import opened BugStore

  datatype FeatureStatus = New | Covered | Stable | Changed | RegressionRisk | Broken

  datatype Feature = Feature(
    status: FeatureStatus, sourcePaths: seq<string>, testCases: seq<string>, behaviorTags: seq<string>,
    passes: nat, minPasses: int, needsRegression: bool, coverageGap: bool)

  datatype TestRun = TestRun(feature: string, testCase: string, passed: bool)

  datatype Qa = Qa(features: map<string, Feature>, runs: seq<TestRun>, bugs: seq<Bug>)

  datatype Action =
    | Upsert(key: string, sources: Option<seq<string>>, tests: Option<seq<string>>,
             tags: Option<seq<string>>, minimum: Option<int>)
    | CheckGap(key: string)
    | Record(key: string, testCase: string, passed: bool)
    | Evaluate(key: string)
    | MarkChanged(key: string)
    | ClearNeedsRegression(key: string)
    | MarkRegressionRisk(key: string)
    | OnBug(bugAction: BugAction)

  datatype RegistryError = UnknownFeature(key: string) | ResultMustBePassOrFail

  // ------------------------------------------------------- pieces of a step

  function Or<T>(o: Option<T>, default_: T): T {
    match o case Some(v) => v case None => default_
  }

  /** `min_consecutive_passes or 3`: zero counts as absent, but only on insert. */
  function InitialMinimum(minimum: Option<int>): int {
    if minimum == None || minimum == Some(0) then 3 else minimum.value
  }

  function Upserted(features: map<string, Feature>, a: Action): map<string, Feature>
    requires a.Upsert?
  {
    if a.key !in features then
      features[a.key := Feature(New, Or(a.sources, []), Or(a.tests, []), Or(a.tags, []), 0,
                                InitialMinimum(a.minimum), false, false)]
    else
      var f := features[a.key];
      features[a.key := f.(sourcePaths := Or(a.sources, f.sourcePaths), testCases := Or(a.tests, f.testCases),
                           behaviorTags := Or(a.tags, f.behaviorTags), minPasses := Or(a.minimum, f.minPasses))]
  }

  function JustCreate(key: string): Action {
    Upsert(key, None, None, None, None)
  }

  function Ensured(features: map<string, Feature>, key: string): (r: map<string, Feature>)
    ensures key in r
  {
    if key in features then features else Upserted(features, JustCreate(key))
  }

  /** The dot-separated segments of a test-case name. */
  function Segments(name: string): (r: seq<string>)
    ensures |r| >= 1
  {
    if name == "" then [""]
    else
      var rest := Segments(name[1..]);
      if name[0] == '.' then [""] + rest else [[name[0]] + rest[0]] + rest[1..]
  }

  predicate TagCovered(tag: string, tests: seq<string>) {
    exists i :: 0 <= i < |tests| && tag in Segments(tests[i])
  }

  predicate HasGap(f: Feature) {
    exists i :: 0 <= i < |f.behaviorTags| && !TagCovered(f.behaviorTags[i], f.testCases)
  }

  predicate IsUnresolved(status: BugStatus) {
    status == BugStatus.Open || status == Fixing || status == ReadyForVerify || status == Regression
  }

  /** Some bug of the feature is unresolved (an empty key selects every bug). */
  predicate HasUnresolvedBug(bugs: seq<Bug>, key: string) {
    exists i :: 0 <= i < |bugs| && (key == "" || bugs[i].feature == key) && IsUnresolved(bugs[i].status)
  }

  predicate Promotable(f: Feature, bugs: seq<Bug>, key: string) {
    && f.testCases != [] && f.sourcePaths != []
    && f.passes >= f.minPasses
    && !HasUnresolvedBug(bugs, key)
    && !f.coverageGap && !f.needsRegression
  }

  function Evaluated(features: map<string, Feature>, bugs: seq<Bug>, key: string): map<string, Feature>
    requires key in features
  {
    if features[key].status != Stable && Promotable(features[key], bugs, key)
    then features[key := features[key].(status := Stable)]
    else features
  }

  function AfterPass(status: FeatureStatus): FeatureStatus {
    if status == New || status == Broken || status == RegressionRisk then Covered else status
  }

  function Recorded(s: Qa, a: Action): Qa
    requires a.Record?
  {
    var features := Ensured(s.features, a.key);
    var f := features[a.key];
    var runs := s.runs + [TestRun(a.key, a.testCase, a.passed)];
    if !a.passed then
      Qa(features[a.key := f.(status := Broken, passes := 0)], runs, s.bugs)
    else
      var g := f.(status := AfterPass(f.status), passes := f.passes + 1);
      Qa(Evaluated(features[a.key := g], s.bugs, a.key), runs, s.bugs)
  }

  /** The store after an action; an action on an unknown feature that the
      registry refuses leaves the store as it was. */
  function Step(s: Qa, a: Action): Qa {
    match a
    case Upsert(_, _, _, _, _) => s.(features := Upserted(s.features, a))
    case CheckGap(key) =>
      if key !in s.features then s
      else s.(features := s.features[key := s.features[key].(coverageGap := HasGap(s.features[key]))])
    case Record(_, _, _) => Recorded(s, a)
    case Evaluate(key) =>
      if key !in s.features then s else s.(features := Evaluated(s.features, s.bugs, key))
    case MarkChanged(key) =>
      var features := Ensured(s.features, key);
      var f := features[key];
      s.(features := if f.status == Broken then features
                     else features[key := f.(status := Changed, needsRegression := true, passes := 0)])
    case ClearNeedsRegression(key) =>
      if key !in s.features then s
      else
        var features := s.features[key := s.features[key].(needsRegression := false)];
        s.(features := Evaluated(features, s.bugs, key))
    case MarkRegressionRisk(key) =>
      var features := Ensured(s.features, key);
      var f := features[key];
      s.(features := if f.status == Broken || f.status == Changed then features
                     else features[key := f.(status := RegressionRisk)])
    case OnBug(b) => s.(bugs := Apply(s.bugs, b))
  }

  function RunFrom(s: Qa, actions: seq<Action>): Qa {
    if actions == [] then s else Step(RunFrom(s, actions[..|actions| - 1]), actions[|actions| - 1])
  }

  const EMPTY := Qa(map[], [], [])

  lemma {:induction false} RunFromConcat(s: Qa, first: seq<Action>, second: seq<Action>)
    ensures RunFrom(s, first + second) == RunFrom(RunFrom(s, first), second)
    decreases |second|
  {
    if second == [] {
      assert first + second == first;
    } else {
      RunFromConcat(s, first, second[..|second| - 1]);
      assert (first + second)[..|first + second| - 1] == first + second[..|second| - 1];
    }
  }

  lemma RunOne(s: Qa, a: Action)
    ensures RunFrom(s, [a]) == Step(s, a)
  {
    assert [a][..0] == [];
  }

  // ------------------------------------------------------------- composites

  lemma RunCreate(s: Qa, key: string)
    ensures RunFrom(s, CreateActions(s, key)) == s.(features := Ensured(s.features, key))
  {
    RunOne(s, JustCreate(key));
  }

  function CreateActions(s: Qa, key: string): seq<Action> {
    if key in s.features then [] else [JustCreate(key)]
  }

  function AttachActions(s: Qa, key: string, testCase: string): seq<Action> {
    var tests := if key in s.features then s.features[key].testCases else [];
    CreateActions(s, key) +
    if testCase in tests then [] else [Upsert(key, None, Some(tests + [testCase]), None, None)]
  }

  function DeclareActions(s: Qa, key: string, tag: string): seq<Action> {
    var tags := if key in s.features then s.features[key].behaviorTags else [];
    CreateActions(s, key) +
    (if tag in tags then [] else [Upsert(key, None, None, Some(tags + [tag]), None)]) +
    [CheckGap(key)]
  }

  predicate Touches(f: Feature, changedFiles: set<string>) {
    exists i :: 0 <= i < |f.sourcePaths| && f.sourcePaths[i] in changedFiles
  }

  /** The listed features that map a changed file, in order. */
  function Touched(features: map<string, Feature>, listed: seq<string>, changedFiles: set<string>): seq<string>
    requires forall i :: 0 <= i < |listed| ==> listed[i] in features
  {
    if listed == [] then []
    else
      var k := listed[|listed| - 1];
      Touched(features, listed[..|listed| - 1], changedFiles) +
      if Touches(features[k], changedFiles) then [k] else []
  }

  function MarkAllChanged(keys: seq<string>): (r: seq<Action>)
    ensures |r| == |keys| && forall i :: 0 <= i < |r| ==> r[i] == MarkChanged(keys[i])
  {
    seq(|keys|, i requires 0 <= i < |keys| => MarkChanged(keys[i]))
  }

  const BOOTSTRAP: seq<Action> := [
    Upsert("dashboard.production_overview",
           Some(["app/mesflow/web/analytics.py", "app/mesflow/db/repositories/analytics.py"]),
           Some(["ui.dashboard.production_overview", "api.dashboard.summary"]),
           Some(["po_totals", "active_sessions", "open_critical_events"]), None),
    Upsert("session.finish",
           Some(["app/mesflow/web/execution.py", "app/mesflow/db/repositories/execution.py"]),
           Some(["session.finish.normal", "session.finish.zero_qty", "session.finish.defect"]),
           Some(["normal", "zero_qty", "defect"]), None)]

  function Bootstrapped(s: Qa): Qa {
    if s.features == map[] then RunFrom(s, BOOTSTRAP) else s
  }

  // ----------------------------------------------------------- the registry

  class Registry {
    var features: map<string, Feature>
    var runs: seq<TestRun>
    const table: BugTable

    ghost predicate Valid()
      reads this, table
    {
      table.Valid()
    }

    ghost function View(): Qa
      reads this, table
    {
      Qa(features, runs, table.rows)
    }

    constructor (table: BugTable)
      requires table.Valid()
      ensures this.table == table && Valid()
      ensures View() == Qa(map[], [], table.rows)
    {
      this.table := table;
      features, runs := map[], [];
    }

    method UpsertFeature(key: string, sources: Option<seq<string>>, tests: Option<seq<string>>,
                         tags: Option<seq<string>>, minimum: Option<int>)
      returns (f: Feature)
      modifies this`features
      ensures View() == Step(old(View()), Upsert(key, sources, tests, tags, minimum))
      ensures key in features && f == features[key]
    {
      if key !in features {
        var m := 3;
        if minimum.Some? && minimum.value != 0 {
          m := minimum.value;
        }
        f := Feature(New, Or(sources, []), Or(tests, []), Or(tags, []), 0, m, false, false);
      } else {
        f := features[key];
        if sources.Some? {
          f := f.(sourcePaths := sources.value);
        }
        if tests.Some? {
          f := f.(testCases := tests.value);
        }
        if tags.Some? {
          f := f.(behaviorTags := tags.value);
        }
        if minimum.Some? {
          f := f.(minPasses := minimum.value);
        }
      }
      features := features[key := f];
    }

    method GetOrCreate(key: string) returns (f: Feature)
      modifies this`features
      ensures features == Ensured(old(features), key) && f == features[key]
    {
      if key in features {
        f := features[key];
      } else {
        f := UpsertFeature(key, None, None, None, None);
      }
    }

    method AttachRegressionTestCase(key: string, testCase: string)
      modifies this`features
      ensures View() == RunFrom(old(View()), AttachActions(old(View()), key, testCase))
      ensures key in features && testCase in features[key].testCases
    {
      ghost var s := View();
      var feature := GetOrCreate(key);
      RunCreate(s, key);
      ghost var t := View();
      var tests := feature.testCases;
      if testCase !in tests {
        tests := tests + [testCase];
        var _ := UpsertFeature(key, None, Some(tests), None, None);
        RunOne(t, Upsert(key, None, Some(tests), None, None));
        RunFromConcat(s, CreateActions(s, key), [Upsert(key, None, Some(tests), None, None)]);
      }
    }

    method CheckCoverageGap(key: string) returns (r: Result<Feature, RegistryError>)
      modifies this`features
      ensures View() == Step(old(View()), CheckGap(key))
      ensures r == if key in old(features) then Success(features[key]) else Failure(UnknownFeature(key))
    {
      if key !in features {
        return Failure(UnknownFeature(key));
      }
      var f := features[key];
      var gap := false;
      for i := 0 to |f.behaviorTags|
        invariant gap <==> exists j :: 0 <= j < i && !TagCovered(f.behaviorTags[j], f.testCases)
      {
        if !TagCovered(f.behaviorTags[i], f.testCases) {
          gap := true;
        }
      }
      features := features[key := f.(coverageGap := gap)];
      r := Success(features[key]);
    }

    method DeclareBehavior(key: string, tag: string) returns (r: Result<Feature, RegistryError>)
      modifies this`features
      ensures View() == RunFrom(old(View()), DeclareActions(old(View()), key, tag))
      ensures r.Success? && key in features && r.value == features[key] && tag in r.value.behaviorTags
      ensures r.value.coverageGap == HasGap(r.value)
    {
      ghost var s := View();
      var feature := GetOrCreate(key);
      RunCreate(s, key);
      ghost var t, extend := View(), [];
      var tags := feature.behaviorTags;
      if tag !in tags {
        tags := tags + [tag];
        var _ := UpsertFeature(key, None, None, Some(tags), None);
        extend := [Upsert(key, None, None, Some(tags), None)];
        RunOne(t, extend[0]);
      }
      ghost var u := View();
      RunFromConcat(s, CreateActions(s, key), extend);
      r := CheckCoverageGap(key);
      RunOne(u, CheckGap(key));
      RunFromConcat(s, CreateActions(s, key) + extend, [CheckGap(key)]);
    }

    /** `evaluate_stability`: the only promotion to STABLE. */
    method EvaluateStability(key: string) returns (r: Result<Feature, RegistryError>)
      modifies this`features
      ensures View() == Step(old(View()), Evaluate(key))
      ensures r == if key in old(features) then Success(features[key]) else Failure(UnknownFeature(key))
    {
      if key !in features {
        return Failure(UnknownFeature(key));
      }
      var f := features[key];
      if f.status == Stable {
        return Success(f);
      }
      var unresolved := false;
      for i := 0 to |table.rows|
        invariant unresolved <==> exists j :: 0 <= j < i && (key == "" || table.rows[j].feature == key)
                                              && IsUnresolved(table.rows[j].status)
      {
        if (key == "" || table.rows[i].feature == key) && IsUnresolved(table.rows[i].status) {
          unresolved := true;
        }
      }
      if f.testCases != [] && f.sourcePaths != [] && f.passes >= f.minPasses && !unresolved
         && !f.coverageGap && !f.needsRegression {
        features := features[key := f.(status := Stable)];
      }
      r := Success(features[key]);
    }

    /** `record_result`; the argument is None for a result that is neither PASS
        nor FAIL once upper-cased. */
    method RecordResult(key: string, testCase: string, passed: Option<bool>) returns (r: Result<Feature, RegistryError>)
      modifies this`features, this`runs
      ensures passed.None? ==> r == Failure(ResultMustBePassOrFail) && View() == old(View())
      ensures passed.Some? ==> View() == Step(old(View()), Record(key, testCase, passed.value))
      ensures passed.Some? ==> key in features && r == Success(features[key])
    {
      if passed.None? {
        return Failure(ResultMustBePassOrFail);
      }
      var feature := GetOrCreate(key);
      runs := runs + [TestRun(key, testCase, passed.value)];
      if !passed.value {
        features := features[key := feature.(passes := 0, status := Broken)];
        return Success(features[key]);
      }
      var newStatus := feature.status;
      if newStatus == New || newStatus == Broken || newStatus == RegressionRisk {
        newStatus := Covered;
      }
      features := features[key := feature.(passes := feature.passes + 1, status := newStatus)];
      r := EvaluateStability(key);
    }

    method MarkFeatureChanged(key: string)
      modifies this`features
      ensures View() == Step(old(View()), MarkChanged(key))
    {
      var feature := GetOrCreate(key);
      if feature.status == Broken {
        return;
      }
      features := features[key := feature.(status := Changed, needsRegression := true, passes := 0)];
    }

    method ClearPendingRegression(key: string) returns (r: Result<Feature, RegistryError>)
      modifies this`features
      ensures View() == Step(old(View()), ClearNeedsRegression(key))
      ensures r == if key in old(features) then Success(features[key]) else Failure(UnknownFeature(key))
    {
      if key in features {
        features := features[key := features[key].(needsRegression := false)];
      }
      r := EvaluateStability(key);
    }

    method MarkRisk(key: string)
      modifies this`features
      ensures View() == Step(old(View()), MarkRegressionRisk(key))
    {
      var feature := GetOrCreate(key);
      if feature.status == Broken || feature.status == Changed {
        return;
      }
      features := features[key := feature.(status := RegressionRisk)];
    }

    /** `list_features`: bootstraps an empty registry and lists every feature
        once (the order is the database's and is left open). */
    method ListFeatures() returns (listed: seq<string>)
      modifies this`features
      ensures View() == Bootstrapped(old(View()))
      ensures ListsAll(listed, features)
    {
      if |features| == 0 {
        ghost var s := View();
        var a, b := BOOTSTRAP[0], BOOTSTRAP[1];
        var _ := UpsertFeature(a.key, a.sources, a.tests, a.tags, a.minimum);
        var _ := UpsertFeature(b.key, b.sources, b.tests, b.tags, b.minimum);
        RunOne(s, a);
        assert BOOTSTRAP[..1] == [a];
      }
      listed := [];
      var rest := features.Keys;
      while rest != {}
        invariant forall k :: k in listed <==> k in features && k !in rest
        invariant NoDuplicates(listed)
        invariant rest <= features.Keys
        decreases rest
      {
        var k :| k in rest;
        rest := rest - {k};
        listed := listed + [k];
      }
    }

    /** `compute_impact`; the argument is None when the diff itself fails. */
    method ComputeImpact(diff: Option<set<string>>) returns (impacted: Option<seq<string>>)
      modifies this`features
      ensures diff.None? ==> impacted.None? && View() == old(View())
      ensures diff.Some? ==> impacted.Some? && ImpactOf(Bootstrapped(old(View())), diff.value, impacted.value)
      ensures diff.Some? ==> View() == RunFrom(Bootstrapped(old(View())), MarkAllChanged(impacted.value))
    {
      if diff.None? {
        return None;
      }
      var listed := ListFeatures();
      ghost var s := View();
      var snapshot := features;
      var touched: seq<string> := [];
      for i := 0 to |listed|
        invariant touched == Touched(snapshot, listed[..i], diff.value)
        invariant View() == RunFrom(s, MarkAllChanged(touched))
      {
        assert listed[..i + 1][..i] == listed[..i];
        if Touches(snapshot[listed[i]], diff.value) {
          MarkFeatureChanged(listed[i]);
          assert MarkAllChanged(touched + [listed[i]])[..|touched|] == MarkAllChanged(touched);
          touched := touched + [listed[i]];
        }
      }
      assert listed[..|listed|] == listed;
      TouchedIsExact(s.features, listed, diff.value);
      return Some(touched);
    }
  }

  ghost predicate NoDuplicates(keys: seq<string>) {
    forall i, j :: 0 <= i < j < |keys| ==> keys[i] != keys[j]
  }

  ghost predicate ListsAll(listed: seq<string>, features: map<string, Feature>) {
    && (forall k :: k in listed <==> k in features)
    && NoDuplicates(listed)
  }

  /** Exactly the features with a touched source, each once. */
  ghost predicate ImpactOf(s: Qa, changedFiles: set<string>, impacted: seq<string>) {
    && (forall k :: k in impacted <==> k in s.features && Touches(s.features[k], changedFiles))
    && NoDuplicates(impacted)
  }

  lemma {:induction false} TouchedIsExact(features: map<string, Feature>, listed: seq<string>,
                                          changedFiles: set<string>)
    requires forall i :: 0 <= i < |listed| ==> listed[i] in features
    ensures forall k :: k in Touched(features, listed, changedFiles) <==>
                          k in listed && Touches(features[k], changedFiles)
    ensures NoDuplicates(listed) ==>
              NoDuplicates(Touched(features, listed, changedFiles))
  {
    if listed != [] {
      var init, last := listed[..|listed| - 1], listed[|listed| - 1];
      TouchedIsExact(features, init, changedFiles);
      assert listed == init + [last];
      if NoDuplicates(listed) {
        assert forall i :: 0 <= i < |init| ==> listed[i] == init[i] && listed[i] != listed[|init|];
        assert last !in init;
      }
    }
  }
}
