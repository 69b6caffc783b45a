/** Feature coverage computed from qualification rows
    (`qualification/coverage.py`). */
module Coverage {
  import opened Wrappers
  import opened Qualification

  datatype Feature = Feature(key: string, critical: bool, requiredLayers: seq<string>, requiredDrivers: seq<string>)

  /** A suite whose passing counts as one layer of evidence for some features. */
  datatype Credit = Credit(suite: string, layer: string, features: seq<string>)

  const SUITE_LAYER_CREDITS := [
    Credit("critical_unit", "unit",
           ["auth.sessions_roles", "sessions.lifecycle", "calendar.shifts", "quality.quantities_rework",
            "scheduling.dependencies_wip"]),
    Credit("build_integrity", "static", ["deployment.version_health"]),
    Credit("recovery", "recovery", ["deployment.version_health"]),
    Credit("upgrade", "migration", ["database.migrations_backup"])]

  datatype State = Uncovered | PartiallyCovered | BlockedByFailure | Covered

  // -------------------------------------------------------------- evidence

  /** Scenario row `i` belongs to the pooled runs and its key starts with the
      feature's. */
  predicate Matching(db: Db, runs: set<string>, f: Feature, i: nat)
    requires i < |db.scenarios|
  {
    var r := db.scenarios[i];
    r.suite < |db.suites| && db.suites[r.suite].run in runs && f.key <= r.key
  }

  predicate SuitePassed(db: Db, runs: set<string>, key: string) {
    exists i :: 0 <= i < |db.suites| && db.suites[i].run in runs && db.suites[i].key == key
                && db.suites[i].status == Passed
  }

  predicate Credited(db: Db, runs: set<string>, credits: seq<Credit>, key: string, layer: string) {
    exists c :: 0 <= c < |credits| && credits[c].layer == layer && key in credits[c].features
                && SuitePassed(db, runs, credits[c].suite)
  }

  predicate ScenarioLayer(db: Db, runs: set<string>, f: Feature, layer: string) {
    exists i :: 0 <= i < |db.scenarios| && Matching(db, runs, f, i) && db.scenarios[i].status == Passed
                && db.suites[db.scenarios[i].suite].layer == layer
  }

  predicate LayerPassed(db: Db, runs: set<string>, credits: seq<Credit>, f: Feature, layer: string) {
    Credited(db, runs, credits, f.key, layer) || ScenarioLayer(db, runs, f, layer)
  }

  predicate DriverPassed(db: Db, runs: set<string>, f: Feature, driver: string) {
    exists i :: 0 <= i < |db.scenarios| && Matching(db, runs, f, i) && db.scenarios[i].status == Passed
                && db.scenarios[i].driver == driver
  }

  predicate IsCovered(db: Db, runs: set<string>, credits: seq<Credit>, f: Feature) {
    && (forall k :: 0 <= k < |f.requiredLayers| ==> LayerPassed(db, runs, credits, f, f.requiredLayers[k]))
    && (forall k :: 0 <= k < |f.requiredDrivers| ==> DriverPassed(db, runs, f, f.requiredDrivers[k]))
  }

  predicate HasFailure(db: Db, runs: set<string>, f: Feature) {
    exists i :: 0 <= i < |db.scenarios| && Matching(db, runs, f, i)
                && db.scenarios[i].status in {Failed, Blocked, Flaky}
  }

  predicate HasEvidence(db: Db, runs: set<string>, credits: seq<Credit>, f: Feature) {
    || (exists i :: 0 <= i < |db.scenarios| && Matching(db, runs, f, i))
    || (exists c :: 0 <= c < |credits| && f.key in credits[c].features && SuitePassed(db, runs, credits[c].suite))
  }

  function StateOf(db: Db, runs: set<string>, credits: seq<Credit>, f: Feature): State {
    if IsCovered(db, runs, credits, f) then Covered
    else if HasFailure(db, runs, f) then BlockedByFailure
    else if HasEvidence(db, runs, credits, f) then PartiallyCovered
    else Uncovered
  }

  // --------------------------------------------------------------- theorems

  function Rank(s: State): nat {
    match s
    case Uncovered => 0
    case PartiallyCovered => 1
    case BlockedByFailure => 2
    case Covered => 3
  }

  /** Evidence only adds up: pooling more runs never lowers the state of a
      feature in the order UNCOVERED, PARTIALLY_COVERED, BLOCKED, COVERED.  So
      COVERED stays COVERED and nothing becomes UNCOVERED. */
  lemma MoreRunsNeverHurt(db: Db, runs: set<string>, more: set<string>, credits: seq<Credit>, f: Feature)
    requires runs <= more
    ensures Rank(StateOf(db, runs, credits, f)) <= Rank(StateOf(db, more, credits, f))
  {
    MoreMatching(db, runs, more, f);
    forall key | SuitePassed(db, runs, key)
      ensures SuitePassed(db, more, key)
    {
    }
    hide Matching, SuitePassed;
    forall layer | LayerPassed(db, runs, credits, f, layer)
      ensures LayerPassed(db, more, credits, f, layer)
    {
    }
    forall driver | DriverPassed(db, runs, f, driver)
      ensures DriverPassed(db, more, f, driver)
    {
    }
    hide LayerPassed, DriverPassed;
    if HasFailure(db, runs, f) {
      var i :| && 0 <= i < |db.scenarios| && Matching(db, runs, f, i)
               && db.scenarios[i].status in {Failed, Blocked, Flaky};
      assert Matching(db, more, f, i);
    }
  }

  lemma MoreMatching(db: Db, runs: set<string>, more: set<string>, f: Feature)
    requires runs <= more
    ensures forall i :: 0 <= i < |db.scenarios| && Matching(db, runs, f, i) ==> Matching(db, more, f, i)
  {
  }

  /** Artifact coverage contains the coverage of each of the artifact's runs. */
  lemma ArtifactCoverageContainsRunCoverage(db: Db, run: string, credits: seq<Credit>, f: Feature)
    requires run in db.runs
    ensures var pool := set id | id in db.runs && db.runs[id].artifact == db.runs[run].artifact;
            Rank(StateOf(db, {run}, credits, f)) <= Rank(StateOf(db, pool, credits, f))
  {
    var pool := set id | id in db.runs && db.runs[id].artifact == db.runs[run].artifact;
    MoreRunsNeverHurt(db, {run}, pool, credits, f);
  }

  /** A suite credit never stands in for a driver: a feature that requires a
      driver is not COVERED unless one of its own scenarios passed through that
      driver, whatever the credit table and the suites say. */
  lemma CreditsNeverSatisfyDrivers(db: Db, runs: set<string>, credits: seq<Credit>, f: Feature, k: nat)
    requires k < |f.requiredDrivers|
    requires forall i :: 0 <= i < |db.scenarios| && Matching(db, runs, f, i)
                         && db.scenarios[i].driver == f.requiredDrivers[k] ==>
               db.scenarios[i].status != Passed
    ensures StateOf(db, runs, credits, f) != Covered
  {
    assert !DriverPassed(db, runs, f, f.requiredDrivers[k]);
  }

  // ----------------------------------------------------------------- report

  datatype Detail = Detail(feature: Feature, missingLayers: set<string>, missingDrivers: set<string>, state: State)

  function DetailOf(db: Db, runs: set<string>, credits: seq<Credit>, f: Feature): Detail {
    Detail(f,
           (set l | l in f.requiredLayers && !LayerPassed(db, runs, credits, f, l)),
           (set r | r in f.requiredDrivers && !DriverPassed(db, runs, f, r)),
           StateOf(db, runs, credits, f))
  }

  method PassedSuites(db: Db, runs: set<string>) returns (passed: set<string>)
    ensures forall key :: key in passed <==> SuitePassed(db, runs, key)
  {
    passed := {};
    for i := 0 to |db.suites|
      invariant forall key :: key in passed <==>
                  exists j :: 0 <= j < i && db.suites[j].run in runs && db.suites[j].key == key
                              && db.suites[j].status == Passed
    {
      if db.suites[i].run in runs && db.suites[i].status == Passed {
        passed := passed + {db.suites[i].key};
      }
    }
  }

  predicate InLayers(layers: map<string, set<string>>, key: string, layer: string) {
    key in layers && layer in layers[key]
  }

  method AddCredit(before: map<string, set<string>>, c: Credit) returns (credited: map<string, set<string>>)
    requires forall key :: key in before ==> before[key] != {}
    ensures forall key, l :: InLayers(credited, key, l) <==>
                               InLayers(before, key, l) || (l == c.layer && key in c.features)
    ensures forall key :: key in credited ==> credited[key] != {}
  {
    credited := before;
    for k := 0 to |c.features|
      invariant forall key, l :: InLayers(credited, key, l) <==>
                  InLayers(before, key, l) || (l == c.layer && key in c.features[..k])
      invariant forall key :: key in credited ==> credited[key] != {}
    {
      ghost var prev := credited;
      var key := c.features[k];
      credited := credited[key := (if key in credited then credited[key] else {}) + {c.layer}];
      assert c.features[..k + 1] == c.features[..k] + [key];
      assert forall other, l :: InLayers(credited, other, l) <==>
                                  InLayers(prev, other, l) || (l == c.layer && other == key);
    }
    assert c.features[..|c.features|] == c.features;
  }

  /** Layers credited to each feature by the suites that passed. */
  method CreditLayers(db: Db, runs: set<string>, credits: seq<Credit>) returns (credited: map<string, set<string>>)
    ensures forall key, l :: InLayers(credited, key, l) <==> Credited(db, runs, credits, key, l)
    ensures forall key :: key in credited ==> credited[key] != {}
  {
    var passed := PassedSuites(db, runs);
    credited := map[];
    for c := 0 to |credits|
      invariant forall key, l :: InLayers(credited, key, l) <==> CreditedBy(credits[..c], passed, key, l)
      invariant forall key :: key in credited ==> credited[key] != {}
    {
      forall key, l
        ensures CreditedBy(credits[..c + 1], passed, key, l)
                <==> CreditedBy(credits[..c], passed, key, l) || GivesCredit(credits[c], passed, key, l)
      {
        assert credits[..c + 1] == credits[..c] + [credits[c]];
        CreditedByNext(credits[..c], credits[c], passed, key, l);
      }
      if credits[c].suite in passed {
        credited := AddCredit(credited, credits[c]);
      }
      hide CreditedBy, InLayers;
    }
    assert credits[..|credits|] == credits;
    forall key, l
      ensures CreditedBy(credits, passed, key, l) <==> Credited(db, runs, credits, key, l)
    {
      CreditsAgree(db, runs, credits, passed, key, l);
    }
    hide CreditedBy, Credited, InLayers;
  }

  lemma CreditsAgree(db: Db, runs: set<string>, credits: seq<Credit>, passed: set<string>, key: string, layer: string)
    requires forall k :: k in passed <==> SuitePassed(db, runs, k)
    ensures CreditedBy(credits, passed, key, layer) <==> Credited(db, runs, credits, key, layer)
  {
  }

  predicate GivesCredit(c: Credit, passed: set<string>, key: string, layer: string) {
    c.layer == layer && key in c.features && c.suite in passed
  }

  predicate CreditedBy(credits: seq<Credit>, passed: set<string>, key: string, layer: string) {
    exists c :: 0 <= c < |credits| && GivesCredit(credits[c], passed, key, layer)
  }

  lemma CreditedByNext(credits: seq<Credit>, c: Credit, passed: set<string>, key: string, layer: string)
    ensures CreditedBy(credits + [c], passed, key, layer)
            <==> CreditedBy(credits, passed, key, layer) || GivesCredit(c, passed, key, layer)
  {
    var more := credits + [c];
    assert more[|credits|] == c;
    if CreditedBy(credits, passed, key, layer) {
      var x :| 0 <= x < |credits| && GivesCredit(credits[x], passed, key, layer);
      assert more[x] == credits[x];
    }
  }

  /** Layers, drivers and failures of the scenarios that match one feature. */
  method MatchRows(db: Db, runs: set<string>, f: Feature)
    returns (layers: set<string>, drivers: set<string>, any: bool, failures: bool)
    ensures forall l :: l in layers <==> ScenarioLayer(db, runs, f, l)
    ensures forall r :: r in drivers <==> DriverPassed(db, runs, f, r)
    ensures any <==> exists i :: 0 <= i < |db.scenarios| && Matching(db, runs, f, i)
    ensures failures <==> HasFailure(db, runs, f)
  {
    layers, drivers, any, failures := {}, {}, false, false;
    for n := 0 to |db.scenarios|
      invariant forall l :: l in layers <==>
                  exists i :: 0 <= i < n && Matching(db, runs, f, i) && db.scenarios[i].status == Passed
                              && db.suites[db.scenarios[i].suite].layer == l
      invariant forall r :: r in drivers <==>
                  exists i :: 0 <= i < n && Matching(db, runs, f, i) && db.scenarios[i].status == Passed
                              && db.scenarios[i].driver == r
      invariant any <==> exists i :: 0 <= i < n && Matching(db, runs, f, i)
      invariant failures <==>
                  exists i :: 0 <= i < n && Matching(db, runs, f, i)
                              && db.scenarios[i].status in {Failed, Blocked, Flaky}
    {
      if Matching(db, runs, f, n) {
        var row := db.scenarios[n];
        any := true;
        if row.status == Passed {
          layers, drivers := layers + {db.suites[row.suite].layer}, drivers + {row.driver};
        }
        failures := failures || row.status in {Failed, Blocked, Flaky};
      }
    }
  }

  method DescribeFeature(db: Db, runs: set<string>, credits: seq<Credit>, credited: map<string, set<string>>,
                         f: Feature)
    returns (d: Detail)
    requires forall key, l :: InLayers(credited, key, l) <==> Credited(db, runs, credits, key, l)
    requires forall key :: key in credited ==> credited[key] != {}
    ensures d == DetailOf(db, runs, credits, f)
  {
    var layers, drivers, any, failures := MatchRows(db, runs, f);
    hide Matching, SuitePassed;
    if f.key in credited {
      layers := layers + credited[f.key];
    }
    assert forall l :: l in layers <==> LayerPassed(db, runs, credits, f, l);
    CreditIsEvidence(db, runs, credits, credited, f);
    var missingLayers := set l | l in f.requiredLayers && l !in layers;
    var missingDrivers := set r | r in f.requiredDrivers && r !in drivers;
    hide LayerPassed, DriverPassed, InLayers, Credited, HasFailure;
    assert missingLayers == {}
           <==> forall k :: 0 <= k < |f.requiredLayers| ==> LayerPassed(db, runs, credits, f, f.requiredLayers[k]) by {
      assert forall k :: 0 <= k < |f.requiredLayers| && f.requiredLayers[k] !in layers ==>
               f.requiredLayers[k] in missingLayers;
    }
    assert missingDrivers == {}
           <==> forall k :: 0 <= k < |f.requiredDrivers| ==> DriverPassed(db, runs, f, f.requiredDrivers[k]) by {
      assert forall k :: 0 <= k < |f.requiredDrivers| && f.requiredDrivers[k] !in drivers ==>
               f.requiredDrivers[k] in missingDrivers;
    }
    var state := if missingLayers == {} && missingDrivers == {} then Covered
                 else if failures then BlockedByFailure
                 else if any || f.key in credited then PartiallyCovered
                 else Uncovered;
    d := Detail(f, missingLayers, missingDrivers, state);
  }

  lemma CreditIsEvidence(db: Db, runs: set<string>, credits: seq<Credit>, credited: map<string, set<string>>,
                         f: Feature)
    requires forall key, l :: InLayers(credited, key, l) <==> Credited(db, runs, credits, key, l)
    requires forall key :: key in credited ==> credited[key] != {}
    ensures f.key in credited <==>
            exists c :: 0 <= c < |credits| && f.key in credits[c].features && SuitePassed(db, runs, credits[c].suite)
  {
    hide SuitePassed;
    if f.key in credited {
      var l :| l in credited[f.key];
      assert InLayers(credited, f.key, l);
    }
    if c :| 0 <= c < |credits| && f.key in credits[c].features && SuitePassed(db, runs, credits[c].suite) {
      assert Credited(db, runs, credits, f.key, credits[c].layer);
      assert InLayers(credited, f.key, credits[c].layer);
    }
  }

  /** One detail per registered feature, in the registry's order. */
  method Report(db: Db, runs: set<string>, features: seq<Feature>, credits: seq<Credit>)
    returns (details: seq<Detail>, covered: nat, critical: nat, criticalCovered: nat)
    ensures |details| == |features|
    ensures forall i :: 0 <= i < |features| ==> details[i] == DetailOf(db, runs, credits, features[i])
    ensures covered == CountState(details, Covered)
    ensures critical == CountCritical(details, false) && criticalCovered == CountCritical(details, true)
  {
    var credited := CreditLayers(db, runs, credits);
    hide InLayers, Credited, IsCovered, StateOf, DetailOf;
    details, covered, critical, criticalCovered := [], 0, 0, 0;
    for n := 0 to |features|
      invariant |details| == n
      invariant forall i :: 0 <= i < n ==> details[i] == DetailOf(db, runs, credits, features[i])
      invariant covered == CountState(details, Covered)
      invariant critical == CountCritical(details, false) && criticalCovered == CountCritical(details, true)
    {
      var d := DescribeFeature(db, runs, credits, credited, features[n]);
      DetailOfFeature(db, runs, credits, features[n]);
      CountOneMore(details, d, Covered);
      assert (details + [d])[..n] == details;
      details := details + [d];
      if d.state == Covered {
        covered := covered + 1;
      }
      if features[n].critical {
        critical := critical + 1;
        if d.state == Covered {
          criticalCovered := criticalCovered + 1;
        }
      }
    }
  }

  lemma DetailOfFeature(db: Db, runs: set<string>, credits: seq<Credit>, f: Feature)
    ensures DetailOf(db, runs, credits, f).feature == f
  {
  }

  /** Critical features, or only the covered ones among them. */
  function CountCritical(details: seq<Detail>, onlyCovered: bool): nat {
    if details == [] then 0
    else
      var last := details[|details| - 1];
      CountCritical(details[..|details| - 1], onlyCovered)
      + if last.feature.critical && (onlyCovered ==> last.state == Covered) then 1 else 0
  }

  /** All critical features are covered exactly when the two counts agree.  (The
      percentage in the report is rounded to one decimal and can say 100.0 before.) */
  lemma {:induction false} FullCriticalCoverage(details: seq<Detail>)
    ensures CountCritical(details, true) <= CountCritical(details, false)
    ensures CountCritical(details, true) == CountCritical(details, false)
            <==> forall i :: 0 <= i < |details| && details[i].feature.critical ==> details[i].state == Covered
  {
    if details != [] {
      FullCriticalCoverage(details[..|details| - 1]);
    }
  }

  // --------------------------------------------------------------- snapshots

  function CountState(details: seq<Detail>, s: State): nat {
    if details == [] then 0
    else CountState(details[..|details| - 1], s) + if details[|details| - 1].state == s then 1 else 0
  }

  lemma CountOneMore(details: seq<Detail>, d: Detail, s: State)
    ensures CountState(details + [d], s) == CountState(details, s) + if d.state == s then 1 else 0
  {
    assert (details + [d])[..|details|] == details;
  }

  /** Every feature is in exactly one state: the four counts add up. */
  lemma {:induction false} CountsAddUp(details: seq<Detail>)
    ensures CountState(details, Covered) + CountState(details, PartiallyCovered)
            + CountState(details, Uncovered) + CountState(details, BlockedByFailure) == |details|
  {
    if details != [] {
      CountsAddUp(details[..|details| - 1]);
    }
  }

  datatype Snapshot = Snapshot(artifact: string, total: nat, covered: nat, partially: nat, uncovered: nat, blocked: nat,
                               criticalCovered: nat, details: seq<Detail>)

  function DetailsOf(db: Db, runs: set<string>, features: seq<Feature>): (details: seq<Detail>)
    ensures |details| == |features|
    ensures forall i :: 0 <= i < |features| ==> details[i] == DetailOf(db, runs, SUITE_LAYER_CREDITS, features[i])
  {
    seq(|features|, i requires 0 <= i < |features| => DetailOf(db, runs, SUITE_LAYER_CREDITS, features[i]))
  }

  /** The coverage of exactly one run, with its counts. */
  function SnapshotOf(db: Db, run: string, features: seq<Feature>): (s: Snapshot)
    requires run in db.runs
    ensures s.total == |features| == s.covered + s.partially + s.uncovered + s.blocked
  {
    var details := DetailsOf(db, {run}, features);
    CountsAddUp(details);
    Snapshot(db.runs[run].artifact, |details|, CountState(details, Covered), CountState(details, PartiallyCovered),
             CountState(details, Uncovered), CountState(details, BlockedByFailure), CountCritical(details, true),
             details)
  }

  /** One call of `snapshot`, with the rows and the registry it found. */
  datatype Taking = Taking(db: Db, run: string, features: seq<Feature>)

  predicate Stores(t: Taking, run: string) {
    t.run == run && run in t.db.runs
  }

  /** The last call that stored a snapshot of `run`. */
  function LastTaking(log: seq<Taking>, run: string): (t: Option<Taking>)
    ensures t.Some? ==> Stores(t.value, run)
  {
    if log == [] then None
    else
      var last := log[|log| - 1];
      if Stores(last, run) then Some(last) else LastTaking(log[..|log| - 1], run)
  }

  lemma LastTakingNext(log: seq<Taking>, t: Taking, run: string)
    ensures LastTaking(log + [t], run) == if Stores(t, run) then Some(t) else LastTaking(log, run)
  {
    assert (log + [t])[..|log|] == log;
  }

  /** Snapshots of other runs, and calls for runs that are unknown by then, do not
      replace it. */
  lemma {:induction false} SnapshotPersists(log: seq<Taking>, t: Taking, later: seq<Taking>, run: string)
    requires Stores(t, run) && forall k :: 0 <= k < |later| ==> !Stores(later[k], run)
    ensures LastTaking(log + [t] + later, run) == Some(t)
    decreases |later|
  {
    hide Stores;
    if later == [] {
      assert log + [t] + later == log + [t];
      LastTakingNext(log, t, run);
    } else {
      var front, last := later[..|later| - 1], later[|later| - 1];
      SnapshotPersists(log, t, front, run);
      assert log + [t] + later == log + [t] + front + [last];
      LastTakingNext(log + [t] + front, last, run);
    }
  }

  function Contents(log: seq<Taking>, run: string): Option<Snapshot> {
    var t := LastTaking(log, run);
    if t.Some? then Some(SnapshotOf(t.value.db, run, t.value.features)) else None
  }

  function Lookup(snapshots: map<string, Snapshot>, run: string): Option<Snapshot> {
    if run in snapshots then Some(snapshots[run]) else None
  }

  /** The stored snapshots are those of the last calls, whatever has become of the
      rows since. */
  ghost predicate Persisted(snapshots: map<string, Snapshot>, log: seq<Taking>) {
    forall run :: Lookup(snapshots, run) == Contents(log, run)
  }

  lemma TakingStores(snapshots: map<string, Snapshot>, log: seq<Taking>, t: Taking)
    requires Persisted(snapshots, log)
    ensures var now := if t.run !in t.db.runs then snapshots
                       else snapshots[t.run := SnapshotOf(t.db, t.run, t.features)];
            Persisted(now, log + [t])
  {
    var after := if t.run in t.db.runs then snapshots[t.run := SnapshotOf(t.db, t.run, t.features)] else snapshots;
    forall run
      ensures Lookup(after, run) == Contents(log + [t], run)
    {
      LastTakingNext(log, t, run);
      hide LastTaking, SnapshotOf;
      assert Lookup(snapshots, run) == Contents(log, run);
    }
  }

  class SnapshotStore {
    var snapshots: map<string, Snapshot>
    ghost var log: seq<Taking>

    ghost predicate Valid()
      reads this
    {
      Persisted(snapshots, log)
    }

    constructor ()
      ensures Valid() && snapshots == map[] && log == []
    {
      snapshots, log := map[], [];
    }

    /** Coverage of exactly one run, stored under that run; nothing is stored for
        an unknown run. */
    method TakeSnapshot(db: Db, run: string, features: seq<Feature>) returns (known: bool)
      requires Valid()
      modifies this
      ensures Valid() && log == old(log) + [Taking(db, run, features)]
      ensures known <==> run in db.runs
      ensures snapshots == if known then old(snapshots)[run := SnapshotOf(db, run, features)] else old(snapshots)
    {
      hide DetailOf, Persisted;
      TakingStores(snapshots, log, Taking(db, run, features));
      log := log + [Taking(db, run, features)];
      if run !in db.runs {
        return false;
      }
      var details, all, critical, criticalCovered := Report(db, {run}, features, SUITE_LAYER_CREDITS);
      assert details == DetailsOf(db, {run}, features);
      var covered, partially, uncovered, blocked := 0, 0, 0, 0;
      for n := 0 to |details|
        invariant covered == CountState(details[..n], Covered)
        invariant partially == CountState(details[..n], PartiallyCovered)
        invariant uncovered == CountState(details[..n], Uncovered)
        invariant blocked == CountState(details[..n], BlockedByFailure)
      {
        assert details[..n + 1][..n] == details[..n];
        match details[n].state
        case Covered => covered := covered + 1;
        case PartiallyCovered => partially := partially + 1;
        case Uncovered => uncovered := uncovered + 1;
        case BlockedByFailure => blocked := blocked + 1;
      }
      assert details[..|details|] == details;
      snapshots := snapshots[run := Snapshot(db.runs[run].artifact, |details|, covered, partially, uncovered, blocked,
                                             criticalCovered, details)];
      known := true;
    }

    /** Reading gives the report that the last snapshot of the run stored, whatever
        has happened to the rows and to other runs since. */
    method ReadSnapshot(run: string) returns (s: Option<Snapshot>)
      requires Valid()
      ensures s == Contents(log, run)
    {
      assert Lookup(snapshots, run) == Contents(log, run);
      s := if run in snapshots then Some(snapshots[run]) else None;
    }
  }
}
