/** Certification policies and the eligibility decision
    (`qualification/policy.py`). */
module CertificationPolicy {
  import opened Wrappers
  import opened Qualification

  datatype Policy = Policy(key: string, version: string, requiredSuites: seq<string>, blockFlakyLayers: seq<string>,
                           maxInvariantFailures: int, requireHil: bool)

  const STRONG_V1 := Policy(
    "MESFLOW_STRONG_V1", "1.0.0",
    ["build_integrity", "critical_unit", "api_contract", "integration", "mes_workflows",
     "ui_critical", "kiosk_emulator", "upgrade", "recovery", "load_soak",
     "test_deployment", "post_deploy_smoke"],
    ["unit", "api", "integration", "workflow", "browser", "kiosk"], 0, true)

  const FAST := Policy(
    "MESFLOW_FAST_V1", "1.1.0",
    ["build_integrity", "critical_unit", "api_contract", "integration",
     "mes_workflows", "ui_critical", "kiosk_emulator"],
    ["unit", "api", "integration", "workflow"], 0, false)

  const STRONG_V2 := Policy(
    "MESFLOW_STRONG_V2", "1.0.0",
    STRONG_V1.requiredSuites + ["offline_burst", "scheduler_reliability", "backup_restore_database",
                                "backup_restore_recovery", "rollback"],
    STRONG_V1.blockFlakyLayers, 0, true)

  const EXTENDED := Policy(
    "MESFLOW_EXTENDED_V1", "1.0.0",
    STRONG_V2.requiredSuites + ["long_running_factory_simulation"],
    STRONG_V2.blockFlakyLayers, 0, true)

  const HIL_SUITE := "esp_hil"

  // ----------------------------------------------------------- the decision

  predicate InPool(db: Db, runs: set<string>, i: nat)
    requires i < |db.suites|
  {
    db.suites[i].run in runs
  }

  /** Row `i` is the latest pooled row of its suite key: ties on the start time
      go to the later row. */
  predicate IsLatest(db: Db, runs: set<string>, i: nat)
    requires i < |db.suites|
  {
    && InPool(db, runs, i)
    && forall j :: 0 <= j < |db.suites| && InPool(db, runs, j) && db.suites[j].key == db.suites[i].key ==>
         db.suites[j].startedAt < db.suites[i].startedAt
         || (db.suites[j].startedAt == db.suites[i].startedAt && j <= i)
  }

  ghost predicate Present(db: Db, runs: set<string>, key: string) {
    exists i :: 0 <= i < |db.suites| && IsLatest(db, runs, i) && db.suites[i].key == key
  }

  ghost predicate PassedLatest(db: Db, runs: set<string>, key: string) {
    exists i :: 0 <= i < |db.suites| && IsLatest(db, runs, i) && db.suites[i].key == key
                && db.suites[i].status == Passed
  }

  predicate FlakyBlocks(p: Policy, s: Suite) {
    s.status == Flaky && s.layer in p.blockFlakyLayers
  }

  function FailureCount(invariants: seq<Invariant>, runs: set<string>): nat {
    if invariants == [] then 0
    else
      var last := invariants[|invariants| - 1];
      FailureCount(invariants[..|invariants| - 1], runs) + if last.run in runs && !last.holds then 1 else 0
  }

  /** What the policy demands of the pooled evidence. */
  ghost predicate Eligible(p: Policy, db: Db, runs: set<string>, hilConfigured: bool) {
    && (forall k :: 0 <= k < |p.requiredSuites| ==> Present(db, runs, p.requiredSuites[k]))
    && (forall i :: 0 <= i < |db.suites| && IsLatest(db, runs, i) ==>
          (db.suites[i].required ==> db.suites[i].status == Passed) && !FlakyBlocks(p, db.suites[i]))
    && FailureCount(db.invariants, runs) <= p.maxInvariantFailures
    && (p.requireHil && hilConfigured ==> PassedLatest(db, runs, HIL_SUITE))
  }

  lemma LatestIsUnique(db: Db, runs: set<string>, i: nat, j: nat)
    requires i < |db.suites| && j < |db.suites| && db.suites[i].key == db.suites[j].key
    requires IsLatest(db, runs, i) && IsLatest(db, runs, j)
    ensures i == j
  {
  }

  datatype Decision = Decision(missing: seq<string>, failed: set<string>, flaky: set<string>,
                               invariantFailures: nat, hilMissing: bool, eligible: bool)

  /** Row `a` sorts before row `b`; the sort is stable. */
  predicate Before(db: Db, a: nat, b: nat)
    requires a < |db.suites| && b < |db.suites|
  {
    db.suites[a].startedAt < db.suites[b].startedAt || (db.suites[a].startedAt == db.suites[b].startedAt && a < b)
  }

  ghost predicate SortedRows(db: Db, order: seq<nat>) {
    && (forall x :: 0 <= x < |order| ==> order[x] < |db.suites|)
    && (forall x, y :: 0 <= x < y < |order| ==> Before(db, order[x], order[y]))
  }

  ghost predicate PooledRows(db: Db, runs: set<string>, order: seq<nat>, n: nat)
    requires n <= |db.suites|
  {
    forall i: nat :: i in order <==> i < n && InPool(db, runs, i)
  }

  /** The pooled rows in order of their start, ties in row order. */
  method SortByStart(db: Db, runs: set<string>) returns (order: seq<nat>)
    ensures SortedRows(db, order) && PooledRows(db, runs, order, |db.suites|)
  {
    order := [];
    for i := 0 to |db.suites|
      invariant SortedRows(db, order) && PooledRows(db, runs, order, i)
    {
      if InPool(db, runs, i) {
        var at: nat := |order|;
        while at > 0 && db.suites[i].startedAt < db.suites[order[at - 1]].startedAt
          invariant at <= |order|
          invariant forall x :: at <= x < |order| ==> db.suites[i].startedAt < db.suites[order[x]].startedAt
        {
          at := at - 1;
        }
        InsertRow(db, runs, order, i, at);
        order := order[..at] + [i] + order[at..];
      }
    }
  }

  lemma InsertRow(db: Db, runs: set<string>, order: seq<nat>, i: nat, at: nat)
    requires i < |db.suites| && at <= |order| && InPool(db, runs, i)
    requires SortedRows(db, order) && PooledRows(db, runs, order, i)
    requires forall x :: at <= x < |order| ==> db.suites[i].startedAt < db.suites[order[x]].startedAt
    requires at > 0 ==> db.suites[order[at - 1]].startedAt <= db.suites[i].startedAt
    ensures SortedRows(db, order[..at] + [i] + order[at..])
    ensures PooledRows(db, runs, order[..at] + [i] + order[at..], i + 1)
  {
    var more := order[..at] + [i] + order[at..];
    forall x | 0 <= x < at
      ensures Before(db, order[x], i)
    {
      assert order[x] in order;
      assert x < at - 1 ==> Before(db, order[x], order[at - 1]);
    }
    InsertKeepsSorted(db, order, i, at);
    hide SortedRows, Before;
    assert order == order[..at] + order[at..];
    assert forall k: nat :: k in more <==> k in order || k == i;
  }

  lemma InsertKeepsSorted(db: Db, order: seq<nat>, i: nat, at: nat)
    requires i < |db.suites| && at <= |order| && SortedRows(db, order)
    requires forall x :: 0 <= x < at ==> Before(db, order[x], i)
    requires forall x :: at <= x < |order| ==> Before(db, i, order[x])
    ensures SortedRows(db, order[..at] + [i] + order[at..])
  {
  }

  /** Later rows overwrite earlier ones with the same key. */
  method LatestRows(db: Db, runs: set<string>) returns (latest: map<string, nat>)
    ensures forall key :: key in latest ==>
              latest[key] < |db.suites| && IsLatest(db, runs, latest[key]) && db.suites[latest[key]].key == key
    ensures forall i :: 0 <= i < |db.suites| && InPool(db, runs, i) ==> db.suites[i].key in latest
  {
    var order := SortByStart(db, runs);
    latest := map[];
    for n := 0 to |order|
      invariant forall key :: key in latest ==>
                  exists x :: 0 <= x < n && order[x] == latest[key] && db.suites[order[x]].key == key
                              && forall y :: x < y < n ==> db.suites[order[y]].key != key
      invariant forall x :: 0 <= x < n ==> db.suites[order[x]].key in latest
    {
      latest := latest[db.suites[order[n]].key := order[n]];
    }
    forall key | key in latest
      ensures latest[key] < |db.suites| && IsLatest(db, runs, latest[key]) && db.suites[latest[key]].key == key
    {
      var x :| 0 <= x < |order| && order[x] == latest[key] && db.suites[order[x]].key == key
               && forall y :: x < y < |order| ==> db.suites[order[y]].key != key;
      LastIsLatest(db, runs, order, x);
    }
    forall i | 0 <= i < |db.suites| && InPool(db, runs, i)
      ensures db.suites[i].key in latest
    {
      assert i in order;
    }
  }

  lemma LastIsLatest(db: Db, runs: set<string>, order: seq<nat>, x: nat)
    requires SortedRows(db, order) && PooledRows(db, runs, order, |db.suites|) && x < |order|
    requires forall y :: x < y < |order| ==> db.suites[order[y]].key != db.suites[order[x]].key
    ensures IsLatest(db, runs, order[x])
  {
  }

  /** The decision, with its reasons: which required suites are missing, which
      latest suites failed or are critically flaky, and whether hardware evidence
      is missing.  It is eligible exactly when the evidence meets the policy. */
  method Decide(p: Policy, db: Db, runs: set<string>, hilConfigured: bool) returns (d: Decision)
    ensures forall key :: key in d.missing <==> key in p.requiredSuites && !Present(db, runs, key)
    ensures forall key :: key in d.failed <==>
              exists i :: 0 <= i < |db.suites| && IsLatest(db, runs, i) && db.suites[i].key == key
                          && db.suites[i].required && db.suites[i].status != Passed
    ensures forall key :: key in d.flaky <==>
              exists i :: 0 <= i < |db.suites| && IsLatest(db, runs, i) && db.suites[i].key == key
                          && FlakyBlocks(p, db.suites[i])
    ensures d.invariantFailures == FailureCount(db.invariants, runs)
    ensures d.hilMissing <==> p.requireHil && hilConfigured && !PassedLatest(db, runs, HIL_SUITE)
    ensures d.eligible <==> Eligible(p, db, runs, hilConfigured)
  {
    var latest := LatestRows(db, runs);
    LatestRowsAreAll(db, runs, latest);
    hide IsLatest, Eligible, FlakyBlocks;
    var missing := [];
    for k := 0 to |p.requiredSuites|
      invariant forall key :: key in missing <==> key in p.requiredSuites[..k] && key !in latest
    {
      assert p.requiredSuites[..k + 1] == p.requiredSuites[..k] + [p.requiredSuites[k]];
      if p.requiredSuites[k] !in latest {
        missing := missing + [p.requiredSuites[k]];
      }
    }
    assert p.requiredSuites[..|p.requiredSuites|] == p.requiredSuites;
    var failed := set key | key in latest && db.suites[latest[key]].required && db.suites[latest[key]].status != Passed;
    var flaky := set key | key in latest && FlakyBlocks(p, db.suites[latest[key]]);
    var failures := FailureCount(db.invariants, runs);
    var hilPassed := HIL_SUITE in latest && db.suites[latest[HIL_SUITE]].status == Passed;
    var hilMissing := p.requireHil && hilConfigured && !hilPassed;
    d := Decision(missing, failed, flaky, failures, hilMissing,
                  missing == [] && failed == {} && flaky == {} && failures <= p.maxInvariantFailures && !hilMissing);
    EligibleByReasons(p, db, runs, latest, d, hilConfigured);
  }

  ghost predicate AllLatest(db: Db, runs: set<string>, latest: map<string, nat>) {
    && (forall key :: key in latest ==>
          latest[key] < |db.suites| && IsLatest(db, runs, latest[key]) && db.suites[latest[key]].key == key)
    && (forall i :: 0 <= i < |db.suites| && IsLatest(db, runs, i) ==>
          db.suites[i].key in latest && latest[db.suites[i].key] == i)
  }

  lemma LatestRowsAreAll(db: Db, runs: set<string>, latest: map<string, nat>)
    requires forall key :: key in latest ==>
               latest[key] < |db.suites| && IsLatest(db, runs, latest[key]) && db.suites[latest[key]].key == key
    requires forall i :: 0 <= i < |db.suites| && InPool(db, runs, i) ==> db.suites[i].key in latest
    ensures AllLatest(db, runs, latest)
  {
  }

  lemma EligibleByReasons(p: Policy, db: Db, runs: set<string>, latest: map<string, nat>, d: Decision,
                          hilConfigured: bool)
    requires AllLatest(db, runs, latest)
    requires forall key :: key in d.missing <==> key in p.requiredSuites && key !in latest
    requires d.failed == set key | key in latest && db.suites[latest[key]].required
             && db.suites[latest[key]].status != Passed
    requires d.flaky == set key | key in latest && FlakyBlocks(p, db.suites[latest[key]])
    requires d.hilMissing <==>
               p.requireHil && hilConfigured && !(HIL_SUITE in latest && db.suites[latest[HIL_SUITE]].status == Passed)
    ensures Eligible(p, db, runs, hilConfigured)
            <==> && d.missing == [] && d.failed == {} && d.flaky == {} && !d.hilMissing
                 && FailureCount(db.invariants, runs) <= p.maxInvariantFailures
  {
    hide IsLatest;
    assert forall key :: Present(db, runs, key) <==> key in latest;
    assert d.missing != [] ==> d.missing[0] in d.missing;
    assert forall k :: 0 <= k < |p.requiredSuites| ==> p.requiredSuites[k] in p.requiredSuites;
    assert d.missing == [] <==> forall k :: 0 <= k < |p.requiredSuites| ==> Present(db, runs, p.requiredSuites[k]);
    forall i | 0 <= i < |db.suites| && IsLatest(db, runs, i)
      ensures db.suites[i].key in d.failed <==> db.suites[i].required && db.suites[i].status != Passed
      ensures db.suites[i].key in d.flaky <==> FlakyBlocks(p, db.suites[i])
    {
      assert latest[db.suites[i].key] == i;
    }
    if key :| key in d.failed {
      assert IsLatest(db, runs, latest[key]);
    }
    if key :| key in d.flaky {
      assert IsLatest(db, runs, latest[key]);
    }
  }

  // ------------------------------------------------------- policies compared

  /** `p` asks for at least everything that `q` asks for. */
  ghost predicate Covers(p: Policy, q: Policy) {
    && (forall k :: 0 <= k < |q.requiredSuites| ==> q.requiredSuites[k] in p.requiredSuites)
    && (forall k :: 0 <= k < |q.blockFlakyLayers| ==> q.blockFlakyLayers[k] in p.blockFlakyLayers)
    && p.maxInvariantFailures <= q.maxInvariantFailures
    && (q.requireHil ==> p.requireHil)
  }

  /** Policies are ordered by what they ask for: evidence that satisfies one
      satisfies every policy it covers, for the same runs and hardware flag. */
  lemma StricterPolicyImplies(p: Policy, q: Policy, db: Db, runs: set<string>, hilConfigured: bool)
    requires Covers(p, q) && Eligible(p, db, runs, hilConfigured)
    ensures Eligible(q, db, runs, hilConfigured)
  {
  }

  lemma PrefixCovers(p: Policy, q: Policy)
    requires q.requiredSuites <= p.requiredSuites && q.blockFlakyLayers == p.blockFlakyLayers
    requires p.maxInvariantFailures == q.maxInvariantFailures && p.requireHil == q.requireHil
    ensures Covers(p, q)
  {
  }

  lemma StrongCoversFast()
    ensures Covers(STRONG_V1, FAST)
  {
  }

  /** The tiers: EXTENDED implies STRONG (V2), which implies STRONG V1, which
      implies FAST. */
  lemma TiersAreOrdered(db: Db, runs: set<string>, hilConfigured: bool)
    ensures Eligible(EXTENDED, db, runs, hilConfigured) ==> Eligible(STRONG_V2, db, runs, hilConfigured)
    ensures Eligible(STRONG_V2, db, runs, hilConfigured) ==> Eligible(STRONG_V1, db, runs, hilConfigured)
    ensures Eligible(STRONG_V1, db, runs, hilConfigured) ==> Eligible(FAST, db, runs, hilConfigured)
  {
    PrefixCovers(EXTENDED, STRONG_V2);
    PrefixCovers(STRONG_V2, STRONG_V1);
    StrongCoversFast();
    hide Eligible, Covers;
    if Eligible(EXTENDED, db, runs, hilConfigured) {
      StricterPolicyImplies(EXTENDED, STRONG_V2, db, runs, hilConfigured);
    }
    if Eligible(STRONG_V2, db, runs, hilConfigured) {
      StricterPolicyImplies(STRONG_V2, STRONG_V1, db, runs, hilConfigured);
    }
    if Eligible(STRONG_V1, db, runs, hilConfigured) {
      StricterPolicyImplies(STRONG_V1, FAST, db, runs, hilConfigured);
    }
  }

  lemma {:induction false} LatestExists(db: Db, runs: set<string>, key: string, n: nat) returns (j: nat)
    requires n <= |db.suites| && exists i :: 0 <= i < n && InPool(db, runs, i) && db.suites[i].key == key
    ensures j < n && InPool(db, runs, j) && db.suites[j].key == key
    ensures forall i :: 0 <= i < n && InPool(db, runs, i) && db.suites[i].key == key ==> i == j || Before(db, i, j)
  {
    j := n - 1;
    if exists i :: 0 <= i < n - 1 && InPool(db, runs, i) && db.suites[i].key == key {
      j := LatestExists(db, runs, key, n - 1);
      if InPool(db, runs, n - 1) && db.suites[n - 1].key == key && Before(db, j, n - 1) {
        j := n - 1;
      }
    }
  }

  lemma PooledIsPresent(db: Db, runs: set<string>, i: nat)
    requires i < |db.suites| && InPool(db, runs, i)
    ensures Present(db, runs, db.suites[i].key)
  {
    var j := LatestExists(db, runs, db.suites[i].key, |db.suites|);
    assert IsLatest(db, runs, j);
  }

  function FreshKey(keys: seq<string>): (unused: string)
    ensures forall k :: 0 <= k < |keys| ==> |keys[k]| < |unused|
  {
    if keys == [] then "" else FreshKey(keys[..|keys| - 1]) + keys[|keys| - 1] + "x"
  }

  /** Passing rows for the given suites, then one more row, and `failures` failed
      invariants, all of one run. */
  function Evidence(keys: seq<string>, extra: Suite, failures: nat): Db {
    Db(map[],
       seq(|keys|, i requires 0 <= i < |keys| => Suite(extra.run, keys[i], "", true, Passed, extra.startedAt))
       + [extra],
       [],
       seq(failures, _ => Invariant(extra.run, "", false)))
  }

  lemma {:induction false} FailuresCounted(keys: seq<string>, extra: Suite, failures: nat)
    ensures FailureCount(Evidence(keys, extra, failures).invariants, {extra.run}) == failures
  {
    if failures > 0 {
      var rows := Evidence(keys, extra, failures).invariants;
      FailuresCounted(keys, extra, failures - 1);
      assert rows[..failures - 1] == Evidence(keys, extra, failures - 1).invariants;
    }
  }

  /** The evidence meets `p` if the extra row does no harm. */
  lemma EvidenceSatisfies(p: Policy, extra: Suite, failures: nat, hilConfigured: bool)
    requires failures <= p.maxInvariantFailures && !(p.requireHil && hilConfigured)
    requires !FlakyBlocks(p, extra) && (extra.required ==> extra.status == Passed)
    ensures Eligible(p, Evidence(p.requiredSuites, extra, failures), {extra.run}, hilConfigured)
  {
    var db, runs := Evidence(p.requiredSuites, extra, failures), {extra.run};
    FailuresCounted(p.requiredSuites, extra, failures);
    hide FailureCount, IsLatest, Present;
    forall k | 0 <= k < |p.requiredSuites|
      ensures Present(db, runs, p.requiredSuites[k])
    {
      PooledIsPresent(db, runs, k);
    }
  }

  lemma ExtraIsLatest(keys: seq<string>, extra: Suite, failures: nat)
    ensures IsLatest(Evidence(keys, extra, failures), {extra.run}, |keys|)
  {
  }

  lemma MissingSuiteDiffers(p: Policy, q: Policy, k: nat) returns (db: Db)
    requires p.maxInvariantFailures >= 0 && k < |q.requiredSuites| && q.requiredSuites[k] !in p.requiredSuites
    ensures Eligible(p, db, {""}, false) && !Eligible(q, db, {""}, false)
  {
    var keys := p.requiredSuites;
    var extra := Suite("", FreshKey(keys + q.requiredSuites), "", true, Passed, 0);
    FreshIsNew(keys, q.requiredSuites, k);
    db := Evidence(keys, extra, 0);
    EvidenceSatisfies(p, extra, 0, false);
    hide FailureCount, FreshKey;
    assert !Present(db, {""}, q.requiredSuites[k]);
  }

  lemma FlakyLayerDiffers(p: Policy, q: Policy, l: nat) returns (db: Db)
    requires p.maxInvariantFailures >= 0 && l < |q.blockFlakyLayers| && q.blockFlakyLayers[l] !in p.blockFlakyLayers
    ensures Eligible(p, db, {""}, false) && !Eligible(q, db, {""}, false)
  {
    var extra := Suite("", "", q.blockFlakyLayers[l], false, Flaky, 0);
    db := Evidence(p.requiredSuites, extra, 0);
    EvidenceSatisfies(p, extra, 0, false);
    ExtraIsLatest(p.requiredSuites, extra, 0);
    hide FailureCount, Present, PassedLatest, IsLatest;
    assert FlakyBlocks(q, db.suites[|p.requiredSuites|]);
  }

  lemma ToleranceDiffers(p: Policy, q: Policy) returns (db: Db)
    requires p.maxInvariantFailures >= 0 && p.maxInvariantFailures > q.maxInvariantFailures
    ensures Eligible(p, db, {""}, false) && !Eligible(q, db, {""}, false)
  {
    var extra := Suite("", "", "", true, Passed, 0);
    db := Evidence(p.requiredSuites, extra, p.maxInvariantFailures);
    EvidenceSatisfies(p, extra, p.maxInvariantFailures, false);
    FailuresCounted(p.requiredSuites, extra, p.maxInvariantFailures);
    hide FailureCount, Present, PassedLatest, IsLatest;
  }

  lemma HardwareDiffers(p: Policy, q: Policy) returns (db: Db)
    requires p.maxInvariantFailures >= 0 && q.requireHil && !p.requireHil
    ensures Eligible(p, db, {""}, true) && !Eligible(q, db, {""}, true)
  {
    var n, extra := |p.requiredSuites|, Suite("", HIL_SUITE, "", false, Blocked, 0);
    db := Evidence(p.requiredSuites, extra, 0);
    EvidenceSatisfies(p, extra, 0, true);
    ExtraIsLatest(p.requiredSuites, extra, 0);
    assert db.suites[n] == extra;
    hide FailureCount, Present, Evidence;
    forall i | 0 <= i < |db.suites| && IsLatest(db, {""}, i) && db.suites[i].key == HIL_SUITE
      ensures db.suites[i].status != Passed
    {
      LatestIsUnique(db, {""}, i, n);
    }
  }

  /** Covering is also necessary: when `p` does not ask for fewer than no invariant
      failures and does not cover `q`, some evidence satisfies `p` and not `q`. */
  lemma UncoveredPolicyDiffers(p: Policy, q: Policy) returns (db: Db, hilConfigured: bool)
    requires p.maxInvariantFailures >= 0 && !Covers(p, q)
    ensures Eligible(p, db, {""}, hilConfigured) && !Eligible(q, db, {""}, hilConfigured)
  {
    hide Eligible;
    hilConfigured := false;
    if k :| 0 <= k < |q.requiredSuites| && q.requiredSuites[k] !in p.requiredSuites {
      db := MissingSuiteDiffers(p, q, k);
    } else if l :| 0 <= l < |q.blockFlakyLayers| && q.blockFlakyLayers[l] !in p.blockFlakyLayers {
      db := FlakyLayerDiffers(p, q, l);
    } else if p.maxInvariantFailures > q.maxInvariantFailures {
      db := ToleranceDiffers(p, q);
    } else {
      hilConfigured := true;
      db := HardwareDiffers(p, q);
    }
  }

  lemma FreshIsNew(keys: seq<string>, others: seq<string>, k: nat)
    requires k < |others|
    ensures FreshKey(keys + others) != others[k]
  {
    assert (keys + others)[|keys| + k] == others[k];
  }

  /** The order on policies is exact. */
  lemma CoversExactlyWhenImplied(p: Policy, q: Policy)
    requires p.maxInvariantFailures >= 0
    ensures Covers(p, q)
            <==> forall db, runs, hil :: Eligible(p, db, runs, hil) ==> Eligible(q, db, runs, hil)
  {
    if Covers(p, q) {
      forall db, runs, hil | Eligible(p, db, runs, hil)
        ensures Eligible(q, db, runs, hil)
      {
        StricterPolicyImplies(p, q, db, runs, hil);
      }
    } else {
      var db, hil := UncoveredPolicyDiffers(p, q);
    }
  }

  // ------------------------------------------------------------ end to end

  lemma {:induction false} FailureCountPositive(invariants: seq<Invariant>, runs: set<string>, i: nat)
    requires i < |invariants| && invariants[i].run in runs && !invariants[i].holds
    ensures FailureCount(invariants, runs) >= 1
  {
    if i < |invariants| - 1 {
      FailureCountPositive(invariants[..|invariants| - 1], runs, i);
    }
  }

  function RunsOf(db: Db, artifact: string): set<string> {
    set id | id in db.runs && db.runs[id].artifact == artifact
  }

  lemma {:induction false} RunsOfArtifactStay(ops: seq<Op>, k: nat, artifact: string)
    requires History(ops) && k <= |ops|
    ensures History(ops[..k]) && RunsOf(After(ops[..k]), artifact) <= RunsOf(After(ops), artifact)
    decreases |ops|
  {
    if k == |ops| {
      assert ops[..k] == ops;
    } else {
      var before := ops[..|ops| - 1];
      RunsOfArtifactStay(before, k, artifact);
      assert before[..k] == ops[..k];
      StepKeepsRunsOf(After(before), ops[|ops| - 1], artifact);
      hide Step, RunsOf;
    }
  }

  lemma StepKeepsRunsOf(db: Db, op: Op, artifact: string)
    requires Possible(db, op)
    ensures RunsOf(db, artifact) <= RunsOf(Step(db, op), artifact)
  {
  }

  /** Once any run of an artifact has a failed invariant, no later run of that
      artifact makes any policy that tolerates none eligible. */
  lemma FailedInvariantBlocksForever(ops: seq<Op>, k: nat, artifact: string, i: nat, p: Policy, hilConfigured: bool)
    requires History(ops) && k <= |ops| && History(ops[..k]) && p.maxInvariantFailures <= 0
    requires i < |After(ops[..k]).invariants| && !After(ops[..k]).invariants[i].holds
    requires After(ops[..k]).invariants[i].run in RunsOf(After(ops[..k]), artifact)
    ensures !Eligible(p, After(ops), RunsOf(After(ops), artifact), hilConfigured)
  {
    RowsStay(ops, k);
    RunsOfArtifactStay(ops, k, artifact);
    FailureCountPositive(After(ops).invariants, RunsOf(After(ops), artifact), i);
    hide FailureCount, After, History;
  }

  /** A scenario that failed, or passed only on a retry, at any time: while its
      suite is the latest row of its key and required, no policy is met. */
  lemma UncleanSuiteNeverCertifies(ops: seq<Op>, k: nat, row: nat, p: Policy, runs: set<string>, hilConfigured: bool)
    requires History(ops) && k <= |ops| && History(ops[..k])
    requires row < |After(ops[..k]).scenarios| && After(ops[..k]).scenarios[row].status in {Failed, Flaky}
    requires After(ops[..k]).scenarios[row].suite < |After(ops).suites|
    requires After(ops).suites[After(ops[..k]).scenarios[row].suite].required
    requires IsLatest(After(ops), runs, After(ops[..k]).scenarios[row].suite)
    ensures !Eligible(p, After(ops), runs, hilConfigured)
  {
    UncleanScenarioIsForever(ops, k, row);
    RowsStay(ops, k);
    assert After(ops).scenarios[row] == After(ops[..k]).scenarios[row];
    hide After, History, IsLatest;
  }

  /** From a driver's answers to the decision: when the first attempt of a
      scenario fails, whatever its retries do, the suite it ran in never meets
      any policy again while it is the latest required row of its key. */
  lemma RetryOnlyPassNeverCertifies(before: seq<Op>, later: seq<Op>, suite: nat, key: string, driverName: string,
                                    driver: Driver, steps: nat, retries: int, keys: seq<string>,
                                    checks: map<string, Outcome>, p: Policy, runs: set<string>, hilConfigured: bool)
    requires retries >= 0 && Attempts(driver, steps, retries).Some? && |Checked(keys, checks)| == |keys|
    requires Attempt(driver, 1, steps) != AllFine
    requires var a := Attempts(driver, steps, retries).value;
             var op := FinishScenario(suite, key, driverName, a, FailingStep(driver, steps, a), Checked(keys, checks));
             && History(before + [op] + later)
             && History(before) && suite < |After(before).suites|
             && suite < |After(before + [op] + later).suites|
             && After(before + [op] + later).suites[suite].required
             && IsLatest(After(before + [op] + later), runs, suite)
    ensures var a := Attempts(driver, steps, retries).value;
            var op := FinishScenario(suite, key, driverName, a, FailingStep(driver, steps, a), Checked(keys, checks));
            !Eligible(p, After(before + [op] + later), runs, hilConfigured)
  {
    var a := Attempts(driver, steps, retries).value;
    var op := FinishScenario(suite, key, driverName, a, FailingStep(driver, steps, a), Checked(keys, checks));
    var ops, k := before + [op] + later, |before| + 1;
    ScenarioPassesExactly(driver, steps, retries, keys, checks);
    AttemptsShape(driver, steps, retries);
    CleanScenarioIsPassed(a, Checked(keys, checks));
    hide Attempts, Attempt, Checked, FailingStep, ScenarioStatus, Eligible, IsLatest, History;
    RowsStay(ops, k);
    assert ops[..k] == before + [op];
    assert (before + [op])[..|before|] == before;
    var row := |After(before).scenarios|;
    assert After(ops[..k]).scenarios[row].status == ScenarioStatus(a, Checked(keys, checks));
    UncleanSuiteNeverCertifies(ops, k, row, p, runs, hilConfigured);
  }

  // ------------------------------------------------------------ the services

  /** Runs asked for that are of this artifact and environment; others are
      ignored. */
  function Scoped(db: Db, requested: set<string>, artifact: string, environment: string): set<string> {
    set id | id in requested && id in db.runs
             && db.runs[id].artifact == artifact && db.runs[id].environment == environment
  }

  /** A certification is keyed by artifact, environment, policy key and version. */
  datatype CertificationKey = CertificationKey(artifact: string, environment: string, policy: string, version: string)

  class CertificationStore {
    var certified: map<CertificationKey, bool>

    constructor ()
      ensures certified == map[]
    {
      certified := map[];
    }

    /** Certifies, or records the failure to: the row holds the latest decision
        and no other row changes. */
    method Evaluate(db: Db, artifact: string, environment: string, requested: set<string>,
                    policy: Option<Policy>, hilConfigured: bool) returns (d: Decision)
      modifies this
      ensures var p := if policy.Some? then policy.value else STRONG_V1;
              var pool := Scoped(db, requested, artifact, environment);
              && (d.eligible <==> Eligible(p, db, pool, hilConfigured))
              && certified == old(certified)[CertificationKey(artifact, environment, p.key, p.version) := d.eligible]
    {
      hide Eligible;
      var p := if policy.Some? then policy.value else STRONG_V1;
      d := Decide(p, db, Scoped(db, requested, artifact, environment), hilConfigured);
      certified := certified[CertificationKey(artifact, environment, p.key, p.version) := d.eligible];
    }
  }

  datatype Tier = FastTier | StrongTier | ExtendedTier

  function TierPolicy(t: Tier): Policy {
    match t
    case FastTier => FAST
    case StrongTier => STRONG_V2
    case ExtendedTier => EXTENDED
  }

  /** The read-only preview pools every run of the artifact; an unknown artifact
      has no evidence and meets no tier. */
  method EvaluateTier(t: Tier, db: Db, artifact: Option<string>, hilConfigured: bool) returns (d: Decision)
    ensures artifact.Some? ==> (d.eligible <==> Eligible(TierPolicy(t), db, RunsOf(db, artifact.value), hilConfigured))
    ensures artifact.None? ==> !d.eligible && forall k :: 0 <= k < |TierPolicy(t).requiredSuites| ==>
                                                TierPolicy(t).requiredSuites[k] in d.missing
  {
    var pool := if artifact.Some? then RunsOf(db, artifact.value) else {};
    d := Decide(TierPolicy(t), db, pool, hilConfigured);
    if artifact.None? {
      assert forall key :: !Present(db, pool, key);
      assert !Present(db, pool, TierPolicy(t).requiredSuites[0]);
    }
  }
}
