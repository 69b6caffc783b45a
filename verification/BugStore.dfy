/** Bug Center persistence (`engine/bug_store.py`): de-duplication by
    fingerprint, occurrence counting, and the verify-before-resolve lifecycle.

    The table is a sequence of rows in insertion order; rows are never deleted.
    The fingerprint is computed by the caller and is uninterpreted here. */
module BugStore {
  import opened Wrappers
  import opened BugIds

  datatype BugStatus = Open | Fixing | ReadyForVerify | Resolved | Regression | Ignored

  datatype VerifyResult = NotVerified | VerifyPass | VerifyFail

  datatype Evidence = Evidence(data: string, fingerprint: string)

  datatype Bug = Bug(
    id: string, fingerprint: string, feature: string, severity: string, status: BugStatus,
    url: string, api: string, evidence: seq<Evidence>, runId: string, occurrences: nat,
    regressionTestCase: string, verifyResult: VerifyResult, resolvedAt: Option<nat>)

  const MAX_EVIDENCE_HISTORY := 10

  datatype BugAction =
    | Report(fingerprint: string, feature: string, severity: string, url: string, api: string,
             data: string, runId: string, today: Stamp)
    | MarkFixing(id: string)
    | MarkReadyForVerify(id: string)
    | Verify(id: string, passed: bool, testCase: string, now: nat)
    | Ignore(id: string)

  datatype BugStateError = UnknownBug(id: string) | WrongStatus(id: string, status: BugStatus)

  // ------------------------------------------------- the table as a value

  function Ids(bugs: seq<Bug>): (ids: seq<string>)
    ensures |ids| == |bugs| && forall i :: 0 <= i < |ids| ==> ids[i] == bugs[i].id
  {
    seq(|bugs|, i requires 0 <= i < |bugs| => bugs[i].id)
  }

  /** Position of the first row with this fingerprint, or the table's length. */
  function ByFingerprint(bugs: seq<Bug>, fingerprint: string): (i: nat)
    ensures i <= |bugs|
    ensures i < |bugs| ==> bugs[i].fingerprint == fingerprint
    ensures forall j :: 0 <= j < i ==> bugs[j].fingerprint != fingerprint
  {
    if bugs == [] then 0
    else if bugs[0].fingerprint == fingerprint then 0
    else 1 + ByFingerprint(bugs[1..], fingerprint)
  }

  function ById(bugs: seq<Bug>, id: string): (i: nat)
    ensures i <= |bugs|
    ensures i < |bugs| ==> bugs[i].id == id
    ensures forall j :: 0 <= j < i ==> bugs[j].id != id
  {
    if bugs == [] then 0
    else if bugs[0].id == id then 0
    else 1 + ById(bugs[1..], id)
  }

  function LastN<T>(s: seq<T>, n: nat): seq<T> {
    if |s| <= n then s else s[|s| - n..]
  }

  /** `COALESCE(NULLIF(new, ''), old)`. */
  function Coalesce(new_: string, old_: string): string {
    if new_ != "" then new_ else old_
  }

  function EvidenceOf(a: BugAction): Evidence
    requires a.Report?
  {
    Evidence(a.data, a.fingerprint)
  }

  function FirstSeen(a: BugAction, id: string): Bug
    requires a.Report?
  {
    Bug(id, a.fingerprint, a.feature, a.severity, Open, a.url, a.api, [EvidenceOf(a)], a.runId, 1,
        "", NotVerified, None)
  }

  /** A known bug is seen again; if it was resolved, it has regressed. */
  function SeenAgain(b: Bug, a: BugAction): Bug
    requires a.Report?
  {
    b.(occurrences := b.occurrences + 1,
       evidence := LastN(b.evidence + [EvidenceOf(a)], MAX_EVIDENCE_HISTORY),
       status := if b.status == Resolved then Regression else b.status,
       runId := a.runId, severity := a.severity,
       url := Coalesce(a.url, b.url), api := Coalesce(a.api, b.api))
  }

  /** The row after a status operation, or nothing when it is out of order. */
  function Moved(b: Bug, a: BugAction): Option<Bug>
    requires !a.Report?
  {
    match a
    case MarkFixing(_) =>
      if b.status == Open || b.status == Regression then Some(b.(status := Fixing)) else None
    case MarkReadyForVerify(_) =>
      if b.status == Fixing then Some(b.(status := ReadyForVerify)) else None
    case Verify(_, passed, testCase, now) =>
      if b.status != ReadyForVerify then None
      else if passed then
        Some(b.(status := Resolved, resolvedAt := Some(now), verifyResult := VerifyPass,
                regressionTestCase := Coalesce(testCase, b.regressionTestCase)))
      else Some(b.(status := Open, verifyResult := VerifyFail))
    case Ignore(_) => Some(b.(status := Ignored))
  }

  /** The table after an action; a refused action leaves it as it was. */
  function Apply(bugs: seq<Bug>, a: BugAction): seq<Bug> {
    if a.Report? then
      var i := ByFingerprint(bugs, a.fingerprint);
      if i == |bugs| then bugs + [FirstSeen(a, NewBugId(Ids(bugs), a.today))]
      else bugs[i := SeenAgain(bugs[i], a)]
    else
      var i := ById(bugs, a.id);
      if i == |bugs| then bugs
      else match Moved(bugs[i], a)
           case Some(b) => bugs[i := b]
           case None => bugs
  }

  predicate Accepts(bugs: seq<Bug>, a: BugAction) {
    a.Report? || (ById(bugs, a.id) < |bugs| && Moved(bugs[ById(bugs, a.id)], a).Some?)
  }

  function Run(actions: seq<BugAction>): seq<Bug> {
    if actions == [] then [] else Apply(Run(actions[..|actions| - 1]), actions[|actions| - 1])
  }

  // ------------------------------------------------------------- the table

  class BugTable {
    var rows: seq<Bug>

    ghost predicate Valid()
      reads this
    {
      TableInvariant(rows)
    }

    constructor ()
      ensures Valid() && rows == []
    {
      rows := [];
    }

    /** `record_bug`: create or de-duplicate.  Inserting never meets an id
        that is already taken. */
    method RecordBug(fingerprint: string, feature: string, severity: string, url: string, api: string,
                     data: string, runId: string, today: Stamp)
      returns (bug: Bug)
      requires Valid()
      modifies this
      ensures Valid()
      ensures rows == Apply(old(rows), Report(fingerprint, feature, severity, url, api, data, runId, today))
      ensures bug in rows && bug.fingerprint == fingerprint
      ensures |rows| > |old(rows)| ==> bug.id !in Ids(old(rows))
    {
      ghost var a := Report(fingerprint, feature, severity, url, api, data, runId, today);
      ApplyKeepsInvariant(rows, a);
      IssueOneMore(Ids(rows), today);
      var i := ByFingerprint(rows, fingerprint);
      var ev := Evidence(data, fingerprint);
      if i == |rows| {
        var id := NewBugId(Ids(rows), today);
        bug := Bug(id, fingerprint, feature, severity, Open, url, api, [ev], runId, 1, "", NotVerified, None);
        rows := rows + [bug];
      } else {
        var existing := rows[i];
        var history := existing.evidence + [ev];
        if |history| > MAX_EVIDENCE_HISTORY {
          history := history[|history| - MAX_EVIDENCE_HISTORY..];
        }
        var newStatus := existing.status;
        if existing.status == Resolved {
          newStatus := Regression;
        }
        bug := existing.(occurrences := existing.occurrences + 1, evidence := history, status := newStatus,
          runId := runId, severity := severity,
          url := if url != "" then url else existing.url, api := if api != "" then api else existing.api);
        rows := rows[i := bug];
        assert bug == rows[i];
      }
    }

    /** `mark_fixing`, `mark_ready_for_verify`, `verify` and `ignore` share the
        look-up, the status check and the update of one row. */
    method Transition(a: BugAction) returns (r: Result<Bug, BugStateError>)
      requires Valid() && !a.Report?
      modifies this
      ensures Valid()
      ensures rows == Apply(old(rows), a)
      ensures r.Success? <==> Accepts(old(rows), a)
      ensures r.Success? ==> r.value in rows && r.value.id == a.id
    {
      ApplyKeepsInvariant(rows, a);
      var i := ById(rows, a.id);
      if i == |rows| {
        return Failure(UnknownBug(a.id));
      }
      var bug := rows[i];
      match a {
        case MarkFixing(_) =>
          if bug.status != Open && bug.status != Regression {
            return Failure(WrongStatus(bug.id, bug.status));
          }
          bug := bug.(status := Fixing);
        case MarkReadyForVerify(_) =>
          if bug.status != Fixing {
            return Failure(WrongStatus(bug.id, bug.status));
          }
          bug := bug.(status := ReadyForVerify);
        case Verify(_, passed, testCase, now) =>
          if bug.status != ReadyForVerify {
            return Failure(WrongStatus(bug.id, bug.status));
          }
          if passed {
            bug := bug.(status := Resolved, resolvedAt := Some(now), verifyResult := VerifyPass);
            if testCase != "" {
              bug := bug.(regressionTestCase := testCase);
            }
          } else {
            bug := bug.(status := Open, verifyResult := VerifyFail);
          }
        case Ignore(_) =>
          bug := bug.(status := Ignored);
      }
      rows := rows[i := bug];
      assert rows[i] == bug;
      r := Success(bug);
    }
  }

  // ------------------------------------------------------------ invariants

  ghost predicate TableInvariant(bugs: seq<Bug>) {
    && Issued(Ids(bugs))
    && DistinctFingerprints(bugs)
    && (forall i :: 0 <= i < |bugs| ==> RowInvariant(bugs[i]))
  }

  ghost predicate DistinctFingerprints(bugs: seq<Bug>) {
    forall i, j :: 0 <= i < j < |bugs| ==> bugs[i].fingerprint != bugs[j].fingerprint
  }

  /** A bug that is or was resolved carries the passing verify that did it. */
  predicate RowInvariant(b: Bug) {
    && b.occurrences >= 1
    && (b.status == Resolved || b.status == Regression ==> b.verifyResult == VerifyPass && b.resolvedAt.Some?)
  }

  lemma UpdateKeepsInvariant(bugs: seq<Bug>, i: nat, b: Bug)
    requires TableInvariant(bugs) && i < |bugs|
    requires b.id == bugs[i].id && b.fingerprint == bugs[i].fingerprint && RowInvariant(b)
    ensures TableInvariant(bugs[i := b])
  {
    assert Ids(bugs[i := b]) == Ids(bugs);
  }

  lemma InsertKeepsInvariant(bugs: seq<Bug>, b: Bug, today: Stamp)
    requires TableInvariant(bugs) && b.id == NewBugId(Ids(bugs), today) && RowInvariant(b)
    requires ByFingerprint(bugs, b.fingerprint) == |bugs|
    ensures TableInvariant(bugs + [b])
  {
    hide Issued, IssuedAt, NewBugId, RowInvariant, CountWithPrefix;
    hide ByFingerprint;
    assert Ids(bugs + [b]) == Ids(bugs) + [b.id];
    IssueOneMore(Ids(bugs), today);
    assert forall i :: 0 <= i < |bugs + [b]| ==> RowInvariant((bugs + [b])[i]);
  }

  lemma ApplyKeepsInvariant(bugs: seq<Bug>, a: BugAction)
    requires TableInvariant(bugs)
    ensures TableInvariant(Apply(bugs, a))
  {
    var i := if a.Report? then ByFingerprint(bugs, a.fingerprint) else ById(bugs, a.id);
    if a.Report? && i == |bugs| {
      InsertKeepsInvariant(bugs, FirstSeen(a, NewBugId(Ids(bugs), a.today)), a.today);
    } else if i < |bugs| {
      assert RowInvariant(bugs[i]);
      UpdateKeepsInvariant(bugs, i, Apply(bugs, a)[i]);
      assert Apply(bugs, a) == bugs[i := Apply(bugs, a)[i]];
    }
  }

  /** In every reachable table fingerprints and ids are unique, and a bug that
      is RESOLVED or REGRESSION has a passing verify with a time. */
  lemma {:induction false} ReachableTables(actions: seq<BugAction>)
    ensures TableInvariant(Run(actions))
    ensures forall i, j :: 0 <= i < j < |Run(actions)| ==> Run(actions)[i].id != Run(actions)[j].id
  {
    if actions != [] {
      ReachableTables(actions[..|actions| - 1]);
      ApplyKeepsInvariant(Run(actions[..|actions| - 1]), actions[|actions| - 1]);
    }
    var ids := Ids(Run(actions));
    forall i, j | 0 <= i < j < |Run(actions)|
      ensures Run(actions)[i].id != Run(actions)[j].id
    {
      IssuedIdsAreDistinct(ids, i, j);
    }
  }

  // --------------------------------------------- refinement of a counted log

  /** The evidence of every report of `fingerprint`, oldest first. */
  function Reports(actions: seq<BugAction>, fingerprint: string): seq<Evidence> {
    if actions == [] then []
    else
      var a := actions[|actions| - 1];
      Reports(actions[..|actions| - 1], fingerprint) +
      if a.Report? && a.fingerprint == fingerprint then [EvidenceOf(a)] else []
  }

  predicate Counts(b: Bug, log: seq<Evidence>) {
    b.occurrences == |log| && b.evidence == LastN(log, MAX_EVIDENCE_HISTORY)
  }

  lemma FirstRowIs(bugs: seq<Bug>, fingerprint: string, i: nat)
    requires i <= |bugs| && (i < |bugs| ==> bugs[i].fingerprint == fingerprint)
    requires forall j :: 0 <= j < i ==> bugs[j].fingerprint != fingerprint
    ensures ByFingerprint(bugs, fingerprint) == i
  {
  }

  /** A report of a fingerprint counts on its row, or makes it. */
  lemma ReportedRow(bugs: seq<Bug>, a: BugAction)
    requires a.Report?
    ensures var i, after := ByFingerprint(bugs, a.fingerprint), Apply(bugs, a);
            && ByFingerprint(after, a.fingerprint) == i < |after|
            && after[i] == if i < |bugs| then SeenAgain(bugs[i], a)
                           else FirstSeen(a, NewBugId(Ids(bugs), a.today))
  {
  }

  /** No other action touches the count or the evidence of a fingerprint. */
  lemma OtherRow(bugs: seq<Bug>, a: BugAction, fingerprint: string)
    requires !(a.Report? && a.fingerprint == fingerprint)
    ensures var i, after := ByFingerprint(bugs, fingerprint), Apply(bugs, a);
            var k := ByFingerprint(after, fingerprint);
            && (k < |after| <==> i < |bugs|)
            && (i < |bugs| ==> k == i && after[i].occurrences == bugs[i].occurrences
                               && after[i].evidence == bugs[i].evidence)
  {
    hide ByFingerprint, ById;
    var i, after := ByFingerprint(bugs, fingerprint), Apply(bugs, a);
    assert |bugs| <= |after|;
    assert forall j :: 0 <= j < |bugs| ==> after[j].fingerprint == bugs[j].fingerprint;
    assert forall j :: |bugs| <= j < |after| ==> after[j].fingerprint != fingerprint;
    FirstRowIs(after, fingerprint, if i < |bugs| then i else |after|);
  }

  lemma LastNOfAppend<T>(s: seq<T>, x: T, n: nat)
    requires n > 0
    ensures LastN(LastN(s, n) + [x], n) == LastN(s + [x], n)
  {
  }

  /** The table is the log, counted: a fingerprint has a row exactly when it was
      reported, that row counts the reports, and it keeps the last ten. */
  lemma {:induction false} TableRefinesLog(actions: seq<BugAction>, fingerprint: string)
    ensures var i := ByFingerprint(Run(actions), fingerprint);
            && (i < |Run(actions)| <==> Reports(actions, fingerprint) != [])
            && (i < |Run(actions)| ==> Counts(Run(actions)[i], Reports(actions, fingerprint)))
  {
    if actions != [] {
      var before, a := actions[..|actions| - 1], actions[|actions| - 1];
      TableRefinesLog(before, fingerprint);
      assert Run(actions) == Apply(Run(before), a);
      assert Reports(actions, fingerprint) == Reports(before, fingerprint)
             + if a.Report? && a.fingerprint == fingerprint then [EvidenceOf(a)] else [];
      hide Apply, ByFingerprint, Run, Reports;
      if a.Report? && a.fingerprint == fingerprint {
        ReportedRow(Run(before), a);
        LastNOfAppend(Reports(before, fingerprint), EvidenceOf(a), MAX_EVIDENCE_HISTORY);
      } else {
        OtherRow(Run(before), a, fingerprint);
      }
    }
  }

  // --------------------------------------------------------------- lifecycle

  /** The moves a status can make. */
  predicate Edge(s: BugStatus, t: BugStatus) {
    match t
    case Open => s == ReadyForVerify
    case Fixing => s == Open || s == Regression
    case ReadyForVerify => s == Fixing
    case Resolved => s == ReadyForVerify
    case Regression => s == Resolved
    case Ignored => s != Ignored
  }

  lemma StatusStep(bugs: seq<Bug>, a: BugAction, k: nat)
    requires TableInvariant(bugs)
    ensures k < |bugs| ==> Apply(bugs, a)[k].status == bugs[k].status || Edge(bugs[k].status, Apply(bugs, a)[k].status)
    ensures |bugs| <= k < |Apply(bugs, a)| ==> Apply(bugs, a)[k].status == Open
    ensures k < |bugs| && bugs[k].status != Resolved ==>
              (Apply(bugs, a)[k].status == Resolved
               <==> a.Verify? && a.passed && bugs[k].id == a.id && bugs[k].status == ReadyForVerify)
  {
    if k < |bugs| && !a.Report? && ById(bugs, a.id) < |bugs| && bugs[k].id == a.id && ById(bugs, a.id) != k {
      IssuedIdsAreDistinct(Ids(bugs), ById(bugs, a.id), k);
      assert false;
    }
    hide TableInvariant, Ids, NewBugId;
  }

  lemma ApplyGrows(bugs: seq<Bug>, a: BugAction)
    ensures |bugs| <= |Apply(bugs, a)| <= |bugs| + 1
  {
  }

  /** Every status the k-th bug ever had, in order, without repetitions. */
  function Trail(actions: seq<BugAction>, k: nat): seq<BugStatus> {
    if actions == [] then []
    else
      var t := Trail(actions[..|actions| - 1], k);
      var bugs := Run(actions);
      if k >= |bugs| then t
      else if t != [] && t[|t| - 1] == bugs[k].status then t
      else t + [bugs[k].status]
  }

  lemma TrailNext(actions: seq<BugAction>, k: nat)
    requires actions != []
    ensures var t, bugs := Trail(actions[..|actions| - 1], k), Run(actions);
            Trail(actions, k) == if k >= |bugs| || (t != [] && t[|t| - 1] == bugs[k].status) then t
                                 else t + [bugs[k].status]
  {
    hide Run;
  }

  predicate LegalTrail(t: seq<BugStatus>) {
    && (t != [] ==> t[0] == Open)
    && forall i :: 0 < i < |t| ==> Edge(t[i - 1], t[i])
  }

  lemma LegalStep(t: seq<BugStatus>, i: nat)
    requires LegalTrail(t) && 0 < i < |t|
    ensures Edge(t[i - 1], t[i])
  {
  }

  /** Over every run, the history of a bug is a walk in the status graph that
      starts at OPEN and ends at the stored status. */
  lemma {:induction false} TrailIsLegal(actions: seq<BugAction>, k: nat)
    ensures var t := Trail(actions, k);
            && LegalTrail(t)
            && (t == [] <==> k >= |Run(actions)|)
            && (t != [] ==> Run(actions)[k].status == t[|t| - 1])
  {
    if actions != [] {
      var before, a := actions[..|actions| - 1], actions[|actions| - 1];
      TrailIsLegal(before, k);
      ReachableTables(before);
      StatusStep(Run(before), a, k);
      ApplyGrows(Run(before), a);
      assert Run(actions) == Apply(Run(before), a);
      hide Apply, Run, TableInvariant;
    }
  }

  /** Each entry into RESOLVED follows fixing, ready-for-verify and a passing
      verify since the bug was last OPEN or REGRESSION; IGNORED is final. */
  lemma ResolvedOnlyThroughVerify(actions: seq<BugAction>, k: nat, i: nat)
    requires i < |Trail(actions, k)|
    ensures var t := Trail(actions, k);
            && (t[i] == Resolved ==> i >= 3 && t[i - 1] == ReadyForVerify && t[i - 2] == Fixing
                                     && (t[i - 3] == Open || t[i - 3] == Regression))
            && (t[i] == Ignored ==> i == |t| - 1)
  {
    TrailIsLegal(actions, k);
    var t := Trail(actions, k);
    if t[i] == Resolved {
      LegalStep(t, i);
      LegalStep(t, i - 1);
      LegalStep(t, i - 2);
    }
    if t[i] == Ignored && i + 1 < |t| {
      LegalStep(t, i + 1);
      assert false;
    }
  }

  function Entries(t: seq<BugStatus>, s: BugStatus): nat {
    if t == [] then 0 else Entries(t[..|t| - 1], s) + if t[|t| - 1] == s then 1 else 0
  }

  /** Resolutions not yet undone by a regression: one while the bug is RESOLVED
      (or was when it was ignored), otherwise none. */
  lemma {:induction false} TrailBalances(t: seq<BugStatus>)
    requires LegalTrail(t)
    ensures Entries(t, Resolved) - Entries(t, Regression) == if Stands(t) then 1 else 0
  {
    if t != [] {
      TrailBalances(t[..|t| - 1]);
      if |t| > 1 {
        assert Edge(t[|t| - 2], t[|t| - 1]);
      }
    }
  }

  /** The last resolution has not been undone. */
  predicate Stands(t: seq<BugStatus>) {
    var n := |t|;
    n > 0 && (t[n - 1] == Resolved || (n > 1 && t[n - 1] == Ignored && t[n - 2] == Resolved))
  }

  /** A passing verify that the k-th bug accepts. */
  predicate Resolves(bugs: seq<Bug>, a: BugAction, k: nat) {
    k < |bugs| && a.Verify? && a.passed && a.id == bugs[k].id && bugs[k].status == ReadyForVerify
  }

  /** A report that finds the k-th bug RESOLVED. */
  predicate Regresses(bugs: seq<Bug>, a: BugAction, k: nat) {
    k < |bugs| && a.Report? && a.fingerprint == bugs[k].fingerprint && bugs[k].status == Resolved
  }

  function Resolutions(actions: seq<BugAction>, k: nat): nat {
    if actions == [] then 0
    else
      var before, a := actions[..|actions| - 1], actions[|actions| - 1];
      Resolutions(before, k) + if Resolves(Run(before), a, k) then 1 else 0
  }

  function Regressions(actions: seq<BugAction>, k: nat): nat {
    if actions == [] then 0
    else
      var before, a := actions[..|actions| - 1], actions[|actions| - 1];
      Regressions(before, k) + if Regresses(Run(before), a, k) then 1 else 0
  }

  lemma RegressionStep(bugs: seq<Bug>, a: BugAction, k: nat)
    requires TableInvariant(bugs) && k < |bugs|
    ensures Regresses(bugs, a, k) <==> bugs[k].status != Regression && Apply(bugs, a)[k].status == Regression
  {
    if a.Report? && ByFingerprint(bugs, a.fingerprint) < |bugs| {
      var i := ByFingerprint(bugs, a.fingerprint);
      assert i != k ==> bugs[i].fingerprint != bugs[k].fingerprint;
    }
  }

  lemma {:induction false} EventsAreEntries(actions: seq<BugAction>, k: nat)
    ensures Resolutions(actions, k) == Entries(Trail(actions, k), Resolved)
    ensures Regressions(actions, k) == Entries(Trail(actions, k), Regression)
  {
    if actions != [] {
      var before, a := actions[..|actions| - 1], actions[|actions| - 1];
      EventsAreEntries(before, k);
      TrailIsLegal(before, k);
      ReachableTables(before);
      StatusStep(Run(before), a, k);
      if k < |Run(before)| {
        RegressionStep(Run(before), a, k);
      }
      ApplyGrows(Run(before), a);
      EntriesNext(Trail(before, k));
      assert Run(actions) == Apply(Run(before), a);
      TrailNext(actions, k);
      assert Resolutions(actions, k) == Resolutions(before, k) + if Resolves(Run(before), a, k) then 1 else 0;
      assert Regressions(actions, k) == Regressions(before, k) + if Regresses(Run(before), a, k) then 1 else 0;
      hide Apply, Run, TableInvariant, LegalTrail, Entries, Edge, Trail, Resolutions, Regressions, Regresses;
    }
  }

  lemma EntriesNext(t: seq<BugStatus>)
    ensures forall s, u :: Entries(t + [s], u) == Entries(t, u) + if s == u then 1 else 0
  {
    forall s, u
      ensures Entries(t + [s], u) == Entries(t, u) + if s == u then 1 else 0
    {
      assert (t + [s])[..|t|] == t;
    }
  }

  /** Over every run: the accepted passing verifies of a bug minus the reports that
      found it RESOLVED is always 0 or 1, and 1 exactly while its last resolution
      stands. */
  lemma ResolutionsBalanceRegressions(actions: seq<BugAction>, k: nat)
    ensures Resolutions(actions, k) - Regressions(actions, k) == if Stands(Trail(actions, k)) then 1 else 0
    ensures k < |Run(actions)| && Run(actions)[k].status == Resolved ==>
              Resolutions(actions, k) == Regressions(actions, k) + 1
  {
    TrailIsLegal(actions, k);
    EventsAreEntries(actions, k);
    TrailBalances(Trail(actions, k));
    hide Resolutions, Regressions, Trail, Run;
  }
}
