/** The consistency oracle (`engine/consistency_oracle.py`) over validated
    quantities (`engine/state_model.py`). */
module ConsistencyOracle {
  import opened Subsequences
  import opened Wrappers

  // ------------------------------------------------------------- quantities

  datatype Quantity = Quantity(good: int, defect: int, repairable: int)

  const NOTHING := Quantity(0, 0, 0)

  predicate Valid(q: Quantity) {
    q.good >= 0 && q.defect >= 0 && q.repairable >= 0 && q.repairable <= q.defect
  }

  function Plus(a: Quantity, b: Quantity): Quantity {
    Quantity(a.good + b.good, a.defect + b.defect, a.repairable + b.repairable)
  }

  /** The checked addition: nothing when the sum is not valid. */
  function Add(a: Quantity, b: Quantity): Option<Quantity> {
    if Valid(Plus(a, b)) then Some(Plus(a, b)) else None
  }

  // ------------------------------------------------------------------- rows

  /** A field as a reader delivers it.  Text converts or not; anything else does
      not convert at all. */
  datatype Value = Null | Number(n: int) | Text(number: Option<int>) | NotANumber

  type Row = map<string, Value>

  /** A converted field, a conversion the oracle catches, or one it does not. */
  datatype Converted = Int(n: int) | BadValue | BadType

  function Convert(v: Value): Converted {
    match v
    case Null => Int(0)
    case Number(n) => Int(n)
    case Text(t) => if t.Some? then Int(t.value) else BadValue
    case NotANumber => BadType
  }

  /** The first of the keys that is present, even when its value is null. */
  function Field(row: Row, keys: seq<string>): Value {
    if keys == [] then Null
    else if keys[0] in row then row[keys[0]]
    else Field(row, keys[1..])
  }

  const GOOD := ["good_qty", "done_qty", "good_quantity"]
  const DEFECT := ["defect_qty", "defect_quantity"]
  const REPAIRABLE := ["rework_qty", "repairable_qty", "repairable_quantity"]

  datatype Reading = Reads(q: Quantity) | Invalid | Breaks

  /** Fields are converted in this order; the first that does not convert
      decides. */
  function Combine(good: Converted, defect: Converted, repairable: Converted): Reading {
    if good.BadType? then Breaks else if good.BadValue? then Invalid
    else if defect.BadType? then Breaks else if defect.BadValue? then Invalid
    else if repairable.BadType? then Breaks else if repairable.BadValue? then Invalid
    else if Valid(Quantity(good.n, defect.n, repairable.n)) then Reads(Quantity(good.n, defect.n, repairable.n))
    else Invalid
  }

  function Read(row: Row): (r: Reading)
    ensures r.Reads? ==> Valid(r.q)
  {
    Combine(Convert(Field(row, GOOD)), Convert(Field(row, DEFECT)), Convert(Field(row, REPAIRABLE)))
  }

  datatype Session = Session(closed: bool, row: Row)

  // -------------------------------------------------------------- the tally

  /** What the sessions come to: the sum of the valid closed ones, the number of
      invalid closed ones, and whether one breaks the check. */
  datatype Tally = Tally(sum: Quantity, invalid: nat, breaks: bool)

  function Contribution(s: Session): (t: Tally)
    ensures Valid(t.sum)
  {
    if !s.closed then Tally(NOTHING, 0, false)
    else match Read(s.row)
      case Reads(q) => Tally(q, 0, false)
      case Invalid => Tally(NOTHING, 1, false)
      case Breaks => Tally(NOTHING, 0, true)
  }

  lemma ContributionOf(s: Session)
    ensures Contribution(s)
         == if s.closed && Read(s.row).Reads? then Tally(Read(s.row).q, 0, false)
            else Tally(NOTHING, if s.closed && Read(s.row).Invalid? then 1 else 0, s.closed && Read(s.row).Breaks?)
  {
  }

  function Join(a: Tally, b: Tally): Tally {
    Tally(Plus(a.sum, b.sum), a.invalid + b.invalid, a.breaks || b.breaks)
  }

  function Total(sessions: seq<Session>): Tally {
    if sessions == [] then Tally(NOTHING, 0, false)
    else Join(Total(sessions[..|sessions| - 1]), Contribution(sessions[|sessions| - 1]))
  }

  lemma TotalNext(sessions: seq<Session>, s: Session)
    ensures Total(sessions + [s]) == Join(Total(sessions), Contribution(s))
  {
    assert (sessions + [s])[..|sessions|] == sessions;
  }

  /** The running sum is valid at every point, so the checked addition of a valid
      row never fails. */
  lemma {:induction false} AdditionNeverRaises(sessions: seq<Session>, q: Quantity)
    requires Valid(q)
    ensures Valid(Total(sessions).sum) && Add(Total(sessions).sum, q) == Some(Plus(Total(sessions).sum, q))
  {
    if sessions != [] {
      AdditionNeverRaises(sessions[..|sessions| - 1], Contribution(sessions[|sessions| - 1]).sum);
    }
  }

  // ---------------------------------------------------------- order of rows

  lemma {:induction false} TotalWithout(sessions: seq<Session>, i: nat)
    requires i < |sessions|
    ensures Total(sessions) == Join(Total(Without(sessions, i)), Contribution(sessions[i]))
  {
    hide Contribution, Read, Total;
    var last := |sessions| - 1;
    assert sessions[..last] + [sessions[last]] == sessions;
    TotalNext(sessions[..last], sessions[last]);
    if i < last {
      var front := sessions[..last];
      TotalWithout(front, i);
      assert Without(sessions, i) == Without(front, i) + [sessions[last]];
      TotalNext(Without(front, i), sessions[last]);
    } else {
      assert Without(sessions, i) == sessions[..last];
    }
  }

  lemma MultisetWithout(sessions: seq<Session>, i: nat)
    requires i < |sessions|
    ensures multiset(Without(sessions, i)) == multiset(sessions) - multiset{sessions[i]}
  {
    assert sessions == sessions[..i] + [sessions[i]] + sessions[i + 1..];
  }

  /** The tally does not depend on the order of the rows. */
  lemma {:induction false} TotalIgnoresOrder(a: seq<Session>, b: seq<Session>)
    requires multiset(a) == multiset(b)
    ensures Total(a) == Total(b)
    decreases |a|
  {
    if a == [] {
      assert |b| == |multiset(b)|;
    } else {
      var last := |a| - 1;
      var s := a[last];
      assert s in multiset(b);
      var i :| 0 <= i < |b| && b[i] == s;
      assert a == a[..last] + [s];
      TotalNext(a[..last], s);
      TotalWithout(b, i);
      MultisetWithout(b, i);
      MultisetWithout(a, last);
      assert Without(a, last) == a[..last];
      hide Total, Contribution, Without;
      assert multiset(a[..last]) == multiset(a) - multiset{s};
      TotalIgnoresOrder(a[..last], Without(b, i));
    }
  }

  // -------------------------------------------------------------- the check

  datatype Source = OperationRow | DashboardRow | ReportRow

  datatype Failure =
    | SessionBounds
    | AggregateBounds(source: Source)
    | Differs(source: Source, expected: Quantity, actual: Quantity)

  datatype Observations = Observations(sessions: seq<Session>, operation: Option<Row>, dashboard: Option<Row>,
                                       report: Option<Row>)

  function Projection(o: Observations, s: Source): Option<Row> {
    match s
    case OperationRow => o.operation
    case DashboardRow => o.dashboard
    case ReportRow => o.report
  }

  /** The failures that one projection adds. */
  function Judge(row: Option<Row>, source: Source, canonical: Quantity): seq<Failure> {
    if row.None? then []
    else match Read(row.value)
      case Reads(q) => if q == canonical then [] else [Differs(source, canonical, q)]
      case Invalid => [AggregateBounds(source)]
      case Breaks => []
  }

  predicate BreaksOn(row: Option<Row>) {
    row.Some? && Read(row.value).Breaks?
  }

  predicate CheckBreaks(o: Observations) {
    Total(o.sessions).breaks || exists s: Source :: BreaksOn(Projection(o, s))
  }

  function Repeated(n: nat): (failures: seq<Failure>)
    ensures |failures| == n && forall i :: 0 <= i < n ==> failures[i] == SessionBounds
  {
    seq(n, _ => SessionBounds)
  }

  function Failures(o: Observations): seq<Failure> {
    var t := Total(o.sessions);
    Repeated(t.invalid) + Judge(o.operation, OperationRow, t.sum) + Judge(o.dashboard, DashboardRow, t.sum)
    + Judge(o.report, ReportRow, t.sum)
  }

  lemma RepeatedNext(n: nat)
    ensures Repeated(n) + [SessionBounds] == Repeated(n + 1)
  {
  }

  predicate ClosedRowsValid(sessions: seq<Session>) {
    forall i :: 0 <= i < |sessions| && sessions[i].closed ==> Read(sessions[i].row).Reads?
  }

  lemma {:induction false} NothingInvalid(sessions: seq<Session>)
    ensures Total(sessions).invalid == 0 && !Total(sessions).breaks <==> ClosedRowsValid(sessions)
  {
    hide Read, Contribution;
    if sessions != [] {
      var front, last := sessions[..|sessions| - 1], sessions[|sessions| - 1];
      assert front + [last] == sessions;
      TotalNext(front, last);
      ContributionOf(last);
      NothingInvalid(front);
      hide Total;
      assert ClosedRowsValid(sessions) <==> ClosedRowsValid(front) && (last.closed ==> Read(last.row).Reads?);
    }
  }

  /** Soundness and completeness: the check reports nothing exactly when every
      closed session is valid and every projection that is present is valid and
      equals the component-wise sum of the closed sessions. */
  lemma ReportsNothingExactlyWhenConsistent(o: Observations)
    ensures !CheckBreaks(o) && Failures(o) == []
            <==> && ClosedRowsValid(o.sessions)
                 && forall s: Source :: Projection(o, s).Some? ==>
                      Read(Projection(o, s).value) == Reads(Total(o.sessions).sum)
  {
    NothingInvalid(o.sessions);
    hide Read, Total, ClosedRowsValid;
    var t := Total(o.sessions);
    var j1, j2, j3 := Judge(o.operation, OperationRow, t.sum), Judge(o.dashboard, DashboardRow, t.sum),
                      Judge(o.report, ReportRow, t.sum);
    assert |Failures(o)| == t.invalid + |j1| + |j2| + |j3|;
    assert Projection(o, OperationRow) == o.operation && Projection(o, DashboardRow) == o.dashboard
           && Projection(o, ReportRow) == o.report;
    assert CheckBreaks(o) <==> t.breaks || BreaksOn(o.operation) || BreaksOn(o.dashboard) || BreaksOn(o.report);
  }

  /** The verdict does not depend on the order in which sessions are read. */
  lemma VerdictIgnoresOrder(o: Observations, sessions: seq<Session>)
    requires multiset(sessions) == multiset(o.sessions)
    ensures CheckBreaks(o.(sessions := sessions)) == CheckBreaks(o)
    ensures Failures(o.(sessions := sessions)) == Failures(o)
  {
    TotalIgnoresOrder(sessions, o.sessions);
    var p := o.(sessions := sessions);
    assert forall s: Source :: Projection(p, s) == Projection(o, s);
  }

  /** The session loop. */
  method SumSessions(sessions: seq<Session>) returns (raised: bool, canonical: Quantity, failures: seq<Failure>)
    ensures raised <==> Total(sessions).breaks
    ensures !raised ==> canonical == Total(sessions).sum && failures == Repeated(Total(sessions).invalid)
  {
    raised, canonical, failures := false, NOTHING, [];
    assert Total(sessions[..0]) == Tally(NOTHING, 0, false);
    hide Contribution, Read, Total, Repeated;
    for i := 0 to |sessions|
      invariant !Total(sessions[..i]).breaks
      invariant canonical == Total(sessions[..i]).sum && failures == Repeated(Total(sessions[..i]).invalid)
    {
      assert sessions[..i + 1] == sessions[..i] + [sessions[i]];
      TotalNext(sessions[..i], sessions[i]);
      ContributionOf(sessions[i]);
      ghost var before := Total(sessions[..i]);
      RepeatedNext(before.invalid);
      if sessions[i].closed {
        var r := Read(sessions[i].row);
        if r.Breaks? {
          BreakStays(sessions, i + 1);
          raised := true;
          return;
        }
        if r.Reads? {
          AdditionNeverRaises(sessions[..i], r.q);
          var sum := Add(canonical, r.q);
          if sum.Some? {
            canonical := sum.value;
          } else {
            failures := failures + [SessionBounds];
          }
        } else {
          failures := failures + [SessionBounds];
        }
      }
    }
    assert sessions[..|sessions|] == sessions;
  }

  lemma {:induction false} BreakStays(sessions: seq<Session>, k: nat)
    requires k <= |sessions| && Total(sessions[..k]).breaks
    ensures Total(sessions).breaks
    decreases |sessions|
  {
    if k == |sessions| {
      assert sessions[..k] == sessions;
    } else {
      var front := sessions[..|sessions| - 1];
      assert front[..k] == sessions[..k];
      BreakStays(front, k);
    }
  }

  method CheckOperation(o: Observations) returns (raised: bool, failures: seq<Failure>)
    ensures raised <==> CheckBreaks(o)
    ensures !raised ==> failures == Failures(o)
  {
    var canonical;
    raised, canonical, failures := SumSessions(o.sessions);
    if raised {
      return;
    }
    var sources := [OperationRow, DashboardRow, ReportRow];
    ghost var bounds := failures;
    for i := 0 to 3
      invariant forall k :: 0 <= k < i ==> !BreaksOn(Projection(o, sources[k]))
      invariant failures == bounds + (if i > 0 then Judge(o.operation, OperationRow, canonical) else [])
                            + (if i > 1 then Judge(o.dashboard, DashboardRow, canonical) else [])
                            + (if i > 2 then Judge(o.report, ReportRow, canonical) else [])
    {
      var row := Projection(o, sources[i]);
      if row.Some? {
        var r := Read(row.value);
        if r.Breaks? {
          assert BreaksOn(Projection(o, sources[i]));
          raised := true;
          return;
        }
        if r.Invalid? {
          failures := failures + [AggregateBounds(sources[i])];
        } else if r.q != canonical {
          failures := failures + [Differs(sources[i], canonical, r.q)];
        }
      }
    }
    forall s: Source
      ensures !BreaksOn(Projection(o, s))
    {
      assert s == sources[0] || s == sources[1] || s == sources[2];
    }
  }

  // --------------------------------------------------------------------- WIP

  /** One consumed amount; the two columns are added. */
  function Consumed(row: Row): Converted {
    var good, defect := Convert(Field(row, ["good_qty_consumed"])), Convert(Field(row, ["defect_qty_consumed"]));
    if !good.Int? then good else if !defect.Int? then defect else Int(good.n + defect.n)
  }

  /** A rework source has no default: a missing or null amount does not convert. */
  function Supplied(rework: bool, source: Row): Converted {
    if rework then
      if "rework_qty" in source && source["rework_qty"] != Null then Convert(source["rework_qty"]) else BadType
    else Convert(Field(source, ["done_qty"]))
  }

  function ConsumedSum(ledgers: seq<Row>): Option<int> {
    if ledgers == [] then Some(0)
    else
      var before, last := ConsumedSum(ledgers[..|ledgers| - 1]), Consumed(ledgers[|ledgers| - 1]);
      if before.Some? && last.Int? then Some(before.value + last.n) else None
  }

  /** Nothing is caught here: any amount that does not convert raises. */
  method CheckWip(rework: bool, source: Row, ledgers: seq<Row>) returns (raised: bool, available: int, failed: bool)
    ensures raised <==> !Supplied(rework, source).Int? || ConsumedSum(ledgers).None?
    ensures !raised ==> available == Supplied(rework, source).n - ConsumedSum(ledgers).value
    ensures !raised ==> (failed <==> ConsumedSum(ledgers).value > Supplied(rework, source).n)
  {
    raised, available, failed := true, 0, false;
    var supplied := Supplied(rework, source);
    if !supplied.Int? {
      return;
    }
    var consumed := 0;
    for i := 0 to |ledgers|
      invariant ConsumedSum(ledgers[..i]) == Some(consumed)
    {
      assert ledgers[..i + 1][..i] == ledgers[..i];
      var amount := Consumed(ledgers[i]);
      if !amount.Int? {
        UnconvertedStays(ledgers, i + 1);
        return;
      }
      consumed := consumed + amount.n;
    }
    assert ledgers[..|ledgers|] == ledgers;
    raised, available := false, supplied.n - consumed;
    failed := available < 0;
  }

  lemma {:induction false} UnconvertedStays(ledgers: seq<Row>, k: nat)
    requires k <= |ledgers| && ConsumedSum(ledgers[..k]).None?
    ensures ConsumedSum(ledgers).None?
    decreases |ledgers|
  {
    if k == |ledgers| {
      assert ledgers[..k] == ledgers;
    } else {
      assert ledgers[..|ledgers| - 1][..k] == ledgers[..k];
      UnconvertedStays(ledgers[..|ledgers| - 1], k);
    }
  }
}
