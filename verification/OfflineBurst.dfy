/** The offline burst: every kiosk queues its shift offline, with a deliberate
    duplicate, and all of them replay at once (`qualification/offline_burst.py`). */
module OfflineBurst {
  import opened Subsequences
  import opened Wrappers
  import opened KioskClient
  import opened KioskServer

  /** One kiosk with its own employee and operation; `first` is its sequence
      number when it goes offline. */
  datatype Worker = Worker(device: string, employee: string, operation: string,
                           scanIds: (string, string, string), first: nat)

  const ONE_GOOD := Quantity(Some(1), Some(0), Some(0))

  function Event(w: Worker, k: nat): Body
    requires k < 4
  {
    if k == 0 then Body(w.device, w.scanIds.0, w.first + 1, Scan(EmployeeCode(w.employee)))
    else if k == 1 then Body(w.device, w.scanIds.1, w.first + 2, Scan(OperationCode(w.operation)))
    else if k == 2 then Body(w.device, w.scanIds.2, w.first + 3, Scan(EmployeeCode(w.employee)))
    else Body(w.device, w.device + "-QTY", w.first + 4, ONE_GOOD)
  }

  /** The four events of a shift. */
  function Shift(w: Worker): seq<Body> {
    [Event(w, 0), Event(w, 1), Event(w, 2), Event(w, 3)]
  }

  /** What the burst leaves in the queue: the shift and its last event again. */
  function BurstQueue(w: Worker): seq<Body> {
    Shift(w) + [Event(w, 3)]
  }

  ghost predicate Independent(ws: seq<Worker>) {
    && (forall i, j :: 0 <= i < |ws| && 0 <= j < |ws| && i != j ==>
          ws[i].device != ws[j].device && ws[i].employee != ws[j].employee && ws[i].operation != ws[j].operation)
    && (forall i, j, a, b :: 0 <= i < |ws| && 0 <= j < |ws| && 0 <= a < 4 && 0 <= b < 4 && (i != j || a != b) ==>
          Event(ws[i], a).eventId != Event(ws[j], b).eventId)
  }

  // ------------------------------------------------------------- one worker

  function Expected(w: Worker, p: nat): DeviceState {
    if p == 1 then WaitOperation(w.employee)
    else if p == 2 then SessionActive(w.employee, w.operation)
    else if p == 3 then QuantityInput(w.employee, w.operation)
    else WaitEmployee
  }

  /** The server after the first `p` events of a worker's shift, as far as that
      worker is concerned. */
  ghost predicate Matches(s: Server, w: Worker, p: nat) {
    && p <= 4
    && StateOf(s, w.device) == Expected(w, p)
    && w.employee in s.employees
    && (w.employee in s.working <==> 2 <= p <= 3)
    && w.operation in s.operations
    && s.operations[w.operation]
       == Operation(true, if p == 4 then 1 else 0, 0, 0, if p >= 2 then 1 else 0, 2 <= p <= 3)
    && (forall k :: 0 <= k < 4 ==> (Event(w, k).eventId in s.seen <==> k < p))
    && (forall k :: 0 <= k < p ==> s.seen[Event(w, k).eventId].0 == Event(w, k)
                                   && s.seen[Event(w, k).eventId].1.Accepted())
  }

  predicate DistinctIds(w: Worker) {
    && Event(w, 0).eventId != Event(w, 1).eventId && Event(w, 0).eventId != Event(w, 2).eventId
    && Event(w, 0).eventId != Event(w, 3).eventId && Event(w, 1).eventId != Event(w, 2).eventId
    && Event(w, 1).eventId != Event(w, 3).eventId && Event(w, 2).eventId != Event(w, 3).eventId
  }

  lemma NextEventIsAccepted(s: Server, w: Worker, p: nat)
    requires Matches(s, w, p) && p < 4 && DistinctIds(w)
    ensures Process(s, Event(w, p)).1.Accepted()
    ensures Matches(Process(s, Event(w, p)).0, w, p + 1)
  {
    assert forall k :: 0 <= k < 4 && k != p ==> Event(w, k).eventId != Event(w, p).eventId;
    if p == 0 {
    } else if p == 1 {
    } else if p == 2 {
    } else {
    }
  }

  lemma OldEventIsReplayed(s: Server, w: Worker, p: nat, k: nat)
    requires Matches(s, w, p) && k < p
    ensures Process(s, Event(w, k)).0 == s && Process(s, Event(w, k)).1.Accepted()
  {
  }

  /** An event of one worker leaves every other worker where it was. */
  lemma OthersStay(s: Server, w: Worker, p: nat, v: Worker, q: nat)
    requires Matches(s, w, p) && p < 4 && Matches(s, v, q)
    requires w.device != v.device && w.employee != v.employee && w.operation != v.operation
    requires forall k :: 0 <= k < 4 ==> Event(v, k).eventId != Event(w, p).eventId
    ensures Matches(Process(s, Event(w, p)).0, v, q)
  {
  }

  // ------------------------------------------------------------- all of them

  function OnDevice(log: seq<Body>, device: string): seq<Body> {
    if log == [] then []
    else
      var before, b := OnDevice(log[..|log| - 1], device), log[|log| - 1];
      if b.deviceId == device then before + [b] else before
  }

  /** How far the log has brought one worker's shift. */
  function Progress(log: seq<Body>, w: Worker): nat {
    |FirstDeliveries(OnDevice(log, w.device))|
  }

  ghost predicate FromSomeShift(b: Body, ws: seq<Worker>) {
    exists i, k :: 0 <= i < |ws| && 0 <= k < 4 && b == Event(ws[i], k)
  }

  /** Any interleaving of the kiosks in which each one sends its shift in order
      and may send again, at any point, anything it has already sent. */
  ghost predicate Replaying(log: seq<Body>, ws: seq<Worker>) {
    && (forall k :: 0 <= k < |log| ==> FromSomeShift(log[k], ws))
    && (forall i :: 0 <= i < |ws| ==> FirstDeliveries(OnDevice(log, ws[i].device)) <= Shift(ws[i]))
  }

  ghost predicate AllMatch(s: Server, ws: seq<Worker>, log: seq<Body>) {
    forall i :: 0 <= i < |ws| ==> Matches(s, ws[i], Progress(log, ws[i]))
  }

  /** Idle employees, fresh operations and new devices, as the suite creates them. */
  ghost predicate Prepared(s: Server, ws: seq<Worker>) {
    forall i :: 0 <= i < |ws| ==> Matches(s, ws[i], 0)
  }

  lemma OnDeviceNext(log: seq<Body>, b: Body, device: string)
    ensures OnDevice(log + [b], device)
         == if b.deviceId == device then OnDevice(log, device) + [b] else OnDevice(log, device)
  {
    assert (log + [b])[..|log|] == log;
  }

  lemma FirstDeliveriesNext(log: seq<Body>, b: Body)
    ensures FirstDeliveries(log + [b])
         == if Delivered(log, b.eventId) then FirstDeliveries(log) else FirstDeliveries(log) + [b]
  {
    assert (log + [b])[..|log|] == log;
  }

  /** Which ids a device has delivered is visible in its first deliveries. */
  lemma {:induction false} FirstDeliveriesCoverIds(log: seq<Body>, eventId: string)
    ensures Delivered(FirstDeliveries(log), eventId) <==> Delivered(log, eventId)
  {
    if log != [] {
      var before, b := log[..|log| - 1], log[|log| - 1];
      FirstDeliveriesCoverIds(before, eventId);
      DeliveredNext(before, b, eventId);
      DeliveredNext(FirstDeliveries(before), b, eventId);
      assert before + [b] == log;
      hide Delivered;
    }
  }

  lemma EarlierIsReplaying(log: seq<Body>, b: Body, ws: seq<Worker>)
    requires Replaying(log + [b], ws)
    ensures Replaying(log, ws) && FromSomeShift(b, ws)
  {
    assert (log + [b])[|log|] == b;
    forall k | 0 <= k < |log|
      ensures FromSomeShift(log[k], ws)
    {
      assert (log + [b])[k] == log[k];
    }
    forall i | 0 <= i < |ws|
      ensures FirstDeliveries(OnDevice(log, ws[i].device)) <= Shift(ws[i])
    {
      OnDeviceNext(log, b, ws[i].device);
      FirstDeliveriesNext(OnDevice(log, ws[i].device), b);
    }
  }

  /** The next body of a replay is either the next event of its shift or one
      that the device has sent before. */
  lemma NextOrAgain(log: seq<Body>, b: Body, ws: seq<Worker>, i: nat, k: nat)
    requires Independent(ws) && Replaying(log + [b], ws) && i < |ws| && k < 4 && b == Event(ws[i], k)
    ensures var p, q := Progress(log, ws[i]), Progress(log + [b], ws[i]);
            p <= 4 && ((k < p && q == p) || (k == p && q == p + 1))
    ensures forall j :: 0 <= j < |ws| && j != i ==> Progress(log + [b], ws[j]) == Progress(log, ws[j])
  {
    assert b.deviceId == ws[i].device;
    hide FirstDeliveries, OnDevice, Event;
    EarlierIsReplaying(log, b, ws);
    OnDeviceNext(log, b, ws[i].device);
    NextOfShift(OnDevice(log, ws[i].device), b, ws[i], k);
    forall j | 0 <= j < |ws| && j != i
      ensures Progress(log + [b], ws[j]) == Progress(log, ws[j])
    {
      OnDeviceNext(log, b, ws[j].device);
    }
  }

  lemma NextOfShift(mine: seq<Body>, b: Body, w: Worker, k: nat)
    requires k < 4 && b == Event(w, k) && DistinctIds(w)
    requires FirstDeliveries(mine) <= Shift(w) && FirstDeliveries(mine + [b]) <= Shift(w)
    ensures var p, q := |FirstDeliveries(mine)|, |FirstDeliveries(mine + [b])|;
            p <= 4 && ((k < p && q == p) || (k == p && q == p + 1))
  {
    hide FirstDeliveries, Event;
    var first := FirstDeliveries(mine);
    FirstDeliveriesNext(mine, b);
    FirstDeliveriesCoverIds(mine, b.eventId);
    assert forall x :: 0 <= x < |first| ==> first[x] == Event(w, x);
    if Delivered(mine, b.eventId) {
      var x :| 0 <= x < |first| && first[x].eventId == b.eventId;
    } else {
      assert (first + [b])[|first|] == b;
    }
  }

  lemma ReplayStep(s: Server, log: seq<Body>, b: Body, ws: seq<Worker>)
    requires Independent(ws) && Replaying(log + [b], ws) && AllMatch(s, ws, log)
    ensures AllMatch(Process(s, b).0, ws, log + [b]) && Process(s, b).1.Accepted()
  {
    hide Process, Handle, FirstDeliveries, OnDevice, Replaying, Progress, Matches, Event;
    EarlierIsReplaying(log, b, ws);
    var i, k :| 0 <= i < |ws| && 0 <= k < 4 && b == Event(ws[i], k);
    NextOrAgain(log, b, ws, i, k);
    var p := Progress(log, ws[i]);
    assert Matches(s, ws[i], p);
    if k < p {
      OldEventIsReplayed(s, ws[i], p, k);
    } else {
      NextEventIsAccepted(s, ws[i], p);
      forall j | 0 <= j < |ws| && j != i
        ensures Matches(Process(s, b).0, ws[j], Progress(log + [b], ws[j]))
      {
        OthersStay(s, ws[i], p, ws[j], Progress(log, ws[j]));
      }
    }
  }

  lemma NothingSentYet(s: Server, ws: seq<Worker>)
    requires Prepared(s, ws)
    ensures AllMatch(s, ws, [])
  {
    hide Matches;
    assert forall w :: Progress([], w) == 0;
  }

  /** Along every interleaving with any redeliveries the server follows each
      worker's progress exactly. */
  lemma {:induction false} ReplayIsFollowed(s: Server, log: seq<Body>, ws: seq<Worker>)
    requires Independent(ws) && Prepared(s, ws) && Replaying(log, ws)
    ensures AllMatch(Run(s, log), ws, log)
    decreases |log|
  {
    if log == [] {
      NothingSentYet(s, ws);
    } else {
      var before, b := log[..|log| - 1], log[|log| - 1];
      assert before + [b] == log;
      RunOne(s, before, b);
      hide Process, Run, Replaying, Prepared, Independent, AllMatch;
      EarlierIsReplaying(before, b, ws);
      ReplayIsFollowed(s, before, ws);
      ReplayStep(Run(s, before), before, b, ws);
    }
  }

  /** The reply to the `k`-th post of a log. */
  function ReplyTo(s: Server, log: seq<Body>, k: nat): Reply
    requires k < |log|
  {
    Process(Run(s, log[..k]), log[k]).1
  }

  lemma {:induction false} PrefixIsReplaying(log: seq<Body>, ws: seq<Worker>, k: nat)
    requires Replaying(log, ws) && k <= |log|
    ensures Replaying(log[..k], ws)
    decreases |log| - k
  {
    hide Replaying, FirstDeliveries, OnDevice;
    if k == |log| {
      assert log[..k] == log;
    } else {
      PrefixIsReplaying(log, ws, k + 1);
      assert log[..k + 1] == log[..k] + [log[k]];
      EarlierIsReplaying(log[..k], log[k], ws);
    }
  }

  /** No event of the burst is ever rejected, duplicates included. */
  lemma EveryReplyAccepts(s: Server, log: seq<Body>, ws: seq<Worker>, k: nat)
    requires Independent(ws) && Prepared(s, ws) && Replaying(log, ws) && k < |log|
    ensures ReplyTo(s, log, k).Accepted()
  {
    hide Process, Run, Replaying, Prepared, Independent, AllMatch;
    PrefixIsReplaying(log, ws, k);
    PrefixIsReplaying(log, ws, k + 1);
    assert log[..k + 1] == log[..k] + [log[k]];
    ReplayIsFollowed(s, log[..k], ws);
    ReplayStep(Run(s, log[..k]), log[..k], log[k], ws);
  }

  /** Every kiosk's queue, whatever the interleaving of the replaying threads. */
  ghost predicate Interleaves(log: seq<Body>, ws: seq<Worker>) {
    && (forall k :: 0 <= k < |log| ==> FromSomeShift(log[k], ws))
    && (forall i :: 0 <= i < |ws| ==> OnDevice(log, ws[i].device) == BurstQueue(ws[i]))
  }

  lemma DuplicateIsDropped(w: Worker)
    requires DistinctIds(w)
    ensures FirstDeliveries(BurstQueue(w)) == Shift(w)
  {
    hide Event, FirstDeliveries, Delivered;
    var e0, e1, e2, e3 := Event(w, 0), Event(w, 1), Event(w, 2), Event(w, 3);
    NothingDelivered([]);
    var a := [] + [e0];
    FirstDeliveriesNext([], e0);
    DeliveredNext([], e0, e1.eventId);
    DeliveredNext([], e0, e2.eventId);
    DeliveredNext([], e0, e3.eventId);
    var b := a + [e1];
    FirstDeliveriesNext(a, e1);
    DeliveredNext(a, e1, e2.eventId);
    DeliveredNext(a, e1, e3.eventId);
    var c := b + [e2];
    FirstDeliveriesNext(b, e2);
    DeliveredNext(b, e2, e3.eventId);
    var d := c + [e3];
    FirstDeliveriesNext(c, e3);
    DeliveredNext(c, e3, e3.eventId);
    FirstDeliveriesNext(d, e3);
    assert d == Shift(w);
  }

  lemma NothingDelivered(log: seq<Body>)
    requires log == []
    ensures FirstDeliveries(log) == [] && forall id :: !Delivered(log, id)
  {
  }

  lemma AllSent(log: seq<Body>, ws: seq<Worker>, i: nat)
    requires Independent(ws) && Interleaves(log, ws) && i < |ws|
    ensures FirstDeliveries(OnDevice(log, ws[i].device)) == Shift(ws[i]) && Progress(log, ws[i]) == 4
  {
    assert DistinctIds(ws[i]);
    DuplicateIsDropped(ws[i]);
  }

  lemma InterleavingIsReplaying(log: seq<Body>, ws: seq<Worker>)
    requires Independent(ws) && Interleaves(log, ws)
    ensures Replaying(log, ws)
  {
    hide Independent;
    forall i | 0 <= i < |ws|
      ensures FirstDeliveries(OnDevice(log, ws[i].device)) == Shift(ws[i])
    {
      AllSent(log, ws, i);
    }
  }

  /** Convergence: however the kiosks interleave, each operation ends with a done
      quantity of exactly 1 from exactly one session, every kiosk is back at the
      start and every reply accepts. */
  lemma BurstConverges(s: Server, log: seq<Body>, ws: seq<Worker>)
    requires Independent(ws) && Prepared(s, ws) && Interleaves(log, ws)
    ensures var t := Run(s, log);
            forall i :: 0 <= i < |ws| ==>
              && ws[i].operation in t.operations
              && t.operations[ws[i].operation] == Operation(true, 1, 0, 0, 1, false)
              && StateOf(t, ws[i].device) == WaitEmployee
              && ws[i].employee !in t.working
    ensures forall k :: 0 <= k < |log| ==> ReplyTo(s, log, k).Accepted()
  {
    InterleavingIsReplaying(log, ws);
    hide Run, Process, Prepared, Independent, Replaying, Interleaves, Event;
    ReplayIsFollowed(s, log, ws);
    forall k | 0 <= k < |log|
      ensures ReplyTo(s, log, k).Accepted()
    {
      EveryReplyAccepts(s, log, ws, k);
    }
    forall i | 0 <= i < |ws|
      ensures Matches(Run(s, log), ws[i], 4)
    {
      AllSent(log, ws, i);
    }
  }

  // ------------------------------------------------------------- the phases

  /** One kiosk's part of the queue phase: three scans, then the quantity
      envelope put into the queue twice. */
  method QueueShift(client: Kiosk, w: Worker)
    requires client.Valid() && !client.online
    requires client.deviceId == w.device && client.deviceSeq == w.first
    modifies client
    ensures client.Valid() && !client.online && client.deviceSeq == w.first + 4
    ensures client.queue == old(client.queue) + BurstQueue(w)
    ensures client.submitted == old(client.submitted) + BurstQueue(w)
    ensures client.delivered == old(client.delivered) && client.posts == old(client.posts)
    ensures client.quiet == old(client.quiet)
  {
    hide IsSubseq, InOrder;
    var _ := client.Send(Scan(EmployeeCode(w.employee)), w.scanIds.0);
    var _ := client.Send(Scan(OperationCode(w.operation)), w.scanIds.1);
    var _ := client.Send(Scan(EmployeeCode(w.employee)), w.scanIds.2);
    var body := client.MakeEnvelope(ONE_GOOD, w.device + "-QTY");
    client.Enqueue(body);
    client.Enqueue(body);
  }

  method QueuePhase(kiosks: seq<Kiosk>, ws: seq<Worker>) returns (queued: nat, duplicates: nat)
    requires |kiosks| == |ws|
    requires forall i, j :: 0 <= i < j < |kiosks| ==> kiosks[i] != kiosks[j]
    requires forall i :: 0 <= i < |kiosks| ==>
               && kiosks[i].Valid() && kiosks[i].online
               && kiosks[i].deviceId == ws[i].device && kiosks[i].deviceSeq == ws[i].first
    modifies kiosks
    ensures queued == 4 * |ws| && duplicates == |ws|
    ensures forall i :: 0 <= i < |kiosks| ==>
              kiosks[i].Valid() && !kiosks[i].online && kiosks[i].queue == BurstQueue(ws[i])
    ensures forall i :: 0 <= i < |kiosks| ==>
              && kiosks[i].delivered == old(kiosks[i].delivered) && kiosks[i].quiet == old(kiosks[i].quiet)
              && kiosks[i].posts == old(kiosks[i].posts)
  {
    hide IsSubseq, InOrder;
    queued, duplicates := 0, 0;
    for i := 0 to |kiosks|
      invariant forall k :: 0 <= k < |kiosks| ==>
                  && kiosks[k].Valid() && kiosks[k].queue == [] && kiosks[k].deviceSeq == ws[k].first
                  && (kiosks[k].online <==> i <= k)
                  && kiosks[k].delivered == old(kiosks[k].delivered) && kiosks[k].quiet == old(kiosks[k].quiet)
                  && kiosks[k].posts == old(kiosks[k].posts)
    {
      kiosks[i].GoOffline();
    }
    for i := 0 to |kiosks|
      invariant queued == 4 * i && duplicates == i
      invariant forall k :: 0 <= k < |kiosks| ==>
                  && kiosks[k].Valid() && !kiosks[k].online
                  && kiosks[k].queue == (if k < i then BurstQueue(ws[k]) else [])
                  && (k >= i ==> kiosks[k].deviceSeq == ws[k].first)
                  && kiosks[k].delivered == old(kiosks[k].delivered) && kiosks[k].quiet == old(kiosks[k].quiet)
                  && kiosks[k].posts == old(kiosks[k].posts)
    {
      QueueShift(kiosks[i], ws[i]);
      queued, duplicates := queued + 4, duplicates + 1;
    }
  }

  /** How the convergence phase ends; it crashes on a device without results or an
      operation without a row. */
  datatype Verdict = Converged | Crashed | BrokenWorkers | WrongDoneQuantity | WrongSessionCount | BrokenInvariants

  predicate GoodReplies(results: seq<SendResult>) {
    forall k :: 0 <= k < |results| ==> results[k].Passed? && results[k].reply.Accepted()
  }

  const BURST_PREFIX := "QA-BURST-OP-"

  /** The operations the session query selects: those of every burst, by name. */
  function BurstOperations(operations: map<string, Operation>): set<string> {
    set code | code in operations && BURST_PREFIX <= code
  }

  ghost function SessionsOn(operations: map<string, Operation>, codes: set<string>): nat
    requires codes <= operations.Keys
  {
    if codes == {} then 0
    else
      var code :| code in codes;
      operations[code].sessions + SessionsOn(operations, codes - {code})
  }

  lemma {:induction false} SessionsWithout(operations: map<string, Operation>, codes: set<string>, code: string)
    requires codes <= operations.Keys && code in codes
    ensures SessionsOn(operations, codes) == operations[code].sessions + SessionsOn(operations, codes - {code})
    decreases codes
  {
    var first :| && first in codes
                 && SessionsOn(operations, codes)
                    == operations[first].sessions + SessionsOn(operations, codes - {first});
    if first != code {
      SessionsWithout(operations, codes - {first}, code);
      SessionsWithout(operations, codes - {code}, first);
      assert codes - {first} - {code} == codes - {code} - {first};
    }
  }

  method CountSessions(operations: map<string, Operation>) returns (count: nat)
    ensures count == SessionsOn(operations, BurstOperations(operations))
  {
    count := 0;
    var rest := BurstOperations(operations);
    while rest != {}
      invariant rest <= operations.Keys
      invariant count + SessionsOn(operations, rest) == SessionsOn(operations, BurstOperations(operations))
      decreases rest
    {
      var code :| code in rest;
      SessionsWithout(operations, rest, code);
      count, rest := count + operations[code].sessions, rest - {code};
    }
  }

  predicate AnyMissing(ws: seq<Worker>, results: map<string, seq<SendResult>>) {
    exists i :: 0 <= i < |ws| && ws[i].device !in results
  }

  predicate AnyBroken(ws: seq<Worker>, results: map<string, seq<SendResult>>)
    requires !AnyMissing(ws, results)
  {
    exists i :: 0 <= i < |ws| && !GoodReplies(results[ws[i].device])
  }

  predicate AnyRowless(s: Server, ws: seq<Worker>) {
    exists i :: 0 <= i < |ws| && ws[i].operation !in s.operations
  }

  predicate AnyWrong(s: Server, ws: seq<Worker>)
    requires !AnyRowless(s, ws)
  {
    exists i :: 0 <= i < |ws| && s.operations[ws[i].operation].done != 1
  }

  /** The checks of the phase, in order; `integrity` is the outcome of the domain
      invariant check. */
  ghost function Judged(s: Server, ws: seq<Worker>, results: map<string, seq<SendResult>>, integrity: bool): Verdict {
    if AnyMissing(ws, results) then Crashed
    else if AnyBroken(ws, results) then BrokenWorkers
    else if AnyRowless(s, ws) then Crashed
    else if AnyWrong(s, ws) then WrongDoneQuantity
    else if SessionsOn(s.operations, BurstOperations(s.operations)) != |ws| then WrongSessionCount
    else if !integrity then BrokenInvariants
    else Converged
  }

  method ConvergencePhase(s: Server, ws: seq<Worker>, results: map<string, seq<SendResult>>, integrity: bool)
    returns (v: Verdict)
    ensures v == Judged(s, ws, results, integrity)
  {
    var broken, wrong := false, false;
    for i := 0 to |ws|
      invariant forall k :: 0 <= k < i ==> ws[k].device in results
      invariant broken <==> exists k :: 0 <= k < i && !GoodReplies(results[ws[k].device])
    {
      if ws[i].device !in results {
        return Crashed;
      }
      if !GoodReplies(results[ws[i].device]) {
        broken := true;
      }
    }
    if broken {
      return BrokenWorkers;
    }
    for i := 0 to |ws|
      invariant forall k :: 0 <= k < i ==> ws[k].operation in s.operations
      invariant wrong <==> exists k :: 0 <= k < i && s.operations[ws[k].operation].done != 1
    {
      if ws[i].operation !in s.operations {
        return Crashed;
      }
      if s.operations[ws[i].operation].done != 1 {
        wrong := true;
      }
    }
    if wrong {
      return WrongDoneQuantity;
    }
    var count := CountSessions(s.operations);
    v := if count != |ws| then WrongSessionCount else if !integrity then BrokenInvariants else Converged;
  }

  // ------------------------------------------------- the phase after a burst

  ghost predicate NamedForBurst(ws: seq<Worker>) {
    forall i :: 0 <= i < |ws| ==> BURST_PREFIX <= ws[i].operation
  }

  function OperationsOf(ws: seq<Worker>): set<string> {
    set i | 0 <= i < |ws| :: ws[i].operation
  }

  lemma OtherOperationsStep(s: Server, w: Worker, p: nat, k: nat)
    requires Matches(s, w, p) && k < 4 && (k < p || k == p)
    ensures var t := Process(s, Event(w, k)).0;
            && t.operations.Keys == s.operations.Keys
            && forall code :: code in s.operations && code != w.operation ==> t.operations[code] == s.operations[code]
  {
  }

  /** The same operations, and those of no worker unchanged. */
  ghost predicate OthersSame(b: Server, a: Server, ws: seq<Worker>) {
    && a.operations.Keys == b.operations.Keys
    && forall code :: code in b.operations && code !in OperationsOf(ws) ==> a.operations[code] == b.operations[code]
  }

  lemma OthersSameTwice(b: Server, m: Server, a: Server, ws: seq<Worker>)
    requires OthersSame(b, m, ws) && OthersSame(m, a, ws)
    ensures OthersSame(b, a, ws)
  {
  }

  lemma OtherOperationsNext(s: Server, log: seq<Body>, b: Body, ws: seq<Worker>)
    requires Independent(ws) && Replaying(log + [b], ws) && AllMatch(s, ws, log)
    ensures OthersSame(s, Process(s, b).0, ws)
  {
    hide Process, Replaying, Independent, Event, Matches, Progress;
    EarlierIsReplaying(log, b, ws);
    var i, k :| 0 <= i < |ws| && 0 <= k < 4 && b == Event(ws[i], k);
    NextOrAgain(log, b, ws, i, k);
    OtherOperationsStep(s, ws[i], Progress(log, ws[i]), k);
    assert ws[i].operation in OperationsOf(ws);
  }

  /** A burst touches no operation but those of its workers. */
  lemma {:induction false} OtherOperationsStay(s: Server, log: seq<Body>, ws: seq<Worker>)
    requires Independent(ws) && Prepared(s, ws) && Replaying(log, ws)
    ensures OthersSame(s, Run(s, log), ws)
    decreases |log|
  {
    if log == [] {
      assert Run(s, log) == s;
    } else {
      var before, b := log[..|log| - 1], log[|log| - 1];
      assert before + [b] == log;
      RunOne(s, before, b);
      hide Process, Run, Replaying, Prepared, Independent, AllMatch, OthersSame;
      EarlierIsReplaying(before, b, ws);
      OtherOperationsStay(s, before, ws);
      ReplayIsFollowed(s, before, ws);
      OtherOperationsNext(Run(s, before), before, b, ws);
      OthersSameTwice(s, Run(s, before), Run(s, log), ws);
    }
  }

  lemma {:induction false} SessionsOfUnion(operations: map<string, Operation>, a: set<string>, b: set<string>)
    requires a + b <= operations.Keys && a !! b
    ensures SessionsOn(operations, a + b) == SessionsOn(operations, a) + SessionsOn(operations, b)
    decreases a
  {
    if a == {} {
      assert a + b == b;
    } else {
      var code :| code in a;
      SessionsWithout(operations, a + b, code);
      SessionsWithout(operations, a, code);
      assert a + b - {code} == (a - {code}) + b;
      SessionsOfUnion(operations, a - {code}, b);
    }
  }

  lemma {:induction false} OneSessionEach(operations: map<string, Operation>, codes: set<string>)
    requires codes <= operations.Keys && forall code :: code in codes ==> operations[code].sessions == 1
    ensures SessionsOn(operations, codes) == |codes|
    decreases codes
  {
    if code :| code in codes {
      SessionsWithout(operations, codes, code);
      OneSessionEach(operations, codes - {code});
    }
  }

  lemma {:induction false} NoSessionsExactlyWhen(operations: map<string, Operation>, codes: set<string>)
    requires codes <= operations.Keys
    ensures SessionsOn(operations, codes) == 0 <==> forall code :: code in codes ==> operations[code].sessions == 0
    decreases codes
  {
    if first :| first in codes {
      SessionsWithout(operations, codes, first);
      NoSessionsExactlyWhen(operations, codes - {first});
      assert forall code :: code in codes ==> code == first || code in codes - {first};
    }
  }

  lemma {:induction false} DistinctOperations(ws: seq<Worker>)
    requires forall i, j :: 0 <= i < |ws| && 0 <= j < |ws| && i != j ==> ws[i].operation != ws[j].operation
    ensures |OperationsOf(ws)| == |ws|
  {
    if ws == [] {
      assert OperationsOf(ws) == {};
    } else {
      var front := ws[..|ws| - 1];
      DistinctOperations(front);
      assert OperationsOf(ws) == OperationsOf(front) + {ws[|ws| - 1].operation};
    }
  }

  /** What a device is answered along a log, in its own order, when every post gets
      through. */
  function ResultsOn(s: Server, log: seq<Body>, device: string): seq<SendResult> {
    if log == [] then []
    else
      var before, b := log[..|log| - 1], log[|log| - 1];
      ResultsOn(s, before, device) +
      if b.deviceId == device then [Passed(Process(Run(s, before), b).1)] else []
  }

  lemma ResultsNext(s: Server, log: seq<Body>, b: Body, device: string)
    ensures ResultsOn(s, log + [b], device)
         == ResultsOn(s, log, device) + if b.deviceId == device then [Passed(Process(Run(s, log), b).1)] else []
  {
    assert (log + [b])[..|log|] == log;
    hide Process, Run;
  }

  lemma {:induction false} ResultsAreGood(s: Server, log: seq<Body>, ws: seq<Worker>, device: string)
    requires Independent(ws) && Prepared(s, ws) && Replaying(log, ws)
    ensures GoodReplies(ResultsOn(s, log, device))
    decreases |log|
  {
    if log != [] {
      var before, b := log[..|log| - 1], log[|log| - 1];
      assert before + [b] == log;
      hide Process, Run, Replaying, Prepared, Independent, ResultsOn, GoodReplies, Reply.Accepted;
      NextReplyAccepts(s, before, b, ws);
      ResultsAreGood(s, before, ws, device);
      OneMoreGood(s, before, b, device);
    } else {
      assert GoodReplies([]);
    }
  }

  lemma NextReplyAccepts(s: Server, log: seq<Body>, b: Body, ws: seq<Worker>)
    requires Independent(ws) && Prepared(s, ws) && Replaying(log + [b], ws)
    ensures Process(Run(s, log), b).1.Accepted() && Replaying(log, ws)
  {
    hide Process, Run, Replaying, Prepared, Independent, AllMatch;
    EarlierIsReplaying(log, b, ws);
    ReplayIsFollowed(s, log, ws);
    ReplayStep(Run(s, log), log, b, ws);
  }

  lemma OneMoreGood(s: Server, log: seq<Body>, b: Body, device: string)
    requires GoodReplies(ResultsOn(s, log, device)) && Process(Run(s, log), b).1.Accepted()
    ensures GoodReplies(ResultsOn(s, log + [b], device))
  {
    ResultsNext(s, log, b, device);
    hide Process, Run, ResultsOn, Reply.Accepted;
  }

  lemma BurstOperationsSplit(operations: map<string, Operation>, before: map<string, Operation>, ws: seq<Worker>)
    requires operations.Keys == before.Keys && NamedForBurst(ws)
    requires forall i :: 0 <= i < |ws| ==> ws[i].operation in operations
    ensures BurstOperations(operations) == OperationsOf(ws) + (BurstOperations(before) - OperationsOf(ws))
    ensures OperationsOf(ws) <= operations.Keys
  {
  }

  lemma SessionsAfterBurst(s: Server, log: seq<Body>, ws: seq<Worker>)
    requires Independent(ws) && NamedForBurst(ws) && Prepared(s, ws) && Interleaves(log, ws)
    ensures var others := BurstOperations(s.operations) - OperationsOf(ws);
            var operations := Run(s, log).operations;
            && others <= operations.Keys
            && SessionsOn(operations, BurstOperations(operations)) == |ws| + SessionsOn(operations, others)
            && forall code :: code in others ==> operations[code] == s.operations[code]
  {
    var operations, mine := Run(s, log).operations, OperationsOf(ws);
    var others := BurstOperations(s.operations) - mine;
    DistinctOperations(ws);
    hide Run, Independent, Prepared, Interleaves, ReplyTo, StateOf, Replaying, Event, SessionsOn;
    InterleavingIsReplaying(log, ws);
    OtherOperationsStay(s, log, ws);
    BurstConverges(s, log, ws);
    BurstOperationsSplit(operations, s.operations, ws);
    OneSessionEach(operations, mine);
    SessionsOfUnion(operations, mine, others);
  }

  /** No operation of any other burst has a session. */
  ghost predicate NoOtherBurst(s: Server, ws: seq<Worker>) {
    forall code :: code in s.operations && BURST_PREFIX <= code && code !in OperationsOf(ws) ==>
      s.operations[code].sessions == 0
  }

  /** When every post gets through, the convergence phase passes for every
      interleaving exactly when the domain invariants hold and no operation of any
      other burst has a session. */
  lemma ConvergencePhasePasses(s: Server, log: seq<Body>, ws: seq<Worker>, results: map<string, seq<SendResult>>,
                               integrity: bool)
    requires Independent(ws) && NamedForBurst(ws) && Prepared(s, ws) && Interleaves(log, ws)
    requires forall i :: 0 <= i < |ws| ==>
               ws[i].device in results && results[ws[i].device] == ResultsOn(s, log, ws[i].device)
    ensures Judged(Run(s, log), ws, results, integrity) == Converged <==> integrity && NoOtherBurst(s, ws)
  {
    InterleavingIsReplaying(log, ws);
    forall i | 0 <= i < |ws|
      ensures GoodReplies(results[ws[i].device])
    {
      ResultsAreGood(s, log, ws, ws[i].device);
    }
    BurstConverges(s, log, ws);
    SessionsAfterBurst(s, log, ws);
    hide Run, Independent, Prepared, Interleaves, ReplyTo, StateOf, Replaying, SessionsOn, GoodReplies, NamedForBurst,
         ResultsOn;
    var t, others := Run(s, log), BurstOperations(s.operations) - OperationsOf(ws);
    NoSessionsExactlyWhen(t.operations, others);
    assert !AnyMissing(ws, results) && !AnyBroken(ws, results) && !AnyRowless(t, ws) && !AnyWrong(t, ws);
  }
}
