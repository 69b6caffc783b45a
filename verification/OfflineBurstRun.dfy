/** The burst from end to end: the queues of the first phase, replayed by one
    thread per kiosk, judged by the last phase (`qualification/offline_burst.py`). */
module OfflineBurstRun {
  import opened Subsequences
  import opened KioskClient
  import opened KioskServer
  import opened OfflineBurst

  // -------------------------------------------------- one kiosk's replay

  /** What `count` posts in a row come to. */
  function Answered(net: nat -> Outcome, from: nat, count: nat): (r: seq<SendResult>)
    ensures |r| == count && forall i :: 0 <= i < count ==> r[i] == ResultOf(net(from + i))
  {
    seq(count, i requires 0 <= i => ResultOf(net(from + i)))
  }

  lemma {:induction false} OneResultEach(s: Server, log: seq<Body>, device: string)
    ensures |ResultsOn(s, log, device)| == |OnDevice(log, device)|
    ensures forall k :: 0 <= k < |ResultsOn(s, log, device)| ==> ResultsOn(s, log, device)[k].Passed?
    decreases |log|
  {
    if log != [] {
      OneResultEach(s, log[..|log| - 1], device);
      hide Process, Run;
    }
  }

  lemma {:induction false} AnswersDoNotBreak(net: nat -> Outcome, from: nat, count: nat)
    requires forall k :: from <= k < from + count ==> net(k).Answers?
    ensures Unbroken(net, from, count) == count
    decreases count
  {
    if count > 0 {
      AnswersDoNotBreak(net, from + 1, count - 1);
    }
  }

  /** A kiosk as its replay finds it. */
  datatype Start = Start(device: string, net: nat -> Outcome, posts: nat, pending: seq<Body>, delivered: seq<Body>)
  {
    predicate Breaks() { Unbroken(net, posts, |pending|) < |pending| }

    function Reached(): seq<Body> { delivered + ReplayReaches(net, posts, pending) }

    function Results(): seq<SendResult> { Answered(net, posts, |pending|) }
  }

  /** The pending posts are answered as the server answers the device along the log. */
  ghost predicate AnsweredAlong(x: Start, s: Server, log: seq<Body>) {
    x.pending == OnDevice(log, x.device) && x.Results() == ResultsOn(s, log, x.device)
  }

  /** A device that is answered along the log delivers its whole queue. */
  lemma AnsweredReplayArrives(x: Start, s: Server, log: seq<Body>)
    requires AnsweredAlong(x, s, log)
    ensures !x.Breaks() && x.Reached() == x.delivered + OnDevice(log, x.device)
  {
    OneResultEach(s, log, x.device);
    forall k | x.posts <= k < x.posts + |x.pending|
      ensures x.net(k).Answers?
    {
      assert x.Results()[k - x.posts] == ResultOf(x.net(x.posts + (k - x.posts)));
    }
    AnswersDoNotBreak(x.net, x.posts, |x.pending|);
  }

  // -------------------------------------------------- the order of arrival

  /** The log is a merge of the workers' queues: whatever it holds comes from one of
      the devices, and on each device it is that device's queue, in its order. */
  ghost predicate Merges(log: seq<Body>, ws: seq<Worker>) {
    && (forall k :: 0 <= k < |log| ==> exists i :: 0 <= i < |ws| && ws[i].device == log[k].deviceId)
    && (forall i :: 0 <= i < |ws| ==> OnDevice(log, ws[i].device) == BurstQueue(ws[i]))
  }

  lemma {:induction false} OnDeviceHolds(log: seq<Body>, k: nat)
    requires k < |log|
    ensures log[k] in OnDevice(log, log[k].deviceId)
    decreases |log|
  {
    if k < |log| - 1 {
      OnDeviceHolds(log[..|log| - 1], k);
    }
  }

  lemma MergeInterleaves(log: seq<Body>, ws: seq<Worker>)
    requires Merges(log, ws)
    ensures Interleaves(log, ws)
  {
    hide Event, OnDevice;
    forall k | 0 <= k < |log|
      ensures FromSomeShift(log[k], ws)
    {
      OnDeviceHolds(log, k);
      var i :| 0 <= i < |ws| && ws[i].device == log[k].deviceId;
      var n :| 0 <= n < 5 && BurstQueue(ws[i])[n] == log[k];
      assert log[k] == Event(ws[i], if n < 4 then n else 3);
    }
  }

  // ------------------------------------------------------------- the phases

  ghost function StartOf(kiosk: Kiosk): Start
    reads kiosk
  {
    Start(kiosk.deviceId, kiosk.net, kiosk.posts, kiosk.queue, kiosk.delivered)
  }

  ghost predicate StartsOf(kiosks: seq<Kiosk>, starts: seq<Start>)
    reads kiosks
  {
    |starts| == |kiosks| && forall i :: 0 <= i < |kiosks| ==> starts[i] == StartOf(kiosks[i])
  }

  ghost predicate Drained(kiosk: Kiosk, start: Start)
    reads kiosk
  {
    kiosk.Valid() && kiosk.online && kiosk.queue == [] && kiosk.delivered == start.Reached()
  }

  ghost predicate SomeBreaks(starts: seq<Start>) {
    exists i :: 0 <= i < |starts| && starts[i].Breaks()
  }

  /** The results of the kiosks before the first one that breaks, and no others. */
  ghost predicate Collected(starts: seq<Start>, results: map<string, seq<SendResult>>) {
    && (forall i :: 0 <= i < |starts| ==> (starts[i].device in results <==> !SomeBreaks(starts[..i + 1])))
    && (forall i :: 0 <= i < |starts| && starts[i].device in results ==>
          results[starts[i].device] == starts[i].Results())
  }

  lemma SomeBreaksNext(starts: seq<Start>, x: Start)
    ensures SomeBreaks(starts + [x]) <==> SomeBreaks(starts) || x.Breaks()
  {
    if SomeBreaks(starts) {
      var i :| 0 <= i < |starts| && starts[i].Breaks();
      assert (starts + [x])[i].Breaks();
    }
    assert (starts + [x])[|starts|] == x;
  }

  lemma CollectNext(starts: seq<Start>, results: map<string, seq<SendResult>>, x: Start)
    requires Collected(starts, results) && x.device !in results
    requires forall i :: 0 <= i < |starts| ==> starts[i].device != x.device
    ensures Collected(starts + [x], if SomeBreaks(starts + [x]) then results else results[x.device := x.Results()])
  {
    var longer := starts + [x];
    hide SomeBreaks, Start.Results;
    var now := if SomeBreaks(longer) then results else results[x.device := x.Results()];
    assert longer[..|longer|] == longer;
    forall i | 0 <= i < |longer|
      ensures longer[i].device in now <==> !SomeBreaks(longer[..i + 1])
      ensures longer[i].device in now ==> now[longer[i].device] == longer[i].Results()
    {
      if i < |starts| {
        assert longer[..i + 1] == starts[..i + 1] && longer[i] == starts[i];
      }
    }
  }

  /** One thread per kiosk, and a result for every kiosk before the first whose
      replay raises: the pool hands results back in the order of the kiosks. */
  method ReconnectPhase(kiosks: seq<Kiosk>, ghost starts: seq<Start>)
    returns (raised: bool, results: map<string, seq<SendResult>>)
    requires forall i, j :: 0 <= i < j < |kiosks| ==>
               kiosks[i] != kiosks[j] && kiosks[i].deviceId != kiosks[j].deviceId
    requires StartsOf(kiosks, starts) && forall i :: 0 <= i < |kiosks| ==> kiosks[i].Valid()
    modifies kiosks
    ensures forall i :: 0 <= i < |kiosks| ==> Drained(kiosks[i], starts[i])
    ensures raised <==> SomeBreaks(starts)
    ensures Collected(starts, results)
  {
    raised, results := false, map[];
    hide SomeBreaks, Collected, Kiosk.Valid, Unbroken, ReplayReaches;
    NothingCollected();
    assert starts[..0] == [];
    for i := 0 to |kiosks|
      invariant forall k :: 0 <= k < i ==> Drained(kiosks[k], starts[k])
      invariant forall k :: i <= k < |kiosks| ==> kiosks[k].Valid() && starts[k] == StartOf(kiosks[k])
      invariant results.Keys <= set k | 0 <= k < i :: kiosks[k].deviceId
      invariant raised <==> SomeBreaks(starts[..i])
      invariant Collected(starts[..i], results)
    {
      ghost var start := starts[i];
      assert starts[..i + 1] == starts[..i] + [start];
      SomeBreaksNext(starts[..i], start);
      CollectNext(starts[..i], results, start);
      var failed, replay := ReplayOne(kiosks[i], start);
      raised := raised || failed;
      if !raised {
        results := results[kiosks[i].deviceId := replay];
      }
    }
    assert starts[..|kiosks|] == starts;
  }

  lemma NothingCollected()
    ensures !SomeBreaks([]) && Collected([], map[])
  {
  }

  method ReplayOne(kiosk: Kiosk, ghost start: Start) returns (failed: bool, replay: seq<SendResult>)
    requires kiosk.Valid() && start == StartOf(kiosk)
    modifies kiosk
    ensures Drained(kiosk, start)
    ensures failed <==> start.Breaks()
    ensures !failed ==> replay == start.Results()
  {
    failed, replay := kiosk.ReconnectAndReplay();
    hide *;
    assert !failed ==> replay == start.Results();
  }

  // ------------------------------------------------------ from end to end

  /** The kiosks hold the workers' queues. */
  ghost predicate Queued(starts: seq<Start>, ws: seq<Worker>) {
    && |starts| == |ws|
    && forall i :: 0 <= i < |ws| ==> starts[i].device == ws[i].device && starts[i].pending == BurstQueue(ws[i])
  }

  /** A kiosk whose replay raises has no results, and the last phase crashes on it. */
  lemma BrokenBurstCrashes(starts: seq<Start>, ws: seq<Worker>, results: map<string, seq<SendResult>>,
                           rows: Server, integrity: bool)
    requires Queued(starts, ws) && Collected(starts, results) && SomeBreaks(starts)
    ensures Judged(rows, ws, results, integrity) == Crashed
  {
    var last := |starts| - 1;
    assert starts[..last + 1] == starts;
    assert ws[last].device !in results;
    hide SomeBreaks, Collected;
  }

  /** Kiosks that hold their burst queues, are answered along a merge of them and
      hand in what they got: everything is delivered and the verdict is exact. */
  lemma AnsweredBurstConverges(starts: seq<Start>, ws: seq<Worker>, results: map<string, seq<SendResult>>,
                               s: Server, log: seq<Body>, integrity: bool)
    requires Independent(ws) && NamedForBurst(ws) && Prepared(s, ws) && Merges(log, ws)
    requires Queued(starts, ws) && Collected(starts, results)
    requires forall i :: 0 <= i < |starts| ==> AnsweredAlong(starts[i], s, log)
    ensures forall i :: 0 <= i < |starts| ==> starts[i].Reached() == starts[i].delivered + BurstQueue(ws[i])
    ensures Judged(Run(s, log), ws, results, integrity) == Converged <==> integrity && NoOtherBurst(s, ws)
  {
    hide Run, Prepared, Independent, NamedForBurst, Judged, BurstQueue, Interleaves;
    MergeInterleaves(log, ws);
    forall i | 0 <= i < |starts|
      ensures !starts[i].Breaks() && starts[i].Reached() == starts[i].delivered + BurstQueue(ws[i])
    {
      AnsweredReplayArrives(starts[i], s, log);
    }
    forall i | 0 <= i < |ws|
      ensures ws[i].device in results && results[ws[i].device] == ResultsOn(s, log, ws[i].device)
    {
      assert AnsweredAlong(starts[i], s, log) && !SomeBreaks(starts[..i + 1]);
      assert starts[i].device in results;
    }
    ConvergencePhasePasses(s, log, ws, results, integrity);
  }

  /** The three phases in a row; `rows` is what the tables hold at the end and
      `integrity` what the domain invariant check says of them.  Whatever the network
      does, the queues end empty, and the verdict is a crash if a replay raised.  If
      every kiosk is answered as the server answers it along some merge of the
      queues, and `rows` is where that log leaves the server, everything is delivered
      in order and the verdict is Converged exactly when the invariants hold and no
      other burst has left a session. */
  method RunBurst(kiosks: seq<Kiosk>, ws: seq<Worker>, rows: Server, integrity: bool,
                  ghost starts: seq<Start>, ghost s: Server, ghost log: seq<Body>)
    returns (v: Verdict)
    requires |kiosks| == |ws| && Independent(ws)
    requires forall i, j :: 0 <= i < j < |kiosks| ==> kiosks[i] != kiosks[j]
    requires forall i :: 0 <= i < |kiosks| ==>
               && kiosks[i].Valid() && kiosks[i].online
               && kiosks[i].deviceId == ws[i].device && kiosks[i].deviceSeq == ws[i].first
    requires |starts| == |ws| && forall i :: 0 <= i < |ws| ==>
               starts[i] == StartOf(kiosks[i]).(pending := BurstQueue(ws[i]))
    modifies kiosks
    ensures forall i :: 0 <= i < |kiosks| ==> Drained(kiosks[i], starts[i])
    ensures SomeBreaks(starts) ==> v == Crashed
    ensures Prepared(s, ws) && NamedForBurst(ws) && Merges(log, ws) && rows == Run(s, log)
            && (forall i :: 0 <= i < |ws| ==> AnsweredAlong(starts[i], s, log)) ==>
              && (forall i :: 0 <= i < |ws| ==>
                    kiosks[i].queue == [] && kiosks[i].delivered == old(kiosks[i].delivered) + BurstQueue(ws[i]))
              && (v == Converged <==> integrity && NoOtherBurst(s, ws))
  {
    hide Kiosk.Valid, Event, BurstQueue, Run, Prepared, NamedForBurst, Merges, Start.Results, Start.Breaks, SomeBreaks;
    hide Collected, NoOtherBurst, Judged, Start.Reached, AnsweredAlong;
    var _, _ := QueuePhase(kiosks, ws);
    var raised, results := ReconnectPhase(kiosks, starts);
    v := ConvergencePhase(rows, ws, results, integrity);
    if raised {
      BrokenBurstCrashes(starts, ws, results, rows, integrity);
    }
    if Prepared(s, ws) && NamedForBurst(ws) && Merges(log, ws) && rows == Run(s, log)
       && forall i :: 0 <= i < |ws| ==> AnsweredAlong(starts[i], s, log)
    {
      AnsweredBurstConverges(starts, ws, results, s, log, integrity);
    }
  }
}
