/** The kiosk device: sequence numbers, the local queue while offline and the
    replay on reconnect (`qualification/kiosk_emulator.py`, `KioskV2Client`). */
module KioskClient {
  import opened Subsequences
  import opened Wrappers

  /** A scanned code after parsing. */
  datatype Code = EmployeeCode(id: string) | OperationCode(id: string) | Garbage

  /** Quantities are `None` when the submitted text is not an integer. */
  datatype Payload =
    | Scan(code: Code)
    | Quantity(good: Option<int>, defect: Option<int>, rework: Option<int>)

  datatype Body = Body(deviceId: string, eventId: string, deviceSeq: nat, payload: Payload)

  datatype DeviceState =
    | WaitEmployee
    | WaitOperation(employee: string)
    | SessionActive(employee: string, operation: string)
    | QuantityInput(employee: string, operation: string)

  datatype Rejection =
    | EmployeeNotFound
    | OperationNotFound
    | OperationNotWorkable
    | BusinessConflict
    | InvalidTransition
    | QuantityInvalid
    | KeyReuseMismatch

  datatype Reply = Reply(rejection: Option<Rejection>, state: DeviceState) {
    predicate Accepted() { rejection.None? }
  }

  /** What one HTTP post comes to.  A post that raises may still have reached
      the server. */
  datatype Outcome =
    | Raises(delivered: bool)
    | Answers(ok: bool, reply: Reply, hasState: bool)

  predicate Arrives(o: Outcome) {
    o.Answers? || o.delivered
  }

  datatype SendResult = Queued(size: nat) | Passed(reply: Reply) | HttpError(reply: Reply) | Exception

  function ResultOf(o: Outcome): SendResult {
    if o.Raises? then Exception else if o.ok then Passed(o.reply) else HttpError(o.reply)
  }

  predicate InOrder(bodies: seq<Body>, last: nat) {
    && (forall i, j :: 0 <= i <= j < |bodies| ==> bodies[i].deviceSeq <= bodies[j].deviceSeq)
    && (forall i :: 0 <= i < |bodies| ==> bodies[i].deviceSeq <= last)
  }

  /** Numbers of the posts of a replay that go through before the first one that
      raises. */
  function Unbroken(net: nat -> Outcome, from: nat, count: nat): (k: nat)
    ensures k <= count
    ensures forall i :: from <= i < from + k ==> net(i).Answers?
    ensures k < count ==> net(from + k).Raises?
    decreases count
  {
    if count == 0 || net(from).Raises? then 0 else 1 + Unbroken(net, from + 1, count - 1)
  }

  /** The bodies of a replay that reach the server. */
  function ReplayReaches(net: nat -> Outcome, from: nat, pending: seq<Body>): seq<Body> {
    var k := Unbroken(net, from, |pending|);
    if k < |pending| && Arrives(net(from + k)) then pending[..k + 1] else pending[..k]
  }

  /** Nothing of a replay fails to reach the server exactly when no post raises, or
      only the very last one does and had got there.  A post answered with an HTTP
      error counts as delivered here: the device drops that body too, and what the
      server made of it is the server's business. */
  lemma ReplayLosesNothing(net: nat -> Outcome, from: nat, pending: seq<Body>)
    ensures var k := Unbroken(net, from, |pending|);
            ReplayReaches(net, from, pending) == pending
            <==> k == |pending| || (k == |pending| - 1 && Arrives(net(from + k)))
  {
  }

  /** What is left of bodies in sequence order is in sequence order; with
      `Kiosk.Valid` it says so of the bodies delivered and queued. */
  lemma {:induction false} SubseqKeepsOrder(a: seq<Body>, b: seq<Body>, last: nat)
    requires IsSubseq(a, b) && InOrder(b, last)
    ensures InOrder(a, last)
    decreases |b|
  {
    if a != [] && b != [] {
      assert InOrder(b[1..], last);
      if a[0] == b[0] && IsSubseq(a[1..], b[1..]) {
        SubseqKeepsOrder(a[1..], b[1..], last);
        SubseqMembers(a[1..], b[1..]);
        assert forall j :: 1 <= j < |a| ==> a[j] == a[1..][j - 1];
        forall j | 1 <= j < |a|
          ensures a[0].deviceSeq <= a[j].deviceSeq
        {
          assert a[1..][j - 1] in b[1..];
        }
      } else {
        SubseqKeepsOrder(a, b[1..], last);
      }
    }
  }

  lemma {:induction false} SubseqMembers(a: seq<Body>, b: seq<Body>)
    requires IsSubseq(a, b)
    ensures forall x :: x in a ==> x in b
    decreases |b|
  {
    if a != [] && b != [] {
      if a[0] == b[0] && IsSubseq(a[1..], b[1..]) {
        SubseqMembers(a[1..], b[1..]);
        assert a == [a[0]] + a[1..];
      } else {
        SubseqMembers(a, b[1..]);
      }
    }
  }

  lemma PrefixIsSubseq(before: seq<Body>, reached: seq<Body>, pending: seq<Body>)
    requires reached <= pending
    ensures IsSubseq(before + reached, before + pending)
  {
    var all := before + pending;
    var cut := |before| + |reached|;
    CutIsSubseq(all, cut, |all|);
    assert before + reached == all[..cut] + all[|all|..];
  }

  lemma SubmitOne(kept: seq<Body>, submitted: seq<Body>, last: nat, body: Body)
    requires IsSubseq(kept, submitted) && InOrder(submitted, last) && last <= body.deviceSeq
    ensures IsSubseq(kept, submitted + [body]) && IsSubseq(kept + [body], submitted + [body])
    ensures InOrder(submitted + [body], body.deviceSeq)
  {
    SubseqRefl([body]);
    SubseqAppend(kept, submitted, [body], [body]);
    SubseqAppend(kept, submitted, [], [body]);
    assert kept + [] == kept;
  }

  /** `submitted` lists every body handed to the device, `delivered` every body
      that reached the server, and `quiet` says that no post has raised. */
  class Kiosk {
    const deviceId: string
    var online: bool
    var queue: seq<Body>
    var deviceSeq: nat
    var lastState: Option<DeviceState>
    var posts: nat
    const net: nat -> Outcome
    ghost var submitted: seq<Body>
    ghost var delivered: seq<Body>
    ghost var quiet: bool

    /** Online means nothing is waiting; nothing is ever invented, duplicated by
        the device or reordered; and until a post raises nothing is lost. */
    ghost predicate Valid()
      reads this
    {
      && (online ==> queue == [])
      && IsSubseq(delivered + queue, submitted)
      && (quiet ==> delivered + queue == submitted)
      && InOrder(submitted, deviceSeq)
    }

    constructor (deviceId: string, net: nat -> Outcome)
      ensures Valid() && online && queue == [] && deviceSeq == 0 && lastState == None
      ensures submitted == [] && delivered == [] && quiet
      ensures this.deviceId == deviceId && this.net == net && posts == 0
    {
      this.deviceId, this.net, posts := deviceId, net, 0;
      online, queue, deviceSeq, lastState := true, [], 0, None;
      submitted, delivered, quiet := [], [], true;
    }

    method MakeEnvelope(payload: Payload, eventId: string) returns (body: Body)
      modifies `deviceSeq
      ensures old(Valid()) ==> Valid()
      ensures deviceSeq == old(deviceSeq) + 1
      ensures body == Body(deviceId, eventId, deviceSeq, payload)
    {
      deviceSeq := deviceSeq + 1;
      body := Body(deviceId, eventId, deviceSeq, payload);
    }

    method Post(body: Body) returns (r: SendResult)
      modifies `lastState, `posts, `delivered, `quiet
      ensures posts == old(posts) + 1
      ensures r == ResultOf(net(old(posts)))
      ensures delivered == if Arrives(net(old(posts))) then old(delivered) + [body] else old(delivered)
      ensures quiet == (old(quiet) && net(old(posts)).Answers?)
      ensures lastState == if net(old(posts)).Answers? && net(old(posts)).hasState
                           then Some(net(old(posts)).reply.state) else old(lastState)
    {
      var o := net(posts);
      posts := posts + 1;
      if Arrives(o) {
        delivered := delivered + [body];
      }
      if o.Raises? {
        quiet := false;
      } else if o.hasState {
        lastState := Some(o.reply.state);
      }
      r := ResultOf(o);
    }

    /** Online the body is posted at once; offline it goes to the end of the
        queue.  Either way it takes the next sequence number. */
    method Send(payload: Payload, eventId: string) returns (r: SendResult)
      requires Valid()
      modifies this
      ensures Valid() && online == old(online) && deviceSeq == old(deviceSeq) + 1
      ensures submitted == old(submitted) + [Body(deviceId, eventId, deviceSeq, payload)]
      ensures !online ==> queue == old(queue) + [Body(deviceId, eventId, deviceSeq, payload)]
      ensures !online ==>
                r == Queued(|queue|) && delivered == old(delivered) && posts == old(posts) && quiet == old(quiet)
      ensures online ==> r == ResultOf(net(old(posts)))
    {
      hide IsSubseq, InOrder;
      var body := MakeEnvelope(payload, eventId);
      ghost var kept := delivered + queue;
      SubmitOne(kept, submitted, old(deviceSeq), body);
      submitted := submitted + [body];
      if !online {
        queue := queue + [body];
        assert delivered + queue == kept + [body];
        return Queued(|queue|);
      }
      r := Post(body);
      assert queue == [];
      assert delivered + queue == if Arrives(net(old(posts))) then kept + [body] else kept;
    }

    /** A body put straight into the queue, as the burst does with the envelope
        it has just made. */
    method Enqueue(body: Body)
      requires Valid() && !online && body.deviceSeq == deviceSeq
      modifies `queue, `submitted
      ensures Valid() && queue == old(queue) + [body] && submitted == old(submitted) + [body]
    {
      SubmitOne(delivered + queue, submitted, deviceSeq, body);
      hide IsSubseq, InOrder;
      ghost var kept := delivered + queue;
      submitted := submitted + [body];
      queue := queue + [body];
      assert delivered + queue == kept + [body];
    }

    method GoOffline()
      requires Valid()
      modifies `online
      ensures Valid() && !online
    {
      online := false;
    }

    method PostAll(pending: seq<Body>) returns (raised: bool, results: seq<SendResult>)
      modifies `lastState, `posts, `delivered, `quiet
      ensures delivered == old(delivered) + ReplayReaches(net, old(posts), pending)
      ensures raised <==> Unbroken(net, old(posts), |pending|) < |pending|
      ensures quiet == (old(quiet) && !raised)
      ensures !raised ==> |results| == |pending|
      ensures !raised ==> forall i :: 0 <= i < |results| ==> results[i] == ResultOf(net(old(posts) + i))
    {
      hide Unbroken;
      ghost var before, first := delivered, posts;
      ghost var k := Unbroken(net, first, |pending|);
      raised, results := false, [];
      var i := 0;
      while i < |pending|
        invariant i <= k && posts == first + i && |results| == i
        invariant delivered == before + pending[..i]
        invariant quiet == old(quiet)
        invariant forall j :: 0 <= j < i ==> results[j] == ResultOf(net(first + j))
      {
        assert pending[..i + 1] == pending[..i] + [pending[i]];
        var r := Post(pending[i]);
        if r == Exception {
          raised := true;
          break;
        }
        results := results + [r];
        i := i + 1;
      }
    }

    /** Posts the queue in order.  A post that raises ends the replay, and the
        queue has already been emptied: what was still pending is gone.  Nothing
        is lost exactly when the posts that reach the server are all of it. */
    method ReconnectAndReplay() returns (raised: bool, results: seq<SendResult>)
      requires Valid()
      modifies this
      ensures Valid() && online && queue == [] && submitted == old(submitted) && deviceSeq == old(deviceSeq)
      ensures delivered == old(delivered) + ReplayReaches(net, old(posts), old(queue))
      ensures raised <==> Unbroken(net, old(posts), |old(queue)|) < |old(queue)|
      ensures quiet == (old(quiet) && !raised)
      ensures !raised ==> |results| == |old(queue)| && delivered == old(delivered + queue)
      ensures !raised ==> forall i :: 0 <= i < |results| ==> results[i] == ResultOf(net(old(posts) + i))
      ensures old(quiet) ==> (delivered == submitted <==> ReplayReaches(net, old(posts), old(queue)) == old(queue))
    {
      hide IsSubseq, InOrder, Unbroken;
      ghost var before, reached := delivered, ReplayReaches(net, posts, queue);
      online := true;
      var pending := queue;
      queue := [];
      raised, results := PostAll(pending);
      PrefixIsSubseq(before, reached, pending);
      SubseqTrans(delivered, before + pending, submitted);
      assert delivered + queue == delivered;
      assert delivered[|before|..] == reached && (before + pending)[|before|..] == pending;
    }

    method Bootstrap() returns (r: SendResult)
      requires Valid()
      modifies `lastState, `posts
      ensures Valid() && posts == old(posts) + 1
      ensures r == ResultOf(net(old(posts)))
      ensures lastState == if net(old(posts)).Answers? && net(old(posts)).hasState
                           then Some(net(old(posts)).reply.state) else old(lastState)
    {
      var o := net(posts);
      posts := posts + 1;
      if o.Answers? && o.hasState {
        lastState := Some(o.reply.state);
      }
      r := ResultOf(o);
    }
  }
}
