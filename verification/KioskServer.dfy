/** The server contract that the kiosk scenarios assert
    (`qualification/kiosk_emulator.py`): device states, rejections, and replies
    cached per event id. */
module KioskServer {
  import opened Wrappers
  import opened KioskClient

  /** One row of `operations` with the sessions opened on it. */
  datatype Operation = Operation(workable: bool, done: int, defect: int, rework: int, sessions: nat, busy: bool)

  /** `working` holds the employees with an open session; `seen` the reply given
      to each event id and the body it was given for. */
  datatype Server = Server(
    employees: set<string>,
    operations: map<string, Operation>,
    devices: map<string, DeviceState>,
    working: set<string>,
    seen: map<string, (Body, Reply)>)

  function StateOf(s: Server, device: string): DeviceState {
    if device in s.devices then s.devices[device] else WaitEmployee
  }

  function Refuse(s: Server, device: string, why: Rejection): (Server, Reply) {
    (s, Reply(Some(why), StateOf(s, device)))
  }

  function MoveTo(s: Server, device: string, state: DeviceState): (Server, Reply) {
    (s.(devices := s.devices[device := state]), Reply(None, state))
  }

  function OpenSession(s: Server, device: string, employee: string, operation: string): (Server, Reply) {
    if operation !in s.operations then Refuse(s, device, OperationNotFound)
    else
      var o := s.operations[operation];
      if !o.workable then Refuse(s, device, OperationNotWorkable)
      else if o.busy || employee in s.working then Refuse(s, device, BusinessConflict)
      else
        MoveTo(s.(operations := s.operations[operation := o.(sessions := o.sessions + 1, busy := true)],
                  working := s.working + {employee}),
               device, SessionActive(employee, operation))
  }

  function CloseSession(s: Server, device: string, employee: string, operation: string, p: Payload): (Server, Reply)
    requires p.Quantity?
  {
    if p.good.None? || p.defect.None? || p.rework.None? || p.good.value < 0 || p.defect.value < 0 || p.rework.value < 0
       || operation !in s.operations
    then Refuse(s, device, QuantityInvalid)
    else
      var o := s.operations[operation];
      var closed := o.(done := o.done + p.good.value, defect := o.defect + p.defect.value,
                       rework := o.rework + p.rework.value, busy := false);
      MoveTo(s.(operations := s.operations[operation := closed], working := s.working - {employee}),
             device, WaitEmployee)
  }

  /** One event the server has not seen before. */
  function Handle(s: Server, b: Body): (Server, Reply) {
    var d, p := b.deviceId, b.payload;
    match StateOf(s, d)
    case WaitEmployee =>
      if !p.Scan? || !p.code.EmployeeCode? then Refuse(s, d, InvalidTransition)
      else if p.code.id !in s.employees then Refuse(s, d, EmployeeNotFound)
      else MoveTo(s, d, WaitOperation(p.code.id))
    case WaitOperation(employee) =>
      if !p.Scan? || !p.code.OperationCode? then Refuse(s, d, InvalidTransition)
      else OpenSession(s, d, employee, p.code.id)
    case SessionActive(employee, operation) =>
      if p == Scan(EmployeeCode(employee)) then MoveTo(s, d, QuantityInput(employee, operation))
      else Refuse(s, d, InvalidTransition)
    case QuantityInput(employee, operation) =>
      if !p.Quantity? then Refuse(s, d, InvalidTransition)
      else CloseSession(s, d, employee, operation, p)
  }

  /** The idempotency guard: the same id with the same body gives the cached
      reply, with another body it is refused; neither does any work. */
  function Process(s: Server, b: Body): (Server, Reply) {
    if b.eventId in s.seen then
      if s.seen[b.eventId].0 == b then (s, s.seen[b.eventId].1) else Refuse(s, b.deviceId, KeyReuseMismatch)
    else
      var (after, reply) := Handle(s, b);
      (after.(seen := after.seen[b.eventId := (b, reply)]), reply)
  }

  function Run(s: Server, log: seq<Body>): Server {
    if log == [] then s else Process(Run(s, log[..|log| - 1]), log[|log| - 1]).0
  }

  lemma RunOne(s: Server, log: seq<Body>, b: Body)
    ensures Run(s, log + [b]) == Process(Run(s, log), b).0
  {
    assert (log + [b])[..|log|] == log;
  }

  // ------------------------------------------------------------ idempotency

  /** The bodies that come first with their event id. */
  function FirstDeliveries(log: seq<Body>): seq<Body> {
    if log == [] then []
    else
      var before, b := log[..|log| - 1], log[|log| - 1];
      if Delivered(before, b.eventId) then FirstDeliveries(before) else FirstDeliveries(before) + [b]
  }

  predicate Delivered(log: seq<Body>, eventId: string) {
    exists i :: 0 <= i < |log| && log[i].eventId == eventId
  }

  lemma DeliveredNext(log: seq<Body>, b: Body, eventId: string)
    ensures Delivered(log + [b], eventId) <==> Delivered(log, eventId) || b.eventId == eventId
  {
    if Delivered(log, eventId) {
      var i :| 0 <= i < |log| && log[i].eventId == eventId;
      assert (log + [b])[i].eventId == eventId;
    }
    assert (log + [b])[|log|] == b;
  }

  lemma HandleKeepsSeen(s: Server, b: Body)
    ensures Handle(s, b).0.seen == s.seen
  {
  }

  lemma ProcessMarksSeen(s: Server, b: Body, eventId: string)
    ensures eventId in Process(s, b).0.seen <==> eventId in s.seen || b.eventId == eventId
  {
  }

  lemma {:induction false} SeenIsDelivered(s: Server, log: seq<Body>, eventId: string)
    ensures eventId in Run(s, log).seen <==> eventId in s.seen || Delivered(log, eventId)
  {
    if log == [] {
    } else {
      var before, b := log[..|log| - 1], log[|log| - 1];
      assert before + [b] == log;
      RunOne(s, before, b);
      DeliveredNext(before, b, eventId);
      ProcessMarksSeen(Run(s, before), b, eventId);
      hide Handle, Process, Run, Delivered;
      SeenIsDelivered(s, before, eventId);
    }
  }

  /** Exactly-once effect: whatever is delivered again, in whatever places, the
      server ends as if only the first delivery of each event id had come. */
  lemma {:induction false} RedeliveryChangesNothing(s: Server, log: seq<Body>)
    ensures Run(s, log) == Run(s, FirstDeliveries(log))
  {
    if log != [] {
      var before, b := log[..|log| - 1], log[|log| - 1];
      RedeliveryChangesNothing(s, before);
      SeenIsDelivered(s, before, b.eventId);
      if !Delivered(before, b.eventId) {
        RunOne(s, FirstDeliveries(before), b);
      }
      hide Handle;
    }
  }

  /** A recorded reply is never revised. */
  lemma {:induction false} RepliesAreFinal(s: Server, log: seq<Body>, eventId: string)
    requires eventId in s.seen
    ensures eventId in Run(s, log).seen && Run(s, log).seen[eventId] == s.seen[eventId]
  {
    if log != [] {
      RepliesAreFinal(s, log[..|log| - 1], eventId);
      HandleKeepsSeen(Run(s, log[..|log| - 1]), log[|log| - 1]);
      hide Handle;
    }
  }

  /** However much later the same body is sent again, it gets the reply it got
      the first time. */
  lemma RetryGetsTheSameReply(s: Server, b: Body, between: seq<Body>)
    requires b.eventId !in s.seen
    ensures Process(Run(Process(s, b).0, between), b) == (Run(Process(s, b).0, between), Process(s, b).1)
  {
    HandleKeepsSeen(s, b);
    hide Handle;
    RepliesAreFinal(Process(s, b).0, between, b.eventId);
  }
}
