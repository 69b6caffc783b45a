/** One background job: the runner thread against any number of cancel requests
    (`qualification/api.py`).

    Every access to the job file and to the process table happens under a lock,
    so a schedule is a sequence of these atomic steps.  The theorems hold for
    every schedule; `JobThread` is the runner itself, interrupted between any
    two of its steps. */
module JobRunner {
  import opened Wrappers

  datatype Status = Queued | Running | Success | Failed | Cancelled

  predicate Terminal(status: Status) {
    status == Status.Success || status == Failed || status == Cancelled
  }

  /** The stored record; an update keeps the fields it does not mention. */
  datatype Job = Job(status: Status, exitCode: Option<int>, error: bool, finished: bool)

  /** Where the runner thread stands. */
  datatype Runner =
    | Waiting
    | Announced
    | Registered
    | Exited(code: int)
    | Decided(code: int, sawCancel: bool)
    | Failing
    | Written
    | Done

  /** `callers` are the cancel requests that have found the process and not yet
      written. */
  datatype State = State(job: Job, runner: Runner, registered: bool, callers: set<nat>)

  const QUEUED_JOB := State(Job(Queued, None, false, false), Waiting, false, {})

  datatype Event =
    | Announce
    | Register
    | ProcessExits(exit: int)
    | ReadBack
    | WriteVerdict
    | Raise
    | WriteFailure
    | LoseFailure
    | Pop
    | LookUp(caller: nat)
    | WriteCancel(caller: nat)
    | CancelFails(caller: nat)

  predicate ByCanceller(e: Event) {
    e.LookUp? || e.WriteCancel? || e.CancelFails?
  }

  function Outcome(cancelled: bool, code: int): Status {
    if cancelled then Cancelled else if code == 0 then Status.Success else Failed
  }

  /** An exception can strike the runner anywhere before its last write is
      through. */
  predicate Enabled(s: State, e: Event) {
    match e
    case Announce => s.runner == Waiting
    case Register => s.runner == Announced
    case ProcessExits(_) => s.runner == Registered
    case ReadBack => s.runner.Exited?
    case WriteVerdict => s.runner.Decided?
    case Raise => !s.runner.Failing? && !s.runner.Written? && !s.runner.Done?
    case WriteFailure => s.runner == Failing
    case LoseFailure => s.runner == Failing
    case Pop => s.runner == Written
    case LookUp(_) => true
    case WriteCancel(c) => c in s.callers
    case CancelFails(c) => c in s.callers
  }

  function Step(s: State, e: Event): State
    requires Enabled(s, e)
  {
    match e
    case Announce => s.(job := s.job.(status := Running), runner := Announced)
    case Register => s.(registered := true, runner := Registered)
    case ProcessExits(code) => s.(runner := Exited(code))
    case ReadBack => s.(runner := Decided(s.runner.code, s.job.status == Cancelled))
    case WriteVerdict =>
      s.(job := s.job.(status := Outcome(s.runner.sawCancel, s.runner.code),
                       exitCode := Some(s.runner.code), finished := true),
         runner := Written)
    case Raise => s.(runner := Failing)
    case WriteFailure => s.(job := s.job.(status := Failed, error := true, finished := true), runner := Written)
    case LoseFailure => s.(runner := Written)
    case Pop => s.(registered := false, runner := Done)
    case LookUp(c) => if s.registered then s.(callers := s.callers + {c}) else s
    case WriteCancel(c) =>
      s.(job := s.job.(status := Cancelled, finished := true), callers := s.callers - {c})
    case CancelFails(c) => s.(callers := s.callers - {c})
  }

  predicate Legal(events: seq<Event>)
    decreases |events|, 0
  {
    events == [] ||
    (var before := events[..|events| - 1];
     Legal(before) && Enabled(After(before), events[|events| - 1]))
  }

  function After(events: seq<Event>): State
    requires Legal(events)
    decreases |events|, 1
  {
    if events == [] then QUEUED_JOB else Step(After(events[..|events| - 1]), events[|events| - 1])
  }

  lemma {:induction false} PrefixIsLegal(events: seq<Event>, k: nat)
    requires Legal(events) && k <= |events|
    ensures Legal(events[..k])
    decreases |events|
  {
    if k == |events| {
      assert events[..k] == events;
    } else {
      var before := events[..|events| - 1];
      PrefixIsLegal(before, k);
      assert before[..k] == events[..k];
    }
  }

  /** The state after the first `k` steps. */
  function At(events: seq<Event>, k: nat): State
    requires Legal(events) && k <= |events|
  {
    PrefixIsLegal(events, k);
    After(events[..k])
  }

  lemma AtNext(events: seq<Event>, k: nat)
    requires Legal(events) && k < |events|
    ensures Enabled(At(events, k), events[k]) && At(events, k + 1) == Step(At(events, k), events[k])
  {
    PrefixIsLegal(events, k);
    PrefixIsLegal(events, k + 1);
    assert events[..k + 1][..k] == events[..k];
  }

  lemma AtEnd(events: seq<Event>)
    requires Legal(events)
    ensures At(events, |events|) == After(events) && At(events, 0) == QUEUED_JOB
  {
    assert events[..|events|] == events;
  }

  // -------------------------------------------------------- runner progress

  function Rank(r: Runner): nat {
    match r
    case Waiting => 0
    case Announced => 1
    case Registered => 2
    case Exited(_) => 3
    case Decided(_, _) => 4
    case Failing => 5
    case Written => 6
    case Done => 7
  }

  lemma {:induction false} RunnerOnlyAdvances(events: seq<Event>, a: nat, b: nat)
    requires Legal(events) && a <= b <= |events|
    ensures var ra, rb := At(events, a).runner, At(events, b).runner;
            Rank(ra) <= Rank(rb) && (Rank(ra) == Rank(rb) ==> ra == rb)
    decreases b - a
  {
    if a < b {
      RunnerOnlyAdvances(events, a, b - 1);
      AtNext(events, b - 1);
      hide After, Legal;
    }
  }

  /** Nothing can be cancelled before the process is registered. */
  predicate Sound(s: State) {
    && (s.runner == Waiting ==> s.job == QUEUED_JOB.job)
    && (Rank(s.runner) <= 1 ==> s.callers == {} && !s.registered)
    && (s.runner == Announced ==> s.job.status == Running)
    && (1 <= Rank(s.runner) <= 4 ==> s.job.status == Running || s.job.status == Cancelled)
    && (s.runner == Done ==> !s.registered)
  }

  lemma {:induction false} EveryStateIsSound(events: seq<Event>, k: nat)
    requires Legal(events) && k <= |events|
    ensures Sound(At(events, k))
    decreases k
  {
    if k > 0 {
      EveryStateIsSound(events, k - 1);
      AtNext(events, k - 1);
      hide After, Legal;
    } else {
      AtEnd(events);
    }
  }

  /** In every schedule of one runner and any number of cancels, a terminal
      status never returns to QUEUED or RUNNING. */
  lemma {:induction false} TerminalIsForever(events: seq<Event>, a: nat, b: nat)
    requires Legal(events) && a <= b <= |events|
    requires Terminal(At(events, a).job.status)
    ensures Terminal(At(events, b).job.status)
    decreases b - a
  {
    if a < b {
      TerminalIsForever(events, a, b - 1);
      EveryStateIsSound(events, b - 1);
      AtNext(events, b - 1);
      hide After, Legal;
    }
  }

  // ------------------------------------------------------ who wins the race

  /** Some cancel is written at a position in `[lo, hi)`. */
  ghost predicate CancelIn(events: seq<Event>, lo: nat, hi: nat)
    requires hi <= |events|
  {
    exists i :: lo <= i < hi && events[i].WriteCancel?
  }

  lemma CancelInNext(events: seq<Event>, lo: nat, hi: nat)
    requires lo <= hi < |events|
    ensures CancelIn(events, lo, hi + 1) <==> CancelIn(events, lo, hi) || events[hi].WriteCancel?
    ensures !CancelIn(events, lo, lo)
  {
  }

  /** Up to the read-back only cancels write. */
  lemma {:induction false} StatusBeforeReadBack(events: seq<Event>, k: nat)
    requires Legal(events) && k <= |events|
    requires 1 <= Rank(At(events, k).runner) <= 3
    ensures At(events, k).job.status == if CancelIn(events, 0, k) then Cancelled else Running
    decreases k
  {
    AtEnd(events);
    AtNext(events, k - 1);
    CancelInNext(events, 0, k - 1);
    EveryStateIsSound(events, k - 1);
    if At(events, k - 1).runner == Waiting {
      NoCancelWhileWaiting(events, k - 1);
    } else {
      RunnerOnlyAdvances(events, k - 1, k);
      StatusBeforeReadBack(events, k - 1);
    }
    hide After, Legal;
  }

  lemma {:induction false} NoCancelWhileWaiting(events: seq<Event>, k: nat)
    requires Legal(events) && k <= |events|
    requires At(events, k).runner == Waiting
    ensures !CancelIn(events, 0, k)
    decreases k
  {
    if k > 0 {
      RunnerOnlyAdvances(events, k - 1, k);
      NoCancelWhileWaiting(events, k - 1);
      EveryStateIsSound(events, k - 1);
      AtNext(events, k - 1);
      CancelInNext(events, 0, k - 1);
      hide After, Legal;
    }
  }

  /** After the runner's last write only cancels write. */
  lemma {:induction false} StatusAfterLastWrite(events: seq<Event>, a: nat, b: nat)
    requires Legal(events) && a <= b <= |events|
    requires Rank(At(events, a).runner) >= 6
    ensures var status := At(events, b).job.status;
            status == if CancelIn(events, a, b) then Cancelled else At(events, a).job.status
    decreases b - a
  {
    if a < b {
      StatusAfterLastWrite(events, a, b - 1);
      RunnerOnlyAdvances(events, a, b - 1);
      AtNext(events, b - 1);
      CancelInNext(events, a, b - 1);
      hide After, Legal;
    }
  }

  /** The runner reads the record back once, before it writes its verdict. */
  lemma ReadPrecedesVerdict(events: seq<Event>, read: nat, verdict: nat)
    requires Legal(events) && read < |events| && verdict < |events|
    requires events[read].ReadBack? && events[verdict].WriteVerdict?
    ensures read < verdict
    ensures At(events, read).runner.Exited?
    ensures At(events, verdict).runner
         == Decided(At(events, read).runner.code, At(events, read).job.status == Cancelled)
    ensures At(events, verdict + 1).runner == Written
  {
    AtNext(events, read);
    AtNext(events, verdict);
    if verdict < read {
      RunnerOnlyAdvances(events, verdict + 1, read);
      assert false;
    } else {
      RunnerOnlyAdvances(events, read + 1, verdict);
    }
  }

  /** The exact outcome on the runner's normal path.  The job ends CANCELLED if
      and only if some cancel is written before the runner reads the record back
      or after it has written its verdict; otherwise the exit code decides. */
  lemma CancelWinsOutsideTheWindow(events: seq<Event>, read: nat, verdict: nat)
    requires Legal(events) && read < |events| && verdict < |events|
    requires events[read].ReadBack? && events[verdict].WriteVerdict?
    ensures At(events, read).runner.Exited?
    ensures After(events).job.status
         == Outcome(CancelIn(events, 0, read) || CancelIn(events, verdict + 1, |events|), At(events, read).runner.code)
    ensures After(events).job.exitCode == Some(At(events, read).runner.code)
  {
    ReadPrecedesVerdict(events, read, verdict);
    StatusBeforeReadBack(events, read);
    AtNext(events, verdict);
    StatusAfterLastWrite(events, verdict + 1, |events|);
    ExitCodeIsKept(events, verdict + 1, |events|);
    AtEnd(events);
    hide After, Legal;
  }

  /** A cancel leaves the recorded exit code alone. */
  lemma {:induction false} ExitCodeIsKept(events: seq<Event>, a: nat, b: nat)
    requires Legal(events) && a <= b <= |events|
    requires Rank(At(events, a).runner) >= 6
    ensures At(events, b).job.exitCode == At(events, a).job.exitCode
    decreases b - a
  {
    if a < b {
      ExitCodeIsKept(events, a, b - 1);
      RunnerOnlyAdvances(events, a, b - 1);
      AtNext(events, b - 1);
      hide After, Legal;
    }
  }

  /** On the exception path the runner does not read the record back: a cancel
      survives if and only if it is written after the failure. */
  lemma FailureOverwritesCancel(events: seq<Event>, failure: nat)
    requires Legal(events) && failure < |events| && events[failure].WriteFailure?
    ensures After(events).job.status == if CancelIn(events, failure + 1, |events|) then Cancelled else Failed
    ensures After(events).job.error || After(events).job.status == Cancelled
  {
    AtNext(events, failure);
    StatusAfterLastWrite(events, failure + 1, |events|);
    ErrorIsKept(events, failure + 1, |events|);
    AtEnd(events);
    hide After, Legal;
  }

  lemma {:induction false} ErrorIsKept(events: seq<Event>, a: nat, b: nat)
    requires Legal(events) && a <= b <= |events|
    requires Rank(At(events, a).runner) >= 6
    ensures At(events, b).job.error == At(events, a).job.error
    decreases b - a
  {
    if a < b {
      ErrorIsKept(events, a, b - 1);
      RunnerOnlyAdvances(events, a, b - 1);
      AtNext(events, b - 1);
      hide After, Legal;
    }
  }

  /** When the thread has ended and no cancel is on its way, the record is final:
      every later request is refused. */
  lemma {:induction false} DoneIsFinal(events: seq<Event>, a: nat, b: nat)
    requires Legal(events) && a <= b <= |events|
    requires At(events, a).runner == Done && At(events, a).callers == {}
    ensures At(events, b) == At(events, a)
    decreases b - a
  {
    if a < b {
      DoneIsFinal(events, a, b - 1);
      EveryStateIsSound(events, b - 1);
      AtNext(events, b - 1);
      hide After, Legal;
    }
  }

  predicate Lost(events: seq<Event>) {
    LoseFailure in events
  }

  /** A finished thread leaves a terminal status behind, unless writing the
      failure itself failed and nobody cancelled. */
  lemma {:induction false} DoneIsTerminal(events: seq<Event>, k: nat)
    requires Legal(events) && k <= |events|
    requires Rank(At(events, k).runner) >= 6
    ensures Terminal(At(events, k).job.status) <==> !Lost(events[..k]) || CancelIn(events, 0, k)
    decreases k
  {
    AtEnd(events);
    AtNext(events, k - 1);
    CancelInNext(events, 0, k - 1);
    assert events[..k] == events[..k - 1] + [events[k - 1]];
    if Rank(At(events, k - 1).runner) >= 6 {
      DoneIsTerminal(events, k - 1);
    } else {
      StatusWhileRunning(events, k - 1);
    }
    hide After, Legal;
  }

  /** Before the runner's last write the status is terminal only through a
      cancel. */
  lemma {:induction false} StatusWhileRunning(events: seq<Event>, k: nat)
    requires Legal(events) && k <= |events|
    requires Rank(At(events, k).runner) <= 5
    ensures Terminal(At(events, k).job.status) <==> CancelIn(events, 0, k)
    ensures !Lost(events[..k])
    decreases k
  {
    if k > 0 {
      RunnerOnlyAdvances(events, k - 1, k);
      StatusWhileRunning(events, k - 1);
      EveryStateIsSound(events, k - 1);
      AtNext(events, k - 1);
      CancelInNext(events, 0, k - 1);
      NoCancelBeforeAnnouncement(events, k - 1);
      assert events[..k] == events[..k - 1] + [events[k - 1]];
      hide After, Legal;
    } else {
      AtEnd(events);
    }
  }

  lemma NoCancelBeforeAnnouncement(events: seq<Event>, k: nat)
    requires Legal(events) && k <= |events|
    ensures At(events, k).runner == Waiting ==> !CancelIn(events, 0, k)
  {
    if At(events, k).runner == Waiting {
      NoCancelWhileWaiting(events, k);
    }
  }

  lemma LegalNext(events: seq<Event>, e: Event)
    requires Legal(events) && Enabled(After(events), e)
    ensures Legal(events + [e]) && After(events + [e]) == Step(After(events), e)
  {
    assert (events + [e])[..|events|] == events;
  }

  /** The job at the moment its process has left with code 0, one request having
      found it running. */
  const ABOUT_TO_FINISH := State(Job(Running, None, false, false), Exited(0), true, {0})

  lemma JobAboutToFinish()
    ensures var events := [Announce, Register, LookUp(0), ProcessExits(0)];
            Legal(events) && After(events) == ABOUT_TO_FINISH
  {
    LegalNext([], Announce);
    assert [] + [Announce] == [Announce];
    LegalNext([Announce], Register);
    assert [Announce] + [Register] == [Announce, Register];
    LegalNext([Announce, Register], LookUp(0));
    assert [Announce, Register] + [LookUp(0)] == [Announce, Register, LookUp(0)];
    LegalNext([Announce, Register, LookUp(0)], ProcessExits(0));
    assert [Announce, Register, LookUp(0)] + [ProcessExits(0)] == [Announce, Register, LookUp(0), ProcessExits(0)];
  }

  /** The schedule in which an accepted cancel is overwritten: it is written
      between the read-back and the verdict. */
  lemma CancelLostInTheWindow()
    ensures var events := [Announce, Register, LookUp(0), ProcessExits(0)] + [ReadBack] + [WriteCancel(0)]
                          + [WriteVerdict] + [Pop];
            && Legal(events)
            && After(events).runner == Done
            && After(events).job.status == Status.Success
  {
    JobAboutToFinish();
    hide Legal, After;
    var s := [Announce, Register, LookUp(0), ProcessExits(0)];
    LegalNext(s, ReadBack);
    LegalNext(s + [ReadBack], WriteCancel(0));
    LegalNext(s + [ReadBack] + [WriteCancel(0)], WriteVerdict);
    LegalNext(s + [ReadBack] + [WriteCancel(0)] + [WriteVerdict], Pop);
  }

  // ------------------------------------------------------------- the thread

  lemma SamePrefix(shorter: seq<Event>, longer: seq<Event>, k: nat)
    requires Legal(shorter) && Legal(longer) && shorter <= longer && k <= |shorter|
    ensures At(shorter, k) == At(longer, k)
  {
    assert shorter[..k] == longer[..k];
  }

  lemma PrefixIsTransitive(a: seq<Event>, b: seq<Event>, c: seq<Event>)
    requires a <= b <= c
    ensures a <= c
  {
    assert a == b[..|a|] == c[..|a|];
  }

  /** The read-back takes the exit code the process left with. */
  lemma ReadSawExit(exited: seq<Event>, log: seq<Event>, read: nat)
    requires Legal(exited) && Legal(log) && exited <= log && |exited| <= read < |log|
    requires After(exited).runner.Exited? && log[read].ReadBack?
    ensures At(log, read).runner == After(exited).runner
  {
    AtEnd(exited);
    SamePrefix(exited, log, |exited|);
    AtNext(log, read);
    RunnerOnlyAdvances(log, |exited|, read);
  }

  /** Steps that cancel requests take between two steps of the runner: any
      finite number, each one skipped when it is not possible. */
  function Rivals(s: State, wishes: seq<Event>): State
    decreases |wishes|
  {
    if wishes == [] then s
    else if ByCanceller(wishes[0]) && Enabled(s, wishes[0]) then Rivals(Step(s, wishes[0]), wishes[1..])
    else Rivals(s, wishes[1..])
  }

  /** `log` records the schedule; `rivals` and `faults` say what the other
      threads do and which of the runner's calls raise. */
  class JobThread {
    var state: State
    var calls: nat
    ghost var log: seq<Event>
    const rivals: nat -> seq<Event>
    const faults: nat -> bool
    const exitCode: int

    ghost predicate Valid()
      reads this
    {
      Legal(log) && state == After(log)
    }

    ghost predicate Reliable() {
      forall n :: !faults(n)
    }

    constructor (rivals: nat -> seq<Event>, faults: nat -> bool, exitCode: int)
      ensures Valid() && log == [] && calls == 0
      ensures this.rivals == rivals && this.faults == faults && this.exitCode == exitCode
    {
      state, calls, log := QUEUED_JOB, 0, [];
      this.rivals, this.faults, this.exitCode := rivals, faults, exitCode;
    }

    method Take(e: Event)
      requires Valid() && Enabled(state, e)
      modifies `state, `log
      ensures Valid() && log == old(log) + [e] && state == Step(old(state), e)
    {
      LegalNext(log, e);
      state, log := Step(state, e), log + [e];
    }

    /** `job_cancel`, nothing coming between its steps: accepted exactly when the
        process is in the table and can be terminated. */
    method CancelJob(caller: nat, terminates: bool) returns (accepted: bool)
      requires Valid() && caller !in state.callers
      modifies `state, `log
      ensures Valid() && old(log) <= log
      ensures accepted <==> old(state.registered) && terminates
      ensures state.runner == old(state.runner) && state.callers == old(state.callers)
      ensures state.registered == old(state.registered)
      ensures state.job == if accepted then old(state.job).(status := Cancelled, finished := true) else old(state.job)
    {
      hide Legal, After;
      Take(LookUp(caller));
      if !state.registered {
        return false;
      }
      assert state.callers - {caller} == old(state.callers);
      accepted := terminates;
      Take(if accepted then WriteCancel(caller) else CancelFails(caller));
    }

    method Interfere()
      requires Valid()
      modifies this
      ensures Valid() && old(log) <= log
      ensures forall i :: |old(log)| <= i < |log| ==> ByCanceller(log[i])
      ensures state.runner == old(state).runner
      ensures state == Rivals(old(state), rivals(old(calls)))
    {
      var wishes, i := rivals(calls), 0;
      calls := calls + 1;
      assert wishes[0..] == wishes;
      while i < |wishes|
        invariant i <= |wishes|
        invariant Valid() && old(log) <= log
        invariant forall k :: |old(log)| <= k < |log| ==> ByCanceller(log[k])
        invariant state.runner == old(state).runner
        invariant Rivals(state, wishes[i..]) == Rivals(old(state), wishes)
      {
        assert wishes[i..][1..] == wishes[i + 1..];
        if ByCanceller(wishes[i]) && Enabled(state, wishes[i]) {
          Take(wishes[i]);
        }
        i := i + 1;
      }
    }

    /** One step of the runner's `try` block: the others move first, and the
        call may raise. */
    method Proceed(e: Event) returns (ok: bool)
      requires Valid() && Enabled(state, e) && Enabled(state, Raise)
      requires !ByCanceller(e)
      modifies this
      ensures Valid() && old(log) < log
      ensures log[|log| - 1] == if ok then e else Raise
      ensures forall i :: |old(log)| <= i < |log| - 1 ==> ByCanceller(log[i])
      ensures !ok ==> state.runner == Failing
      ensures ok ==> state.runner == Step(old(state), e).runner || e.ReadBack?
      ensures ok && e.ReadBack? ==> state.runner.Decided? && state.runner.code == old(state.runner.code)
      ensures Reliable() ==> ok
    {
      Interfere();
      ok := !faults(calls);
      Take(if ok then e else Raise);
    }

    /** The `try` block.  On the normal path it says where the record was read
        back and where the verdict was written. */
    method Attempt() returns (raised: bool, ghost read: nat, ghost verdict: nat)
      requires Valid() && state.runner == Waiting
      modifies this
      ensures Valid() && old(log) <= log
      ensures raised ==> state.runner == Failing
      ensures !raised ==> state.runner == Written
      ensures !raised ==> |old(log)| <= read < verdict < |log| && log[read].ReadBack? && log[verdict].WriteVerdict?
      ensures !raised ==> At(log, read).runner == Exited(exitCode)
      ensures Reliable() ==> !raised
    {
      hide After, Legal, At, Outcome;
      raised, read, verdict := true, 0, 0;
      var ok := Proceed(Announce);
      if !ok { return; }
      ok := Proceed(Register);
      if !ok { return; }
      ok := Proceed(ProcessExits(exitCode));
      if !ok { return; }
      ghost var exited := log;
      AtEnd(log);
      ok := Proceed(ReadBack);
      if !ok { return; }
      read := |log| - 1;
      ghost var asked := log;
      ok := Proceed(WriteVerdict);
      PrefixIsTransitive(exited, asked, log);
      if !ok { return; }
      verdict := |log| - 1;
      raised := false;
      ReadSawExit(exited, log, read);
    }

    /** The whole thread.  It always ends with its process deregistered; without
        an exception the record ends as the race with the cancels decides. */
    method RunJob() returns (raised: bool, ghost read: nat, ghost verdict: nat)
      requires Valid() && state.runner == Waiting
      modifies this
      ensures Valid() && old(log) <= log
      ensures state.runner == Done && !state.registered
      ensures Reliable() ==> !raised
      ensures !raised ==> read < verdict < |log| && log[read].ReadBack? && log[verdict].WriteVerdict?
      ensures !raised ==>
                state.job.status == Outcome(CancelIn(log, 0, read) || CancelIn(log, verdict + 1, |log|), exitCode)
      ensures raised ==> (Terminal(state.job.status) <==> !Lost(log) || CancelIn(log, 0, |log|))
    {
      hide After, Legal, At;
      raised, read, verdict := Attempt();
      ghost var tried := log;
      if raised {
        Interfere();
        if faults(calls) {
          Take(LoseFailure);
        } else {
          Take(WriteFailure);
        }
      }
      Interfere();
      Take(Pop);
      Interfere();
      AtEnd(log);
      EveryStateIsSound(log, |log|);
      if raised {
        DoneIsTerminal(log, |log|);
        assert log[..|log|] == log;
      } else {
        CancelWinsOutsideTheWindow(log, read, verdict);
        SamePrefix(tried, log, read);
      }
    }
  }
}
