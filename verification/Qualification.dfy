/** Qualification runs: attempts, scenarios, suites and the run status
    (`qualification/runner.py`, `qualification/service.py`). */
module Qualification {
  import opened Wrappers

  datatype Status = Running | Passed | Failed | Flaky | Blocked | NotConfigured | Cancelled

  // --------------------------------------------------------------- attempts

  /** What one driver call comes to. */
  datatype Outcome = Fine | NotFine | Raises

  /** How one attempt ends; steps count from 1. */
  datatype AttemptEnd = AllFine | FailsAt(step: nat) | Interrupted

  type Driver = (nat, nat) -> Outcome

  function AttemptFrom(driver: Driver, attempt: nat, step: nat, steps: nat): AttemptEnd
    decreases steps + 1 - step
  {
    if step > steps then AllFine
    else match driver(attempt, step)
      case Fine => AttemptFrom(driver, attempt, step + 1, steps)
      case NotFine => FailsAt(step)
      case Raises => Interrupted
  }

  function Attempt(driver: Driver, attempt: nat, steps: nat): AttemptEnd {
    AttemptFrom(driver, attempt, 1, steps)
  }

  /** The statuses of the attempts `attempt..last`, up to the first that passes;
      nothing when the driver raises. */
  function AttemptsFrom(driver: Driver, steps: nat, attempt: nat, last: int): Option<seq<Status>>
    decreases last + 1 - attempt
  {
    if attempt > last then Some([])
    else match Attempt(driver, attempt, steps)
      case AllFine => Some([Passed])
      case FailsAt(_) =>
        (match AttemptsFrom(driver, steps, attempt + 1, last)
         case Some(rest) => Some([Failed] + rest)
         case None => None)
      case Interrupted => None
  }

  function Attempts(driver: Driver, steps: nat, retries: int): Option<seq<Status>> {
    AttemptsFrom(driver, steps, 1, retries + 1)
  }

  lemma {:induction false} AttemptsFromShape(driver: Driver, steps: nat, attempt: nat, last: int)
    requires attempt <= last && AttemptsFrom(driver, steps, attempt, last).Some?
    ensures var a := AttemptsFrom(driver, steps, attempt, last).value;
            && 1 <= |a| <= last + 1 - attempt
            && (forall k :: 0 <= k < |a| - 1 ==> a[k] == Failed)
            && (a[|a| - 1] == Passed || (a[|a| - 1] == Failed && |a| == last + 1 - attempt))
            && (forall k :: 0 <= k < |a| ==> (a[k] == Passed <==> Attempt(driver, attempt + k, steps) == AllFine))
    decreases last + 1 - attempt
  {
    if Attempt(driver, attempt, steps).FailsAt? && attempt < last {
      AttemptsFromShape(driver, steps, attempt + 1, last);
      var rest := AttemptsFrom(driver, steps, attempt + 1, last).value;
      var a := [Failed] + rest;
      forall k | 0 <= k < |a|
        ensures a[k] == Passed <==> Attempt(driver, attempt + k, steps) == AllFine
      {
        if k > 0 {
          assert a[k] == rest[k - 1] && attempt + k == attempt + 1 + (k - 1);
        }
      }
    }
  }

  /** Attempts always have the shape FAILED* or FAILED* PASSED, there are at most
      retries + 1 of them, and each one reports what the driver did. */
  lemma AttemptsShape(driver: Driver, steps: nat, retries: int)
    requires retries >= 0 && Attempts(driver, steps, retries).Some?
    ensures var a := Attempts(driver, steps, retries).value;
            && 1 <= |a| <= retries + 1
            && (forall k :: 0 <= k < |a| - 1 ==> a[k] == Failed)
            && (a[|a| - 1] == Passed || (a[|a| - 1] == Failed && |a| == retries + 1))
            && (forall k :: 0 <= k < |a| ==> (a[k] == Passed <==> Attempt(driver, k + 1, steps) == AllFine))
  {
    AttemptsFromShape(driver, steps, 1, retries + 1);
  }

  /** The status the attempts alone give; `None` when there are none, which is
      what a negative number of retries comes to. */
  function AttemptsStatus(attempts: seq<Status>): Option<Status> {
    if attempts == [Passed] then Some(Passed)
    else if attempts == [] then None
    else if attempts[|attempts| - 1] == Passed then Some(Flaky)
    else Some(Failed)
  }

  /** PASSED means the first attempt passed, FLAKY that the first one failed and
      a later one passed, FAILED that none of the retries + 1 passed. */
  lemma StatusTellsTheAttempts(driver: Driver, steps: nat, retries: int)
    requires retries >= 0 && Attempts(driver, steps, retries).Some?
    ensures var status := AttemptsStatus(Attempts(driver, steps, retries).value);
            && (status == Some(Passed) <==> Attempt(driver, 1, steps) == AllFine)
            && (status == Some(Flaky) <==>
                  Attempt(driver, 1, steps) != AllFine
                  && exists k :: 2 <= k <= retries + 1 && Attempt(driver, k, steps) == AllFine
                                 && forall j :: 1 <= j < k ==> Attempt(driver, j, steps).FailsAt?)
            && (status == Some(Failed) <==>
                  forall k :: 1 <= k <= retries + 1 ==> Attempt(driver, k, steps) != AllFine)
  {
    AttemptsShape(driver, steps, retries);
    FailuresComeFirst(driver, steps, 1, retries + 1);
    var a := Attempts(driver, steps, retries).value;
    if a[|a| - 1] == Passed {
      assert Attempt(driver, |a|, steps) == AllFine;
    } else {
      forall k | 1 <= k <= retries + 1
        ensures Attempt(driver, k, steps) != AllFine
      {
        assert a[k - 1] == Failed;
      }
    }
    assert a[0] == Passed <==> Attempt(driver, 1, steps) == AllFine;
  }

  lemma {:induction false} FailuresComeFirst(driver: Driver, steps: nat, attempt: nat, last: int)
    requires attempt <= last && AttemptsFrom(driver, steps, attempt, last).Some?
    ensures forall k :: attempt <= k < attempt + |AttemptsFrom(driver, steps, attempt, last).value| - 1 ==>
              Attempt(driver, k, steps).FailsAt?
    decreases last + 1 - attempt
  {
    if Attempt(driver, attempt, steps).FailsAt? && attempt < last {
      FailuresComeFirst(driver, steps, attempt + 1, last);
    }
  }

  /** The step reported as the first failing one: that of the last attempt that
      failed. */
  function FailingStep(driver: Driver, steps: nat, attempts: seq<Status>): Option<nat> {
    if attempts == [] then None
    else
      var last := |attempts|;
      if attempts[last - 1] == Failed && Attempt(driver, last, steps).FailsAt? then
        Some(Attempt(driver, last, steps).step)
      else FailingStep(driver, steps, attempts[..last - 1])
  }

  /** It names the last failed attempt and nothing else. */
  lemma {:induction false} FailingStepIsOfTheLastFailure(driver: Driver, steps: nat, attempts: seq<Status>, k: nat)
    requires k < |attempts| && attempts[k] == Failed && Attempt(driver, k + 1, steps).FailsAt?
    requires forall j :: k < j < |attempts| ==> attempts[j] != Failed
    ensures FailingStep(driver, steps, attempts) == Some(Attempt(driver, k + 1, steps).step)
  {
    if k < |attempts| - 1 {
      FailingStepIsOfTheLastFailure(driver, steps, attempts[..|attempts| - 1], k);
    }
  }

  // --------------------------------------------------------------- the rows

  datatype RunRow = RunRow(artifact: string, environment: string, status: Status)

  datatype Suite = Suite(run: string, key: string, layer: string, required: bool, status: Status, startedAt: int)

  datatype Scenario = Scenario(suite: nat, key: string, driver: string, status: Status, failingStep: Option<nat>)

  datatype Invariant = Invariant(run: string, key: string, holds: bool)

  /** Suites and scenarios are named by their position; rows are never deleted. */
  datatype Db = Db(runs: map<string, RunRow>, suites: seq<Suite>, scenarios: seq<Scenario>, invariants: seq<Invariant>)

  const EMPTY := Db(map[], [], [], [])

  predicate ChecksRaise(keys: seq<string>, checks: map<string, Outcome>, i: nat)
    requires i < |keys|
  {
    keys[i] in checks && checks[keys[i]] == Raises
  }

  function VerdictOn(keys: seq<string>, checks: map<string, Outcome>, i: nat): (string, bool)
    requires i < |keys|
  {
    (keys[i], keys[i] in checks && checks[keys[i]] == Fine)
  }

  /** An invariant without a registered checker counts as failed; a checker that
      raises ends the scenario. */
  function Checked(keys: seq<string>, checks: map<string, Outcome>): (verdicts: seq<(string, bool)>)
    ensures |verdicts| <= |keys|
    ensures |verdicts| < |keys| ==> ChecksRaise(keys, checks, |verdicts|)
    ensures forall i :: 0 <= i < |verdicts| ==>
              !ChecksRaise(keys, checks, i) && verdicts[i] == VerdictOn(keys, checks, i)
  {
    if keys == [] then []
    else if ChecksRaise(keys, checks, 0) then []
    else
      assert forall i {:trigger ChecksRaise(keys, checks, i)} {:trigger VerdictOn(keys, checks, i)} ::
          1 <= i < |keys| ==>
          && ChecksRaise(keys, checks, i) == ChecksRaise(keys[1..], checks, i - 1)
          && VerdictOn(keys, checks, i) == VerdictOn(keys[1..], checks, i - 1);
      [VerdictOn(keys, checks, 0)] + Checked(keys[1..], checks)
  }

  predicate SomeFailed(verdicts: seq<(string, bool)>) {
    exists i :: 0 <= i < |verdicts| && !verdicts[i].1
  }

  lemma NoneFailed(verdicts: seq<(string, bool)>)
    requires verdicts == []
    ensures !SomeFailed(verdicts)
  {
  }

  lemma SomeFailedNext(verdicts: seq<(string, bool)>, verdict: (string, bool))
    ensures SomeFailed(verdicts + [verdict]) <==> SomeFailed(verdicts) || !verdict.1
  {
    var more := verdicts + [verdict];
    assert more[|verdicts|] == verdict;
    if SomeFailed(verdicts) {
      var i :| 0 <= i < |verdicts| && !verdicts[i].1;
      assert more[i] == verdicts[i];
    }
  }

  function ScenarioStatus(attempts: seq<Status>, verdicts: seq<(string, bool)>): Status
    requires attempts != []
  {
    if SomeFailed(verdicts) then Failed else AttemptsStatus(attempts).value
  }

  predicate HasStatus(scenarios: seq<Scenario>, suite: nat, status: Status) {
    exists i :: 0 <= i < |scenarios| && scenarios[i].suite == suite && scenarios[i].status == status
  }

  /** The worst finished scenario decides; rows still RUNNING are ignored. */
  function SuiteStatus(scenarios: seq<Scenario>, suite: nat): Status {
    if HasStatus(scenarios, suite, Failed) then Failed
    else if HasStatus(scenarios, suite, Flaky) then Flaky
    else Passed
  }

  function InvariantRows(run: string, verdicts: seq<(string, bool)>): (rows: seq<Invariant>)
    ensures |rows| == |verdicts|
    ensures forall i :: 0 <= i < |rows| ==> rows[i] == Invariant(run, verdicts[i].0, verdicts[i].1)
  {
    seq(|verdicts|, i requires 0 <= i < |verdicts| => Invariant(run, verdicts[i].0, verdicts[i].1))
  }

  predicate InvariantFailed(db: Db, run: string) {
    exists i :: 0 <= i < |db.invariants| && db.invariants[i].run == run && !db.invariants[i].holds
  }

  predicate SomeSuite(db: Db, run: string, statuses: set<Status>, onlyRequired: bool) {
    exists i :: 0 <= i < |db.suites| && db.suites[i].run == run && db.suites[i].status in statuses
                && (onlyRequired ==> db.suites[i].required)
  }

  predicate HasSuites(db: Db, run: string) {
    exists i :: 0 <= i < |db.suites| && db.suites[i].run == run
  }

  predicate AllSuitesPassed(db: Db, run: string) {
    forall i :: 0 <= i < |db.suites| && db.suites[i].run == run ==> db.suites[i].status == Passed
  }

  function RunStatus(db: Db, run: string): Status {
    if InvariantFailed(db, run) then Failed
    else if !HasSuites(db, run) then Blocked
    else if SomeSuite(db, run, {Failed, Blocked}, true) then Failed
    else if SomeSuite(db, run, {Flaky}, false) then Flaky
    else if AllSuitesPassed(db, run) then Passed
    else Blocked
  }

  /** `finish_run` reports PASSED exactly when there is a suite, every suite
      passed, required or not, and no invariant failed. */
  lemma RunPassesExactlyWhenAllPassed(db: Db, run: string)
    ensures RunStatus(db, run) == Passed
            <==> HasSuites(db, run) && AllSuitesPassed(db, run) && !InvariantFailed(db, run)
  {
  }

  // ------------------------------------------------------------- operations

  datatype Op =
    | StartRun(id: string, artifact: string, environment: string)
    | StartSuite(run: string, key: string, layer: string, required: bool, at: int)
    | CommandSuite(run: string, key: string, layer: string, required: bool, at: int, exitCode: int)
    | FinishScenario(suite: nat, key: string, driver: string, attempts: seq<Status>, failingStep: Option<nat>,
                     verdicts: seq<(string, bool)>)
    | CrashScenario(suite: nat, key: string, driver: string, verdicts: seq<(string, bool)>)
    | FinishRun(id: string)
    | MarkCancelled(id: string)

  predicate Active(db: Db, artifact: string, environment: string) {
    exists id :: id in db.runs && db.runs[id] == RunRow(artifact, environment, Running)
  }

  predicate Possible(db: Db, op: Op) {
    match op
    case StartRun(id, _, _) => id !in db.runs
    case FinishScenario(suite, _, _, attempts, _, _) => suite < |db.suites| && attempts != []
    case CrashScenario(suite, _, _, _) => suite < |db.suites|
    case _ => true
  }

  function Step(db: Db, op: Op): Db
    requires Possible(db, op)
  {
    match op
    case StartRun(id, artifact, environment) =>
      if Active(db, artifact, environment) then db
      else db.(runs := db.runs[id := RunRow(artifact, environment, Running)])
    case StartSuite(run, key, layer, required, at) =>
      db.(suites := db.suites + [Suite(run, key, layer, required, Running, at)])
    case CommandSuite(run, key, layer, required, at, exitCode) =>
      db.(suites := db.suites + [Suite(run, key, layer, required, if exitCode == 0 then Passed else Failed, at)])
    case FinishScenario(suite, key, driver, attempts, failingStep, verdicts) =>
      var row := Scenario(suite, key, driver, ScenarioStatus(attempts, verdicts), failingStep);
      var scenarios := db.scenarios + [row];
      db.(scenarios := scenarios,
          invariants := db.invariants + InvariantRows(db.suites[suite].run, verdicts),
          suites := db.suites[suite := db.suites[suite].(status := SuiteStatus(scenarios, suite))])
    case CrashScenario(suite, key, driver, verdicts) =>
      db.(scenarios := db.scenarios + [Scenario(suite, key, driver, Running, None)],
          invariants := db.invariants + InvariantRows(db.suites[suite].run, verdicts))
    case FinishRun(id) =>
      if id in db.runs then db.(runs := db.runs[id := db.runs[id].(status := RunStatus(db, id))]) else db
    case MarkCancelled(id) =>
      if id in db.runs && db.runs[id].status == Running
      then db.(runs := db.runs[id := db.runs[id].(status := Cancelled)]) else db
  }

  predicate History(ops: seq<Op>)
    decreases |ops|, 0
  {
    ops == [] || (History(ops[..|ops| - 1]) && Possible(After(ops[..|ops| - 1]), ops[|ops| - 1]))
  }

  function After(ops: seq<Op>): Db
    requires History(ops)
    decreases |ops|, 1
  {
    if ops == [] then EMPTY else Step(After(ops[..|ops| - 1]), ops[|ops| - 1])
  }

  // --------------------------------------------------------------- theorems

  /** A suite is never better than its worst finished scenario. */
  ghost predicate SuitesRemember(db: Db) {
    forall i :: 0 <= i < |db.scenarios| ==>
      && db.scenarios[i].suite < |db.suites|
      && (db.scenarios[i].status == Failed ==> db.suites[db.scenarios[i].suite].status == Failed)
      && (db.scenarios[i].status == Flaky ==> db.suites[db.scenarios[i].suite].status in {Flaky, Failed})
  }

  lemma StepRemembers(db: Db, op: Op)
    requires Possible(db, op) && SuitesRemember(db)
    ensures SuitesRemember(Step(db, op))
  {
  }

  lemma {:induction false} EveryHistoryRemembers(ops: seq<Op>)
    requires History(ops)
    ensures SuitesRemember(After(ops))
  {
    if ops != [] {
      EveryHistoryRemembers(ops[..|ops| - 1]);
      StepRemembers(After(ops[..|ops| - 1]), ops[|ops| - 1]);
      hide Step, SuitesRemember;
    }
  }

  /** Rows stay: scenarios and invariants are only added, and a suite keeps
      everything but its status. */
  ghost predicate Extends(a: Db, b: Db) {
    && a.scenarios <= b.scenarios && a.invariants <= b.invariants && |a.suites| <= |b.suites|
    && (forall i :: 0 <= i < |a.suites| ==> b.suites[i].(status := a.suites[i].status) == a.suites[i])
  }

  lemma {:induction false} RowsStay(ops: seq<Op>, k: nat)
    requires History(ops) && k <= |ops|
    ensures History(ops[..k]) && Extends(After(ops[..k]), After(ops))
    decreases |ops|
  {
    if k == |ops| {
      assert ops[..k] == ops;
    } else {
      var before := ops[..|ops| - 1];
      RowsStay(before, k);
      assert before[..k] == ops[..k];
      StepExtends(After(before), ops[|ops| - 1]);
      ExtendsTrans(After(ops[..k]), After(before), After(ops));
    }
  }

  lemma StepExtends(db: Db, op: Op)
    requires Possible(db, op)
    ensures Extends(db, Step(db, op))
  {
  }

  lemma ExtendsTrans(a: Db, b: Db, c: Db)
    requires Extends(a, b) && Extends(b, c)
    ensures Extends(a, c)
  {
  }

  /** A finished scenario is recorded as PASSED exactly when its first attempt
      passed and no invariant checker failed or was missing. */
  lemma CleanScenarioIsPassed(attempts: seq<Status>, verdicts: seq<(string, bool)>)
    requires attempts != [] && forall k :: 0 <= k < |attempts| ==> attempts[k] == Passed || attempts[k] == Failed
    ensures ScenarioStatus(attempts, verdicts) == Passed <==> attempts == [Passed] && !SomeFailed(verdicts)
    ensures ScenarioStatus(attempts, verdicts) in {Passed, Flaky, Failed}
  {
  }

  /** From the calls to the status: a scenario passes exactly when its first
      attempt does and every invariant it names has a checker that holds. */
  lemma ScenarioPassesExactly(driver: Driver, steps: nat, retries: int, keys: seq<string>, checks: map<string, Outcome>)
    requires retries >= 0 && Attempts(driver, steps, retries).Some? && |Checked(keys, checks)| == |keys|
    ensures Attempts(driver, steps, retries).value != []
    ensures ScenarioStatus(Attempts(driver, steps, retries).value, Checked(keys, checks)) == Passed
            <==> Attempt(driver, 1, steps) == AllFine
                 && forall i :: 0 <= i < |keys| ==> keys[i] in checks && checks[keys[i]] == Fine
  {
    AttemptsShape(driver, steps, retries);
    var a, verdicts := Attempts(driver, steps, retries).value, Checked(keys, checks);
    CleanScenarioIsPassed(a, verdicts);
    StatusTellsTheAttempts(driver, steps, retries);
    assert a == [Passed] <==> AttemptsStatus(a) == Some(Passed);
    forall i | 0 <= i < |keys|
      ensures verdicts[i].1 <==> keys[i] in checks && checks[keys[i]] == Fine
    {
      assert verdicts[i] == VerdictOn(keys, checks, i);
    }
  }

  /** Once a scenario has failed, or passed only on a retry, its suite is never
      PASSED again and finishing its run would not give PASSED, whatever is run,
      finished or cancelled afterwards. */
  lemma UncleanScenarioIsForever(ops: seq<Op>, k: nat, row: nat)
    requires History(ops) && k <= |ops|
    requires History(ops[..k]) && row < |After(ops[..k]).scenarios|
    requires After(ops[..k]).scenarios[row].status in {Failed, Flaky}
    ensures row < |After(ops).scenarios|
    ensures var suite := After(ops).scenarios[row].suite;
            && suite < |After(ops).suites|
            && After(ops).suites[suite].status in {Failed, Flaky}
            && RunStatus(After(ops), After(ops).suites[suite].run) != Passed
  {
    RowsStay(ops, k);
    EveryHistoryRemembers(ops);
    var db := After(ops);
    assert db.scenarios[row] == After(ops[..k]).scenarios[row];
    RunPassesExactlyWhenAllPassed(db, db.suites[db.scenarios[row].suite].run);
  }

  lemma {:induction false} HistoryPrefix(ops: seq<Op>, k: nat)
    requires History(ops) && k <= |ops|
    ensures History(ops[..k])
    decreases |ops|
  {
    if k == |ops| {
      assert ops[..k] == ops;
    } else {
      var before := ops[..|ops| - 1];
      HistoryPrefix(before, k);
      assert before[..k] == ops[..k];
    }
  }

  lemma HistoryNext(ops: seq<Op>, op: Op)
    requires History(ops) && Possible(After(ops), op)
    ensures History(ops + [op]) && After(ops + [op]) == Step(After(ops), op)
  {
    assert (ops + [op])[..|ops|] == ops;
  }

  // ------------------------------------------------- what the suite row says

  predicate HasFinished(scenarios: seq<Scenario>, suite: nat) {
    exists i :: 0 <= i < |scenarios| && scenarios[i].suite == suite && scenarios[i].status != Running
  }

  /** A suite with a finished scenario has the status of its worst one. */
  ghost predicate SuitesAreExact(db: Db) {
    && (forall i :: 0 <= i < |db.scenarios| ==>
          db.scenarios[i].suite < |db.suites| && db.scenarios[i].status in {Running, Passed, Flaky, Failed})
    && (forall s :: 0 <= s < |db.suites| && HasFinished(db.scenarios, s) ==>
          db.suites[s].status == SuiteStatus(db.scenarios, s))
  }

  lemma OneMoreScenario(scenarios: seq<Scenario>, row: Scenario, suite: nat)
    ensures forall status :: HasStatus(scenarios + [row], suite, status)
                             <==> HasStatus(scenarios, suite, status) || (row.suite == suite && row.status == status)
    ensures HasFinished(scenarios + [row], suite)
            <==> HasFinished(scenarios, suite) || (row.suite == suite && row.status != Running)
  {
    var more := scenarios + [row];
    assert more[|scenarios|] == row;
    forall status | HasStatus(scenarios, suite, status)
      ensures HasStatus(more, suite, status)
    {
      var i :| 0 <= i < |scenarios| && scenarios[i].suite == suite && scenarios[i].status == status;
      assert more[i] == scenarios[i];
    }
    if HasFinished(scenarios, suite) {
      var i :| 0 <= i < |scenarios| && scenarios[i].suite == suite && scenarios[i].status != Running;
      assert more[i] == scenarios[i];
    }
  }

  lemma StepIsExact(db: Db, op: Op)
    requires Possible(db, op) && SuitesAreExact(db)
    ensures SuitesAreExact(Step(db, op))
  {
    var after := Step(db, op);
    if op.FinishScenario? || op.CrashScenario? {
      var row := after.scenarios[|db.scenarios|];
      assert after.scenarios == db.scenarios + [row];
      forall s | 0 <= s < |after.suites| && HasFinished(after.scenarios, s)
        ensures after.suites[s].status == SuiteStatus(after.scenarios, s)
      {
        OneMoreScenario(db.scenarios, row, s);
      }
    } else {
      forall s | |db.suites| <= s < |after.suites|
        ensures !HasFinished(after.scenarios, s)
      {
      }
    }
  }

  lemma {:induction false} EverySuiteIsExact(ops: seq<Op>)
    requires History(ops)
    ensures SuitesAreExact(After(ops))
  {
    if ops != [] {
      EverySuiteIsExact(ops[..|ops| - 1]);
      StepIsExact(After(ops[..|ops| - 1]), ops[|ops| - 1]);
      hide Step, SuitesAreExact;
    }
  }

  /** In every history a suite with a finished scenario is PASSED exactly when all
      its finished scenarios are; one whose driver or checker raised stays RUNNING
      and is not asked. */
  lemma SuitePassesExactlyWhen(ops: seq<Op>, suite: nat)
    requires History(ops) && suite < |After(ops).suites| && HasFinished(After(ops).scenarios, suite)
    ensures After(ops).suites[suite].status == Passed
            <==> forall i :: 0 <= i < |After(ops).scenarios| && After(ops).scenarios[i].suite == suite ==>
                   After(ops).scenarios[i].status in {Passed, Running}
  {
    EverySuiteIsExact(ops);
    hide After, History;
  }

  const CRASH := CrashScenario(0, "a", "API", [])
  const CLEAN := FinishScenario(0, "b", "API", [Passed], None, [])
  const OPEN_SUITE := Suite("r", "s", "api", true, Running, 0)
  const OPEN_RUN := Db(map["r" := RunRow("artifact", "env", Running)], [OPEN_SUITE], [], [])
  const PASSED_OVER := Db(OPEN_RUN.runs, [OPEN_SUITE.(status := Passed)],
                          [Scenario(0, "a", "API", Running, None), Scenario(0, "b", "API", Passed, None)], [])

  lemma CrashIsPassedOver()
    ensures Step(Step(OPEN_RUN, CRASH), CLEAN) == PASSED_OVER
    ensures RunStatus(PASSED_OVER, "r") == Passed
  {
    var rows := PASSED_OVER.scenarios;
    assert Step(OPEN_RUN, CRASH).scenarios == rows[..1];
    assert !HasStatus(rows, 0, Failed) && !HasStatus(rows, 0, Flaky);
    assert rows[..1] + [rows[1]] == rows;
    RunPassesExactlyWhenAllPassed(PASSED_OVER, "r");
    assert PASSED_OVER.suites[0].run == "r";
  }

  lemma OpenRun()
    ensures var ops := [Op.StartRun("r", "artifact", "env"), StartSuite("r", "s", "api", true, 0)];
            History(ops) && After(ops) == OPEN_RUN
  {
    HistoryNext([], Op.StartRun("r", "artifact", "env"));
    assert [] + [Op.StartRun("r", "artifact", "env")] == [Op.StartRun("r", "artifact", "env")];
    HistoryNext([Op.StartRun("r", "artifact", "env")], StartSuite("r", "s", "api", true, 0));
    assert [Op.StartRun("r", "artifact", "env")] + [StartSuite("r", "s", "api", true, 0)]
        == [Op.StartRun("r", "artifact", "env"), StartSuite("r", "s", "api", true, 0)];
  }

  /** The history in which a scenario that crashed is passed over: suite and run
      end PASSED with its row still RUNNING. */
  lemma CrashedScenarioIsInvisible()
    ensures var ops := [Op.StartRun("r", "artifact", "env"), StartSuite("r", "s", "api", true, 0)]
                       + [CRASH] + [CLEAN] + [Op.FinishRun("r")];
            && History(ops)
            && |After(ops).scenarios| == 2 && After(ops).scenarios[0].status == Running
            && |After(ops).suites| == 1 && After(ops).suites[0].status == Passed
            && StoredAs(After(ops), "r", Passed)
  {
    var ops := [Op.StartRun("r", "artifact", "env"), StartSuite("r", "s", "api", true, 0)];
    OpenRun();
    CrashIsPassedOver();
    hide History, After, RunStatus;
    HistoryNext(ops, CRASH);
    HistoryNext(ops + [CRASH], CLEAN);
    HistoryNext(ops + [CRASH] + [CLEAN], Op.FinishRun("r"));
  }

  // ---------------------------------------------------- what the run row says

  /** Operation `j` is the last to finish the run, and finds it with `status`. */
  ghost predicate LastFinish(ops: seq<Op>, id: string, j: nat, status: Status) {
    && j < |ops| && ops[j] == Op.FinishRun(id)
    && History(ops[..j]) && id in After(ops[..j]).runs && RunStatus(After(ops[..j]), id) == status
    && forall i :: j < i < |ops| ==> ops[i] != Op.FinishRun(id)
  }

  ghost predicate PassStands(ops: seq<Op>, id: string) {
    exists j: nat :: LastFinish(ops, id, j, Passed)
  }

  lemma PassStandsNext(ops: seq<Op>, op: Op, id: string)
    requires History(ops)
    ensures PassStands(ops + [op], id)
            <==> if op == Op.FinishRun(id) then id in After(ops).runs && RunStatus(After(ops), id) == Passed
                 else PassStands(ops, id)
  {
    var more, n := ops + [op], |ops|;
    assert more[..n] == ops && more[n] == op;
    hide History, After, RunStatus;
    assert forall j: nat :: j <= n ==> more[..j] == ops[..j];
    assert forall i :: 0 <= i < n ==> more[i] == ops[i];
    if op == Op.FinishRun(id) {
      assert ops[..n] == ops;
      assert LastFinish(more, id, n, Passed) <==> id in After(ops).runs && RunStatus(After(ops), id) == Passed;
      assert forall j: nat :: LastFinish(more, id, j, Passed) ==> j == n;
    } else {
      assert forall j: nat :: LastFinish(more, id, j, Passed) <==> LastFinish(ops, id, j, Passed);
    }
  }

  predicate StoredAs(db: Db, id: string, status: Status) {
    id in db.runs && db.runs[id].status == status
  }

  lemma StoredStep(db: Db, op: Op, id: string)
    requires Possible(db, op)
    ensures StoredAs(Step(db, op), id, Passed)
            <==> if op == Op.FinishRun(id) then id in db.runs && RunStatus(db, id) == Passed
                 else StoredAs(db, id, Passed)
    ensures StoredAs(Step(db, op), id, Cancelled)
            <==> if op == Op.FinishRun(id) then false
                 else StoredAs(db, id, Cancelled) || (op == Op.MarkCancelled(id) && StoredAs(db, id, Running))
  {
  }

  /** Over every history a run is stored as PASSED exactly when the last operation
      that finished it found every suite passed and no invariant failed; suites
      that change afterwards do not change the row. */
  lemma {:induction false} StoredPassExactlyWhen(ops: seq<Op>, id: string)
    requires History(ops)
    ensures StoredAs(After(ops), id, Passed) <==> PassStands(ops, id)
  {
    if ops != [] {
      var before, op := ops[..|ops| - 1], ops[|ops| - 1];
      assert ops == before + [op];
      StoredPassExactlyWhen(before, id);
      StoredStep(After(before), op, id);
      PassStandsNext(before, op, id);
      hide Step, Possible, RunStatus, StoredAs, PassStands;
    }
  }

  /** The cancel at `j` took effect, and no operation finished the run since. */
  ghost predicate CancelledAt(ops: seq<Op>, id: string, j: nat) {
    && j < |ops| && ops[j] == Op.MarkCancelled(id)
    && History(ops[..j]) && StoredAs(After(ops[..j]), id, Running)
    && forall i :: j < i < |ops| ==> ops[i] != Op.FinishRun(id)
  }

  ghost predicate CancelStands(ops: seq<Op>, id: string) {
    exists j: nat :: CancelledAt(ops, id, j)
  }

  lemma CancelStandsNext(ops: seq<Op>, op: Op, id: string)
    requires History(ops)
    ensures CancelStands(ops + [op], id)
            <==> if op == Op.FinishRun(id) then false
                 else CancelStands(ops, id) || (op == Op.MarkCancelled(id) && StoredAs(After(ops), id, Running))
  {
    var more, n := ops + [op], |ops|;
    assert more[..n] == ops && more[n] == op;
    hide History, After, StoredAs;
    assert forall j: nat :: j <= n ==> more[..j] == ops[..j];
    assert forall i :: 0 <= i < n ==> more[i] == ops[i];
    assert ops[..n] == ops;
    assert CancelledAt(more, id, n) <==> op == Op.MarkCancelled(id) && StoredAs(After(ops), id, Running);
    if op == Op.FinishRun(id) {
      assert forall j: nat :: !CancelledAt(more, id, j);
    } else {
      assert forall j: nat :: j < n ==> (CancelledAt(more, id, j) <==> CancelledAt(ops, id, j));
    }
  }

  /** Over every history a run is stored as CANCELLED exactly when it was cancelled
      while RUNNING and has not been finished since: CANCELLED is not protected. */
  lemma {:induction false} StoredCancelExactlyWhen(ops: seq<Op>, id: string)
    requires History(ops)
    ensures StoredAs(After(ops), id, Cancelled) <==> CancelStands(ops, id)
  {
    if ops != [] {
      var before, op := ops[..|ops| - 1], ops[|ops| - 1];
      assert ops == before + [op];
      StoredCancelExactlyWhen(before, id);
      StoredStep(After(before), op, id);
      CancelStandsNext(before, op, id);
      hide Step, Possible, RunStatus, StoredAs, CancelStands;
    }
  }

  /** After the first `k` operations the run has an unclean scenario. */
  ghost predicate UncleanAt(ops: seq<Op>, k: nat, row: nat, id: string) {
    && History(ops) && k <= |ops| && History(ops[..k])
    && var db := After(ops[..k]);
       && row < |db.scenarios| && db.scenarios[row].status in {Failed, Flaky}
       && db.scenarios[row].suite < |db.suites| && db.suites[db.scenarios[row].suite].run == id
  }

  lemma UncleanRunDoesNotPass(ops: seq<Op>, k: nat, row: nat, id: string)
    requires UncleanAt(ops, k, row, id)
    ensures RunStatus(After(ops), id) != Passed
  {
    hide RunStatus, History, After;
    UncleanScenarioIsForever(ops, k, row);
    RowsStay(ops, k);
    assert After(ops).scenarios[row] == After(ops[..k]).scenarios[row];
  }

  lemma UncleanEarlier(ops: seq<Op>, k: nat, row: nat, id: string)
    requires UncleanAt(ops, k, row, id) && k < |ops|
    ensures var before := ops[..|ops| - 1]; UncleanAt(before, k, row, id) && before[..k] == ops[..k]
  {
    assert ops[..|ops| - 1][..k] == ops[..k];
  }

  /** After a scenario has failed, or passed only on a retry, finishing its run
      never stores PASSED.  The row is PASSED at the end exactly when it already was
      and nothing has finished the run since. */
  lemma {:induction false} UncleanRunNeverPassesAgain(ops: seq<Op>, k: nat, row: nat, id: string)
    requires UncleanAt(ops, k, row, id)
    ensures StoredAs(After(ops), id, Passed)
            <==> StoredAs(After(ops[..k]), id, Passed) && forall j :: k <= j < |ops| ==> ops[j] != Op.FinishRun(id)
    decreases |ops|
  {
    if k == |ops| {
      assert ops[..k] == ops;
    } else {
      var before, op := ops[..|ops| - 1], ops[|ops| - 1];
      assert After(ops) == Step(After(before), op);
      UncleanEarlier(ops, k, row, id);
      UncleanRunNeverPassesAgain(before, k, row, id);
      UncleanRunDoesNotPass(before, k, row, id);
      StoredStep(After(before), op, id);
      hide RunStatus, History, After, Step, Possible, StoredAs, UncleanAt;
      assert forall j :: k <= j < |before| ==> before[j] == ops[j];
    }
  }

  const FAILING := FinishScenario(0, "b", "API", [Failed], None, [])
  const ONE_PASSED := Db(OPEN_RUN.runs, [OPEN_SUITE.(status := Passed)], [Scenario(0, "b", "API", Passed, None)], [])

  lemma PassesThenFinishes()
    ensures Step(OPEN_RUN, CLEAN) == ONE_PASSED
    ensures RunStatus(ONE_PASSED, "r") == Passed
  {
    assert !HasStatus(ONE_PASSED.scenarios, 0, Failed) && !HasStatus(ONE_PASSED.scenarios, 0, Flaky);
    assert [] + [ONE_PASSED.scenarios[0]] == ONE_PASSED.scenarios;
    RunPassesExactlyWhenAllPassed(ONE_PASSED, "r");
    assert ONE_PASSED.suites[0].run == "r";
  }

  /** The history in which the row outlives the facts: the suite has failed and the
      run still says PASSED. */
  lemma PassedRunOutlivesItsSuite()
    ensures var ops := [Op.StartRun("r", "artifact", "env"), StartSuite("r", "s", "api", true, 0)]
                       + [CLEAN] + [Op.FinishRun("r")] + [FAILING];
            && History(ops)
            && |After(ops).suites| == 1 && After(ops).suites[0].run == "r" && After(ops).suites[0].status == Failed
            && StoredAs(After(ops), "r", Passed)
  {
    var ops := [Op.StartRun("r", "artifact", "env"), StartSuite("r", "s", "api", true, 0)];
    OpenRun();
    PassesThenFinishes();
    hide History, After, RunStatus;
    HistoryNext(ops, CLEAN);
    HistoryNext(ops + [CLEAN], Op.FinishRun("r"));
    var db := Step(ONE_PASSED, Op.FinishRun("r"));
    HistoryNext(ops + [CLEAN] + [Op.FinishRun("r")], FAILING);
    assert (db.scenarios + [Scenario(0, "b", "API", Failed, None)])[1].status == Failed;
  }

  // ---------------------------------------------------------- one active run

  ghost predicate OneActiveRun(db: Db) {
    forall a, b :: a in db.runs && b in db.runs && db.runs[a].status == Running && db.runs[a] == db.runs[b] ==> a == b
  }

  /** At most one run per artifact and environment is RUNNING, in every history. */
  lemma {:induction false} AtMostOneActiveRun(ops: seq<Op>)
    requires History(ops)
    ensures OneActiveRun(After(ops))
  {
    if ops != [] {
      AtMostOneActiveRun(ops[..|ops| - 1]);
      StepKeepsOneActive(After(ops[..|ops| - 1]), ops[|ops| - 1]);
      hide Step, OneActiveRun;
    }
  }

  lemma StepKeepsOneActive(db: Db, op: Op)
    requires Possible(db, op) && OneActiveRun(db)
    ensures OneActiveRun(Step(db, op))
  {
  }

  // ------------------------------------------------------------ the services

  const RUN_KINDS: set<string> := {
    "FUNCTIONAL", "UI_E2E", "LONG_RUNNING_FACTORY_SIMULATION", "LOAD", "SOAK", "OFFLINE_BURST", "CHAOS",
    "MIGRATION", "BACKUP_RESTORE", "ROLLBACK", "RELEASE_QUALIFICATION"}

  datatype StartRefusal = UnknownArtifact | UnknownEnvironment | InvalidKind | AlreadyRunning

  /** How the command of a command suite ends. */
  datatype CommandEnd = Exits(code: int) | TimesOut | Fails

  const TIMEOUT_EXIT_CODE := 124

  class QualificationStore {
    var db: Db

    constructor ()
      ensures db == EMPTY
    {
      db := EMPTY;
    }

    /** Refuses, in this order, an unknown artifact, an unknown environment, an
        invalid kind and a second active run. */
    method StartRun(id: string, artifact: string, environment: string, kind: string,
                    artifacts: set<string>, environments: set<string>) returns (refusal: Option<StartRefusal>)
      requires id !in db.runs
      modifies this
      ensures refusal == Some(UnknownArtifact) <==> artifact !in artifacts
      ensures refusal == Some(UnknownEnvironment) <==> artifact in artifacts && environment !in environments
      ensures refusal == Some(InvalidKind) <==>
                artifact in artifacts && environment in environments && kind !in RUN_KINDS
      ensures refusal == None <==> && artifact in artifacts && environment in environments && kind in RUN_KINDS
                                   && !Active(old(db), artifact, environment)
      ensures refusal == None ==> db == Step(old(db), Op.StartRun(id, artifact, environment))
                                  && db.runs == old(db.runs)[id := RunRow(artifact, environment, Running)]
      ensures refusal.Some? ==> db == old(db)
    {
      if artifact !in artifacts {
        return Some(UnknownArtifact);
      }
      if environment !in environments {
        return Some(UnknownEnvironment);
      }
      if kind !in RUN_KINDS {
        return Some(InvalidKind);
      }
      if Active(db, artifact, environment) {
        return Some(AlreadyRunning);
      }
      db := db.(runs := db.runs[id := RunRow(artifact, environment, Running)]);
      refusal := None;
    }

    /** A suite that is one command; when launching it raises, the row stays
        RUNNING. */
    method RunCommandSuite(run: string, key: string, layer: string, required: bool, at: int, end: CommandEnd)
      returns (status: Option<Status>)
      modifies this
      ensures db == Step(old(db), if end.Fails? then StartSuite(run, key, layer, required, at)
                                  else CommandSuite(run, key, layer, required, at,
                                                    if end.Exits? then end.code else TIMEOUT_EXIT_CODE))
      ensures status == if end == Fails then None else Some(if end == Exits(0) then Passed else Failed)
    {
      var id := |db.suites|;
      var suite := Suite(run, key, layer, required, Running, at);
      db := db.(suites := db.suites + [suite]);
      if end.Fails? {
        return None;
      }
      var s := if end.Exits? && end.code == 0 then Passed else Failed;
      db := db.(suites := db.suites[id := suite.(status := s)]);
      status := Some(s);
    }

    method FinishRun(id: string) returns (status: Option<Status>)
      modifies this
      ensures db == Step(old(db), Op.FinishRun(id))
      ensures status.Some? <==> id in old(db).runs
      ensures status == Some(Passed) <==>
                && id in old(db).runs && HasSuites(old(db), id)
                && AllSuitesPassed(old(db), id) && !InvariantFailed(old(db), id)
      ensures status.Some? ==> db.runs == old(db.runs)[id := old(db.runs)[id].(status := status.value)]
    {
      RunPassesExactlyWhenAllPassed(db, id);
      if id !in db.runs {
        return None;
      }
      var s := Blocked;
      if !HasSuites(db, id) {
      } else if SomeSuite(db, id, {Failed, Blocked}, true) {
        s := Failed;
      } else if SomeSuite(db, id, {Flaky}, false) {
        s := Flaky;
      } else if AllSuitesPassed(db, id) {
        s := Passed;
      }
      if InvariantFailed(db, id) {
        s := Failed;
      }
      db := db.(runs := db.runs[id := db.runs[id].(status := s)]);
      status := Some(s);
    }

    method MarkCancelled(id: string) returns (known: bool)
      modifies this
      ensures db == Step(old(db), Op.MarkCancelled(id))
      ensures known <==> id in old(db).runs
      ensures id in old(db).runs && old(db).runs[id].status != Running ==> db == old(db)
    {
      if id in db.runs && db.runs[id].status == Running {
        db := db.(runs := db.runs[id := db.runs[id].(status := Cancelled)]);
      }
      known := id in db.runs;
    }

    /** The attempt and step loops. */
    method RunAttempts(driver: Driver, steps: nat, retries: int)
      returns (raised: bool, attempts: seq<Status>, failingStep: Option<nat>)
      ensures raised <==> Attempts(driver, steps, retries).None?
      ensures !raised ==> Attempts(driver, steps, retries) == Some(attempts)
      ensures !raised ==> failingStep == FailingStep(driver, steps, attempts)
    {
      raised, attempts, failingStep := false, [], None;
      JoinNothing(Attempts(driver, steps, retries));
      var n: nat := 1;
      while n < retries + 2
        invariant |attempts| == n - 1
        invariant n <= retries + 2 || n == 1
        invariant Attempts(driver, steps, retries) == Joined(attempts, AttemptsFrom(driver, steps, n, retries + 1))
        invariant failingStep == FailingStep(driver, steps, attempts)
        decreases retries + 2 - n
      {
        var status, step: nat := Passed, 1;
        while step <= steps
          invariant step <= steps + 1 && status == Passed
          invariant Attempt(driver, n, steps) == AttemptFrom(driver, n, step, steps)
        {
          var o := driver(n, step);
          if o == Raises {
            raised := true;
            return;
          }
          if o == NotFine {
            status, failingStep := Failed, Some(step);
            break;
          }
          step := step + 1;
        }
        ghost var tail := AttemptsFrom(driver, steps, n + 1, retries + 1);
        JoinOne(attempts, status, tail);
        assert (attempts + [status])[..n - 1] == attempts;
        attempts := attempts + [status];
        if status == Passed {
          assert AttemptsFrom(driver, steps, n, retries + 1) == Some([Passed]);
          return;
        }
        n := n + 1;
      }
      assert attempts + [] == attempts;
    }

    /** The invariant loop: one row per checker, up to one that raises. */
    method CheckInvariants(suite: nat, keys: seq<string>, checks: map<string, Outcome>)
      returns (raised: bool, failed: bool)
      requires suite < |db.suites|
      modifies this
      ensures var verdicts := Checked(keys, checks);
              && db == old(db).(invariants := old(db.invariants) + InvariantRows(old(db.suites)[suite].run, verdicts))
              && (raised <==> |verdicts| < |keys|)
              && (failed <==> SomeFailed(verdicts))
    {
      hide SomeFailed, Checked, InvariantRows;
      NoneFailed([]);
      ghost var before, run, done: seq<(string, bool)> := db, db.suites[suite].run, [];
      raised, failed := false, false;
      var i := 0;
      assert before.invariants + InvariantRows(run, []) == before.invariants;
      while i < |keys|
        invariant i <= |keys| && |done| == i
        invariant forall k :: 0 <= k < i ==> !ChecksRaise(keys, checks, k) && done[k] == VerdictOn(keys, checks, k)
        invariant db == before.(invariants := before.invariants + InvariantRows(run, done))
        invariant failed <==> SomeFailed(done)
      {
        if ChecksRaise(keys, checks, i) {
          raised := true;
          assert done == Checked(keys, checks);
          return;
        }
        var verdict := VerdictOn(keys, checks, i);
        db := db.(invariants := db.invariants + [Invariant(db.suites[suite].run, verdict.0, verdict.1)]);
        OneMoreRow(before.invariants, run, done, verdict);
        SomeFailedNext(done, verdict);
        done := done + [verdict];
        failed := failed || !verdict.1;
        i := i + 1;
      }
      assert done == Checked(keys, checks);
    }

    /** One scenario: attempts, then the invariant checkers, then the fold over
        the suite's rows.  When something raises the row stays RUNNING. */
    method RunScenario(suite: nat, key: string, driverName: string, steps: nat, keys: seq<string>,
                       driver: Driver, checks: map<string, Outcome>, retries: int) returns (r: Option<Status>)
      requires suite < |db.suites|
      modifies this
      ensures var a, verdicts := Attempts(driver, steps, retries), Checked(keys, checks);
              && (r.Some? <==> a.Some? && a.value != [] && |verdicts| == |keys|)
              && (r.Some? ==> db == Step(old(db), FinishScenario(suite, key, driverName, a.value,
                                                                 FailingStep(driver, steps, a.value), verdicts)))
              && (r.None? ==> db == Step(old(db), CrashScenario(suite, key, driverName,
                                                                if a.Some? && a.value != [] then verdicts else [])))
      ensures r.Some? ==> r == Some(db.scenarios[|db.scenarios| - 1].status)
    {
      hide Attempts, FailingStep, Checked, SuiteStatus;
      ghost var before := db;
      var id := |db.scenarios|;
      db := db.(scenarios := db.scenarios + [Scenario(suite, key, driverName, Running, None)]);
      var raised, attempts, failingStep := RunAttempts(driver, steps, retries);
      if raised || attempts == [] {
        assert db.invariants + InvariantRows(before.suites[suite].run, []) == before.invariants;
        return None;
      }
      var stopped, failed := CheckInvariants(suite, keys, checks);
      if stopped {
        return None;
      }
      var status := if failed then Failed else AttemptsStatus(attempts).value;
      var row := Scenario(suite, key, driverName, status, failingStep);
      var scenarios := db.scenarios[id := row];
      assert scenarios == before.scenarios + [row];
      db := db.(scenarios := scenarios,
                suites := db.suites[suite := db.suites[suite].(status := SuiteStatus(scenarios, suite))]);
      r := Some(status);
    }
  }

  function Joined(done: seq<Status>, rest: Option<seq<Status>>): Option<seq<Status>> {
    if rest.None? then None else Some(done + rest.value)
  }

  lemma JoinNothing(rest: Option<seq<Status>>)
    ensures Joined([], rest) == rest
  {
    assert rest.Some? ==> [] + rest.value == rest.value;
  }

  lemma JoinOne(done: seq<Status>, status: Status, rest: Option<seq<Status>>)
    ensures Joined(done, Joined([status], rest)) == Joined(done + [status], rest)
  {
    if rest.Some? {
      assert done + ([status] + rest.value) == done + [status] + rest.value;
    }
  }

  lemma OneMoreRow(rows: seq<Invariant>, run: string, done: seq<(string, bool)>, verdict: (string, bool))
    ensures rows + InvariantRows(run, done + [verdict])
         == rows + InvariantRows(run, done) + [Invariant(run, verdict.0, verdict.1)]
  {
    assert InvariantRows(run, done + [verdict]) == InvariantRows(run, done) + [Invariant(run, verdict.0, verdict.1)];
  }
}
