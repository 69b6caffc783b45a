/** What the demo database can hold over whole runs of the demo workflows, with
    failures anywhere (`agent.py`). */
module DemoTarget {
  import opened Wrappers
  import opened PostgresCluster
  import opened DatabaseWorkflows

  // --------------------------------------------- what the demo target can hold

  /** A clean, baseline-checked copy of what the source held at some time. */
  ghost predicate FromSource(x: Database, states: seq<Databases>, c: Config) {
    exists i :: 0 <= i < |states| && c.demoSource in states[i]
                && x == Clean(states[i][c.demoSource], c.demoRoots) && Baseline(x, c.minima, true)
  }

  /** What was in the target or the template at the start, or such a copy. */
  ghost predicate Genuine(x: Database, states: seq<Databases>, c: Config)
    requires states != []
  {
    || (c.demoTarget in states[0] && x == states[0][c.demoTarget])
    || (c.demoTemplate in states[0] && x == states[0][c.demoTemplate])
    || FromSource(x, states, c)
  }

  /** Demo workflows of one configuration, mixed with steps that leave the target
      and the template alone. */
  predicate DemoOrForeign(step: Step, c: Config) {
    || (step.PrepareStep? && step.c == c)
    || (step.DemoResetStep? && step.c == c)
    || (Spares(step, c.demoTarget) && Spares(step, c.demoTemplate))
  }

  /** Did the latest preparation that was not refused end in `Failed`? */
  predicate Tainted(steps: seq<Step>, c: Config) {
    if steps == [] then false
    else
      TaintAfter(steps[|steps| - 1], c, Tainted(steps[..|steps| - 1], c))
  }

  /** A reset that got past its checks. */
  predicate Resets(step: Step, c: Config) {
    step.DemoResetStep? && step.c == c && step.o != Refused && step.o != TemplateRejected
  }

  ghost predicate NoTaintedReset(steps: seq<Step>, c: Config) {
    forall k :: 0 <= k < |steps| && Resets(steps[k], c) ==> !Tainted(steps[..k], c)
  }

  ghost predicate GenuineAt(states: seq<Databases>, n: nat, name: string, c: Config)
    requires n < |states|
  {
    name in states[n] ==> Genuine(states[n][name], states[..n + 1], c)
  }

  lemma GenuineStays(x: Database, states: seq<Databases>, k: nat, c: Config)
    requires 0 < k <= |states| && Genuine(x, states[..k], c)
    ensures Genuine(x, states, c)
  {
    hide Clean, Baseline;
    if i :| 0 <= i < k && c.demoSource in states[..k][i]
            && x == Clean(states[..k][i][c.demoSource], c.demoRoots) && Baseline(x, c.minima, true) {
      assert states[i] == states[..k][i];
    }
  }

  lemma PreparedIsGenuine(states: seq<Databases>, n: nat, c: Config)
    requires n + 1 < |states| && c.demoSource in states[n]
    requires Baseline(Clean(states[n][c.demoSource], c.demoRoots), c.minima, true)
    ensures Genuine(Clean(states[n][c.demoSource], c.demoRoots), states, c)
  {
  }

  predicate TaintAfter(step: Step, c: Config, tainted: bool) {
    if step.PrepareStep? && step.c == c && step.o != Refused then step.o == Failed else tainted
  }

  /** What one demo workflow can put into the target and the template. */
  lemma DemoStepContents(b: Databases, a: Databases, step: Step, reach: string -> string, c: Config)
    requires Next(b, a, step, reach) && (step.PrepareStep? || step.DemoResetStep?) && step.c == c
    ensures var t, g := c.demoTarget, c.demoTemplate;
            && (t in a ==> || Same(b, a, t)
                           || (step.PrepareStep? && IsCleanCopy(b, c, a[t]))
                           || (Resets(step, c) && g in b && a[t] == b[g]))
            && (g in a && !(step.PrepareStep? && step.o == Failed) ==>
                  (Same(b, a, g) && (step.PrepareStep? ==> step.o == Refused)) || IsCleanCopy(b, c, a[g]))
  {
    hide Clean, Baseline, PartlyClean;
  }

  ghost predicate IsCleanCopy(b: Databases, c: Config, x: Database) {
    c.demoSource in b && x == Clean(b[c.demoSource], c.demoRoots) && Baseline(x, c.minima, true)
  }

  lemma GenuineStep(states: seq<Databases>, step: Step, reach: string -> string, c: Config, n: nat, tainted: bool)
    requires n + 2 == |states| && Next(states[n], states[n + 1], step, reach) && DemoOrForeign(step, c)
    requires GenuineAt(states, n, c.demoTarget, c) && (!tainted ==> GenuineAt(states, n, c.demoTemplate, c))
    requires Resets(step, c) ==> !tainted
    ensures GenuineAt(states, n + 1, c.demoTarget, c)
    ensures !TaintAfter(step, c, tainted) ==> GenuineAt(states, n + 1, c.demoTemplate, c)
  {
    var b, a, t, g := states[n], states[n + 1], c.demoTarget, c.demoTemplate;
    assert states[..n + 2] == states;
    hide Clean, Baseline, SafeDemoNames, FromSource, PartlyClean, Genuine;
    if t in b {
      GenuineStays(b[t], states, n + 1, c);
    }
    if g in b && !tainted {
      GenuineStays(b[g], states, n + 1, c);
    }
    if Spares(step, t) && Spares(step, g) {
      StepSpares(b, a, step, reach, t);
      StepSpares(b, a, step, reach, g);
    } else {
      DemoStepContents(b, a, step, reach, c);
      if c.demoSource in b && Baseline(Clean(b[c.demoSource], c.demoRoots), c.minima, true) {
        PreparedIsGenuine(states, n, c);
      }
    }
    hide Next, Spares;
  }

  /** What the demo database can hold, over every run of preparations and resets
      of one configuration with failures anywhere and anything else in between:
      it is absent, holds what the target or template held at the start, or a
      clean and checked copy of an earlier source, as long as nobody resets while
      the latest preparation is one that failed. */
  lemma {:induction false} DemoTargetIsCleanOrOld(states: seq<Databases>, steps: seq<Step>, reach: string -> string,
                                                  c: Config)
    requires IsRun(states, steps, reach) && NoTaintedReset(steps, c)
    requires forall i :: 0 <= i < |steps| ==> DemoOrForeign(steps[i], c)
    ensures GenuineAt(states, |steps|, c.demoTarget, c)
    ensures !Tainted(steps, c) ==> GenuineAt(states, |steps|, c.demoTemplate, c)
    decreases |steps|
  {
    hide FromSource, Next, DemoOrForeign;
    if steps != [] {
      var k := |steps| - 1;
      var states', steps' := states[..k + 1], steps[..k];
      assert NoTaintedReset(steps', c) by {
        assert forall i :: 0 <= i < k ==> steps'[..i] == steps[..i];
      }
      DemoTargetIsCleanOrOld(states', steps', reach, c);
      assert states'[..k + 1] == states[..k + 1];
      assert steps[k] == steps[|steps| - 1];
      GenuineStep(states, steps[k], reach, c, k, Tainted(steps', c));
    }
  }

  // --------------------------------------------- when the proviso is not needed

  /** A source for which a preparation can stop half-way unnoticed: cleaned up to
      some root, it passes the baseline check without being clean. */
  ghost predicate HalfwayPasses(source: Database, c: Config) {
    exists k :: 0 <= k <= |c.demoRoots| && PassesUnclean(TruncateRoots(source, c.demoRoots[..k]), source, c)
  }

  ghost predicate PassesUnclean(x: Database, source: Database, c: Config) {
    Baseline(x, c.minima, true) && x != Clean(source, c.demoRoots)
  }

  ghost predicate PlainNames(c: Config, reach: string -> string) {
    reach(c.demoTarget) == c.demoTarget && reach(c.demoTemplate) == c.demoTemplate
  }

  /** A template that would pass the check of a reset is genuine. */
  ghost predicate CheckedIsGenuine(states: seq<Databases>, n: nat, c: Config)
    requires n < |states|
  {
    c.demoTemplate in states[n] && Baseline(states[n][c.demoTemplate], c.minima, true) ==>
      Genuine(states[n][c.demoTemplate], states[..n + 1], c)
  }

  lemma PartlyCleanIsCaught(x: Database, source: Database, c: Config)
    requires PartlyClean(x, source, c.demoRoots) && Baseline(x, c.minima, true) && !HalfwayPasses(source, c)
    ensures x == Clean(source, c.demoRoots)
  {
    hide Baseline, Clean, TruncateRoots;
    assert !PassesUnclean(x, source, c) ==> x == Clean(source, c.demoRoots);
  }

  /** What a step can put into the target and the template when every reset checks
      the template it copies. */
  lemma CheckedStepContents(b: Databases, a: Databases, step: Step, reach: string -> string, c: Config)
    requires Next(b, a, step, reach) && DemoOrForeign(step, c)
    requires PlainNames(c, reach) && (c.demoSource in b ==> !HalfwayPasses(b[c.demoSource], c))
    ensures var t, g := c.demoTarget, c.demoTemplate;
            && (t in a ==> || Same(b, a, t)
                           || IsCleanCopy(b, c, a[t])
                           || (g in b && a[t] == b[g] && Baseline(b[g], c.minima, true)))
            && (g in a && Baseline(a[g], c.minima, true) ==> Same(b, a, g) || IsCleanCopy(b, c, a[g]))
  {
    hide Clean, Baseline, PartlyClean, HalfwayPasses, SafeDemoNames;
    var t, g := c.demoTarget, c.demoTemplate;
    if Spares(step, t) && Spares(step, g) {
      StepSpares(b, a, step, reach, t);
      StepSpares(b, a, step, reach, g);
      hide *;
    } else {
      CheckedDemoContents(b, a, step, reach, c);
    }
  }

  lemma CheckedDemoContents(b: Databases, a: Databases, step: Step, reach: string -> string, c: Config)
    requires Next(b, a, step, reach) && (step.PrepareStep? || step.DemoResetStep?) && step.c == c
    requires PlainNames(c, reach) && (c.demoSource in b ==> !HalfwayPasses(b[c.demoSource], c))
    ensures var t, g := c.demoTarget, c.demoTemplate;
            && (t in a ==> || Same(b, a, t)
                           || IsCleanCopy(b, c, a[t])
                           || (g in b && a[t] == b[g] && Baseline(b[g], c.minima, true)))
            && (g in a && Baseline(a[g], c.minima, true) ==> Same(b, a, g) || IsCleanCopy(b, c, a[g]))
  {
    hide Clean, Baseline, PartlyClean, HalfwayPasses;
    var g := c.demoTemplate;
    if step.PrepareStep? && g in a && c.demoSource in b && PartlyClean(a[g], b[c.demoSource], c.demoRoots)
       && Baseline(a[g], c.minima, true) {
      PartlyCleanIsCaught(a[g], b[c.demoSource], c);
    }
    DemoStepContents(b, a, step, reach, c);
  }

  lemma CheckedStep(states: seq<Databases>, step: Step, reach: string -> string, c: Config, n: nat)
    requires n + 2 == |states| && Next(states[n], states[n + 1], step, reach) && DemoOrForeign(step, c)
    requires GenuineAt(states, n, c.demoTarget, c) && CheckedIsGenuine(states, n, c)
    requires PlainNames(c, reach)
    requires c.demoSource in states[n] ==> !HalfwayPasses(states[n][c.demoSource], c)
    ensures GenuineAt(states, n + 1, c.demoTarget, c) && CheckedIsGenuine(states, n + 1, c)
  {
    var b, a, t, g := states[n], states[n + 1], c.demoTarget, c.demoTemplate;
    assert states[..n + 2] == states;
    hide Clean, Baseline, Next, DemoOrForeign, FromSource, Genuine, HalfwayPasses, PlainNames;
    CheckedStepContents(b, a, step, reach, c);
    if t in b {
      GenuineStays(b[t], states, n + 1, c);
    }
    if g in b && Baseline(b[g], c.minima, true) {
      GenuineStays(b[g], states, n + 1, c);
    }
    if c.demoSource in b && Baseline(Clean(b[c.demoSource], c.demoRoots), c.minima, true) {
      PreparedIsGenuine(states, n, c);
    }
  }

  /** The guarantee that can be read off the sources beforehand: over every run, with
      resets at any time, the demo database is absent, as at the start, or a clean
      copy, if no source is ever one that slips through half-cleaned. */
  lemma {:induction false} DemoTargetIsCleanWhenChecked(states: seq<Databases>, steps: seq<Step>,
                                                        reach: string -> string, c: Config)
    requires IsRun(states, steps, reach) && PlainNames(c, reach)
    requires forall i :: 0 <= i < |steps| ==> DemoOrForeign(steps[i], c)
    requires forall i :: 0 <= i < |states| && c.demoSource in states[i] ==> !HalfwayPasses(states[i][c.demoSource], c)
    ensures GenuineAt(states, |steps|, c.demoTarget, c) && CheckedIsGenuine(states, |steps|, c)
    decreases |steps|
  {
    hide FromSource, Next, DemoOrForeign, HalfwayPasses;
    if steps != [] {
      var k := |steps| - 1;
      var states', steps' := states[..k + 1], steps[..k];
      DemoTargetIsCleanWhenChecked(states', steps', reach, c);
      assert states'[..k + 1] == states[..k + 1];
      CheckedStep(states, steps[k], reach, c, k);
    }
  }

  // ------------------------------------------------- when it is, and a run of it

  /** Root `k` is a place where stopping goes unnoticed and shows: what is there
      passes the check, and is neither clean nor what was there before. */
  ghost predicate ExposedAt(b: Databases, c: Config, k: nat)
    requires c.demoSource in b && k <= |c.demoRoots|
  {
    var half := TruncateRoots(b[c.demoSource], c.demoRoots[..k]);
    && PassesUnclean(half, b[c.demoSource], c)
    && (c.demoTarget in b ==> half != b[c.demoTarget])
    && (c.demoTemplate in b ==> half != b[c.demoTemplate])
  }

  ghost predicate Exposed(b: Databases, c: Config)
    requires c.demoSource in b
  {
    exists k :: 0 <= k <= |c.demoRoots| && ExposedAt(b, c, k)
  }

  function FailedThenReset(c: Config): seq<Step> {
    [PrepareStep(c, Failed), DemoResetStep(c, Succeeded)]
  }

  /** The three states of such a run. */
  function Exposure(b: Databases, c: Config, k: nat): seq<Databases>
    requires c.demoSource in b && k <= |c.demoRoots|
  {
    var half := TruncateRoots(b[c.demoSource], c.demoRoots[..k]);
    var m := (b - {c.demoTarget})[c.demoTemplate := half];
    [b, m, m[c.demoTarget := half]]
  }

  lemma NotGenuine(b: Databases, c: Config, k: nat)
    requires DemoGuarded(c, b) && k <= |c.demoRoots| && ExposedAt(b, c, k)
    ensures !GenuineAt(Exposure(b, c, k), 2, c.demoTarget, c)
  {
    hide Baseline, Clean, TruncateRoots, EndsWithTemplate;
    var states := Exposure(b, c, k);
    assert states[..3] == states;
    assert forall i :: 0 <= i < 3 && c.demoSource in states[i] ==> states[i][c.demoSource] == b[c.demoSource];
  }

  lemma ExposureIsARun(b: Databases, c: Config, reach: string -> string, k: nat)
    requires DemoGuarded(c, b) && PlainNames(c, reach) && k <= |c.demoRoots|
    requires Baseline(TruncateRoots(b[c.demoSource], c.demoRoots[..k]), c.minima, true)
    ensures var states := Exposure(b, c, k);
            && DemoPrepare(states[0], states[1], c, Failed, reach)
            && DemoReset(states[1], states[2], c, Succeeded, reach)
  {
    hide Baseline, Clean, TruncateRoots, EndsWithTemplate;
    assert PartlyClean(TruncateRoots(b[c.demoSource], c.demoRoots[..k]), b[c.demoSource], c.demoRoots);
    hide PartlyClean;
  }

  /** The run in which the proviso fails: a preparation that fails at root `k`, then
      a reset, which reports success and leaves the half-cleaned data. */
  lemma FailedPreparationReachesTheTarget(b: Databases, c: Config, reach: string -> string, k: nat)
    requires DemoGuarded(c, b) && PlainNames(c, reach) && k <= |c.demoRoots| && ExposedAt(b, c, k)
    ensures IsRun(Exposure(b, c, k), FailedThenReset(c), reach)
    ensures Exposure(b, c, k)[2][c.demoTarget] == TruncateRoots(b[c.demoSource], c.demoRoots[..k])
    ensures !GenuineAt(Exposure(b, c, k), 2, c.demoTarget, c)
  {
    NotGenuine(b, c, k);
    ExposureIsARun(b, c, reach, k);
    hide Baseline, Clean, TruncateRoots, GenuineAt, DemoPrepare, DemoReset, DemoGuarded, PlainNames;
  }

  /** Exactly when a reset after a failed preparation is harmless at every point of
      failure, from any cluster: when the baseline check would catch every
      half-cleaned source that was not there before. */
  lemma ResetAfterFailureIsSafeExactlyWhen(b: Databases, c: Config, reach: string -> string)
    requires DemoGuarded(c, b) && PlainNames(c, reach)
    ensures Exposed(b, c)
            <==> exists states :: IsRun(states, FailedThenReset(c), reach) && states[0] == b
                                  && !GenuineAt(states, 2, c.demoTarget, c)
  {
    if Exposed(b, c) {
      hide ExposedAt, IsRun, GenuineAt, TruncateRoots;
      var k :| 0 <= k <= |c.demoRoots| && ExposedAt(b, c, k);
      FailedPreparationReachesTheTarget(b, c, reach, k);
      assert Exposure(b, c, k)[0] == b;
    } else if states :| IsRun(states, FailedThenReset(c), reach) && states[0] == b
                        && !GenuineAt(states, 2, c.demoTarget, c) {
      NothingExposed(states, c, reach);
      assert false;
    }
  }

  lemma NothingExposed(states: seq<Databases>, c: Config, reach: string -> string)
    requires IsRun(states, FailedThenReset(c), reach) && PlainNames(c, reach)
    requires c.demoSource in states[0] && !Exposed(states[0], c)
    ensures GenuineAt(states, 2, c.demoTarget, c)
  {
    var b, m, a := states[0], states[1], states[2];
    assert Next(b, m, FailedThenReset(c)[0], reach);
    assert Next(m, a, FailedThenReset(c)[1], reach);
    hide Baseline, Clean, TruncateRoots, IsRun;
    var x := m[c.demoTemplate];
    assert Baseline(x, c.minima, true) && a[c.demoTarget] == x;
    assert states[..3] == states;
    if Same(b, m, c.demoTemplate) || (c.demoTarget in b && x == b[c.demoTarget])
       || (c.demoTemplate in b && x == b[c.demoTemplate]) {
    } else {
      assert PartlyClean(x, b[c.demoSource], c.demoRoots);
      NothingExposedAt(x, b, c);
      assert FromSource(x, states, c) by {
        assert c.demoSource in states[0];
      }
    }
  }

  lemma NothingExposedAt(x: Database, b: Databases, c: Config)
    requires c.demoSource in b && !Exposed(b, c)
    requires PartlyClean(x, b[c.demoSource], c.demoRoots) && Baseline(x, c.minima, true)
    requires (c.demoTarget in b ==> x != b[c.demoTarget]) && (c.demoTemplate in b ==> x != b[c.demoTemplate])
    ensures x == Clean(b[c.demoSource], c.demoRoots)
  {
    hide Baseline, Clean, TruncateRoots;
    forall k | 0 <= k <= |c.demoRoots| && x == TruncateRoots(b[c.demoSource], c.demoRoots[..k])
      ensures x == Clean(b[c.demoSource], c.demoRoots)
    {
      assert !ExposedAt(b, c, k);
    }
  }

  lemma InterruptedHolds(b: Databases, a: Databases, c: Config, j: nat, calls: int)
    requires SafeDemoNames(c) && Interrupted(b, a, c, j, calls)
    ensures calls + PreviewCalls(c, b) == CallsUntilStop(c, b, j)
    ensures c.demoTarget !in a && c.demoTemplate in a
    ensures a[c.demoTemplate] == TruncateRoots(b[c.demoSource], c.demoRoots[..j])
    ensures forall n :: n != c.demoTarget && n != c.demoTemplate ==> Same(b, a, n)
  {
    hide TruncateRoots;
  }

  /** The run as the program makes it: the statement for root `j` of the cleaning
      fails, everything else works; the operator resets, is told that it succeeded,
      and has the half-cleaned source in the demo database. */
  method ResetExposesHalfCleaned(cluster: Cluster, c: Config, ghost j: nat) returns (first: Outcome, second: Outcome)
    requires DemoGuarded(c, cluster.databases) && PlainNames(c, cluster.reach)
    requires PreparationStops(cluster, c, cluster.databases, cluster.calls, j)
    requires HealthyFor(cluster.faults, cluster.calls + CallsUntilStop(c, cluster.databases, j), RESET_CALLS)
    requires Baseline(TruncateRoots(cluster.databases[c.demoSource], c.demoRoots[..j]), c.minima, true)
    modifies cluster
    ensures first == Failed && second == Succeeded
    ensures c.demoTarget in cluster.databases
    ensures cluster.databases[c.demoTarget] == TruncateRoots(old(cluster.databases)[c.demoSource], c.demoRoots[..j])
  {
    hide Baseline, PreparationStops, HealthyFor, TruncateRoots, CallsUntilStop, EndsWithTemplate;
    ghost var b, at := cluster.databases, cluster.calls;
    first := PrepareDemo(cluster, c, true, false, j);
    InterruptedHolds(b, cluster.databases, c, j, cluster.calls - at - PreviewCalls(c, b));
    second := ResetDemo(cluster, c, true, false);
  }

  lemma RootIsRuntime(db: Database, roots: seq<string>, i: nat)
    requires i < |roots| && roots[i] in db.tables
    ensures IsRuntime(db, roots, roots[i])
  {
    assert IsPath(SchemaOf(db), [roots[i]]);
  }

  /** The baseline check looks at four runtime tables only.  Once those are empty,
      a row of a root that is still to be emptied goes unnoticed. */
  lemma UncheckedRowsSlipThrough(source: Database, c: Config, k: nat, i: nat)
    requires k <= i < |c.demoRoots| && c.demoRoots[i] in source.tables
    requires Baseline(TruncateRoots(source, c.demoRoots[..k]), c.minima, true)
    requires TruncateRoots(source, c.demoRoots[..k]).tables[c.demoRoots[i]].rows != []
    ensures PassesUnclean(TruncateRoots(source, c.demoRoots[..k]), source, c) && HalfwayPasses(source, c)
  {
    hide Baseline, Clean, TruncateRoots, IsRuntime;
    RootIsRuntime(source, c.demoRoots, i);
    CleanContents(source, c.demoRoots, c.demoRoots[i]);
    assert PassesUnclean(TruncateRoots(source, c.demoRoots[..k]), source, c);
  }

  /** A source with one audit record and nothing else. */
  const AUDITED := Database(map t | t in BASE_TABLES :: Table(if t == "audit_logs" then [Row("", "")] else [], {}))
  const BASE_TABLES: set<string> :=
    {"employees", "work_shifts", "work_shift_intervals", "templates", "users", "audit_logs"} + RUNTIME_TABLES

  /** With the default order of the first two roots it is such a source. */
  lemma AuditRecordsSlipThrough(c: Config)
    requires c.minima == Minima(0, 0, 0, 0, 0) && c.demoRoots == ["production_orders", "audit_logs"]
    ensures PassesUnclean(AUDITED, AUDITED, c) && HalfwayPasses(AUDITED, c)
  {
    var none: seq<string> := [];
    assert c.demoRoots[..0] == none && TruncateRoots(AUDITED, none) == AUDITED;
    assert Baseline(AUDITED, c.minima, true);
    hide Baseline, TruncateRoots;
    UncheckedRowsSlipThrough(AUDITED, c, 0, 1);
  }

  lemma UntouchedSource(source: Database, roots: seq<string>)
    ensures TruncateRoots(source, roots[..0]) == source
  {
    assert roots[..0] == [];
  }

  /** The run starting from nothing but that source, under the default names: the
      demo database ends with the audit record. */
  lemma AuditRecordReachesTheDemo(c: Config, reach: string -> string)
    requires c.minima == Minima(0, 0, 0, 0, 0) && c.demoRoots == ["production_orders", "audit_logs"]
    requires c.enabled && c.hostAllowed && c.allowedNames == {} && PlainNames(c, reach)
    requires c.demoSource == "mesflow" && c.demoTarget == "mesflow_demo" && c.demoTemplate == "mesflow_demo_template"
    ensures var b: Databases := map["mesflow" := AUDITED];
            && IsRun(Exposure(b, c, 0), FailedThenReset(c), reach)
            && Exposure(b, c, 0)[2]["mesflow_demo"] == AUDITED
            && !GenuineAt(Exposure(b, c, 0), 2, c.demoTarget, c)
  {
    var b: Databases := map["mesflow" := AUDITED];
    DefaultNamesAreSafe(c);
    hide SafeDemoNames, TruncateRoots, IsRun, GenuineAt, AUDITED, ExposedAt, Exposure;
    AuditedIsExposed(b, c);
    UntouchedSource(AUDITED, c.demoRoots);
    FailedPreparationReachesTheTarget(b, c, reach, 0);
  }

  lemma AuditedIsExposed(b: Databases, c: Config)
    requires c.minima == Minima(0, 0, 0, 0, 0) && c.demoRoots == ["production_orders", "audit_logs"]
    requires c.demoTarget != c.demoSource && c.demoTemplate != c.demoSource && b == map[c.demoSource := AUDITED]
    ensures ExposedAt(b, c, 0)
  {
    hide PassesUnclean, AUDITED, BASE_TABLES, TruncateRoots, HalfwayPasses, Baseline, Clean;
    AuditRecordsSlipThrough(c);
    UntouchedSource(AUDITED, c.demoRoots);
  }

  lemma DefaultNamesAreSafe(c: Config)
    requires c.allowedNames == {}
    requires c.demoSource == "mesflow" && c.demoTarget == "mesflow_demo" && c.demoTemplate == "mesflow_demo_template"
    ensures SafeDemoNames(c) && c.demoTarget != c.demoSource && c.demoTemplate != c.demoSource
  {
    assert "mesflow_demo_template"[12..] == "_template";
    assert |"mesflow"| == 7 && |"mesflow_demo"| == 12 && |"mesflow_demo_template"| == 21;
    assert |"postgres"| == 8 && |"template0"| == 9 && |"template1"| == 9;
  }
}
