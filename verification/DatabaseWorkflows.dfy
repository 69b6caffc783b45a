/** Resetting the QA database and preparing / resetting the demo database
    (`agent.py`).  Each workflow is proved against a relation between the
    cluster before and after it, for every configuration and every point at
    which a call can fail; the theorems are about sequences of such steps. */
module DatabaseWorkflows {
  import opened Wrappers
  import opened PostgresCluster

  const PROTECTED := {"mesflow", "postgres", "template0", "template1"}
  const DEFAULT_ALLOWED := {"mesflow_qa", "mesflow_test", "mesflow_demo"}

  datatype Config = Config(
    enabled: bool, hostAllowed: bool, urlDatabase: string, allowedNames: set<string>, resetTemplate: string,
    demoSource: string, demoTarget: string, demoTemplate: string, demoRoots: seq<string>, minima: Minima)

  datatype Outcome = Succeeded | Refused | Failed | TemplateRejected | TargetRejected

  function AllowedNames(c: Config): set<string> {
    if c.allowedNames == {} then DEFAULT_ALLOWED else c.allowedNames
  }

  predicate EndsWithTemplate(name: string) {
    |name| >= 9 && name[|name| - 9..] == "_template"
  }

  /** `_safe_reset_target`. */
  predicate SafeResetTarget(c: Config) {
    && c.hostAllowed
    && c.urlDatabase != "" && c.urlDatabase !in PROTECTED && c.urlDatabase in AllowedNames(c)
    && c.resetTemplate != "" && c.resetTemplate != c.urlDatabase && c.resetTemplate !in PROTECTED
    && EndsWithTemplate(c.resetTemplate)
  }

  /** `_demo_connection_urls`. */
  predicate SafeDemoNames(c: Config) {
    && c.demoSource != c.demoTarget && c.demoSource != c.demoTemplate && c.demoTarget != c.demoTemplate
    && c.demoTarget !in PROTECTED && c.demoTemplate !in PROTECTED
    && c.demoTarget in AllowedNames(c)
    && EndsWithTemplate(c.demoTemplate)
  }

  // ------------------------------------------------- what a workflow may do

  /** QA reset of target `t` from the golden template `g`. */
  ghost predicate QaReset(b: Databases, a: Databases, c: Config, o: Outcome, reach: string -> string) {
    var t, g := c.urlDatabase, c.resetTemplate;
    if o == Refused then a == b
    else
      && c.enabled && SafeResetTarget(c) && g in b
      && reach(g) in b && Baseline(b[reach(g)], c.minima, true)
      && if o == Succeeded then a == b[t := b[g]] && reach(t) in a && Baseline(a[reach(t)], c.minima, true)
         else if o == TargetRejected then a == b - {t}
         else a == b || a == b - {t} || a == b[t := b[g]]
  }

  ghost predicate Same(b: Databases, a: Databases, n: string) {
    (n in b <==> n in a) && (n in b ==> a[n] == b[n])
  }

  ghost predicate AgreeOutside(b: Databases, a: Databases, names: set<string>) {
    forall n :: n !in names ==> Same(b, a, n)
  }

  /** How far the cleaning of a clone can have got when it stops: every statement
      commits on its own. */
  ghost predicate PartlyClean(x: Database, source: Database, roots: seq<string>) {
    x == Clean(source, roots) || exists k :: 0 <= k <= |roots| && x == TruncateRoots(source, roots[..k])
  }

  /** Demo preparation: source `s` is cloned into the template, the clone is
      cleaned and checked, and the target is made from it. */
  ghost predicate DemoPrepare(b: Databases, a: Databases, c: Config, o: Outcome, reach: string -> string) {
    var s, t, g := c.demoSource, c.demoTarget, c.demoTemplate;
    if o == Refused then a == b
    else
      && c.enabled && c.hostAllowed && SafeDemoNames(c) && s in b
      && var clean := Clean(b[s], c.demoRoots);
      && AgreeOutside(b, a, {t, g})
      && if o == Succeeded || o == TargetRejected then
           a == b[g := clean][t := clean] && reach(g) == g && Baseline(clean, c.minima, true)
         else if o == TemplateRejected then a == b - {t} - {g}
         else
           || (Same(b, a, g) && (Same(b, a, t) || t !in a))
           || (t !in a && (g !in a || PartlyClean(a[g], b[s], c.demoRoots)))
           || (a == b[g := clean][t := clean] && Baseline(clean, c.minima, true))
  }

  /** Demo reset: the target is made again from the template. */
  ghost predicate DemoReset(b: Databases, a: Databases, c: Config, o: Outcome, reach: string -> string) {
    var t, g := c.demoTarget, c.demoTemplate;
    if o == Refused || o == TemplateRejected then a == b
    else
      && c.enabled && c.hostAllowed && SafeDemoNames(c) && c.demoSource in b && g in b
      && reach(g) in b && Baseline(b[reach(g)], c.minima, true)
      && if o == Succeeded then a == b[t := b[g]] && reach(t) in a && Baseline(a[reach(t)], c.minima, true)
         else if o == TargetRejected then a == b[t := b[g]]
         else a == b || a == b - {t} || a == b[t := b[g]]
  }

  // ------------------------------------------------------------ workflows

  predicate QaResetAdmitted(c: Config, b: Databases) {
    c.enabled && SafeResetTarget(c) && c.resetTemplate in b && Baseline(b[c.resetTemplate], c.minima, true)
  }

  predicate DemoGuarded(c: Config, b: Databases) {
    c.enabled && c.hostAllowed && SafeDemoNames(c) && c.demoSource in b
  }

  /** `qa_database_reset_preview` followed by `qa_database_reset_execute`. */
  method ResetQaDatabase(cluster: Cluster, c: Config, confirmed: bool, runsActive: bool) returns (o: Outcome)
    modifies cluster
    ensures QaReset(old(cluster.databases), cluster.databases, c, o, cluster.reach)
    ensures (cluster.Reliable() && cluster.reach(c.urlDatabase) == c.urlDatabase
             && cluster.reach(c.resetTemplate) == c.resetTemplate) ==>
              o == if confirmed && !runsActive && QaResetAdmitted(c, old(cluster.databases)) then Succeeded else Refused
  {
    hide Baseline, EndsWithTemplate;
    var template := c.resetTemplate;
    if !c.enabled || !SafeResetTarget(c) {
      return Refused;
    }
    var existing := cluster.ListDatabases();
    if existing.None? || template !in existing.value {
      return Refused;
    }
    var check := cluster.VerifyBaseline(template, c.minima, true);
    if !check.Verified? || !confirmed || runsActive {
      return Refused;
    }
    o := ReplaceTarget(cluster, c);
  }

  /** The target is dropped, made from the template, and dropped again when it does
      not pass: an invalid target is not left available. */
  method ReplaceTarget(cluster: Cluster, c: Config) returns (o: Outcome)
    requires c.resetTemplate in cluster.databases && c.urlDatabase != c.resetTemplate
    modifies cluster
    ensures var b, a, t, g := old(cluster.databases), cluster.databases, c.urlDatabase, c.resetTemplate;
            && (o == Succeeded || o == TargetRejected || o == Failed)
            && (o == Succeeded ==> a == b[t := b[g]] && cluster.reach(t) in a
                                   && Baseline(a[cluster.reach(t)], c.minima, true))
            && (o == TargetRejected ==> a == b - {t})
            && (o == Failed ==> a == b || a == b - {t} || a == b[t := b[g]])
    ensures (cluster.Reliable() && cluster.reach(c.urlDatabase) == c.urlDatabase
             && Baseline(old(cluster.databases)[c.resetTemplate], c.minima, true)) ==> o == Succeeded
  {
    hide Baseline;
    var db := c.urlDatabase;
    var ok := cluster.Drop(db);
    if !ok {
      return Failed;
    }
    ok := cluster.CreateFrom(db, c.resetTemplate);
    if !ok {
      return Failed;
    }
    var check := cluster.VerifyBaseline(db, c.minima, true);
    if !check.Verified? {
      ok := cluster.Drop(db);
      return if ok then TargetRejected else Failed;
    }
    return Succeeded;
  }

  /** The cluster `b` with the first `k` roots of one database truncated. */
  function Truncated(b: Databases, name: string, source: Database, roots: seq<string>, k: nat): Databases
    requires k <= |roots|
  {
    b[name := TruncateRoots(source, roots[..k])]
  }

  lemma TruncateOneMore(b: Databases, name: string, source: Database, roots: seq<string>, i: nat)
    requires i < |roots|
    ensures var now, next := Truncated(b, name, source, roots, i), Truncated(b, name, source, roots, i + 1);
            && name in now && now[name].tables.Keys == source.tables.Keys
            && next == if roots[i] in source.tables then now[name := Truncate(now[name], roots[i])] else now
  {
    assert roots[..i + 1][..i] == roots[..i];
    hide Truncate, Cascade;
  }

  function CountPresent(roots: seq<string>, present: set<string>): nat {
    if roots == [] then 0
    else CountPresent(roots[..|roots| - 1], present) + if roots[|roots| - 1] in present then 1 else 0
  }

  lemma CountOneMore(roots: seq<string>, present: set<string>, i: nat)
    requires i < |roots|
    ensures CountPresent(roots[..i + 1], present)
         == CountPresent(roots[..i], present) + if roots[i] in present then 1 else 0
  {
    assert roots[..i + 1][..i] == roots[..i];
  }

  lemma {:induction false} CountGrows(roots: seq<string>, present: set<string>, i: nat, j: nat)
    requires i < j <= |roots| && roots[i] in present
    ensures CountPresent(roots[..i], present) < CountPresent(roots[..j], present)
    decreases j
  {
    CountOneMore(roots, present, j - 1);
    if i < j - 1 {
      CountGrows(roots, present, i, j - 1);
    }
  }

  /** The statement for root `i` is the first one to fail. */
  ghost predicate StopsAt(faults: nat -> Fault, at: nat, roots: seq<string>, present: set<string>, i: nat) {
    && i < |roots| && roots[i] in present
    && HealthyFor(faults, at, CountPresent(roots[..i], present))
    && faults(at + CountPresent(roots[..i], present)) != Healthy
  }

  /** It fails without effect. */
  ghost predicate FailsBeforeRoot(faults: nat -> Fault, at: nat, roots: seq<string>, present: set<string>, i: nat) {
    StopsAt(faults, at, roots, present, i) && faults(at + CountPresent(roots[..i], present)) == FailsBefore
  }

  lemma StopsOnce(faults: nat -> Fault, at: nat, roots: seq<string>, present: set<string>, i: nat, j: nat)
    requires StopsAt(faults, at, roots, present, i) && StopsAt(faults, at, roots, present, j)
    ensures i == j
  {
    if j < i {
      CountGrows(roots, present, j, i);
    } else if i < j {
      CountGrows(roots, present, i, j);
    }
  }

  lemma StopsNowhere(faults: nat -> Fault, at: nat, roots: seq<string>, present: set<string>, j: nat)
    requires HealthyFor(faults, at, CountPresent(roots, present))
    ensures !StopsAt(faults, at, roots, present, j)
  {
    if j < |roots| && roots[j] in present {
      assert roots[..|roots|] == roots;
      CountGrows(roots, present, j, |roots|);
    }
  }

  /** The statement for root `stop` was the last call, and `k` roots are truncated. */
  ghost predicate StoppedAt(faults: nat -> Fault, at: nat, calls: nat, roots: seq<string>, present: set<string>,
                            stop: nat, k: nat) {
    && StopsAt(faults, at, roots, present, stop)
    && calls == at + CountPresent(roots[..stop], present) + 1
    && (faults(calls - 1) == FailsBefore ==> k == stop)
  }

  /** Truncates the roots that are present, one statement each; `k` of them take
      effect, up to the one at `stop` that fails. */
  method TruncatePresent(cluster: Cluster, name: string, roots: seq<string>, present: set<string>,
                         ghost source: Database)
    returns (ok: bool, ghost k: nat, ghost stop: nat)
    requires name in cluster.databases && cluster.databases[name] == source && present == source.tables.Keys
    modifies cluster
    ensures k <= |roots| && (ok ==> k == |roots|)
    ensures cluster.databases == Truncated(old(cluster.databases), name, source, roots, k)
    ensures cluster.Reliable() ==> ok
    ensures ok ==> HealthyFor(cluster.faults, old(cluster.calls), CountPresent(roots, present))
    ensures !ok ==> StoppedAt(cluster.faults, old(cluster.calls), cluster.calls, roots, present, stop, k)
  {
    NothingTruncated(cluster.databases, name, source, roots);
    NoneCounted(roots[..0], present);
    NothingCalled(cluster.faults, cluster.calls);
    assert roots[..|roots|] == roots;
    hide Truncated, CountPresent, HealthyFor, StoppedAt;
    ok, k, stop := true, 0, 0;
    ghost var b, first := cluster.databases, cluster.calls;
    for i := 0 to |roots|
      invariant ok && k == i
      invariant UndisturbedUpTo(cluster.faults, first, cluster.calls, roots, present, i)
      invariant cluster.databases == Truncated(b, name, source, roots, i)
    {
      ok, k := TruncateNext(cluster, name, roots, i, present, b, source, first);
      if !ok {
        stop := i;
        break;
      }
    }
  }

  /** One call for each of the first `i` roots that is there, and none has failed. */
  ghost predicate UndisturbedUpTo(faults: nat -> Fault, at: nat, calls: nat, roots: seq<string>, present: set<string>,
                                  i: nat) {
    && i <= |roots|
    && calls == at + CountPresent(roots[..i], present)
    && HealthyFor(faults, at, CountPresent(roots[..i], present))
  }

  method TruncateNext(cluster: Cluster, name: string, roots: seq<string>, i: nat, present: set<string>,
                      ghost b: Databases, ghost source: Database, ghost first: nat)
    returns (ok: bool, ghost k: nat)
    requires i < |roots| && present == source.tables.Keys
    requires cluster.databases == Truncated(b, name, source, roots, i)
    requires UndisturbedUpTo(cluster.faults, first, cluster.calls, roots, present, i)
    modifies cluster
    ensures k == i || k == i + 1
    ensures cluster.databases == Truncated(b, name, source, roots, k)
    ensures cluster.Reliable() ==> ok
    ensures ok ==> k == i + 1 && UndisturbedUpTo(cluster.faults, first, cluster.calls, roots, present, k)
    ensures !ok ==> StoppedAt(cluster.faults, first, cluster.calls, roots, present, i, k)
  {
    UndisturbedNext(cluster.faults, first, cluster.calls, roots, present, i);
    hide Truncated, UndisturbedUpTo, StoppedAt;
    ok, k := TruncateOne(cluster, name, roots, i, present, b, source);
  }

  lemma UndisturbedNext(faults: nat -> Fault, at: nat, calls: nat, roots: seq<string>, present: set<string>, i: nat)
    requires i < |roots| && UndisturbedUpTo(faults, at, calls, roots, present, i)
    ensures var there := roots[i] in present;
            if there && faults(calls) != Healthy then
              && StoppedAt(faults, at, calls + 1, roots, present, i, i)
              && (faults(calls) != FailsBefore ==> StoppedAt(faults, at, calls + 1, roots, present, i, i + 1))
            else UndisturbedUpTo(faults, at, calls + if there then 1 else 0, roots, present, i + 1)
  {
    CountOneMore(roots, present, i);
    OneRootMore(faults, at, roots, present, i);
    hide CountPresent, HealthyFor;
  }

  lemma NothingCalled(faults: nat -> Fault, at: nat)
    ensures HealthyFor(faults, at, 0)
  {
  }

  lemma OneRootMore(faults: nat -> Fault, at: nat, roots: seq<string>, present: set<string>, i: nat)
    requires i < |roots| && HealthyFor(faults, at, CountPresent(roots[..i], present))
    ensures var call := at + CountPresent(roots[..i], present);
            if roots[i] in present && faults(call) != Healthy then StopsAt(faults, at, roots, present, i)
            else HealthyFor(faults, at, CountPresent(roots[..i + 1], present))
  {
    CountOneMore(roots, present, i);
    hide CountPresent;
  }

  lemma NothingTruncated(b: Databases, name: string, source: Database, roots: seq<string>)
    requires name in b && b[name] == source
    ensures Truncated(b, name, source, roots, 0) == b
  {
    assert roots[..0] == [];
    assert b[name := source] == b;
  }

  method TruncateOne(cluster: Cluster, name: string, roots: seq<string>, i: nat, present: set<string>,
                     ghost b: Databases, ghost source: Database)
    returns (ok: bool, ghost k: nat)
    requires i < |roots| && present == source.tables.Keys
    requires cluster.databases == Truncated(b, name, source, roots, i)
    modifies cluster
    ensures k == i || k == i + 1
    ensures cluster.databases == Truncated(b, name, source, roots, k)
    ensures cluster.calls == old(cluster.calls) + if roots[i] in present then 1 else 0
    ensures ok <==> (roots[i] in present ==> cluster.faults(old(cluster.calls)) == Healthy)
    ensures ok ==> k == i + 1
    ensures !ok && cluster.faults(old(cluster.calls)) == FailsBefore ==> k == i
  {
    TruncateOneMore(b, name, source, roots, i);
    hide Truncated, Truncate;
    if roots[i] !in present {
      return true, i + 1;
    }
    ok := cluster.TruncateCascade(name, roots[i]);
    k := if cluster.faults(cluster.calls - 1) == FailsBefore then i else i + 1;
  }

  lemma NoneCounted(roots: seq<string>, present: set<string>)
    requires roots == []
    ensures CountPresent(roots, present) == 0
  {
  }

  /** The tables are listed, and the statement for root `j` is the first to fail,
      without effect. */
  ghost predicate CleaningStops(cluster: Cluster, c: Config, source: Database, at: nat, j: nat) {
    && cluster.reach(c.demoTemplate) == c.demoTemplate && c.demoTemplate !in PROTECTED
    && cluster.faults(at) == Healthy
    && FailsBeforeRoot(cluster.faults, at + 1, c.demoRoots, source.tables.Keys, j)
  }

  lemma CleaningStopsAt(cluster: Cluster, c: Config, source: Database, at: nat, ok: bool, stop: nat, j: nat)
    requires ok ==> HealthyFor(cluster.faults, at + 1, CountPresent(c.demoRoots, source.tables.Keys))
    requires !ok ==> StopsAt(cluster.faults, at + 1, c.demoRoots, source.tables.Keys, stop)
    ensures CleaningStops(cluster, c, source, at, j) ==> !ok && j == stop
  {
    if CleaningStops(cluster, c, source, at, j) {
      if ok {
        StopsNowhere(cluster.faults, at + 1, c.demoRoots, source.tables.Keys, j);
      } else {
        StopsOnce(cluster.faults, at + 1, c.demoRoots, source.tables.Keys, j, stop);
      }
    }
  }

  /** `_truncate_disposable_demo_clone`; `source` is what the clone held, and `j`
      the root whose failure the clause on interruption is about. */
  method TruncateDisposableClone(cluster: Cluster, c: Config, ghost source: Database, ghost j: nat) returns (ok: bool)
    requires c.demoTemplate in cluster.databases && cluster.databases[c.demoTemplate] == source
    modifies cluster
    ensures c.demoTemplate in cluster.databases
    ensures cluster.databases == old(cluster.databases)[c.demoTemplate := cluster.databases[c.demoTemplate]]
    ensures ok ==> cluster.reach(c.demoTemplate) == c.demoTemplate
                   && cluster.databases[c.demoTemplate] == Clean(source, c.demoRoots)
    ensures PartlyClean(cluster.databases[c.demoTemplate], source, c.demoRoots)
    ensures CleaningStops(cluster, c, source, old(cluster.calls), j) ==>
              && !ok && cluster.databases[c.demoTemplate] == TruncateRoots(source, c.demoRoots[..j])
              && cluster.calls == old(cluster.calls) + CountPresent(c.demoRoots[..j], source.tables.Keys) + 2
    ensures cluster.Reliable() && cluster.reach(c.demoTemplate) == c.demoTemplate && c.demoTemplate !in PROTECTED ==> ok
  {
    var template := c.demoTemplate;
    assert c.demoRoots[..0] == [] && TruncateRoots(source, []) == source;
    hide TruncateRoots, WithoutQaEmployees;
    var actual := cluster.reach(template);
    if actual != template || actual in PROTECTED {
      return false;
    }
    var present := cluster.ListTables(actual);
    if present.None? {
      return false;
    }
    ghost var at := cluster.calls - 1;
    ok := CleanTables(cluster, c, present.value, source, at, j);
  }

  /** The statements of the cleaning, the tables having been listed by call `at`. */
  method CleanTables(cluster: Cluster, c: Config, present: set<string>, ghost source: Database, ghost at: nat,
                     ghost j: nat)
    returns (ok: bool)
    requires c.demoTemplate in cluster.databases && cluster.databases[c.demoTemplate] == source
    requires present == source.tables.Keys && cluster.calls == at + 1
    modifies cluster
    ensures c.demoTemplate in cluster.databases
    ensures cluster.databases == old(cluster.databases)[c.demoTemplate := cluster.databases[c.demoTemplate]]
    ensures ok ==> cluster.databases[c.demoTemplate] == Clean(source, c.demoRoots)
    ensures PartlyClean(cluster.databases[c.demoTemplate], source, c.demoRoots)
    ensures CleaningStops(cluster, c, source, at, j) ==>
              && !ok && cluster.databases[c.demoTemplate] == TruncateRoots(source, c.demoRoots[..j])
              && cluster.calls == at + CountPresent(c.demoRoots[..j], source.tables.Keys) + 2
    ensures cluster.Reliable() ==> ok
  {
    hide TruncateRoots, WithoutQaEmployees, StopsAt, HealthyFor, CountPresent;
    assert c.demoRoots[..|c.demoRoots|] == c.demoRoots;
    ghost var k, stop;
    ok, k, stop := TruncatePresent(cluster, c.demoTemplate, c.demoRoots, present, source);
    assert cluster.databases[c.demoTemplate] == TruncateRoots(source, c.demoRoots[..k]);
    CleaningStopsAt(cluster, c, source, at, ok, stop, j);
    if !ok {
      StoppedBeforeRoot(cluster, c, source, at, stop);
      return;
    }
    hide CleaningStops;
    NoEmployeesToDelete(TruncateRoots(source, c.demoRoots));
    if "employees" in present {
      ok := cluster.DeleteQaEmployees(c.demoTemplate);
    }
  }

  lemma StoppedBeforeRoot(cluster: Cluster, c: Config, source: Database, at: nat, j: nat)
    ensures CleaningStops(cluster, c, source, at, j) ==>
              && j < |c.demoRoots|
              && cluster.faults(at + 1 + CountPresent(c.demoRoots[..j], source.tables.Keys)) == FailsBefore
  {
  }

  lemma NoEmployeesToDelete(db: Database)
    ensures "employees" !in db.tables ==> WithoutQaEmployees(db) == db
  {
  }

  function PreviewCalls(c: Config, b: Databases): (n: nat)
    ensures 2 <= n <= 4
  {
    2 + (if c.demoTemplate in b then 1 else 0) + (if c.demoTarget in b then 1 else 0)
  }

  /** `demo_database_preview`: all that can stop a workflow before it starts. */
  method DemoPreview(cluster: Cluster, c: Config) returns (existing: Option<set<string>>)
    modifies cluster`calls
    ensures existing.Some? ==> DemoGuarded(c, cluster.databases) && existing.value == cluster.databases.Keys
    ensures existing.Some? <==> DemoGuarded(c, cluster.databases) && cluster.faults(old(cluster.calls)) == Healthy
    ensures existing.Some? ==> cluster.calls == old(cluster.calls) + PreviewCalls(c, cluster.databases)
  {
    if !c.enabled || !c.hostAllowed || !SafeDemoNames(c) {
      return None;
    }
    existing := cluster.ListDatabases();
    if existing.None? || c.demoSource !in existing.value {
      return None;
    }
    // Informational checks: their results do not stop the preview.
    var _ := cluster.VerifyBaseline(c.demoSource, c.minima, false);
    if c.demoTemplate in existing.value {
      var _ := cluster.VerifyBaseline(c.demoTemplate, c.minima, true);
    }
    if c.demoTarget in existing.value {
      var _ := cluster.VerifyBaseline(c.demoTarget, c.minima, true);
    }
  }

  /** First block: the old target and template are dropped, the source cloned. */
  method CloneSource(cluster: Cluster, c: Config) returns (ok: bool)
    requires SafeDemoNames(c) && c.demoSource in cluster.databases
    modifies cluster
    ensures AgreeOutside(old(cluster.databases), cluster.databases, {c.demoTarget, c.demoTemplate})
    ensures var b, a, t, g := old(cluster.databases), cluster.databases, c.demoTarget, c.demoTemplate;
            || (Same(b, a, g) && (Same(b, a, t) || t !in a))
            || (t !in a && (g !in a || a[g] == b[c.demoSource]))
    ensures ok ==> cluster.databases == Cloned(old(cluster.databases), c)
    ensures HealthyFor(cluster.faults, old(cluster.calls), 3) ==> ok
    ensures ok ==> cluster.calls == old(cluster.calls) + 3
  {
    ok := cluster.Drop(c.demoTarget);
    if ok {
      ok := cluster.Drop(c.demoTemplate);
      if ok {
        ok := cluster.CreateFrom(c.demoTemplate, c.demoSource);
      }
    }
  }

  /** Second block: the clone is cleaned and checked, or dropped again. */
  /** How a preparation ends when nothing fails. */
  ghost function UndisturbedOutcome(c: Config, source: Database): Outcome {
    if Baseline(Clean(source, c.demoRoots), c.minima, true) then Succeeded else TemplateRejected
  }

  /** The template is cleaned up to root `j`, after so many calls: one that lists the
      tables, one for each root that is there, and the one that failed. */
  ghost predicate CutOff(b: Databases, a: Databases, c: Config, source: Database, j: nat, calls: int) {
    && j < |c.demoRoots|
    && a == Truncated(b, c.demoTemplate, source, c.demoRoots, j)
    && calls == CountPresent(c.demoRoots[..j], source.tables.Keys) + 2
  }

  method CleanTemplate(cluster: Cluster, c: Config, ghost source: Database, ghost j: nat) returns (o: Outcome)
    requires c.demoTemplate in cluster.databases && cluster.databases[c.demoTemplate] == source
    modifies cluster
    ensures AgreeOutside(old(cluster.databases), cluster.databases, {c.demoTemplate})
    ensures o == Succeeded || o == Failed || o == TemplateRejected
    ensures o == Succeeded ==>
              var clean := Clean(source, c.demoRoots);
              && cluster.databases == old(cluster.databases)[c.demoTemplate := clean]
              && cluster.reach(c.demoTemplate) == c.demoTemplate && Baseline(clean, c.minima, true)
    ensures o == TemplateRejected ==> cluster.databases == old(cluster.databases) - {c.demoTemplate}
    ensures c.demoTemplate in cluster.databases ==>
              PartlyClean(cluster.databases[c.demoTemplate], source, c.demoRoots)
    ensures CleaningStops(cluster, c, source, old(cluster.calls), j) ==>
              && o == Failed
              && CutOff(old(cluster.databases), cluster.databases, c, source, j, cluster.calls - old(cluster.calls))
    ensures cluster.Reliable() && cluster.reach(c.demoTemplate) == c.demoTemplate && c.demoTemplate !in PROTECTED ==>
              o == UndisturbedOutcome(c, source)
  {
    assert CleaningStops(cluster, c, source, cluster.calls, j) ==> j < |c.demoRoots|;
    hide Clean, Baseline, CleaningStops, CountPresent, TruncateRoots;
    var ok := TruncateDisposableClone(cluster, c, source, j);
    if !ok {
      return Failed;
    }
    var check := cluster.VerifyBaseline(c.demoTemplate, c.minima, true);
    if !check.Verified? {
      ok := cluster.Drop(c.demoTemplate);
      return if ok then TemplateRejected else Failed;
    }
    return Succeeded;
  }

  /** The cluster between the two blocks: no target, an uncleaned template. */
  function Cloned(b: Databases, c: Config): Databases
    requires c.demoSource in b
  {
    (b - {c.demoTarget} - {c.demoTemplate})[c.demoTemplate := b[c.demoSource]]
  }

  lemma PrepareFailsEarly(b: Databases, a: Databases, c: Config, reach: string -> string)
    requires DemoGuarded(c, b) && AgreeOutside(b, a, {c.demoTarget, c.demoTemplate})
    requires var t, g := c.demoTarget, c.demoTemplate;
             || (Same(b, a, g) && (Same(b, a, t) || t !in a))
             || (t !in a && (g !in a || a[g] == b[c.demoSource]))
    ensures DemoPrepare(b, a, c, Failed, reach)
  {
    assert c.demoRoots[..0] == [] && TruncateRoots(b[c.demoSource], []) == b[c.demoSource];
    hide Clean, Baseline;
  }

  lemma PrepareStopsAtTemplate(b: Databases, a: Databases, c: Config, o: Outcome, reach: string -> string)
    requires DemoGuarded(c, b)
    requires o == Failed ==>
               && AgreeOutside(Cloned(b, c), a, {c.demoTemplate})
               && (c.demoTemplate in a ==> PartlyClean(a[c.demoTemplate], b[c.demoSource], c.demoRoots))
    requires o == TemplateRejected ==> a == Cloned(b, c) - {c.demoTemplate}
    requires o == Failed || o == TemplateRejected
    ensures DemoPrepare(b, a, c, o, reach)
  {
    hide Clean, Baseline, PartlyClean;
    if o == Failed {
      assert Same(Cloned(b, c), a, c.demoTarget);
      forall n | n !in {c.demoTarget, c.demoTemplate}
        ensures Same(b, a, n)
      {
        assert Same(Cloned(b, c), a, n);
      }
    }
  }

  lemma PrepareMakesTarget(b: Databases, m: Databases, a: Databases, c: Config, o: Outcome, reach: string -> string)
    requires DemoGuarded(c, b) && reach(c.demoTemplate) == c.demoTemplate
    requires var clean := Clean(b[c.demoSource], c.demoRoots);
             && Baseline(clean, c.minima, true)
             && m == Cloned(b, c)[c.demoTemplate := clean]
             && (a == m[c.demoTarget := m[c.demoTemplate]] || (o == Failed && a == m))
    requires o == Succeeded || o == TargetRejected || o == Failed
    ensures DemoPrepare(b, a, c, o, reach)
  {
    hide Clean, Baseline;
    var clean := Clean(b[c.demoSource], c.demoRoots);
    if a != m {
      assert a == b[c.demoTemplate := clean][c.demoTarget := clean];
    }
  }

  /** The preparation gets as far as the cleaning, where the statement for root `j`
      is the first to fail, without effect. */
  ghost predicate PreparationStops(cluster: Cluster, c: Config, b: Databases, at: nat, j: nat) {
    && DemoGuarded(c, b)
    && HealthyFor(cluster.faults, at, PreviewCalls(c, b) + 3)
    && CleaningStops(cluster, c, b[c.demoSource], at + PreviewCalls(c, b) + 3, j)
  }

  /** How many calls there are up to that one. */
  function CallsUntilStop(c: Config, b: Databases, j: nat): nat
    requires c.demoSource in b && j <= |c.demoRoots|
  {
    PreviewCalls(c, b) + 3 + CountPresent(c.demoRoots[..j], b[c.demoSource].tables.Keys) + 2
  }

  /** No target, and in the template the source cleaned up to root `j`, after so
      many calls, three of them for the clone. */
  ghost predicate Interrupted(b: Databases, a: Databases, c: Config, j: nat, calls: int) {
    && c.demoSource in b && j < |c.demoRoots|
    && a == (b - {c.demoTarget})[c.demoTemplate := TruncateRoots(b[c.demoSource], c.demoRoots[..j])]
    && calls == 3 + CountPresent(c.demoRoots[..j], b[c.demoSource].tables.Keys) + 2
  }

  lemma CloneHoldsSource(b: Databases, c: Config)
    requires DemoGuarded(c, b)
    ensures c.demoTemplate in Cloned(b, c) && Cloned(b, c)[c.demoTemplate] == b[c.demoSource]
    ensures c.demoTarget != c.demoTemplate && c.demoTarget !in Cloned(b, c)
  {
  }

  lemma InterruptedClone(b: Databases, a: Databases, c: Config, j: nat, calls: int)
    requires DemoGuarded(c, b) && CutOff(Cloned(b, c), a, c, b[c.demoSource], j, calls)
    ensures Interrupted(b, a, c, j, 3 + calls)
  {
    hide TruncateRoots;
  }

  lemma HealthyUntilCleaning(cluster: Cluster, c: Config, b: Databases, at: nat, j: nat)
    requires PreparationStops(cluster, c, b, at, j)
    ensures DemoGuarded(c, b) && cluster.faults(at) == Healthy && j < |c.demoRoots|
    ensures HealthyFor(cluster.faults, at + PreviewCalls(c, b), 3)
    ensures CleaningStops(cluster, c, b[c.demoSource], at + PreviewCalls(c, b) + 3, j)
  {
  }

  /** `demo_database_prepare_execute`; the clause on interruption is about root `j`. */
  method PrepareDemo(cluster: Cluster, c: Config, confirmed: bool, runsActive: bool, ghost j: nat)
    returns (o: Outcome)
    modifies cluster
    ensures confirmed && !runsActive && PreparationStops(cluster, c, old(cluster.databases), old(cluster.calls), j) ==>
              var b := old(cluster.databases);
              && o == Failed
              && Interrupted(b, cluster.databases, c, j, cluster.calls - old(cluster.calls) - PreviewCalls(c, b))
    ensures DemoPrepare(old(cluster.databases), cluster.databases, c, o, cluster.reach)
    ensures cluster.Reliable() && cluster.reach(c.demoTarget) == c.demoTarget
            && cluster.reach(c.demoTemplate) == c.demoTemplate ==>
              o == if !confirmed || runsActive || !DemoGuarded(c, old(cluster.databases)) then Refused
                   else UndisturbedOutcome(c, old(cluster.databases)[c.demoSource])
  {
    ghost var at := cluster.calls;
    if PreparationStops(cluster, c, cluster.databases, at, j) {
      HealthyUntilCleaning(cluster, c, cluster.databases, at, j);
    }
    assert DemoGuarded(c, cluster.databases) ==> c.demoSource in cluster.databases;
    hide DemoPrepare, Clean, Baseline, PreviewCalls, CountPresent, HealthyFor, CleaningStops, TruncateRoots,
         PreparationStops, DemoGuarded, SafeDemoNames, Interrupted, UndisturbedOutcome;
    var existing := DemoPreview(cluster, c);
    if existing.None? || !confirmed || runsActive {
      NothingPrepared(cluster.databases, c, cluster.reach);
      return Refused;
    }
    o := MakeDemo(cluster, c, j);
  }

  lemma NothingPrepared(b: Databases, c: Config, reach: string -> string)
    ensures DemoPrepare(b, b, c, Refused, reach)
  {
  }

  /** The preparation proper, its checks having passed. */
  method MakeDemo(cluster: Cluster, c: Config, ghost j: nat) returns (o: Outcome)
    requires DemoGuarded(c, cluster.databases)
    modifies cluster
    ensures o != Refused && DemoPrepare(old(cluster.databases), cluster.databases, c, o, cluster.reach)
    ensures (HealthyFor(cluster.faults, old(cluster.calls), 3)
             && CleaningStops(cluster, c, old(cluster.databases)[c.demoSource], old(cluster.calls) + 3, j)) ==>
              o == Failed
              && Interrupted(old(cluster.databases), cluster.databases, c, j, cluster.calls - old(cluster.calls))
    ensures (cluster.Reliable() && cluster.reach(c.demoTarget) == c.demoTarget
             && cluster.reach(c.demoTemplate) == c.demoTemplate) ==>
              o == UndisturbedOutcome(c, old(cluster.databases)[c.demoSource])
  {
    hide DemoPrepare, Clean, Baseline, AgreeOutside, Same, PartlyClean, CleaningStops, TruncateRoots, CountPresent;
    CloneHoldsSource(cluster.databases, c);
    assert cluster.Reliable() ==> HealthyFor(cluster.faults, cluster.calls, 3);
    hide Interrupted, CutOff, HealthyFor, Cloned, SafeDemoNames, Cluster.Reliable;
    ghost var b, at := cluster.databases, cluster.calls;
    var ok := CloneSource(cluster, c);
    o := Failed;
    if ok {
      o := CleanTemplate(cluster, c, b[c.demoSource], j);
      if o != Succeeded {
        PrepareStopsAtTemplate(b, cluster.databases, c, o, cluster.reach);
        if CutOff(Cloned(b, c), cluster.databases, c, b[c.demoSource], j, cluster.calls - at - 3) {
          InterruptedClone(b, cluster.databases, c, j, cluster.calls - at - 3);
        }
      } else {
        o := MakeTarget(cluster, c, b);
      }
    } else {
      PrepareFailsEarly(b, cluster.databases, c, cluster.reach);
    }
  }

  /** The template has passed its check; the target is made from it and checked. */
  method MakeTarget(cluster: Cluster, c: Config, ghost b: Databases) returns (o: Outcome)
    requires DemoGuarded(c, b) && cluster.reach(c.demoTemplate) == c.demoTemplate
    requires var clean := Clean(b[c.demoSource], c.demoRoots);
             && Baseline(clean, c.minima, true)
             && cluster.databases == Cloned(b, c)[c.demoTemplate := clean]
    modifies cluster
    ensures o != Refused && DemoPrepare(b, cluster.databases, c, o, cluster.reach)
    ensures cluster.Reliable() && cluster.reach(c.demoTarget) == c.demoTarget ==> o == Succeeded
  {
    ghost var m := cluster.databases;
    CloneHoldsSource(b, c);
    hide DemoPrepare, Clean, Baseline, DemoGuarded, Cloned;
    var ok := cluster.CreateFrom(c.demoTarget, c.demoTemplate);
    o := Failed;
    if ok {
      var check := cluster.VerifyBaseline(c.demoTarget, c.minima, true);
      o := if check.Verified? then Succeeded else TargetRejected;
    }
    PrepareMakesTarget(b, m, cluster.databases, c, o, cluster.reach);
  }

  /** More calls than a reset makes. */
  const RESET_CALLS := 8

  method ResetDemo(cluster: Cluster, c: Config, confirmed: bool, runsActive: bool) returns (o: Outcome)
    modifies cluster
    ensures DemoReset(old(cluster.databases), cluster.databases, c, o, cluster.reach)
    ensures (HealthyFor(cluster.faults, old(cluster.calls), RESET_CALLS)
             && cluster.reach(c.demoTarget) == c.demoTarget && cluster.reach(c.demoTemplate) == c.demoTemplate) ==>
              o == if !confirmed || runsActive || !DemoGuarded(c, old(cluster.databases))
                      || c.demoTemplate !in old(cluster.databases) then Refused
                   else if Baseline(old(cluster.databases)[c.demoTemplate], c.minima, true) then Succeeded
                   else TemplateRejected
  {
    hide Baseline, EndsWithTemplate, PreviewCalls;
    var template := c.demoTemplate;
    var existing := DemoPreview(cluster, c);
    if existing.None? || template !in existing.value || !confirmed || runsActive {
      return Refused;
    }
    var check := cluster.VerifyBaseline(template, c.minima, true);
    if !check.Verified? {
      return TemplateRejected;
    }
    o := RemakeTarget(cluster, c);
  }

  /** The target is dropped, made from the template, and checked. */
  method RemakeTarget(cluster: Cluster, c: Config) returns (o: Outcome)
    requires c.demoTemplate in cluster.databases && c.demoTarget != c.demoTemplate
    modifies cluster
    ensures var b, a, t, g := old(cluster.databases), cluster.databases, c.demoTarget, c.demoTemplate;
            && (o == Succeeded || o == TargetRejected || o == Failed)
            && (o != Failed ==> a == b[t := b[g]])
            && (o == Succeeded ==> cluster.reach(t) in a && Baseline(a[cluster.reach(t)], c.minima, true))
            && (o == Failed ==> a == b || a == b - {t} || a == b[t := b[g]])
    ensures (HealthyFor(cluster.faults, old(cluster.calls), 3) && cluster.reach(c.demoTarget) == c.demoTarget
             && Baseline(old(cluster.databases)[c.demoTemplate], c.minima, true)) ==> o == Succeeded
  {
    hide Baseline;
    var target := c.demoTarget;
    var ok := cluster.Drop(target);
    if !ok {
      return Failed;
    }
    ok := cluster.CreateFrom(target, c.demoTemplate);
    if !ok {
      return Failed;
    }
    var check := cluster.VerifyBaseline(target, c.minima, true);
    return if check.Verified? then Succeeded else TargetRejected;
  }

  // ------------------------------------------------------------- whole runs

  /** `Tenant(name)`: applications and operators change one database at will. */
  datatype Step =
    | QaResetStep(c: Config, o: Outcome)
    | PrepareStep(c: Config, o: Outcome)
    | DemoResetStep(c: Config, o: Outcome)
    | Tenant(name: string)

  ghost predicate Next(b: Databases, a: Databases, step: Step, reach: string -> string) {
    match step
    case QaResetStep(c, o) => QaReset(b, a, c, o, reach)
    case PrepareStep(c, o) => DemoPrepare(b, a, c, o, reach)
    case DemoResetStep(c, o) => DemoReset(b, a, c, o, reach)
    case Tenant(name) => AgreeOutside(b, a, {name})
  }

  ghost predicate IsRun(states: seq<Databases>, steps: seq<Step>, reach: string -> string) {
    && |states| == |steps| + 1
    && forall i :: 0 <= i < |steps| ==> Next(states[i], states[i + 1], steps[i], reach)
  }

  /** Is the step, whatever its configuration, sure to leave `n` alone? */
  predicate Spares(step: Step, n: string) {
    match step
    case QaResetStep(c, _) => n in PROTECTED || n != c.urlDatabase
    case PrepareStep(c, _) => n in PROTECTED || n == c.demoSource || (n != c.demoTarget && n != c.demoTemplate)
    case DemoResetStep(c, _) => n in PROTECTED || n == c.demoSource || n != c.demoTarget
    case Tenant(name) => n != name
  }

  lemma QaResetSpares(b: Databases, a: Databases, c: Config, o: Outcome, reach: string -> string, n: string)
    requires QaReset(b, a, c, o, reach) && (n in PROTECTED || n != c.urlDatabase)
    ensures Same(b, a, n)
  {
    hide Clean, Baseline, PartlyClean, EndsWithTemplate;
  }

  lemma PrepareSpares(b: Databases, a: Databases, c: Config, o: Outcome, reach: string -> string, n: string)
    requires DemoPrepare(b, a, c, o, reach)
    requires n in PROTECTED || n == c.demoSource || (n != c.demoTarget && n != c.demoTemplate)
    ensures Same(b, a, n)
  {
    hide Clean, Baseline, PartlyClean, EndsWithTemplate;
    if o != Refused {
      hide Same;
    }
  }

  lemma DemoResetSpares(b: Databases, a: Databases, c: Config, o: Outcome, reach: string -> string, n: string)
    requires DemoReset(b, a, c, o, reach) && (n in PROTECTED || n == c.demoSource || n != c.demoTarget)
    ensures Same(b, a, n)
  {
    hide Clean, Baseline, PartlyClean, EndsWithTemplate;
  }

  lemma StepSpares(b: Databases, a: Databases, step: Step, reach: string -> string, n: string)
    requires Next(b, a, step, reach) && Spares(step, n)
    ensures Same(b, a, n)
  {
    hide QaReset, DemoPrepare, DemoReset, Same;
    match step
    case QaResetStep(c, o) => QaResetSpares(b, a, c, o, reach, n);
    case PrepareStep(c, o) => PrepareSpares(b, a, c, o, reach, n);
    case DemoResetStep(c, o) => DemoResetSpares(b, a, c, o, reach, n);
    case Tenant(_) =>
  }

  /** Frame, over every run, configuration and point of failure: a database that
      every step spares is the same at the end.  Every workflow spares the four
      protected databases, and the demo workflows spare their source, whatever
      the configuration says. */
  lemma {:induction false} FrameOverRuns(states: seq<Databases>, steps: seq<Step>, reach: string -> string, n: string)
    requires IsRun(states, steps, reach)
    requires forall i :: 0 <= i < |steps| ==> Spares(steps[i], n)
    ensures Same(states[0], states[|steps|], n)
    decreases |steps|
  {
    if steps != [] {
      var k := |steps| - 1;
      FrameOverRuns(states[..k + 1], steps[..k], reach, n);
      StepSpares(states[k], states[k + 1], steps[k], reach, n);
    }
  }

  /** No workflow ever changes mesflow, postgres, template0 or template1. */
  lemma ProtectedForever(states: seq<Databases>, steps: seq<Step>, reach: string -> string, n: string)
    requires IsRun(states, steps, reach)
    requires n in PROTECTED && forall i :: 0 <= i < |steps| ==> steps[i] != Tenant(n)
    ensures Same(states[0], states[|steps|], n)
  {
    FrameOverRuns(states, steps, reach, n);
  }

  /** Round trip: after a successful preparation, whatever happens to the demo
      database, the source or anything else but the template, and however many
      resets fail in between, a successful reset gives exactly the contents the
      preparation gave: the cleaned source of that time. */
  lemma DemoRoundTrip(states: seq<Databases>, steps: seq<Step>, reach: string -> string, c: Config)
    requires IsRun(states, steps, reach) && |steps| >= 2
    requires steps[0] == PrepareStep(c, Succeeded)
    requires forall i :: 0 < i < |steps| ==> Spares(steps[i], c.demoTemplate)
    requires var last := steps[|steps| - 1];
             last.DemoResetStep? && last.o == Succeeded
             && last.c.demoTarget == c.demoTarget && last.c.demoTemplate == c.demoTemplate
    ensures c.demoSource in states[0] && c.demoTarget in states[1] && c.demoTarget in states[|steps|]
    ensures states[|steps|][c.demoTarget] == states[1][c.demoTarget] == Clean(states[0][c.demoSource], c.demoRoots)
  {
    hide Clean, Baseline, SafeDemoNames, AgreeOutside;
    var k := |steps| - 1;
    assert Next(states[0], states[1], steps[0], reach);
    var states', steps' := states[1..k + 1], steps[1..k];
    assert forall i :: 0 <= i < |steps'| ==> states'[i] == states[i + 1] && steps'[i] == steps[i + 1];
    FrameOverRuns(states', steps', reach, c.demoTemplate);
    assert Next(states[k], states[k + 1], steps[k], reach);
  }

  /** A workflow never leaves half-made data in its target: after any number of
      workflows of one configuration, at any points of failure, the QA target is
      as it was, absent, or an exact copy of the golden template. */
  lemma {:induction false} QaTargetNeverHalfMade(states: seq<Databases>, steps: seq<Step>, reach: string -> string,
                                                 c: Config)
    requires IsRun(states, steps, reach)
    requires forall i :: 0 <= i < |steps| ==> steps[i].QaResetStep? && steps[i].c == c
    ensures var t, g := c.urlDatabase, c.resetTemplate;
            var last := states[|steps|];
            Same(states[0], last, t) || t !in last || (g in last && last[t] == last[g])
    decreases |steps|
  {
    if steps != [] {
      var k := |steps| - 1;
      QaTargetNeverHalfMade(states[..k + 1], steps[..k], reach, c);
      assert Next(states[k], states[k + 1], steps[k], reach);
    }
  }

  /** A remark: when names are plain (the URL of a name reaches that name), a successful
      QA reset ends with a target that passes the baseline check itself. */
  lemma ResetTargetPasses(b: Databases, a: Databases, c: Config, reach: string -> string)
    requires QaReset(b, a, c, Succeeded, reach) && reach(c.urlDatabase) == c.urlDatabase
    ensures c.urlDatabase in a && a[c.urlDatabase] == b[c.resetTemplate] && Baseline(a[c.urlDatabase], c.minima, true)
    ensures c.resetTemplate in a && a[c.resetTemplate] == b[c.resetTemplate]
  {
  }
}
