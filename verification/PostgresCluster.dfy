/** The PostgreSQL cluster that the reset and demo workflows act on: databases,
    tables with foreign keys, TRUNCATE ... CASCADE, cloning, and a connection
    that may fail at any call, before or after the call took effect. */
module PostgresCluster {
  import opened Wrappers

  datatype Row = Row(employeeNo: string, payload: string)

  /** `references` are the tables that the foreign keys of this table point to. */
  datatype Table = Table(rows: seq<Row>, references: set<string>)

  datatype Database = Database(tables: map<string, Table>)

  type Databases = map<string, Database>

  // ------------------------------------------------------ TRUNCATE CASCADE

  type Schema = map<string, set<string>>

  function SchemaOf(db: Database): Schema {
    map t | t in db.tables :: db.tables[t].references
  }

  function Referencing(schema: Schema, ts: set<string>): set<string> {
    set t | t in schema && schema[t] * ts != {}
  }

  /** The tables CASCADE reaches: add referencing tables until none is new. */
  function Cascade(schema: Schema, ts: set<string>): (r: set<string>)
    requires ts <= schema.Keys
    ensures ts <= r <= schema.Keys
    decreases schema.Keys - ts
  {
    var next := ts + Referencing(schema, ts);
    if next == ts then ts else Cascade(schema, next)
  }

  /** A chain of foreign keys from the first table of `p` to the last. */
  predicate IsPath(schema: Schema, p: seq<string>) {
    && |p| >= 1
    && (forall i :: 0 <= i < |p| ==> p[i] in schema)
    && (forall i :: 0 <= i < |p| - 1 ==> p[i + 1] in schema[p[i]])
  }

  ghost predicate Depends(schema: Schema, t: string, root: string) {
    exists p :: IsPath(schema, p) && p[0] == t && p[|p| - 1] == root
  }

  lemma {:induction false} CascadeIsClosed(schema: Schema, ts: set<string>)
    requires ts <= schema.Keys
    ensures Referencing(schema, Cascade(schema, ts)) <= Cascade(schema, ts)
    decreases schema.Keys - ts
  {
    var next := ts + Referencing(schema, ts);
    if next != ts {
      CascadeIsClosed(schema, next);
    }
  }

  lemma {:induction false} CascadeIsComplete(schema: Schema, ts: set<string>, p: seq<string>)
    requires ts <= schema.Keys && IsPath(schema, p) && p[|p| - 1] in Cascade(schema, ts)
    ensures p[0] in Cascade(schema, ts)
    decreases |p|
  {
    if |p| > 1 {
      var q := p[1..];
      assert forall i :: 0 <= i < |q| ==> q[i] == p[i + 1];
      CascadeIsComplete(schema, ts, q);
      CascadeIsClosed(schema, ts);
      assert p[1] in schema[p[0]] * Cascade(schema, ts);
    }
  }

  lemma {:induction false} CascadeIsSound(schema: Schema, ts: set<string>, root: string, t: string)
    requires ts <= schema.Keys && (forall x :: x in ts ==> Depends(schema, x, root))
    requires t in Cascade(schema, ts)
    ensures Depends(schema, t, root)
    decreases schema.Keys - ts
  {
    var next := ts + Referencing(schema, ts);
    if next != ts {
      forall x | x in next
        ensures Depends(schema, x, root)
      {
        if x !in ts {
          var y :| y in schema[x] * ts;
          var p :| IsPath(schema, p) && p[0] == y && p[|p| - 1] == root;
          assert IsPath(schema, [x] + p);
        }
      }
      CascadeIsSound(schema, next, root, t);
    }
  }

  /** CASCADE from a table empties exactly the tables that depend on it through
      a chain of foreign keys. */
  lemma CascadeIsDependence(schema: Schema, root: string, t: string)
    requires root in schema
    ensures t in Cascade(schema, {root}) <==> Depends(schema, t, root)
  {
    assert IsPath(schema, [root]);
    if t in Cascade(schema, {root}) {
      CascadeIsSound(schema, {root}, root, t);
    }
    if Depends(schema, t, root) {
      var p :| IsPath(schema, p) && p[0] == t && p[|p| - 1] == root;
      CascadeIsComplete(schema, {root}, p);
    }
  }

  // ----------------------------------------------------- cleaning a clone

  function Emptied(db: Database, ts: set<string>): Database {
    Database(map t | t in db.tables :: if t in ts then db.tables[t].(rows := []) else db.tables[t])
  }

  function Truncate(db: Database, root: string): Database
    requires root in db.tables
  {
    Emptied(db, Cascade(SchemaOf(db), {root}))
  }

  /** The roots in order, the absent ones skipped. */
  function TruncateRoots(db: Database, roots: seq<string>): (r: Database)
    ensures SchemaOf(r) == SchemaOf(db) && r.tables.Keys == db.tables.Keys
  {
    if roots == [] then db
    else
      var d := TruncateRoots(db, roots[..|roots| - 1]);
      var root := roots[|roots| - 1];
      if root in d.tables then Truncate(d, root) else d
  }

  predicate Contains(s: string, part: string) {
    exists i :: 0 <= i <= |s| - |part| && part <= s[i..]
  }

  /** `LIKE 'CODEX-DEMO-%' OR LIKE 'QAV%-EMP-%' OR LIKE 'DEMO-%'`. */
  predicate IsQaEmployee(no: string) {
    || "CODEX-DEMO-" <= no
    || ("QAV" <= no && Contains(no[3..], "-EMP-"))
    || "DEMO-" <= no
  }

  function RealEmployees(rows: seq<Row>): seq<Row> {
    if rows == [] then []
    else
      var rest := RealEmployees(rows[..|rows| - 1]);
      if IsQaEmployee(rows[|rows| - 1].employeeNo) then rest else rest + [rows[|rows| - 1]]
  }

  function WithoutQaEmployees(db: Database): Database {
    if "employees" !in db.tables then db
    else
      var e := db.tables["employees"];
      Database(db.tables["employees" := e.(rows := RealEmployees(e.rows))])
  }

  function Clean(db: Database, roots: seq<string>): Database {
    WithoutQaEmployees(TruncateRoots(db, roots))
  }

  /** Does a present root table empty `t`? */
  ghost predicate IsRuntime(db: Database, roots: seq<string>, t: string) {
    exists i :: 0 <= i < |roots| && roots[i] in db.tables && Depends(SchemaOf(db), t, roots[i])
  }

  lemma {:induction false} TruncateRootsContents(db: Database, roots: seq<string>, t: string)
    requires t in db.tables
    ensures TruncateRoots(db, roots).tables[t] ==
              if IsRuntime(db, roots, t) then db.tables[t].(rows := []) else db.tables[t]
  {
    if roots != [] {
      var init, root := roots[..|roots| - 1], roots[|roots| - 1];
      TruncateRootsContents(db, init, t);
      if root in db.tables {
        CascadeIsDependence(SchemaOf(db), root, t);
      }
      RuntimeOfOneMore(db, roots, t);
    }
  }

  lemma RuntimeOfOneMore(db: Database, roots: seq<string>, t: string)
    requires roots != []
    ensures var init, root := roots[..|roots| - 1], roots[|roots| - 1];
            IsRuntime(db, roots, t) <==>
            IsRuntime(db, init, t) || (root in db.tables && Depends(SchemaOf(db), t, root))
  {
  }

  /** What a cleaned database contains: the tables and foreign keys of the
      original; the dependants of the runtime roots empty, in whatever order the
      roots are listed; QA and demo employees gone; everything else unchanged. */
  lemma CleanContents(db: Database, roots: seq<string>, t: string)
    ensures Clean(db, roots).tables.Keys == db.tables.Keys
    ensures t in db.tables ==>
              Clean(db, roots).tables[t] ==
              if IsRuntime(db, roots, t) then db.tables[t].(rows := [])
              else if t == "employees" then db.tables[t].(rows := RealEmployees(db.tables[t].rows))
              else db.tables[t]
  {
    if t in db.tables {
      TruncateRootsContents(db, roots, t);
      hide IsRuntime, TruncateRoots;
    }
  }

  lemma {:induction false} RealEmployeesTwice(rows: seq<Row>)
    ensures RealEmployees(RealEmployees(rows)) == RealEmployees(rows)
    ensures forall r :: r in RealEmployees(rows) <==> r in rows && !IsQaEmployee(r.employeeNo)
  {
    if rows != [] {
      var init, last := rows[..|rows| - 1], rows[|rows| - 1];
      RealEmployeesTwice(init);
      assert rows == init + [last];
      hide IsQaEmployee;
      assert (RealEmployees(init) + [last])[..|RealEmployees(init)|] == RealEmployees(init);
    }
  }

  /** Cleaning a clean database changes nothing. */
  lemma CleanTwice(db: Database, roots: seq<string>)
    ensures Clean(Clean(db, roots), roots) == Clean(db, roots)
  {
    var once := Clean(db, roots);
    var twice := Clean(once, roots);
    assert SchemaOf(once) == SchemaOf(db);
    CleanContents(db, roots, "");
    CleanContents(once, roots, "");
    forall t | t in db.tables
      ensures twice.tables[t] == once.tables[t]
    {
      CleanContents(db, roots, t);
      CleanContents(once, roots, t);
      RealEmployeesTwice(db.tables[t].rows);
    }
    assert twice.tables == once.tables;
  }

  // ------------------------------------------------------------ baseline

  datatype Minima = Minima(employees: int, workShifts: int, shiftIntervals: int, templates: int, users: int)

  const RUNTIME_TABLES := {"production_orders", "parts", "operations", "work_sessions"}

  predicate AtLeast(db: Database, t: string, n: int) {
    t in db.tables && |db.tables[t].rows| >= n
  }

  predicate Baseline(db: Database, m: Minima, requireRuntimeEmpty: bool) {
    && AtLeast(db, "employees", m.employees)
    && AtLeast(db, "work_shifts", m.workShifts)
    && AtLeast(db, "work_shift_intervals", m.shiftIntervals)
    && AtLeast(db, "templates", m.templates)
    && AtLeast(db, "users", m.users)
    && (forall t :: t in RUNTIME_TABLES ==> t in db.tables && (requireRuntimeEmpty ==> db.tables[t].rows == []))
  }

  // ------------------------------------------------------------ the server

  /** What happens to the n-th call: it works, it fails without effect, or the
      connection is lost after the effect. */
  datatype Fault = Healthy | FailsBefore | FailsAfter

  datatype Verification = Verified | Violated | ConnectFailed

  /** The `n` calls from `at` on work. */
  ghost predicate HealthyFor(faults: nat -> Fault, at: nat, n: nat) {
    forall i :: at <= i < at + n ==> faults(i) == Healthy
  }

  class Cluster {
    var databases: Databases
    var calls: nat
    const faults: nat -> Fault
    /** The database that a URL built from a name connects to, after decoding. */
    const reach: string -> string

    constructor (databases: Databases, faults: nat -> Fault, reach: string -> string)
      ensures this.databases == databases && this.faults == faults && this.reach == reach
    {
      this.databases, this.faults, this.reach := databases, faults, reach;
      calls := 0;
    }

    /** No call ever fails. */
    ghost predicate Reliable() {
      forall n :: faults(n) == Healthy
    }

    /** One attempt: does it take effect, and does the caller see success? */
    method Attempt() returns (effective: bool, ok: bool)
      modifies this`calls
      ensures calls == old(calls) + 1
      ensures effective <==> faults(old(calls)) != FailsBefore
      ensures ok <==> faults(old(calls)) == Healthy
    {
      var f := faults(calls);
      calls := calls + 1;
      effective, ok := f != FailsBefore, f == Healthy;
    }

    /** `pg_terminate_backend` and `DROP DATABASE IF EXISTS`. */
    method Drop(name: string) returns (ok: bool)
      modifies this
      ensures databases == old(databases) || databases == old(databases) - {name}
      ensures ok ==> databases == old(databases) - {name}
      ensures calls == old(calls) + 1 && (ok <==> faults(old(calls)) == Healthy)
    {
      var effective;
      effective, ok := Attempt();
      if effective {
        databases := databases - {name};
      }
    }

    /** `CREATE DATABASE name TEMPLATE template`. */
    method CreateFrom(name: string, template: string) returns (ok: bool)
      modifies this
      ensures databases == old(databases) ||
              (template in old(databases) && name !in old(databases)
               && databases == old(databases)[name := old(databases)[template]])
      ensures ok ==> template in old(databases) && databases == old(databases)[name := old(databases)[template]]
      ensures calls == old(calls) + 1
      ensures ok <==> faults(old(calls)) == Healthy && template in old(databases) && name !in old(databases)
    {
      var effective;
      effective, ok := Attempt();
      if template !in databases || name in databases {
        return false;
      }
      if effective {
        databases := databases[name := databases[template]];
      }
    }

    method TruncateCascade(name: string, table: string) returns (ok: bool)
      requires name in databases && table in databases[name].tables
      modifies this
      ensures calls == old(calls) + 1 && (ok <==> faults(old(calls)) == Healthy)
      ensures databases == if faults(old(calls)) == FailsBefore then old(databases)
                           else old(databases)[name := Truncate(old(databases)[name], table)]
    {
      var effective;
      effective, ok := Attempt();
      if effective {
        databases := databases[name := Truncate(databases[name], table)];
      }
    }

    method DeleteQaEmployees(name: string) returns (ok: bool)
      requires name in databases
      modifies this
      ensures calls == old(calls) + 1 && (ok <==> faults(old(calls)) == Healthy)
      ensures databases == if faults(old(calls)) == FailsBefore then old(databases)
                           else old(databases)[name := WithoutQaEmployees(old(databases)[name])]
    {
      var effective;
      effective, ok := Attempt();
      if effective {
        databases := databases[name := WithoutQaEmployees(databases[name])];
      }
    }

    method ListTables(name: string) returns (present: Option<set<string>>)
      modifies this`calls
      ensures present.Some? ==> name in databases && present.value == databases[name].tables.Keys
      ensures calls == old(calls) + 1
      ensures present.Some? <==> faults(old(calls)) == Healthy && name in databases
    {
      var _, ok := Attempt();
      present := if ok && name in databases then Some(databases[name].tables.Keys) else None;
    }

    method ListDatabases() returns (names: Option<set<string>>)
      modifies this`calls
      ensures names.Some? ==> names.value == databases.Keys
      ensures calls == old(calls) + 1 && (names.Some? <==> faults(old(calls)) == Healthy)
    {
      var _, ok := Attempt();
      names := if ok then Some(databases.Keys) else None;
    }

    /** `verify_qa_baseline` on the database that the URL of `name` reaches. */
    method VerifyBaseline(name: string, m: Minima, requireRuntimeEmpty: bool) returns (v: Verification)
      modifies this`calls
      ensures v.Verified? ==> reach(name) in databases && Baseline(databases[reach(name)], m, requireRuntimeEmpty)
      ensures v.Violated? ==> reach(name) in databases && !Baseline(databases[reach(name)], m, requireRuntimeEmpty)
      ensures calls == old(calls) + 1
      ensures v.ConnectFailed? <==> faults(old(calls)) != Healthy || reach(name) !in databases
    {
      var _, ok := Attempt();
      var db := reach(name);
      if !ok || db !in databases {
        return ConnectFailed;
      }
      v := if Baseline(databases[db], m, requireRuntimeEmpty) then Verified else Violated;
    }
  }
}
