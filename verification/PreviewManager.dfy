/** UI Preview Lab environments (`engine/preview_manager.py`, `PreviewManager`).

    Each operation is proved against a relation between the world before and
    after it, whatever Docker call fails and however; the isolation theorems are
    about all sequences of operations. */
module PreviewManager {
  import opened Wrappers
  import opened PreviewDocker

  datatype EnvStatus = Creating | Seeding | Ready | FailedState | Stopped | Starting | Deleted

  datatype EnvRow = EnvRow(
    status: EnvStatus, preset: string, port: int,
    dbName: string, appContainer: string, dbContainer: string, network: string, volume: string)

  type Rows = map<string, EnvRow>

  datatype World = World(
    containers: map<string, Container>, networks: map<string, Labels>, volumes: map<string, Labels>,
    links: set<(string, string)>, rows: Rows)

  datatype Outcome = Ok | NotFound | SafetyError | DockerError | OtherError

  function Raised(r: CallResult): Outcome {
    match r
    case Done => Ok
    case DockerFailure => DockerError
    case OtherFailure => OtherError
    case SafetyRefusal => SafetyError
  }

  // ----------------------------------------------------------------- names

  function AppName(id: string): string { "mesflow-ui-preview-" + id }
  function DbContainerName(id: string): string { "mesflow-ui-db-" + id }
  function NetworkName(id: string): string { "mesflow-ui-net-" + id }
  function VolumeName(id: string): string { "mesflow-ui-data-" + id }

  /** The names stored in a row are those of its id (rows written before volumes
      were named have an empty volume). */
  predicate NamesOf(row: EnvRow, id: string) {
    && row.dbName == DB_PREFIX + id
    && row.appContainer == AppName(id) && row.dbContainer == DbContainerName(id)
    && row.network == NetworkName(id) && (row.volume == VolumeName(id) || row.volume == "")
  }

  ghost predicate RowsValid(rows: Rows) {
    forall id :: id in rows ==> NamesOf(rows[id], id)
  }

  lemma PrefixInjective(p: string, a: string, b: string)
    requires p + a == p + b
    ensures a == b
  {
    assert (p + a)[|p|..] == a && (p + b)[|p|..] == b;
  }

  /** Different environments never share a resource name. */
  lemma NamesAreDisjoint(a: string, b: string)
    ensures AppName(a) != DbContainerName(b)
    ensures a != b ==> AppName(a) != AppName(b) && DbContainerName(a) != DbContainerName(b)
    ensures a != b ==> NetworkName(a) != NetworkName(b) && VolumeName(a) != VolumeName(b)
  {
    assert AppName(a)[11] == 'p' && DbContainerName(b)[11] == 'd';
    if AppName(a) == AppName(b) { PrefixInjective("mesflow-ui-preview-", a, b); }
    if DbContainerName(a) == DbContainerName(b) { PrefixInjective("mesflow-ui-db-", a, b); }
    if NetworkName(a) == NetworkName(b) { PrefixInjective("mesflow-ui-net-", a, b); }
    if VolumeName(a) == VolumeName(b) { PrefixInjective("mesflow-ui-data-", a, b); }
  }

  // ------------------------------------------- what an operation may change

  ghost predicate Same<T>(b: map<string, T>, a: map<string, T>, n: string) {
    (n in b <==> n in a) && (n in b ==> b[n] == a[n])
  }

  /** Only resources named for `id` change, and only if they are labelled. */
  ghost predicate ContainersConfined(b: map<string, Container>, a: map<string, Container>, id: string) {
    forall n :: (n != AppName(id) && n != DbContainerName(id)) || (n in b && !IsPreview(b[n].labels)) ==> Same(b, a, n)
  }

  ghost predicate LabelledConfined(b: map<string, Labels>, a: map<string, Labels>, mine: string) {
    forall n :: n != mine || (n in b && !IsPreview(b[n])) ==> Same(b, a, n)
  }

  ghost predicate RowConfined(b: Rows, a: Rows, id: string) {
    && (forall n :: n != id ==> Same(b, a, n))
    && (id in b ==> id in a && a[id].port == b[id].port && a[id].dbName == b[id].dbName
                    && a[id].appContainer == b[id].appContainer && a[id].dbContainer == b[id].dbContainer
                    && a[id].network == b[id].network && a[id].volume == b[id].volume)
  }

  ghost predicate Confined(b: World, a: World, id: string) {
    && ContainersConfined(b.containers, a.containers, id)
    && LabelledConfined(b.networks, a.networks, NetworkName(id))
    && LabelledConfined(b.volumes, a.volumes, VolumeName(id))
    && RowConfined(b.rows, a.rows, id)
  }

  /** No container, network or volume appears, disappears or is made again. */
  ghost predicate ResourcesKept(b: World, a: World) {
    && a.containers.Keys == b.containers.Keys
    && (forall n :: n in b.containers ==>
          a.containers[n].labels == b.containers[n].labels && a.containers[n].env == b.containers[n].env)
    && a.networks == b.networks && a.volumes == b.volumes && a.links == b.links
  }

  ghost predicate VolumesKept(b: World, a: World) {
    forall v :: v in b.volumes ==> Same(b.volumes, a.volumes, v)
  }

  datatype Op =
    | BeginCreate(id: string) | FinishCreate(id: string) | Stop(id: string) | BeginStart(id: string)
    | FinishStart(id: string) | ResetReseed(id: string) | Delete(id: string)

  function UsedPorts(rows: Rows): set<int> {
    set id | id in rows && rows[id].status != Deleted :: rows[id].port
  }

  ghost predicate RowAdded(b: Rows, a: Rows, id: string) {
    id !in b && id in a && NamesOf(a[id], id) && a[id].port !in UsedPorts(b)
  }

  /** The step relation of the manager. */
  ghost predicate Next(b: World, a: World, op: Op) {
    && Confined(b, a, op.id)
    && (!op.Delete? ==> VolumesKept(b, a))
    && (op.Stop? || op.BeginStart? || op.FinishStart? || op.ResetReseed? ==> ResourcesKept(b, a))
    && (op.BeginCreate? ==> ResourcesKept(b, a) && (a.rows == b.rows || RowAdded(b.rows, a.rows, op.id)))
    && (!op.BeginCreate? && op.id !in b.rows ==> a == b)
    && (op.Delete? && op.id in b.rows ==>
          op.id in a.rows && (a.rows[op.id].status == Deleted || a.rows[op.id].status == b.rows[op.id].status))
  }

  // ------------------------------------------------------------ the manager

  class Manager {
    const docker: Docker
    const selfContainer: string
    const portStart: int
    const portEnd: int
    /** Polls of a readiness probe before its deadline. */
    const patience: nat
    var rows: Rows

    ghost predicate Valid()
      reads this
    {
      RowsValid(rows)
    }

    ghost function View(): World
      reads this, docker
    {
      World(docker.containers, docker.networks, docker.volumes, docker.links, rows)
    }

    constructor (docker: Docker, selfContainer: string, portStart: int, portEnd: int, patience: nat)
      ensures this.docker == docker && this.selfContainer == selfContainer
      ensures this.portStart == portStart && this.portEnd == portEnd && this.patience == patience
      ensures rows == map[] && Valid()
    {
      this.docker, this.selfContainer, this.portStart, this.portEnd, this.patience :=
        docker, selfContainer, portStart, portEnd, patience;
      rows := map[];
    }

    /** Docker never fails and a probe is made at least once. */
    ghost predicate Works() {
      docker.Reliable() && patience > 0
    }

    /** `_set`: the only way a row changes; names and port stay. */
    method Set(id: string, status: EnvStatus, preset: string)
      requires Valid() && id in rows
      modifies this`rows
      ensures Valid() && RowConfined(old(rows), rows, id)
      ensures id in rows && rows[id].status == status && rows[id].preset == preset
      ensures rows == old(rows)[id := old(rows)[id].(status := status, preset := preset)]
    {
      rows := rows[id := rows[id].(status := status, preset := preset)];
    }

    /** `_guard_destructive`: name, environment flag and label of the app. */
    method GuardDestructive(row: EnvRow) returns (r: CallResult)
      modifies docker`calls
      ensures r == Done ==> row.appContainer in docker.containers
                            && IsPreview(docker.containers[row.appContainer].labels)
                            && HasPreviewEnv(docker.containers[row.appContainer].env)
      ensures row.appContainer !in docker.containers ==> r == SafetyRefusal || r == OtherFailure
      ensures r == Done <==> && IsPreviewDatabase(row.dbName) && IsLabelled(docker.containers, row.appContainer)
                             && HasPreviewEnv(docker.containers[row.appContainer].env)
                             && docker.faults(old(docker.calls)) == Fine && docker.faults(old(docker.calls) + 1) == Fine
      ensures r == Done ==> docker.calls == old(docker.calls) + 2
    {
      if !IsPreviewDatabase(row.dbName) {
        return SafetyRefusal;
      }
      var c;
      r, c := docker.Inspect(row.appContainer);
      if r == OtherFailure {
        return;
      }
      var env := if r == Done then c.env else map[];
      if !HasPreviewEnv(env) {
        return SafetyRefusal;
      }
      r, c := docker.Inspect(row.appContainer);
      if r == Done && !IsPreview(c.labels) {
        r := SafetyRefusal;
      }
    }

    /** `allocate_port`: the first port of the range that no live row uses and
        that can be bound. */
    method AllocatePort(bindable: int -> bool) returns (port: Option<int>)
      ensures port.Some? ==> portStart <= port.value < portEnd && port.value !in UsedPorts(rows) && bindable(port.value)
      ensures port.Some? ==> forall p :: portStart <= p < port.value ==> p in UsedPorts(rows) || !bindable(p)
      ensures port.None? ==> forall p :: portStart <= p < portEnd ==> p in UsedPorts(rows) || !bindable(p)
    {
      var used := UsedPorts(rows);
      var p := portStart;
      while p < portEnd
        invariant forall q :: portStart <= q < p ==> q in used || !bindable(q)
        invariant portStart <= p
      {
        if p !in used && bindable(p) {
          return Some(p);
        }
        p := p + 1;
      }
      return None;
    }

    /** `begin_create`, with the fresh id as an argument.  `image` is None when
        the default image cannot be resolved. */
    method DoBeginCreate(id: string, preset: string, knownPreset: bool, image: Option<string>, bindable: int -> bool)
      returns (o: Outcome)
      requires Valid()
      modifies this`rows
      ensures Valid() && Next(old(View()), View(), BeginCreate(id))
      ensures o == Ok <==> rows != old(rows)
      ensures o == Ok ==> rows.Keys == old(rows).Keys + {id} && rows[id].status == Creating && rows[id].preset == preset
    {
      if !knownPreset || image.None? {
        return OtherError;
      }
      var port := AllocatePort(bindable);
      if port.None? || id in rows {
        return OtherError;
      }
      rows := rows[id := EnvRow(Creating, preset, port.value, DB_PREFIX + id, AppName(id), DbContainerName(id),
                                NetworkName(id), VolumeName(id))];
      return Ok;
    }

    method WaitDbReady(dbContainer: string) returns (r: CallResult)
      modifies docker`calls
      ensures Works() && IsLabelled(docker.containers, dbContainer) ==> r == Done
    {
      var tries := patience;
      while tries > 0
        invariant Works() && IsLabelled(docker.containers, dbContainer) ==> tries > 0
      {
        r := docker.ExecInContainer(dbContainer);
        if r != DockerFailure {
          return;
        }
        tries := tries - 1;
      }
      return DockerFailure;
    }

    /** The HTTP probe: every exception is swallowed until the deadline. */
    method WaitAppReady() returns (r: CallResult)
      modifies docker`calls
      ensures r == Done || r == DockerFailure
      ensures Works() ==> r == Done
    {
      var tries := patience;
      while tries > 0
        invariant Works() ==> tries > 0
      {
        var effective;
        effective, r := docker.Attempt();
        if r == Done {
          return;
        }
        tries := tries - 1;
      }
      return DockerFailure;
    }

    /** The Docker part of `finish_create`, up to readiness. */
    method Provision(row: EnvRow, id: string) returns (r: CallResult)
      requires NamesOf(row, id)
      modifies docker
      ensures ContainersAdded(old(docker.containers), docker.containers, id)
      ensures LabelsAdded(old(docker.networks), docker.networks, NetworkName(id))
      ensures LabelsAdded(old(docker.volumes), docker.volumes, VolumeName(id))
      ensures r == Done ==> IsUp(docker.containers, docker.networks, docker.volumes, id)
      ensures Works() && NamesFree(old(docker.containers), old(docker.networks), id) ==> r == Done
    {
      r := docker.CreateNetwork(row.network);
      assert LabelsAdded(old(docker.networks), docker.networks, NetworkName(id));
      assert r == Done ==> NetworkName(id) in docker.networks && IsPreview(docker.networks[NetworkName(id)]);
      ghost var b := docker.containers;
      assert ContainersAdded(b, b, id);
      hide ContainersAdded, IsPreview, HasPreviewEnv, AppName, DbContainerName, NetworkName;
      if r == Done {
        r := docker.CreateVolume(VolumeName(id), map[LABEL_KEY := "1", ID_LABEL_KEY := id]);
      }
      assert LabelsAdded(old(docker.volumes), docker.volumes, VolumeName(id));
      hide LabelsAdded, VolumeName;
      if r == Done {
        r := ProvisionContainers(row, id, b);
      }
    }

    method ProvisionContainers(row: EnvRow, id: string, ghost b: map<string, Container>) returns (r: CallResult)
      requires NamesOf(row, id) && b == docker.containers
      modifies docker`containers, docker`links, docker`calls
      ensures ContainersAdded(b, docker.containers, id)
      ensures r == Done ==> ContainersUp(docker.containers, id)
      ensures Works() && AppName(id) !in b && DbContainerName(id) !in b ==> r == Done
    {
      NamesAreDisjoint(id, id);
      PreviewLabelIsPreview();
      assert ContainersAdded(b, b, id);
      hide ContainersAdded, AppName, DbContainerName, NetworkName, VolumeName, IsPreview, HasPreviewEnv;
      r := docker.RunContainer(row.dbContainer, PREVIEW_LABELS, map[]);
      ghost var m := docker.containers;
      ContainerAddedOnce(b, b, m, row.dbContainer, id);
      if r == Done {
        r := WaitDbReady(row.dbContainer);
      }
      if r == Done {
        r := docker.ConnectNetwork(row.network, selfContainer);
      }
      if r == Done {
        r := docker.RunContainer(row.appContainer, PREVIEW_LABELS, map[ENV_FLAG := "1"]);
        ContainerAddedOnce(b, m, docker.containers, row.appContainer, id);
        if r == Done {
          r := WaitAppReady();
        }
      }
    }

    method DoFinishCreate(id: string) returns (o: Outcome)
      requires Valid()
      modifies this`rows, docker
      ensures Valid() && Next(old(View()), View(), FinishCreate(id))
      ensures o == NotFound <==> id !in old(rows)
      ensures id in old(rows) ==> rows[id].status == if o == Ok then Ready else FailedState
      ensures o == Ok ==> IsUp(docker.containers, docker.networks, docker.volumes, id)
      ensures Works() && id in old(rows) && NamesFree(old(docker.containers), old(docker.networks), id) ==> o == Ok
    {
      NothingIsNext(View(), FinishCreate(id));
      hide Next;
      if id !in rows {
        return NotFound;
      }
      assert NamesOf(rows[id], id);
      hide ContainersAdded, LabelsAdded, RowConfined, RowsValid, IsUp, NamesOf, NamesFree;
      ghost var w, rows0 := View(), rows;
      var r := ProvisionAndSeed(rows[id], id);
      ghost var rows1 := rows;
      Set(id, if r == Done then Ready else FailedState, rows[id].preset);
      RowConfinedTwice(rows0, rows1, rows, id);
      AddedIsNext(w, View(), id);
      o := Raised(r);
    }

    method ProvisionAndSeed(row: EnvRow, id: string) returns (r: CallResult)
      requires Valid() && id in rows && NamesOf(row, id)
      modifies this`rows, docker
      ensures Valid() && id in rows && RowConfined(old(rows), rows, id)
      ensures ContainersAdded(old(docker.containers), docker.containers, id)
      ensures LabelsAdded(old(docker.networks), docker.networks, NetworkName(id))
      ensures LabelsAdded(old(docker.volumes), docker.volumes, VolumeName(id))
      ensures r == Done ==> IsUp(docker.containers, docker.networks, docker.volumes, id)
      ensures Works() && NamesFree(old(docker.containers), old(docker.networks), id) ==> r == Done
    {
      assert RowConfined(rows, rows, id);
      NameIsPreviewDatabase(row, id);
      hide ContainersAdded, LabelsAdded, RowConfined, RowsValid, IsUp, NamesOf, IsPreviewDatabase, NamesFree;
      r := Provision(row, id);
      if r == Done {
        Set(id, Seeding, rows[id].preset);
        r := Seed(row.dbName);
      }
    }

    /** `preview.seed`: refuses a database that is not a preview database. */
    method Seed(dbName: string) returns (r: CallResult)
      modifies docker`calls
      ensures docker.Reliable() && IsPreviewDatabase(dbName) ==> r == Done
    {
      if !IsPreviewDatabase(dbName) {
        return SafetyRefusal;
      }
      var effective;
      effective, r := docker.Attempt();
    }

    /** Stop or start one container of the environment. */
    method SetRunning(name: string, running: bool, ghost b: map<string, Container>, ghost id: string)
      returns (r: CallResult)
      requires Mine(name, id) && Toggled(b, docker.containers, id)
      modifies docker`containers, docker`calls
      ensures Toggled(b, docker.containers, id)
      ensures forall n :: n != name ==> Same(old(docker.containers), docker.containers, n)
      ensures r == Done ==> IsRunning(docker.containers, name, running)
      ensures docker.Reliable() && IsLabelled(old(docker.containers), name) ==> r == Done
    {
      hide Toggled;
      ghost var m := docker.containers;
      r := docker.SafeSetRunning(name, running);
      ToggledOnce(b, m, docker.containers, name, running, id);
    }

    method SetBothRunning(first: string, second: string, running: bool, ghost id: string, waitBetween: bool)
      returns (r: CallResult)
      requires Mine(first, id) && Mine(second, id) && first != second
      modifies docker`containers, docker`calls
      ensures Toggled(old(docker.containers), docker.containers, id)
      ensures r == Done ==>
                IsRunning(docker.containers, first, running) && IsRunning(docker.containers, second, running)
      ensures Works() && IsLabelled(old(docker.containers), first) && IsLabelled(old(docker.containers), second) ==>
                r == Done
    {
      ghost var b := docker.containers;
      assert Toggled(b, b, id);
      hide Toggled, Mine;
      r := SetRunning(first, running, b, id);
      ToggledKeepsLabel(b, docker.containers, first, id);
      if r == Done && waitBetween {
        r := WaitDbReady(first);
      }
      if r == Done {
        ghost var m := docker.containers;
        assert Same(b, m, second);
        r := SetRunning(second, running, b, id);
        assert Same(m, docker.containers, first);
      }
    }

    method DoStop(id: string) returns (o: Outcome)
      requires Valid()
      modifies this`rows, docker
      ensures Valid() && Next(old(View()), View(), Stop(id))
      ensures o == NotFound <==> id !in old(rows)
      ensures o == Ok ==> id in rows && rows[id].status == Stopped
      ensures o == Ok ==> BothRunning(docker.containers, id, false)
      ensures o != Ok ==> rows == old(rows)
      ensures Works() && id in old(rows) && ContainersUp(old(docker.containers), id) ==> o == Ok
    {
      NothingIsNext(View(), Stop(id));
      if id !in rows {
        return NotFound;
      }
      NameIsPreviewDatabase(rows[id], id);
      var r := GuardDestructive(rows[id]);
      if r == Done {
        r := StopGuarded(id);
      }
      o := Raised(r);
    }

    method StopGuarded(id: string) returns (r: CallResult)
      requires Valid() && id in rows
      modifies this`rows, docker
      ensures Valid() && Next(old(View()), View(), Stop(id))
      ensures r == Done ==> id in rows && rows[id].status == Stopped
      ensures r == Done ==> BothRunning(docker.containers, id, false)
      ensures r != Done ==> rows == old(rows)
      ensures Works() && ContainersUp(old(docker.containers), id) ==> r == Done
    {
      var row := rows[id];
      assert RowConfined(rows, rows, id) && NamesOf(row, id);
      NamesAreDisjoint(id, id);
      ghost var w := View();
      hide Toggled, Next, RowConfined, RowsValid, AppName, DbContainerName;
      r := SetBothRunning(row.appContainer, row.dbContainer, false, id, false);
      if r == Done {
        Set(id, Stopped, row.preset);
      }
      ToggledIsNext(w, View(), Stop(id));
    }

    method DoBeginStart(id: string) returns (o: Outcome)
      requires Valid()
      modifies this`rows
      ensures Valid() && Next(old(View()), View(), BeginStart(id))
      ensures o == if id in old(rows) then Ok else NotFound
      ensures rows == Started(old(rows), id)
    {
      if id !in rows {
        return NotFound;
      }
      if !IsPreviewDatabase(rows[id].dbName) {
        return SafetyError;
      }
      Set(id, Starting, rows[id].preset);
      return Ok;
    }

    method DoFinishStart(id: string) returns (o: Outcome)
      requires Valid()
      modifies this`rows, docker
      ensures Valid() && Next(old(View()), View(), FinishStart(id))
      ensures o == NotFound <==> id !in old(rows)
      ensures id in old(rows) ==> id in rows && rows[id].status == if o == Ok then Ready else FailedState
      ensures o == Ok ==> BothRunning(docker.containers, id, true)
      ensures Works() && id in old(rows) && ContainersUp(old(docker.containers), id) ==> o == Ok
    {
      if id !in rows {
        NothingIsNext(View(), FinishStart(id));
        return NotFound;
      }
      var row := rows[id];
      assert NamesOf(row, id);
      NamesAreDisjoint(id, id);
      ghost var w := View();
      hide Toggled, Next, RowConfined, RowsValid, AppName, DbContainerName, NetworkName, VolumeName, ContainersUp;
      hide IsRunning;
      var r := BringUp(row, id);
      Set(id, if r == Done then Ready else FailedState, row.preset);
      ToggledIsNext(w, View(), FinishStart(id));
      o := Raised(r);
    }

    method BringUp(row: EnvRow, id: string) returns (r: CallResult)
      requires NamesOf(row, id)
      modifies docker`containers, docker`calls
      ensures Toggled(old(docker.containers), docker.containers, id)
      ensures r == Done ==> BothRunning(docker.containers, id, true)
      ensures Works() && ContainersUp(old(docker.containers), id) ==> r == Done
    {
      NamesAreDisjoint(id, id);
      hide Toggled, AppName, DbContainerName, NetworkName, VolumeName;
      r := SetBothRunning(row.dbContainer, row.appContainer, true, id, true);
      if r == Done {
        r := WaitAppReady();
      }
    }

    /** `reset_reseed`; `preset` carries whether the requested preset exists. */
    method DoResetReseed(id: string, preset: Option<(string, bool)>) returns (o: Outcome)
      requires Valid()
      modifies this`rows, docker`calls
      ensures Valid() && Next(old(View()), View(), ResetReseed(id))
      ensures o == Ok ==> id in rows && rows[id].status == Ready
                          && rows[id].preset == if preset.Some? then preset.value.0 else old(rows)[id].preset
      ensures preset.Some? && !preset.value.1 ==> o == OtherError && rows == old(rows)
      ensures AppName(id) !in docker.containers ==> o != Ok && rows == old(rows)
      ensures (&& docker.Reliable() && id in old(rows) && ContainersUp(docker.containers, id)
               && (preset.Some? ==> preset.value.1)) ==>
                o == Ok
    {
      NothingIsNext(View(), ResetReseed(id));
      if preset.Some? && !preset.value.1 {
        return OtherError;
      }
      if id !in rows {
        return NotFound;
      }
      NameIsPreviewDatabase(rows[id], id);
      var r := GuardDestructive(rows[id]);
      if r == Done {
        r := ReseedGuarded(id, if preset.Some? then preset.value.0 else rows[id].preset);
      }
      o := Raised(r);
    }

    /** The row says SEEDING while the tables are wiped and seeded again. */
    method ReseedGuarded(id: string, target: string) returns (r: CallResult)
      requires Valid() && id in rows
      modifies this`rows, docker`calls
      ensures Valid() && Next(old(View()), View(), ResetReseed(id))
      ensures id in rows && rows[id].status == (if r == Done then Ready else FailedState) && rows[id].preset == target
      ensures docker.Reliable() ==> r == Done
    {
      NameIsPreviewDatabase(rows[id], id);
      assert Toggled(docker.containers, docker.containers, id);
      ghost var w, rows0 := View(), rows;
      hide Toggled, Next, RowConfined, RowsValid;
      Set(id, Seeding, target);
      r := Seed(rows[id].dbName);
      if r == Done {
        r := Seed(rows[id].dbName);
      }
      ghost var rows1 := rows;
      Set(id, if r == Done then Ready else FailedState, target);
      RowConfinedTwice(rows0, rows1, rows, id);
      ToggledIsNext(w, View(), ResetReseed(id));
    }

    /** `delete`.  A `DockerError` of a removal is swallowed, a refusal by a
        guard is not.  Without the app container nothing can be deleted.  After a
        deletion a resource is still there exactly when its own removal ended in a
        `DockerError` without effect. */
    method DoDelete(id: string) returns (o: Outcome)
      requires Valid()
      modifies this`rows, docker
      ensures Valid() && Next(old(View()), View(), Delete(id))
      ensures o == NotFound <==> id !in old(rows)
      ensures o == Ok ==> rows[id].status == Deleted
      ensures o != Ok ==> rows == old(rows)
      ensures id in old(rows) && AppName(id) !in old(docker.containers) ==> o != Ok && View() == old(View())
      ensures o == Ok <==> DeletionCompletes(docker.faults, old(docker.calls), old(View()), id)
      ensures o == Ok ==> DeletionLeaves(docker.faults, old(docker.calls), old(View()), View(), id)
    {
      NothingIsNext(View(), Delete(id));
      hide Next, PlanAt, Completes, LeavesBehind, RowsValid, GuardHolds, AppName;
      if id !in rows {
        return NotFound;
      }
      var r := GuardDeletion(id);
      if r == Done {
        r := DeleteGuarded(id);
      }
      o := Raised(r);
    }

    method GuardDeletion(id: string) returns (r: CallResult)
      requires Valid() && id in rows
      modifies docker`calls
      ensures r == Done <==> && GuardHolds(docker.containers, id)
                             && docker.faults(old(docker.calls)) == Fine && docker.faults(old(docker.calls) + 1) == Fine
      ensures r == Done ==> docker.calls == old(docker.calls) + 2
      ensures r == Done ==> AppName(id) in docker.containers
    {
      NameIsPreviewDatabase(rows[id], id);
      hide IsPreviewDatabase, HasPreviewEnv, IsPreview;
      r := GuardDestructive(rows[id]);
    }

    method DeleteGuarded(id: string) returns (r: CallResult)
      requires Valid() && id in rows
      modifies this`rows, docker
      ensures Valid() && Next(old(View()), View(), Delete(id))
      ensures r == Done ==> rows[id].status == Deleted
      ensures r != Done ==> rows == old(rows)
      ensures r == Done <==>
                Completes(PlanAt(docker.faults, old(docker.calls), old(View()), id), old(rows)[id].volume != "")
      ensures r == Done ==> LeavesBehind(PlanAt(docker.faults, old(docker.calls), old(View()), id),
                                         old(View()), View(), id, old(rows)[id].volume != "")
    {
      hide ContainersConfined, LabelledConfined, Next, PlanAt, Completes;
      hide AppName, DbContainerName, NetworkName, VolumeName;
      ghost var b := View();
      r := RemoveResources(rows[id], id);
      if r == Done {
        Set(id, Deleted, rows[id].preset);
      }
      RemovedIsNext(b, View(), id);
    }

    method RemoveResources(row: EnvRow, id: string) returns (r: CallResult)
      requires NamesOf(row, id)
      modifies docker
      ensures ContainersConfined(old(docker.containers), docker.containers, id)
      ensures LabelledConfined(old(docker.networks), docker.networks, NetworkName(id))
      ensures LabelledConfined(old(docker.volumes), docker.volumes, VolumeName(id))
      ensures r != DockerFailure
      ensures r == Done <==> Completes(PlanAt(docker.faults, old(docker.calls), old(View()), id), row.volume != "")
      ensures r == Done ==> LeavesBehind(PlanAt(docker.faults, old(docker.calls), old(View()), id),
                                         old(View()), View(), id, row.volume != "")
    {
      hide ContainersConfined, LabelledConfined, Removing, IsLabelled, IsPreview, IsVolumeOf,
           AppName, DbContainerName, NetworkName, VolumeName;
      NothingRemoved(docker.networks, NetworkName(id));
      NothingRemoved(docker.volumes, VolumeName(id));
      r := RemoveContainers(row, id);
      if r == Done {
        r := docker.DisconnectNetwork(row.network, selfContainer);
        if r == Done {
          r := RemoveNetworkAndVolume(row, id);
        }
      }
    }

    method RemoveNetworkAndVolume(row: EnvRow, id: string) returns (r: CallResult)
      requires NamesOf(row, id)
      modifies docker`networks, docker`volumes, docker`calls
      ensures LabelledConfined(old(docker.networks), docker.networks, NetworkName(id))
      ensures LabelledConfined(old(docker.volumes), docker.volumes, VolumeName(id))
      ensures r != DockerFailure
      ensures var (network, volume) := LastRemovals(docker.faults, old(docker.calls), old(View()), id);
              && (r == Done <==> Tolerated(network.result) && (row.volume != "" ==> Tolerated(volume.result)))
              && (r == Done ==>
                    && (NetworkName(id) in docker.networks <==>
                          NetworkName(id) in old(docker.networks) && !network.removed)
                    && (VolumeName(id) in docker.volumes <==>
                          VolumeName(id) in old(docker.volumes) && (row.volume != "" ==> !volume.removed)))
    {
      hide Removing, AppName, DbContainerName, NetworkName, VolumeName;
      r := docker.SafeRemoveNetwork(row.network);
      if r == SafetyRefusal || r == OtherFailure {
        return;
      }
      if row.volume != "" {
        r := docker.SafeRemoveVolume(row.volume, id);
        if r == SafetyRefusal || r == OtherFailure {
          return;
        }
      }
      r := Done;
    }

    method RemoveContainers(row: EnvRow, id: string) returns (r: CallResult)
      requires NamesOf(row, id)
      modifies docker`containers, docker`calls
      ensures ContainersConfined(old(docker.containers), docker.containers, id)
      ensures r != DockerFailure
      ensures var plan := PlanAt(docker.faults, old(docker.calls), old(View()), id);
              && (r == Done <==> Tolerated(plan.app.result) && Tolerated(plan.db.result))
              && (r == Done ==>
                    && docker.calls == plan.db.next
                    && (AppName(id) in docker.containers <==>
                          AppName(id) in old(docker.containers) && !plan.app.removed)
                    && (DbContainerName(id) in docker.containers <==>
                          DbContainerName(id) in old(docker.containers) && !plan.db.removed))
    {
      NamesAreDisjoint(id, id);
      ghost var b := docker.containers;
      assert ContainersConfined(b, b, id);
      hide ContainersConfined, Removing, IsPreview, AppName, DbContainerName, NetworkName, VolumeName;
      r := docker.SafeRemoveContainer(row.appContainer);
      ContainerRemovedOnce(b, b, docker.containers, row.appContainer, id);
      if r == SafetyRefusal || r == OtherFailure {
        return;
      }
      ghost var m := docker.containers;
      r := docker.SafeRemoveContainer(row.dbContainer);
      ContainerRemovedOnce(b, m, docker.containers, row.dbContainer, id);
      if r == SafetyRefusal || r == OtherFailure {
        return;
      }
      r := Done;
    }
  }

  // ------------------------------------------------------- what Delete leaves

  /** How the four removals of a deletion end, and whether the manager's own
      container leaves the network. */
  datatype Plan = Plan(app: Removal, db: Removal, disconnects: bool, network: Removal, volume: Removal)

  function LastRemovals(faults: nat -> Fault, at: nat, w: World, id: string): (Removal, Removal) {
    var n, v := NetworkName(id), VolumeName(id);
    var network := Removing(faults, at, n in w.networks, n in w.networks && IsPreview(w.networks[n]));
    (network, Removing(faults, network.next, v in w.volumes, v in w.volumes && IsVolumeOf(w.volumes[v], id)))
  }

  function PlanAt(faults: nat -> Fault, at: nat, w: World, id: string): Plan {
    var app := Removing(faults, at, AppName(id) in w.containers, IsLabelled(w.containers, AppName(id)));
    var db := Removing(faults, app.next, DbContainerName(id) in w.containers,
                       IsLabelled(w.containers, DbContainerName(id)));
    var (network, volume) := LastRemovals(faults, db.next + 1, w, id);
    Plan(app, db, !faults(db.next).Crashes?, network, volume)
  }

  predicate Tolerated(r: CallResult) {
    r == Done || r == DockerFailure
  }

  predicate Completes(p: Plan, hasVolume: bool) {
    && Tolerated(p.app.result) && Tolerated(p.db.result) && p.disconnects && Tolerated(p.network.result)
    && (hasVolume ==> Tolerated(p.volume.result))
  }

  /** The removal failed, the failure was swallowed, and it had no effect. */
  predicate Missed(m: Removal) {
    m.result == DockerFailure && !m.removed
  }

  predicate LeavesBehind(p: Plan, b: World, a: World, id: string, hasVolume: bool) {
    && (AppName(id) in a.containers <==> AppName(id) in b.containers && Missed(p.app))
    && (DbContainerName(id) in a.containers <==> DbContainerName(id) in b.containers && Missed(p.db))
    && (NetworkName(id) in a.networks <==> NetworkName(id) in b.networks && Missed(p.network))
    && (VolumeName(id) in a.volumes <==> VolumeName(id) in b.volumes && (hasVolume ==> Missed(p.volume)))
  }

  /** The guard's two calls and the deletion itself, from call number `at` on, go well. */
  predicate DeletionCompletes(faults: nat -> Fault, at: nat, b: World, id: string) {
    && id in b.rows && GuardHolds(b.containers, id) && faults(at) == Fine && faults(at + 1) == Fine
    && Completes(PlanAt(faults, at + 2, b, id), b.rows[id].volume != "")
  }

  predicate DeletionLeaves(faults: nat -> Fault, at: nat, b: World, a: World, id: string) {
    id in b.rows && LeavesBehind(PlanAt(faults, at + 2, b, id), b, a, id, b.rows[id].volume != "")
  }

  /** What the guard asks of the app container. */
  predicate GuardHolds(containers: map<string, Container>, id: string) {
    IsLabelled(containers, AppName(id)) && HasPreviewEnv(containers[AppName(id)].env)
  }

  /** When no call fails, a deletion of a complete environment succeeds, and every
      deletion that succeeds leaves nothing. */
  lemma ReliableDeletionLeavesNothing(faults: nat -> Fault, at: nat, b: World, a: World, id: string, hasVolume: bool)
    requires forall n :: faults(n) == Fine
    ensures IsUp(b.containers, b.networks, b.volumes, id) && IsVolumeOf(b.volumes[VolumeName(id)], id) ==>
              GuardHolds(b.containers, id) && Completes(PlanAt(faults, at, b, id), hasVolume)
    ensures (&& Completes(PlanAt(faults, at, b, id), hasVolume)
             && LeavesBehind(PlanAt(faults, at, b, id), b, a, id, hasVolume)) ==>
              && AppName(id) !in a.containers && DbContainerName(id) !in a.containers && NetworkName(id) !in a.networks
              && (hasVolume ==> VolumeName(id) !in a.volumes)
  {
    hide AppName, DbContainerName, NetworkName, VolumeName, IsPreview, IsVolumeOf;
  }

  lemma OneErrorPlan(faults: nat -> Fault, at: nat, b: World, id: string, hasVolume: bool)
    requires forall n :: faults(n) == if n == at + 2 then Errors(false) else Fine
    requires IsUp(b.containers, b.networks, b.volumes, id) && IsVolumeOf(b.volumes[VolumeName(id)], id)
    ensures GuardHolds(b.containers, id) && Completes(PlanAt(faults, at, b, id), hasVolume)
    ensures Missed(PlanAt(faults, at, b, id).db)
  {
    hide AppName, DbContainerName, NetworkName, VolumeName, IsPreview, IsVolumeOf;
  }

  /** A single error while the labels of the database container are read: the
      environment says DELETED and its labelled container is still there. */
  method DeletionLeaks(m: Manager, id: string) returns (o: Outcome)
    requires m.Valid() && id in m.rows && IsUp(m.docker.containers, m.docker.networks, m.docker.volumes, id)
    requires IsVolumeOf(m.docker.volumes[VolumeName(id)], id)
    requires forall n :: m.docker.faults(n) == if n == m.docker.calls + 4 then Errors(false) else Fine
    modifies m`rows, m.docker
    ensures o == Ok && id in m.rows && m.rows[id].status == Deleted
    ensures IsLabelled(old(m.docker.containers), DbContainerName(id)) && DbContainerName(id) in m.docker.containers
  {
    OneErrorPlan(m.docker.faults, m.docker.calls + 2, m.View(), id, m.rows[id].volume != "");
    hide AppName, DbContainerName, NetworkName, VolumeName, IsPreview, IsVolumeOf, Next, PlanAt, Completes, GuardHolds;
    o := m.DoDelete(id);
  }

  lemma NothingRemoved(b: map<string, Labels>, mine: string)
    ensures LabelledConfined(b, b, mine)
  {
  }

  // ------------------------------- what sequences of Docker calls can do

  predicate Mine(n: string, id: string) {
    n == AppName(id) || n == DbContainerName(id)
  }

  /** Only labelled containers of `id` were stopped or started. */
  ghost predicate Toggled(b: map<string, Container>, a: map<string, Container>, id: string) {
    && a.Keys == b.Keys
    && (forall n :: n in b ==> a[n].labels == b[n].labels && a[n].env == b[n].env)
    && ContainersConfined(b, a, id)
  }

  lemma ToggledOnce(b: map<string, Container>, m: map<string, Container>, a: map<string, Container>,
                    name: string, running: bool, id: string)
    requires Toggled(b, m, id) && Mine(name, id)
    requires a == m || (name in m && IsPreview(m[name].labels) && a == m[name := m[name].(running := running)])
    ensures Toggled(b, a, id)
  {
  }

  lemma ToggledKeepsLabel(b: map<string, Container>, a: map<string, Container>, name: string, id: string)
    requires Toggled(b, a, id)
    ensures IsLabelled(b, name) ==> IsLabelled(a, name)
  {
  }

  predicate NamesFree(containers: map<string, Container>, networks: map<string, Labels>, id: string) {
    AppName(id) !in containers && DbContainerName(id) !in containers && NetworkName(id) !in networks
  }

  lemma NameIsPreviewDatabase(row: EnvRow, id: string)
    requires NamesOf(row, id)
    ensures IsPreviewDatabase(row.dbName)
  {
  }

  lemma ToggledIsNext(b: World, a: World, op: Op)
    requires op.Stop? || op.BeginStart? || op.FinishStart? || op.ResetReseed?
    requires op.id in b.rows && Toggled(b.containers, a.containers, op.id) && RowConfined(b.rows, a.rows, op.id)
    requires a.networks == b.networks && a.volumes == b.volumes && a.links == b.links
    ensures Next(b, a, op)
  {
  }

  /** Only containers of `id` were added. */
  ghost predicate ContainersAdded(b: map<string, Container>, a: map<string, Container>, id: string) {
    forall n :: n in b || !Mine(n, id) ==> Same(b, a, n)
  }

  ghost predicate LabelsAdded(b: map<string, Labels>, a: map<string, Labels>, mine: string) {
    forall n :: n in b || n != mine ==> Same(b, a, n)
  }

  lemma ContainerAddedOnce(b: map<string, Container>, m: map<string, Container>, a: map<string, Container>,
                           name: string, id: string)
    requires ContainersAdded(b, m, id) && Mine(name, id)
    requires a == m || (name !in m && name in a && a == m[name := a[name]])
    ensures ContainersAdded(b, a, id)
  {
  }

  lemma AddedIsNext(b: World, a: World, id: string)
    requires id in b.rows && RowConfined(b.rows, a.rows, id)
    requires ContainersAdded(b.containers, a.containers, id)
    requires LabelsAdded(b.networks, a.networks, NetworkName(id)) && LabelsAdded(b.volumes, a.volumes, VolumeName(id))
    ensures Next(b, a, FinishCreate(id))
  {
  }

  lemma ContainerRemovedOnce(b: map<string, Container>, m: map<string, Container>, a: map<string, Container>,
                             name: string, id: string)
    requires ContainersConfined(b, m, id) && Mine(name, id)
    requires a == m || (name in m && IsPreview(m[name].labels) && a == m - {name})
    ensures ContainersConfined(b, a, id)
  {
  }

  lemma RemovedIsNext(b: World, a: World, id: string)
    requires id in b.rows && RowConfined(b.rows, a.rows, id)
    requires ContainersConfined(b.containers, a.containers, id)
    requires LabelledConfined(b.networks, a.networks, NetworkName(id))
    requires LabelledConfined(b.volumes, a.volumes, VolumeName(id))
    requires a.rows[id].status == Deleted || a.rows[id].status == b.rows[id].status
    ensures Next(b, a, Delete(id))
  {
  }

  lemma RowConfinedTwice(b: Rows, m: Rows, a: Rows, id: string)
    requires RowConfined(b, m, id) && RowConfined(m, a, id)
    ensures RowConfined(b, a, id)
  {
    forall n | n != id
      ensures Same(b, a, n)
    {
      assert Same(b, m, n) && Same(m, a, n);
    }
  }

  lemma NothingIsNext(w: World, op: Op)
    ensures Next(w, w, op)
  {
  }

  predicate IsRunning(containers: map<string, Container>, name: string, running: bool) {
    name in containers && containers[name].running == running
  }

  predicate BothRunning(containers: map<string, Container>, id: string, running: bool) {
    IsRunning(containers, AppName(id), running) && IsRunning(containers, DbContainerName(id), running)
  }

  predicate ContainersUp(containers: map<string, Container>, id: string) {
    && AppName(id) in containers && IsPreview(containers[AppName(id)].labels)
    && HasPreviewEnv(containers[AppName(id)].env)
    && DbContainerName(id) in containers && IsPreview(containers[DbContainerName(id)].labels)
  }

  lemma PreviewLabelIsPreview()
    ensures IsPreview(PREVIEW_LABELS) && HasPreviewEnv(map[ENV_FLAG := "1"])
  {
  }

  /** Everything of the environment exists, with its labels. */
  predicate IsUp(containers: map<string, Container>, networks: map<string, Labels>, volumes: map<string, Labels>,
                 id: string) {
    && ContainersUp(containers, id)
    && NetworkName(id) in networks && IsPreview(networks[NetworkName(id)])
    && VolumeName(id) in volumes
  }

  function Started(rows: Rows, id: string): Rows {
    if id in rows then rows[id := rows[id].(status := Starting)] else rows
  }

  // ------------------------------------------------------------- whole runs

  ghost predicate IsRun(worlds: seq<World>, ops: seq<Op>) {
    && |worlds| == |ops| + 1
    && forall i :: 0 <= i < |ops| ==> Next(worlds[i], worlds[i + 1], ops[i])
  }

  /** Isolation, over every run with failures anywhere: what does not carry the
      preview label is never removed, stopped, started or made again. */
  lemma {:induction false} UnlabelledUntouched(worlds: seq<World>, ops: seq<Op>, n: string)
    requires IsRun(worlds, ops)
    ensures var b, a := worlds[0], worlds[|ops|];
            && (n in b.containers && !IsPreview(b.containers[n].labels) ==> Same(b.containers, a.containers, n))
            && (n in b.networks && !IsPreview(b.networks[n]) ==> Same(b.networks, a.networks, n))
            && (n in b.volumes && !IsPreview(b.volumes[n]) ==> Same(b.volumes, a.volumes, n))
    decreases |ops|
  {
    if ops != [] {
      var k := |ops| - 1;
      UnlabelledUntouched(worlds[..k + 1], ops[..k], n);
      assert Confined(worlds[k], worlds[k + 1], ops[k].id);
    }
  }

  /** The resources and the row of one environment. */
  ghost predicate EnvironmentSame(b: World, a: World, id: string) {
    && Same(b.containers, a.containers, AppName(id)) && Same(b.containers, a.containers, DbContainerName(id))
    && Same(b.networks, a.networks, NetworkName(id)) && Same(b.volumes, a.volumes, VolumeName(id))
    && Same(b.rows, a.rows, id)
  }

  lemma ForeignStep(b: World, a: World, op: Op, id: string)
    requires Next(b, a, op) && op.id != id
    ensures EnvironmentSame(b, a, id)
  {
    NamesAreDisjoint(op.id, id);
    NamesAreDisjoint(id, op.id);
    hide AppName, DbContainerName, NetworkName, VolumeName;
    assert Confined(b, a, op.id);
  }

  /** Operations on other environments leave an environment exactly as it was. */
  lemma {:induction false} OtherEnvironmentsUntouched(worlds: seq<World>, ops: seq<Op>, id: string)
    requires IsRun(worlds, ops)
    requires forall i :: 0 <= i < |ops| ==> ops[i].id != id
    ensures EnvironmentSame(worlds[0], worlds[|ops|], id)
    decreases |ops|
  {
    if ops != [] {
      var k := |ops| - 1;
      OtherEnvironmentsUntouched(worlds[..k + 1], ops[..k], id);
      ForeignStep(worlds[k], worlds[k + 1], ops[k], id);
      hide AppName, DbContainerName, NetworkName, VolumeName, Next;
    }
  }

  /** Only Delete removes the data volume: until then it survives every operation
      and every failure.  (What is inside it is replaced by a reseed.) */
  lemma {:induction false} VolumeSurvives(worlds: seq<World>, ops: seq<Op>, id: string)
    requires IsRun(worlds, ops) && VolumeName(id) in worlds[0].volumes
    requires forall i :: 0 <= i < |ops| ==> ops[i] != Delete(id)
    ensures Same(worlds[0].volumes, worlds[|ops|].volumes, VolumeName(id))
    decreases |ops|
  {
    if ops != [] {
      var k := |ops| - 1;
      VolumeSurvives(worlds[..k + 1], ops[..k], id);
      if ops[k].id != id {
        ForeignStep(worlds[k], worlds[k + 1], ops[k], id);
      } else {
        assert VolumesKept(worlds[k], worlds[k + 1]);
      }
    }
  }

  /** Stopping, starting and reseeding, in any number and with any failures,
      never create, recreate or remove a container, network or volume. */
  lemma {:induction false} ReuseKeepsResources(worlds: seq<World>, ops: seq<Op>)
    requires IsRun(worlds, ops)
    requires forall i :: 0 <= i < |ops| ==>
               ops[i].Stop? || ops[i].BeginStart? || ops[i].FinishStart? || ops[i].ResetReseed?
    ensures ResourcesKept(worlds[0], worlds[|ops|])
    decreases |ops|
  {
    if ops != [] {
      var k := |ops| - 1;
      ReuseKeepsResources(worlds[..k + 1], ops[..k]);
      assert ResourcesKept(worlds[k], worlds[k + 1]);
    }
  }

  // ----------------------------------------------------------------- ports

  ghost predicate PortsUnique(rows: Rows) {
    forall i, j :: i in rows && j in rows && i != j && rows[i].status != Deleted && rows[j].status != Deleted
                   ==> rows[i].port != rows[j].port
  }

  predicate PortTaken(rows: Rows, id: string)
    requires id in rows
  {
    exists j :: j in rows && j != id && rows[j].status != Deleted && rows[j].port == rows[id].port
  }

  /** The step brings a row back from DELETED although its port has been given away. */
  predicate Revives(b: Rows, a: Rows, id: string) {
    && id in b && b[id].status == Deleted && PortTaken(b, id)
    && id in a && a[id].status != Deleted
  }

  lemma RevivalClashes(b: World, a: World, op: Op)
    requires Next(b, a, op) && Revives(b.rows, a.rows, op.id)
    ensures !PortsUnique(a.rows)
  {
    var j :| j in b.rows && j != op.id && b.rows[j].status != Deleted && b.rows[j].port == b.rows[op.id].port;
    assert Same(b.rows, a.rows, j);
  }

  lemma PortsStep(b: World, a: World, op: Op)
    requires Next(b, a, op) && PortsUnique(b.rows) && !Revives(b.rows, a.rows, op.id)
    ensures PortsUnique(a.rows)
  {
    forall i, j | && i in a.rows && j in a.rows && i != j
                  && a.rows[i].status != Deleted && a.rows[j].status != Deleted
      ensures a.rows[i].port != a.rows[j].port
    {
      assert Same(b.rows, a.rows, if i == op.id then j else i);
      assert j != op.id ==> Same(b.rows, a.rows, j);
    }
  }

  ghost predicate AlwaysUnique(worlds: seq<World>) {
    forall i :: 0 <= i < |worlds| ==> PortsUnique(worlds[i].rows)
  }

  ghost predicate NeverRevives(worlds: seq<World>, ops: seq<Op>)
    requires |worlds| == |ops| + 1
  {
    forall i :: 0 <= i < |ops| ==> !Revives(worlds[i].rows, worlds[i + 1].rows, ops[i].id)
  }

  lemma AlwaysUniqueNext(worlds: seq<World>, k: nat)
    requires |worlds| == k + 2
    ensures AlwaysUnique(worlds) <==> AlwaysUnique(worlds[..k + 1]) && PortsUnique(worlds[k + 1].rows)
  {
    assert worlds == worlds[..k + 1] + [worlds[k + 1]];
    hide PortsUnique;
  }

  lemma NeverRevivesNext(worlds: seq<World>, ops: seq<Op>, k: nat)
    requires |worlds| == k + 2 && |ops| == k + 1
    ensures NeverRevives(worlds, ops)
            <==> NeverRevives(worlds[..k + 1], ops[..k]) && !Revives(worlds[k].rows, worlds[k + 1].rows, ops[k].id)
  {
    assert forall i :: 0 <= i <= k ==> worlds[..k + 1][i] == worlds[i];
    assert forall i :: 0 <= i < k ==> ops[..k][i] == ops[i];
    hide Revives;
  }

  /** Live environments have different ports all along a run if and only if no
      operation of the run brings a row back from DELETED whose port is taken. */
  lemma {:induction false} PortsStayUnique(worlds: seq<World>, ops: seq<Op>)
    requires IsRun(worlds, ops) && PortsUnique(worlds[0].rows)
    ensures AlwaysUnique(worlds) <==> NeverRevives(worlds, ops)
    decreases |ops|
  {
    if ops != [] {
      var k := |ops| - 1;
      var b, a := worlds[k], worlds[k + 1];
      hide Next, PortsUnique, Revives;
      PortsStayUnique(worlds[..k + 1], ops[..k]);
      AlwaysUniqueNext(worlds, k);
      NeverRevivesNext(worlds, ops, k);
      assert AlwaysUnique(worlds[..k + 1]) ==> PortsUnique(worlds[..k + 1][k].rows);
      hide AlwaysUnique, NeverRevives;
      if Revives(b.rows, a.rows, ops[k].id) {
        RevivalClashes(b, a, ops[k]);
      } else if AlwaysUnique(worlds[..k + 1]) {
        PortsStep(b, a, ops[k]);
      }
    }
  }

  /** Starting is the operation that does not look: it breaks uniqueness exactly
      when the row is DELETED and its old port has been given away. */
  lemma StartBreaksPorts(rows: Rows, id: string)
    requires PortsUnique(rows) && id in rows
    ensures PortsUnique(Started(rows, id)) <==> !(rows[id].status == Deleted && PortTaken(rows, id))
  {
    var after := Started(rows, id);
    if rows[id].status == Deleted && PortTaken(rows, id) {
      var j :| j in rows && j != id && rows[j].status != Deleted && rows[j].port == rows[id].port;
      assert after[j] == rows[j] && after[id].port == after[j].port;
    }
  }
}
