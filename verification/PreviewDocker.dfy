/** The Docker daemon as the preview manager sees it (`engine/preview_manager.py`,
    class `DockerCLI`) and the guards of `engine/preview_guard.py`. */
module PreviewDocker {

  type Labels = map<string, string>

  const LABEL_KEY := "com.mesflow.qa.preview"
  const ID_LABEL_KEY := "com.mesflow.qa.preview.id"
  const ENV_FLAG := "MESFLOW_UI_PREVIEW"
  const DB_PREFIX := "mesflow_ui_"

  datatype Container = Container(labels: Labels, env: map<string, string>, running: bool)

  /** The outcome of the n-th command: it works, or it raises `DockerError` or
      another exception, with or without having taken effect. */
  datatype Fault = Fine | Errors(effective: bool) | Crashes(effective: bool)

  datatype CallResult = Done | DockerFailure | OtherFailure | SafetyRefusal

  // ---------------------------------------------------------------- guards

  predicate IsSpace(c: char) {
    c == ' ' || c == '\t' || c == '\n' || c == '\r'
  }

  function Strip(s: string): string
    decreases |s|
  {
    if s == "" then ""
    else if IsSpace(s[0]) then Strip(s[1..])
    else if IsSpace(s[|s| - 1]) then Strip(s[..|s| - 1])
    else s
  }

  function Lookup(m: map<string, string>, key: string): string {
    if key in m then m[key] else ""
  }

  /** `assert_preview_db_name`. */
  predicate IsPreviewDatabase(name: string) {
    name != "" && DB_PREFIX <= name
  }

  /** `assert_preview_env`. */
  predicate HasPreviewEnv(env: map<string, string>) {
    Strip(Lookup(env, ENV_FLAG)) == "1"
  }

  /** `assert_preview_label`. */
  predicate IsPreview(labels: Labels) {
    Lookup(labels, LABEL_KEY) == "1"
  }

  /** `assert_preview_volume_label`: the label of this very environment too. */
  predicate IsVolumeOf(labels: Labels, id: string) {
    IsPreview(labels) && Lookup(labels, ID_LABEL_KEY) == id
  }

  const PREVIEW_LABELS: Labels := map[LABEL_KEY := "1"]

  // ---------------------------------------------------------------- daemon

  /** How one guarded removal ends, whether the resource is gone, and the number
      of the next call: first the labels are read, then the resource removed. */
  datatype Removal = Removal(result: CallResult, removed: bool, next: nat)

  function Removing(faults: nat -> Fault, at: nat, present: bool, labelled: bool): (m: Removal)
    ensures m.result == Done ==> m.removed
  {
    if faults(at).Crashes? then Removal(OtherFailure, false, at + 1)
    else if faults(at).Errors? || !present then Removal(DockerFailure, false, at + 1)
    else if !labelled then Removal(SafetyRefusal, false, at + 1)
    else match faults(at + 1)
      case Fine => Removal(Done, true, at + 2)
      case Errors(e) => Removal(DockerFailure, e, at + 2)
      case Crashes(e) => Removal(OtherFailure, e, at + 2)
  }

  predicate IsLabelled(containers: map<string, Container>, name: string) {
    name in containers && IsPreview(containers[name].labels)
  }

  class Docker {
    var containers: map<string, Container>
    var networks: map<string, Labels>
    var volumes: map<string, Labels>
    /** Containers attached to networks by `network connect`. */
    var links: set<(string, string)>
    var calls: nat
    const faults: nat -> Fault

    constructor (faults: nat -> Fault)
      ensures this.faults == faults && containers == map[] && networks == map[] && volumes == map[] && links == {}
    {
      this.faults := faults;
      containers, networks, volumes, links, calls := map[], map[], map[], {}, 0;
    }

    ghost predicate Reliable() {
      forall n :: faults(n) == Fine
    }

    method Attempt() returns (effective: bool, r: CallResult)
      modifies this`calls
      ensures calls == old(calls) + 1
      ensures match faults(old(calls))
              case Fine => effective && r == Done
              case Errors(e) => effective == e && r == DockerFailure
              case Crashes(e) => effective == e && r == OtherFailure
    {
      var f := faults(calls);
      calls := calls + 1;
      match f
      case Fine => effective, r := true, Done;
      case Errors(e) => effective, r := e, DockerFailure;
      case Crashes(e) => effective, r := e, OtherFailure;
    }

    /** `inspect` for labels and environment. */
    method Inspect(name: string) returns (r: CallResult, c: Container)
      modifies this`calls
      ensures r == Done ==> name in containers && c == containers[name]
      ensures r == match faults(old(calls))
                   case Fine => if name in containers then Done else DockerFailure
                   case Errors(_) => DockerFailure
                   case Crashes(_) => OtherFailure
      ensures calls == old(calls) + 1
      ensures Reliable() ==> r == if name in containers then Done else DockerFailure
    {
      c := Container(map[], map[], false);
      var effective;
      effective, r := Attempt();
      if r == Done {
        if name !in containers {
          return DockerFailure, c;
        }
        c := containers[name];
      }
    }

    method SafeRemoveContainer(name: string) returns (r: CallResult)
      modifies this`containers, this`calls
      ensures var m := Removing(faults, old(calls), name in old(containers), IsLabelled(old(containers), name));
              && r == m.result && calls == m.next
              && containers == if m.removed then old(containers) - {name} else old(containers)
      ensures containers == old(containers) ||
              (&& name in old(containers) && IsPreview(old(containers)[name].labels)
               && containers == old(containers) - {name})
      ensures r == Done ==> name !in containers
      ensures Reliable() ==> r == if name !in old(containers) then DockerFailure
                                  else if IsPreview(old(containers)[name].labels) then Done else SafetyRefusal
    {
      var c;
      r, c := Inspect(name);
      if r != Done {
        return;
      }
      if !IsPreview(c.labels) {
        return SafetyRefusal;
      }
      var effective;
      effective, r := Attempt();
      if effective {
        containers := containers - {name};
      }
    }

    /** `stop` or `start`, after the label check. */
    method SafeSetRunning(name: string, running: bool) returns (r: CallResult)
      modifies this`containers, this`calls
      ensures containers == old(containers) ||
              (name in old(containers) && IsPreview(old(containers)[name].labels)
               && containers == old(containers)[name := old(containers)[name].(running := running)])
      ensures r == Done ==> name in containers && containers[name].running == running
      ensures Reliable() ==> r == if name !in old(containers) then DockerFailure
                                  else if IsPreview(old(containers)[name].labels) then Done else SafetyRefusal
    {
      var c;
      r, c := Inspect(name);
      if r != Done {
        return;
      }
      if !IsPreview(c.labels) {
        return SafetyRefusal;
      }
      var effective;
      effective, r := Attempt();
      if effective {
        containers := containers[name := c.(running := running)];
      }
    }

    /** `exec` after the label check; the command only reads. */
    method ExecInContainer(name: string) returns (r: CallResult)
      modifies this`calls
      ensures Reliable() && name in containers && IsPreview(containers[name].labels) ==> r == Done
    {
      var c;
      r, c := Inspect(name);
      if r != Done {
        return;
      }
      if !IsPreview(c.labels) {
        return SafetyRefusal;
      }
      var effective;
      effective, r := Attempt();
    }

    /** `run -d --name`: a name in use is refused by the daemon. */
    method RunContainer(name: string, labels: Labels, env: map<string, string>) returns (r: CallResult)
      modifies this`containers, this`calls
      ensures containers == old(containers) ||
              (name !in old(containers) && exists up ::
                 containers == old(containers)[name := Container(labels, env, up)])
      ensures r == Done ==>
                name !in old(containers) && containers == old(containers)[name := Container(labels, env, true)]
      ensures r != SafetyRefusal
      ensures Reliable() ==> r == if name in old(containers) then DockerFailure else Done
    {
      var effective;
      effective, r := Attempt();
      if name in containers {
        return if r == Done then DockerFailure else r;
      }
      if effective {
        containers := containers[name := Container(labels, env, r == Done)];
      }
    }

    method CreateNetwork(name: string) returns (r: CallResult)
      modifies this`networks, this`calls
      ensures networks == old(networks) ||
              (name !in old(networks) && networks == old(networks)[name := PREVIEW_LABELS])
      ensures r == Done ==> name !in old(networks) && networks == old(networks)[name := PREVIEW_LABELS]
      ensures Reliable() ==> r == if name in old(networks) then DockerFailure else Done
      ensures r != SafetyRefusal
    {
      var effective;
      effective, r := Attempt();
      if name in networks {
        return if r == Done then DockerFailure else r;
      }
      if effective {
        networks := networks[name := PREVIEW_LABELS];
      }
    }

    method SafeRemoveNetwork(name: string) returns (r: CallResult)
      modifies this`networks, this`calls
      ensures var m := Removing(faults, old(calls), name in old(networks),
                                name in old(networks) && IsPreview(old(networks)[name]));
              && r == m.result && calls == m.next
              && networks == if m.removed then old(networks) - {name} else old(networks)
      ensures networks == old(networks) ||
              (name in old(networks) && IsPreview(old(networks)[name]) && networks == old(networks) - {name})
      ensures r == Done ==> name !in networks
      ensures Reliable() ==> r == if name !in old(networks) then DockerFailure
                                  else if IsPreview(old(networks)[name]) then Done else SafetyRefusal
    {
      var effective;
      effective, r := Attempt();
      if r != Done {
        return;
      }
      if name !in networks {
        return DockerFailure;
      }
      if !IsPreview(networks[name]) {
        return SafetyRefusal;
      }
      effective, r := Attempt();
      if effective {
        networks := networks - {name};
      }
    }

    /** `volume create`: an existing volume is kept as it is, without an error. */
    method CreateVolume(name: string, labels: Labels) returns (r: CallResult)
      modifies this`volumes, this`calls
      ensures volumes == old(volumes) || (name !in old(volumes) && volumes == old(volumes)[name := labels])
      ensures r == Done ==> name in volumes && (name !in old(volumes) ==> volumes[name] == labels)
      ensures Reliable() ==> r == Done
      ensures r != SafetyRefusal
    {
      var effective;
      effective, r := Attempt();
      if effective && name !in volumes {
        volumes := volumes[name := labels];
      }
    }

    method SafeRemoveVolume(name: string, id: string) returns (r: CallResult)
      modifies this`volumes, this`calls
      ensures var m := Removing(faults, old(calls), name in old(volumes),
                                name in old(volumes) && IsVolumeOf(old(volumes)[name], id));
              r == m.result && calls == m.next && volumes == if m.removed then old(volumes) - {name} else old(volumes)
      ensures volumes == old(volumes) ||
              (name in old(volumes) && IsVolumeOf(old(volumes)[name], id) && volumes == old(volumes) - {name})
      ensures r == Done ==> name !in volumes
      ensures Reliable() ==> r == if name !in old(volumes) then DockerFailure
                                  else if IsVolumeOf(old(volumes)[name], id) then Done else SafetyRefusal
    {
      var effective;
      effective, r := Attempt();
      if r != Done {
        return;
      }
      if name !in volumes {
        return DockerFailure;
      }
      if !IsVolumeOf(volumes[name], id) {
        return SafetyRefusal;
      }
      effective, r := Attempt();
      if effective {
        volumes := volumes - {name};
      }
    }

    method ConnectNetwork(network: string, container: string) returns (r: CallResult)
      modifies this`links, this`calls
      ensures links == old(links) || links == old(links) + {(network, container)}
      ensures Reliable() ==> r == Done
      ensures r != SafetyRefusal
    {
      var effective;
      effective, r := Attempt();
      if effective {
        links := links + {(network, container)};
      }
    }

    /** `network disconnect -f`: a `DockerError` is swallowed. */
    method DisconnectNetwork(network: string, container: string) returns (r: CallResult)
      modifies this`links, this`calls
      ensures links == old(links) || links == old(links) - {(network, container)}
      ensures r == (if faults(old(calls)).Crashes? then OtherFailure else Done) && calls == old(calls) + 1
      ensures Reliable() ==> r == Done
    {
      var effective;
      effective, r := Attempt();
      if effective {
        links := links - {(network, container)};
      }
      if r == DockerFailure {
        r := Done;
      }
    }
  }
}
