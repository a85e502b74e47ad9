/**
 * The commands the lifecycle planners issue, as values, and the exact
 * argument vectors they are spawned with. A plan is the ordered list of
 * steps a command takes; nothing here runs anything.
 */
module Docker {
  import opened Wrappers
  import opened Strings

  /** The settings the lifecycle commands read from the environment. */
  datatype Config = Config(
    clerkPublishableKey: string,
    clerkSecretKey: string,
    domain: string,
    serversFilePath: string,
    mountPath: string,
    sitesAvailablePath: string,
    sitesEnabledPath: string,
    postgresPassword: string,
    anthropicApiUrl: string,
    anthropicApiKey: string,
    pgPassword: string)

  /** The environment variables passed to the tenant's containers. */
  datatype EnvName =
    | SandboxDirPathExternal | AdminServerHost | ServerVersion | AdminVersion | DatabaseFolder
    | ClerkPublishableKey | ClerkSecretKey | InstanceId | InstanceName | InstanceLanguage
    | InstanceCalendar | OpenAccess | InstanceRedirectUrl | PgHost | PgPort
    | AnthropicApiUrl | AnthropicApiKey | PgPassword | PostgresPassword | PgData
  {
    function Text(): string {
      match this
      case SandboxDirPathExternal => "SANDBOX_DIR_PATH_EXTERNAL"
      case AdminServerHost => "ADMIN_SERVER_HOST"
      case ServerVersion => "SERVER_VERSION"
      case AdminVersion => "ADMIN_VERSION"
      case DatabaseFolder => "DATABASE_FOLDER"
      case ClerkPublishableKey => "CLERK_PUBLISHABLE_KEY"
      case ClerkSecretKey => "CLERK_SECRET_KEY"
      case InstanceId => "INSTANCE_ID"
      case InstanceName => "INSTANCE_NAME"
      case InstanceLanguage => "INSTANCE_LANGUAGE"
      case InstanceCalendar => "INSTANCE_CALENDAR"
      case OpenAccess => "OPEN_ACCESS"
      case InstanceRedirectUrl => "INSTANCE_REDIRECT_URL"
      case PgHost => "PG_HOST"
      case PgPort => "PG_PORT"
      case AnthropicApiUrl => "ANTHROPIC_API_URL"
      case AnthropicApiKey => "ANTHROPIC_API_KEY"
      case PgPassword => "PG_PASSWORD"
      case PostgresPassword => "POSTGRES_PASSWORD"
      case PgData => "PGDATA"
    }

    /** The place of the variable in the order the containers are given them. */
    function Rank(): nat {
      match this
      case SandboxDirPathExternal => 0
      case AdminServerHost => 1
      case ServerVersion => 2
      case AdminVersion => 3
      case DatabaseFolder => 4
      case ClerkPublishableKey => 5
      case ClerkSecretKey => 6
      case InstanceId => 7
      case InstanceName => 8
      case InstanceLanguage => 9
      case InstanceCalendar => 10
      case OpenAccess => 11
      case InstanceRedirectUrl => 12
      case PgHost => 13
      case PgPort => 14
      case AnthropicApiUrl => 15
      case AnthropicApiKey => 16
      case PgPassword => 17
      case PostgresPassword => 18
      case PgData => 19
    }
  }

  datatype EnvVar = EnvVar(name: EnvName, value: string)

  /** One `-p`, `-v` or `-e` option of `docker run`. */
  datatype RunOption =
    | Publish(hostPort: int, containerPort: int)
    | Volume(source: string, target: string)
    | Env(v: EnvVar)
  {
    function Args(): (a: seq<string>)
      ensures |a| == 2
    {
      match this
      case Publish(h, c) => ["-p", IntToDecimal(h) + ":" + IntToDecimal(c)]
      case Volume(s, t) => ["-v", s + ":" + t]
      case Env(v) => ["-e", v.name.Text() + "=" + v.value]
    }
  }

  /** The `-p`/`-v`/`-e` pairs of the options, each option's own rendering, in option order. */
  function OptionArgs(options: seq<RunOption>): (args: seq<string>)
    ensures |args| == 2 * |options|
    ensures forall i | 0 <= i < |options| :: args[2 * i .. 2 * i + 2] == options[i].Args()
  {
    if |options| == 0 then []
    else
      var head := options[0].Args();
      var rest := OptionArgs(options[1..]);
      assert forall i | 1 <= i < |options| ::
        (head + rest)[2 * i .. 2 * i + 2] == rest[2 * (i - 1) .. 2 * (i - 1) + 2]
        && options[i] == options[1..][i - 1];
      head + rest
  }

  /** One `docker` invocation. */
  datatype DockerCmd =
    | NetworkCreate(network: string)
    | NetworkRm(network: string)
    | Run(remove: bool, interactive: bool, name: string, network: string, options: seq<RunOption>, image: string)
    | ContainerRm(name: string)
    | Stop(name: string, timeout: Option<nat>)
    | Pull(image: string)
  {
    /** The argument vector after `docker`. */
    function Args(): seq<string> {
      match this
      case NetworkCreate(n) => ["network", "create", n]
      case NetworkRm(n) => ["network", "rm", n]
      case Run(rm, it, name, net, options, image) =>
        ["run"] + (if rm then ["--rm"] else []) + [if it then "-it" else "-dt"]
        + ["--name", name, "--network", net] + OptionArgs(options) + [image]
      case ContainerRm(name) => ["container", "rm", name]
      case Stop(name, t) => ["stop"] + (if t.Some? then ["-t", NatToDecimal(t.value)] else []) + [name]
      case Pull(image) => ["pull", image]
    }
  }

  /** The containers and networks a command names. */
  function Touches(cmd: DockerCmd): set<string> {
    match cmd
    case NetworkCreate(n) => {n}
    case NetworkRm(n) => {n}
    case Run(_, _, name, net, _, _) => {name, net}
    case ContainerRm(name) => {name}
    case Stop(name, _) => {name}
    case Pull(_) => {}
  }

  /**
   * Reads back an argument vector of every command but `run`; the
   * independent reference the renderer is checked against.
   */
  function ParseArgs(args: seq<string>): Option<DockerCmd> {
    if |args| == 2 && args[0] == "stop" then Some(Stop(args[1], None))
    else if |args| == 4 && args[0] == "stop" && args[1] == "-t" && |args[2]| > 0 && AllDigits(args[2])
    then Some(Stop(args[3], Some(DecimalValue(args[2]))))
    else if |args| == 2 && args[0] == "pull" then Some(Pull(args[1]))
    else if |args| == 3 && args[0] == "network" && args[1] == "create" then Some(NetworkCreate(args[2]))
    else if |args| == 3 && args[0] == "network" && args[1] == "rm" then Some(NetworkRm(args[2]))
    else if |args| == 3 && args[0] == "container" && args[1] == "rm" then Some(ContainerRm(args[2]))
    else None
  }

  /** Every command but `run` is read back from its arguments: the rendering loses nothing. */
  lemma ParseRendered(cmd: DockerCmd)
    requires !cmd.Run?
    ensures ParseArgs(cmd.Args()) == Some(cmd)
  {
    match cmd {
      case Stop(name, t) =>
        if t.Some? {
          assert cmd.Args() == ["stop", "-t", NatToDecimal(t.value), name];
        } else {
          assert cmd.Args() == ["stop", name];
        }
      case _ =>
    }
  }

  /**
   * `stopContainer`: `stop`, then `-t <seconds>` when a timeout is given,
   * and the container name always last.
   */
  lemma StopArgsShape(name: string, timeout: Option<nat>)
    ensures Stop(name, timeout).Args()[0] == "stop"
    ensures Stop(name, timeout).Args()[|Stop(name, timeout).Args()| - 1] == name
    ensures |Stop(name, timeout).Args()| == (if timeout.Some? then 4 else 2)
    ensures timeout.Some? ==> Stop(name, timeout).Args()[1..3] == ["-t", NatToDecimal(timeout.value)]
  {
  }

  /** `run` arguments: the mode flag, the name and network at fixed places, the image last. */
  lemma RunArgsShape(rm: bool, it: bool, name: string, net: string, options: seq<RunOption>, image: string)
    ensures var a := Run(rm, it, name, net, options, image).Args();
      var k := if rm then 2 else 1;
      && a[0] == "run"
      && (rm ==> a[1] == "--rm")
      && a[k] == (if it then "-it" else "-dt")
      && a[k + 1 .. k + 5] == ["--name", name, "--network", net]
      && a[k + 5 .. |a| - 1] == OptionArgs(options)
      && a[|a| - 1] == image
  {
    var k := if rm then 2 else 1;
    var head := ["run"] + (if rm then ["--rm"] else []) + [if it then "-it" else "-dt"] + ["--name", name, "--network", net];
    var o := OptionArgs(options);
    var a := Run(rm, it, name, net, options, image).Args();
    assert a == head + o + [image];
    assert |head| == k + 5;
    assert head[k] == (if it then "-it" else "-dt");
    assert head[k + 1 .. k + 5] == ["--name", name, "--network", net];
    assert a[..k + 5] == head;
    assert a[k + 5 .. |a| - 1] == o;
  }

  /** What a planner emits to the console that a reader of the plan needs. */
  datatype Warning =
    | NginxPortUnreadable(subdomain: string)
    | NoCertificate(subdomain: string)
    | CertbotUnavailable
    | SiteNotEnabled(subdomain: string)
    | UnknownServer(id: string)

  /** One step of a plan. `Chmod` modes are numbers, `0o777` is 511. */
  datatype Step =
    | Docker(cmd: DockerCmd)
    | Certbot
    | Chmod(path: string, mode: nat)
    | Sleep(ms: nat)
    | Warn(w: Warning)

  /** The steps taken, in order, and the error that ended the plan, if any. */
  datatype Plan<E> = Plan(steps: seq<Step>, failure: Option<E>)

  /** Runs `q` after `p` unless `p` failed. */
  function Then<E>(p: Plan<E>, q: Plan<E>): (r: Plan<E>)
    ensures p.failure.Some? ==> r == p
    ensures p.failure.None? ==> r.steps == p.steps + q.steps && r.failure == q.failure
  {
    if p.failure.Some? then p else Plan(p.steps + q.steps, q.failure)
  }

  /** Sequencing is associative, so a plan reads the same however its parts are grouped. */
  lemma ThenAssociative<E>(p: Plan<E>, q: Plan<E>, r: Plan<E>)
    ensures Then(Then(p, q), r) == Then(p, Then(q, r))
  {
    if p.failure.None? && q.failure.None? {
      assert p.steps + q.steps + r.steps == p.steps + (q.steps + r.steps);
    }
  }

  const PostgresImage := "postgres:17.4"

  function AdminName(id: string): string { id + "-admin" }
  function PostgresName(id: string): string { id + "-postgres" }

  /** `path.join` on two segments; normalisation of `.`, `..` and repeated separators is not modelled. */
  function PathJoin(dir: string, name: string): string { dir + "/" + name }

  /** The containers a step starts (`run`). */
  function Started(steps: seq<Step>): (r: set<string>)
    ensures forall name :: name in r <==> exists i | 0 <= i < |steps| :: steps[i].Docker? && steps[i].cmd.Run? && steps[i].cmd.name == name
  {
    if |steps| == 0 then {}
    else
      assert forall i | 1 <= i < |steps| :: steps[i] == steps[1..][i - 1];
      (if steps[0].Docker? && steps[0].cmd.Run? then {steps[0].cmd.name} else {}) + Started(steps[1..])
  }

  /** The containers a step stops (`stop`). */
  function Stopped(steps: seq<Step>): (r: set<string>)
    ensures forall name :: name in r <==> exists i | 0 <= i < |steps| :: steps[i].Docker? && steps[i].cmd.Stop? && steps[i].cmd.name == name
  {
    if |steps| == 0 then {}
    else
      assert forall i | 1 <= i < |steps| :: steps[i] == steps[1..][i - 1];
      (if steps[0].Docker? && steps[0].cmd.Stop? then {steps[0].cmd.name} else {}) + Stopped(steps[1..])
  }

  /** Images a plan pulls. */
  function Pulled(steps: seq<Step>): (r: set<string>)
    ensures forall image :: image in r <==> exists i | 0 <= i < |steps| :: steps[i] == Docker(Pull(image))
  {
    if |steps| == 0 then {}
    else
      assert forall i | 1 <= i < |steps| :: steps[i] == steps[1..][i - 1];
      (if steps[0].Docker? && steps[0].cmd.Pull? then {steps[0].cmd.image} else {}) + Pulled(steps[1..])
  }

  /** The images of the containers a plan runs. */
  function RunImages(steps: seq<Step>): (r: set<string>)
    ensures forall image :: image in r <==> exists i | 0 <= i < |steps| :: steps[i].Docker? && steps[i].cmd.Run? && steps[i].cmd.image == image
  {
    if |steps| == 0 then {}
    else
      assert forall i | 1 <= i < |steps| :: steps[i] == steps[1..][i - 1];
      (if steps[0].Docker? && steps[0].cmd.Run? then {steps[0].cmd.image} else {}) + RunImages(steps[1..])
  }

  lemma RunImagesSingle(st: Step)
    ensures RunImages([st]) == if st.Docker? && st.cmd.Run? then {st.cmd.image} else {}
  {
    assert [st][1..] == [];
  }

  lemma RunImagesAppend(a: seq<Step>, b: seq<Step>)
    ensures RunImages(a + b) == RunImages(a) + RunImages(b)
  {
    forall image
      ensures image in RunImages(a + b) <==> image in RunImages(a) || image in RunImages(b)
    {
      if image in RunImages(a + b) {
        var i :| 0 <= i < |a + b| && (a + b)[i].Docker? && (a + b)[i].cmd.Run? && (a + b)[i].cmd.image == image;
        if i >= |a| {
          assert b[i - |a|] == (a + b)[i];
        }
      }
      if image in RunImages(b) {
        var i :| 0 <= i < |b| && b[i].Docker? && b[i].cmd.Run? && b[i].cmd.image == image;
        assert (a + b)[|a| + i] == b[i];
      }
      if image in RunImages(a) {
        var i :| 0 <= i < |a| && a[i].Docker? && a[i].cmd.Run? && a[i].cmd.image == image;
        assert (a + b)[i] == a[i];
      }
    }
  }

  lemma PulledAppend(a: seq<Step>, b: seq<Step>)
    ensures Pulled(a + b) == Pulled(a) + Pulled(b)
  {
    forall image
      ensures image in Pulled(a + b) <==> image in Pulled(a) || image in Pulled(b)
    {
      if image in Pulled(a + b) {
        var i :| 0 <= i < |a + b| && (a + b)[i] == Docker(Pull(image));
        if i >= |a| {
          assert b[i - |a|] == (a + b)[i];
        }
      }
      if image in Pulled(b) {
        var i :| 0 <= i < |b| && b[i] == Docker(Pull(image));
        assert (a + b)[|a| + i] == b[i];
      }
      if image in Pulled(a) {
        var i :| 0 <= i < |a| && a[i] == Docker(Pull(image));
        assert (a + b)[i] == a[i];
      }
    }
  }

  lemma StartedSingle(st: Step)
    ensures Started([st]) == if st.Docker? && st.cmd.Run? then {st.cmd.name} else {}
  {
    assert [st][1..] == [];
  }

  lemma StoppedSingle(st: Step)
    ensures Stopped([st]) == if st.Docker? && st.cmd.Stop? then {st.cmd.name} else {}
  {
    assert [st][1..] == [];
  }

  predicate IsStart(st: Step) { st.Docker? && st.cmd.Run? }
  predicate IsStop(st: Step) { st.Docker? && st.cmd.Stop? }

  predicate NoStops(steps: seq<Step>) { forall st | st in steps :: !IsStop(st) }
  predicate NoStarts(steps: seq<Step>) { forall st | st in steps :: !IsStart(st) }

  /** Steps that do not touch docker start and stop nothing. */
  lemma NoDockerNoEffect(steps: seq<Step>)
    requires forall st | st in steps :: !st.Docker?
    ensures Started(steps) == {} && Stopped(steps) == {} && RunImages(steps) == {}
  {
    assert forall i | 0 <= i < |steps| :: !steps[i].Docker? by {
      forall i | 0 <= i < |steps|
        ensures !steps[i].Docker?
      {
        assert steps[i] in steps;
      }
    }
  }

  lemma NoStartsNothingStarted(steps: seq<Step>)
    requires NoStarts(steps)
    ensures Started(steps) == {}
  {
    assert forall i | 0 <= i < |steps| :: !IsStart(steps[i]) by {
      forall i | 0 <= i < |steps|
        ensures !IsStart(steps[i])
      {
        assert steps[i] in steps;
      }
    }
  }

  lemma NoStopsNothingStopped(steps: seq<Step>)
    requires NoStops(steps)
    ensures Stopped(steps) == {}
  {
    assert forall i | 0 <= i < |steps| :: !IsStop(steps[i]) by {
      forall i | 0 <= i < |steps|
        ensures !IsStop(steps[i])
      {
        assert steps[i] in steps;
      }
    }
  }

  /** Every docker step names only containers and networks in `names`. */
  predicate TouchesWithin(steps: seq<Step>, names: set<string>) {
    forall st | st in steps && st.Docker? :: Touches(st.cmd) <= names
  }

  lemma StartedAppend(a: seq<Step>, b: seq<Step>)
    ensures Started(a + b) == Started(a) + Started(b)
  {
    forall name
      ensures name in Started(a + b) <==> name in Started(a) || name in Started(b)
    {
      if name in Started(a + b) {
        var i :| 0 <= i < |a + b| && (a + b)[i].Docker? && (a + b)[i].cmd.Run? && (a + b)[i].cmd.name == name;
        if i >= |a| {
          assert b[i - |a|] == (a + b)[i];
        }
      }
      if name in Started(b) {
        var i :| 0 <= i < |b| && b[i].Docker? && b[i].cmd.Run? && b[i].cmd.name == name;
        assert (a + b)[|a| + i] == b[i];
      }
      if name in Started(a) {
        var i :| 0 <= i < |a| && a[i].Docker? && a[i].cmd.Run? && a[i].cmd.name == name;
        assert (a + b)[i] == a[i];
      }
    }
  }

  lemma StoppedAppend(a: seq<Step>, b: seq<Step>)
    ensures Stopped(a + b) == Stopped(a) + Stopped(b)
  {
    forall name
      ensures name in Stopped(a + b) <==> name in Stopped(a) || name in Stopped(b)
    {
      if name in Stopped(a + b) {
        var i :| 0 <= i < |a + b| && (a + b)[i].Docker? && (a + b)[i].cmd.Stop? && (a + b)[i].cmd.name == name;
        if i >= |a| {
          assert b[i - |a|] == (a + b)[i];
        }
      }
      if name in Stopped(b) {
        var i :| 0 <= i < |b| && b[i].Docker? && b[i].cmd.Stop? && b[i].cmd.name == name;
        assert (a + b)[|a| + i] == b[i];
      }
      if name in Stopped(a) {
        var i :| 0 <= i < |a| && a[i].Docker? && a[i].cmd.Stop? && a[i].cmd.name == name;
        assert (a + b)[i] == a[i];
      }
    }
  }
}
