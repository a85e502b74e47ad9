/**
 * The per-tenant planners: the pre-start checks, starting the admin, database
 * and application containers, and stopping them. Each returns the plan it
 * would carry out against the host facts it is given.
 */
module Containers {
  import opened Wrappers
  import opened Strings
  import opened Types
  import opened PortUtils
  import opened NginxParser
  import opened Images
  import opened Docker

  /** What the planners observe of the host instead of asking it. */
  datatype Host = Host(
    files: map<string, string>,    // readable text files by path
    paths: set<string>,            // paths `lstat` finds
    certbotOutput: Option<string>, // stdout of `certbot certificates` when it succeeds
    chmodRefused: set<string>,     // existing paths `chmod` is refused on
    failingRuns: set<string>)      // container names whose `docker run` exits non-zero

  function ReadFile(host: Host, path: string): Option<string> {
    if path in host.files then Some(host.files[path]) else None
  }

  /** The errors that abort starting one tenant. */
  datatype RunError =
    | MissingServerVersion(id: string)
    | NginxPortMismatch(id: string, configured: nat, port: int)
    | DirectoriesNotReady
    | ChmodFailed(path: string)
    | AdminStartFailed(id: string)
  {
    /** The error's message; the text of a refused `chmod` and of docker's stderr are not modelled. */
    function Message(): string {
      match this
      case MissingServerVersion(id) => "Server '" + id + "' must have a serverVersion specified"
      case NginxPortMismatch(id, _, _) => "Nginx configuration port mismatch for " + id
      case DirectoriesNotReady => "Directories not ready for this server"
      case ChmodFailed(path) => path
      case AdminStartFailed(_) => "Failed to start admin container: "
    }
  }

  function Subdomain(s: Server, config: Config): string { s.id + "." + config.domain }

  /** The port the tenant's site file in sites-available proxies to, if one can be read. */
  function ConfiguredPort(s: Server, config: Config, host: Host): Option<nat> {
    ExtractPort(ReadFile(host, config.sitesAvailablePath + "/" + Subdomain(s, config)))
  }

  /** The warning about an unreadable site file. */
  function PortNote(nginx: Option<nat>, sub: string): seq<Step> {
    if nginx.None? then [Warn(NginxPortUnreadable(sub))] else []
  }

  /** The warning from the certificate check. */
  function CertNote(certbotOutput: Option<string>, sub: string): seq<Step> {
    if certbotOutput.None? then [Warn(CertbotUnavailable)]
    else if Contains(certbotOutput.value, "Certificate Name: " + sub) then []
    else [Warn(NoCertificate(sub))]
  }

  /** The warning about a site that is not enabled. */
  function SiteNote(enabled: bool, sub: string): seq<Step> {
    if enabled then [] else [Warn(SiteNotEnabled(sub))]
  }

  /** The checks given the port read from the site file, if any. */
  function Checks(s: Server, config: Config, host: Host, nginx: Option<nat>): (p: Plan<RunError>)
    ensures p.failure.Some? <==> nginx.Some? && nginx.value != s.port
    ensures p.failure.Some? ==> p.failure.value == NginxPortMismatch(s.id, nginx.value, s.port) && p.steps == []
    ensures p.failure.None? ==> Certbot in p.steps && forall st | st in p.steps :: st == Certbot || st.Warn?
  {
    var sub := Subdomain(s, config);
    if nginx.Some? && nginx.value != s.port then
      Plan([], Some(NginxPortMismatch(s.id, nginx.value, s.port)))
    else
      Plan(PortNote(nginx, sub) + [Certbot] + CertNote(host.certbotOutput, sub)
        + SiteNote(PathJoin(config.sitesEnabledPath, sub) in host.paths, sub), None)
  }

  /**
   * `validateServerSetup`: only a site file that names a different port
   * stops the start; an unreadable site file, a missing certificate, a
   * missing certbot and a site that is not enabled are warnings.
   */
  function ValidateServerSetup(s: Server, config: Config, host: Host): (p: Plan<RunError>)
    ensures var n := ConfiguredPort(s, config, host);
      p.failure.Some? <==> n.Some? && n.value != s.port
    ensures p.failure.Some? ==> p.failure.value == NginxPortMismatch(s.id, ConfiguredPort(s, config, host).value, s.port) && p.steps == []
    ensures p.failure.None? ==> Certbot in p.steps && forall st | st in p.steps :: st == Certbot || st.Warn?
  {
    Checks(s, config, host, ConfiguredPort(s, config, host))
  }

  /** Each warning of the checks is given exactly when its condition holds. */
  lemma ChecksWarnings(s: Server, config: Config, host: Host, nginx: Option<nat>)
    requires Checks(s, config, host, nginx).failure.None?
    ensures var steps := Checks(s, config, host, nginx).steps;
      var sub := Subdomain(s, config);
      && (Warn(NginxPortUnreadable(sub)) in steps <==> nginx.None?)
      && (Warn(CertbotUnavailable) in steps <==> host.certbotOutput.None?)
      && (Warn(NoCertificate(sub)) in steps <==>
          host.certbotOutput.Some? && !Contains(host.certbotOutput.value, "Certificate Name: " + sub))
      && (Warn(SiteNotEnabled(sub)) in steps <==> PathJoin(config.sitesEnabledPath, sub) !in host.paths)
  {
    var sub := Subdomain(s, config);
    var a := PortNote(nginx, sub);
    var b := CertNote(host.certbotOutput, sub);
    var c := SiteNote(PathJoin(config.sitesEnabledPath, sub) in host.paths, sub);
    assert Checks(s, config, host, nginx).steps == a + [Certbot] + b + c;
    assert forall st | st in a :: st.Warn? && st.w.NginxPortUnreadable?;
    assert forall st | st in b :: st.Warn? && (st.w.CertbotUnavailable? || st.w.NoCertificate?);
    assert forall st | st in c :: st.Warn? && st.w.SiteNotEnabled?;
  }

  /** A site file written by the nginx command for the tenant's own port passes the port check without a warning about it. */
  lemma GeneratedSiteFileAccepted(s: Server, config: Config, host: Host)
    requires s.port >= 0
    requires '_' !in Subdomain(s, config)
    requires ReadFile(host, config.sitesAvailablePath + "/" + Subdomain(s, config)) == Some(SiteFile(Subdomain(s, config), s.port))
    ensures ValidateServerSetup(s, config, host).failure.None?
    ensures Warn(NginxPortUnreadable(Subdomain(s, config))) !in ValidateServerSetup(s, config, host).steps
  {
    SiteFileRoundTrip(Subdomain(s, config), s.port);
    assert ConfiguredPort(s, config, host) == Some(s.port);
    ChecksWarnings(s, config, host, Some(s.port));
  }

  /** `runAdminContainer`: replace the tenant's admin container; a failed start is fatal. */
  function RunAdminContainer(s: Server, host: Host): (p: Plan<RunError>)
    ensures !HasAdmin(s) ==> p == Plan([], None)
    ensures HasAdmin(s) ==> |p.steps| == 2 && p.steps[0] == Docker(ContainerRm(AdminName(s.id)))
    ensures HasAdmin(s) ==> (p.steps[1].Docker? && p.steps[1].cmd.Run? && p.steps[1].cmd.name == AdminName(s.id)
      && p.steps[1].cmd.network == s.id && p.steps[1].cmd.image == AdminImage(s.adminVersion.value))
    ensures p.failure.Some? <==> HasAdmin(s) && AdminName(s.id) in host.failingRuns
    ensures p.failure.Some? ==> p.failure.value == AdminStartFailed(s.id)
  {
    if !HasAdmin(s) then Plan([], None)
    else
      var name := AdminName(s.id);
      var v := s.adminVersion.value;
      var run := Run(true, false, name, s.id, [Env(EnvVar(AdminVersion, v))], AdminImage(v));
      Plan([Docker(ContainerRm(name)), Docker(run)],
        if name in host.failingRuns then Some(AdminStartFailed(s.id)) else None)
  }

  /** The database container: published on the tenant's port plus 10000, data under the instance directory. */
  function PostgresRun(config: Config, s: Server, dir: string): DockerCmd {
    Run(true, false, PostgresName(s.id), s.id,
      [ Publish(GetPostgresPort(s.port), 5432),
        Env(EnvVar(PostgresPassword, config.postgresPassword)),
        Env(EnvVar(PgData, "/var/lib/postgresql/data/pgdata")),
        Volume(PathJoin(dir, "databases"), "/var/lib/postgresql/data"),
        Volume(PathJoin(dir, "sandbox"), "/app/sandbox") ],
      PostgresImage)
  }

  function Opt(present: bool, v: EnvVar): seq<EnvVar> {
    if present then [v] else []
  }

  /** Strictly rising ranks: names in the declared order, none repeated. */
  predicate Ascending(env: seq<EnvVar>) {
    forall i, j | 0 <= i < j < |env| :: env[i].name.Rank() < env[j].name.Rank()
  }

  /** The sandbox, admin and version variables. */
  function VersionEnv(s: Server, dir: string): seq<EnvVar>
  {
    var admin := HasAdmin(s);
    var adminVersion := if admin then s.adminVersion.value else "";
    [EnvVar(SandboxDirPathExternal, PathJoin(dir, "sandbox"))]
    + Opt(admin, EnvVar(AdminServerHost, "http://" + AdminName(s.id) + ":8001"))
    + [EnvVar(ServerVersion, if s.serverVersion != "" then s.serverVersion else "latest")]
    + Opt(admin, EnvVar(AdminVersion, adminVersion))
  }

  /** The database folder, the sign-in keys and the instance's id and label. */
  function InstanceEnv(config: Config, s: Server): seq<EnvVar>
  {
    [ EnvVar(DatabaseFolder, DirName(s)),
      EnvVar(ClerkPublishableKey, config.clerkPublishableKey),
      EnvVar(ClerkSecretKey, config.clerkSecretKey),
      EnvVar(InstanceId, "'" + s.id + "'"),
      EnvVar(InstanceName, "'" + s.labelText + "'") ]
  }

  /** The language, calendar and open-access flags, each only when on. */
  function FlagEnv(s: Server): seq<EnvVar>
  {
    Opt(FlagOn(s.french), EnvVar(InstanceLanguage, "fr"))
    + Opt(FlagOn(s.ethiopian), EnvVar(InstanceCalendar, "ethiopian"))
    + Opt(FlagOn(s.openAccess), EnvVar(OpenAccess, "1"))
  }

  /** The public address and the database and assistant services. */
  function ServiceEnv(config: Config, s: Server): seq<EnvVar>
  {
    [ EnvVar(InstanceRedirectUrl, "https://" + Subdomain(s, config)),
      EnvVar(PgHost, PostgresName(s.id)),
      EnvVar(PgPort, "5432"),
      EnvVar(AnthropicApiUrl, config.anthropicApiUrl),
      EnvVar(AnthropicApiKey, config.anthropicApiKey),
      EnvVar(PgPassword, config.pgPassword) ]
  }

  /** Each stretch is in rank order and the stretches' rank ranges follow one another. */
  lemma VersionEnvOrdered(s: Server, dir: string)
    ensures Ascending(VersionEnv(s, dir)) && forall e | e in VersionEnv(s, dir) :: e.name.Rank() <= 3
  {
    var env := VersionEnv(s, dir);
    assert forall i | 0 <= i < |env| :: env[i].name.Rank() <= 3;
    if HasAdmin(s) {
      assert forall i | 0 <= i < |env| :: env[i].name.Rank() == i;
    } else {
      assert forall i | 0 <= i < |env| :: env[i].name.Rank() == 2 * i;
    }
  }

  lemma InstanceEnvOrdered(config: Config, s: Server)
    ensures Ascending(InstanceEnv(config, s)) && forall e | e in InstanceEnv(config, s) :: 4 <= e.name.Rank() <= 8
  {
    var env := InstanceEnv(config, s);
    assert |env| == 5;
    assert forall i | 0 <= i < 5 :: env[i].name.Rank() == 4 + i;
  }

  lemma FlagEnvOrdered(s: Server)
    ensures Ascending(FlagEnv(s)) && forall e | e in FlagEnv(s) :: 9 <= e.name.Rank() <= 11
  {
    ThreeOptsAscending(FlagOn(s.french), EnvVar(InstanceLanguage, "fr"),
      FlagOn(s.ethiopian), EnvVar(InstanceCalendar, "ethiopian"),
      FlagOn(s.openAccess), EnvVar(OpenAccess, "1"));
  }

  /** Three optional variables of rising rank make an ascending stretch holding only them. */
  lemma ThreeOptsAscending(x: bool, u: EnvVar, y: bool, v: EnvVar, z: bool, w: EnvVar)
    requires u.name.Rank() < v.name.Rank() < w.name.Rank()
    ensures Ascending(Opt(x, u) + Opt(y, v) + Opt(z, w))
    ensures forall e | e in Opt(x, u) + Opt(y, v) + Opt(z, w) :: e == u || e == v || e == w
  {
    AscendingJoin(Opt(x, u), Opt(y, v), u.name.Rank());
    AscendingJoin(Opt(x, u) + Opt(y, v), Opt(z, w), v.name.Rank());
  }

  lemma ServiceEnvOrdered(config: Config, s: Server)
    ensures Ascending(ServiceEnv(config, s)) && forall e | e in ServiceEnv(config, s) :: 12 <= e.name.Rank()
  {
    var env := ServiceEnv(config, s);
    assert |env| == 6;
    assert forall i | 0 <= i < 6 :: env[i].name.Rank() == 12 + i;
  }

  lemma StretchesOrdered(config: Config, s: Server, dir: string)
    ensures Ascending(VersionEnv(s, dir)) && forall e | e in VersionEnv(s, dir) :: e.name.Rank() <= 3
    ensures Ascending(InstanceEnv(config, s)) && forall e | e in InstanceEnv(config, s) :: 4 <= e.name.Rank() <= 8
    ensures Ascending(FlagEnv(s)) && forall e | e in FlagEnv(s) :: 9 <= e.name.Rank() <= 11
    ensures Ascending(ServiceEnv(config, s)) && forall e | e in ServiceEnv(config, s) :: 12 <= e.name.Rank()
  {
    VersionEnvOrdered(s, dir);
    InstanceEnvOrdered(config, s);
    FlagEnvOrdered(s);
    ServiceEnvOrdered(config, s);
  }

  /** The application container's environment, in the order it is passed. */
  function AppEnv(config: Config, s: Server, dir: string): seq<EnvVar> {
    VersionEnv(s, dir) + InstanceEnv(config, s) + FlagEnv(s) + ServiceEnv(config, s)
  }

  /** The value an environment passes for `name`, the first if it were passed twice. */
  function Lookup(env: seq<EnvVar>, name: EnvName): (r: Option<string>)
    ensures r.None? <==> forall e | e in env :: e.name != name
    ensures r.Some? ==> EnvVar(name, r.value) in env
  {
    if |env| == 0 then None
    else if env[0].name == name then Some(env[0].value)
    else Lookup(env[1..], name)
  }

  /** No variable is passed twice. */
  predicate DistinctNames(env: seq<EnvVar>) {
    forall i, j | 0 <= i < j < |env| :: env[i].name != env[j].name
  }

  /** The application container: interactive or detached, published on the tenant's port. */
  function AppRun(config: Config, s: Server, dir: string, interactive: bool): DockerCmd {
    Run(false, interactive, s.id, s.id,
      [ Publish(s.port, 8000),
        Volume("/var/run/docker.sock", "/var/run/docker.sock"),
        Volume(PathJoin(dir, "databases"), "/app/databases"),
        Volume(PathJoin(dir, "sandbox"), "/app/sandbox"),
        Volume(PathJoin(dir, "assets"), "/app/assets") ]
      + EnvOptions(AppEnv(config, s, dir)),
      ServerImage(s.serverVersion))
  }

  function EnvOptions(env: seq<EnvVar>): (options: seq<RunOption>)
    ensures |options| == |env|
    ensures forall i | 0 <= i < |env| :: options[i] == Env(env[i])
  {
    seq(|env|, i requires 0 <= i < |env| => Env(env[i]))
  }

  /** The instance directory and every required subdirectory exist. */
  predicate DirectoriesReady(host: Host, dir: string, subdirectories: seq<string>) {
    dir in host.paths && forall k | 0 <= k < |subdirectories| :: PathJoin(dir, subdirectories[k]) in host.paths
  }

  /** The tenant's instance directory on the host. */
  function InstanceDir(config: Config, s: Server): string {
    PathJoin(config.mountPath, DirName(s))
  }

  /** Everything after the checks: permissions, network, database, admin, application. */
  function Launch(config: Config, subdirectories: seq<string>, host: Host, s: Server, interactive: bool): Plan<RunError> {
    var dir := InstanceDir(config, s);
    var sandbox := PathJoin(dir, "sandbox");
    if !DirectoriesReady(host, dir, subdirectories) then Plan([], Some(DirectoriesNotReady))
    else if sandbox !in host.paths || sandbox in host.chmodRefused then Plan([Chmod(sandbox, 511)], Some(ChmodFailed(sandbox)))
    else
      Then(Plan([Chmod(sandbox, 511), Docker(NetworkCreate(s.id)), Docker(PostgresRun(config, s, dir))], None),
        Then(RunAdminContainer(s, host),
          Plan([Docker(ContainerRm(s.id)), Docker(AppRun(config, s, dir, interactive))], None)))
  }

  /**
   * `runContainer`. The steps that only warn (the network that already
   * exists, the exit status of the database and application runs) do not
   * affect the plan.
   */
  function RunContainer(config: Config, subdirectories: seq<string>, host: Host, s: Server, interactive: bool): Plan<RunError> {
    if s.serverVersion == "" then Plan([], Some(MissingServerVersion(s.id)))
    else Then(ValidateServerSetup(s, config, host), Launch(config, subdirectories, host, s, interactive))
  }

  /** The names a tenant's containers run under. */
  function TenantContainers(s: Server): set<string> {
    {s.id, PostgresName(s.id)} + (if HasAdmin(s) then {AdminName(s.id)} else {})
  }

  /** `stopContainer`. */
  function StopContainer(name: string, timeout: Option<nat>): Step {
    Docker(Stop(name, timeout))
  }

  /** `stopAdminContainer`: stop, then remove, the admin container; neither can fail the caller. */
  function StopAdminContainer(id: string): seq<Step> {
    [StopContainer(AdminName(id), None), Docker(ContainerRm(AdminName(id)))]
  }

  /** The per-tenant stop sequence the stop and restart commands share. */
  function StopTenant(s: Server): seq<Step> {
    [StopContainer(s.id, None)]
    + (if HasAdmin(s) then StopAdminContainer(s.id) else [])
    + [StopContainer(PostgresName(s.id), Some(30))]
  }

  /** No variable is passed twice, and the value of each is the first one passed. */
  lemma {:induction false} LookupDistinct(env: seq<EnvVar>, name: EnvName, value: string)
    requires DistinctNames(env)
    requires EnvVar(name, value) in env
    ensures Lookup(env, name) == Some(value)
  {
    if env[0] != EnvVar(name, value) {
      assert env[0].name != name by {
        var k :| 0 <= k < |env| && env[k] == EnvVar(name, value);
      }
      assert env == [env[0]] + env[1..];
      assert DistinctNames(env[1..]) by {
        forall i, j | 0 <= i < j < |env[1..]|
          ensures env[1..][i].name != env[1..][j].name
        {
          assert env[1..][i] == env[i + 1] && env[1..][j] == env[j + 1];
        }
      }
      LookupDistinct(env[1..], name, value);
    }
  }

  /** Two ascending stretches, the first ranked at most `k` and the second above it, make one ascending stretch. */
  lemma AscendingJoin(a: seq<EnvVar>, b: seq<EnvVar>, k: int)
    requires Ascending(a) && Ascending(b)
    requires forall e | e in a :: e.name.Rank() <= k
    requires forall e | e in b :: k < e.name.Rank()
    ensures Ascending(a + b)
  {
    forall i, j | 0 <= i < j < |a + b|
      ensures (a + b)[i].name.Rank() < (a + b)[j].name.Rank()
    {
      if j < |a| {
        assert (a + b)[i] == a[i] && (a + b)[j] == a[j];
      } else if i >= |a| {
        assert (a + b)[i] == b[i - |a|] && (a + b)[j] == b[j - |a|];
      } else {
        assert (a + b)[i] == a[i] && a[i] in a;
        assert (a + b)[j] == b[j - |a|] && b[j - |a|] in b;
      }
    }
  }

  /** The application container gets each variable once. */
  lemma AppEnvDistinct(config: Config, s: Server, dir: string)
    ensures DistinctNames(AppEnv(config, s, dir))
  {
    var p1, p2, p3, p4 := VersionEnv(s, dir), InstanceEnv(config, s), FlagEnv(s), ServiceEnv(config, s);
    StretchesOrdered(config, s, dir);
    AscendingJoin(p1, p2, 3);
    assert forall e: EnvVar | e in p1 + p2 :: e.name.Rank() <= 8;
    AscendingJoin(p1 + p2, p3, 8);
    assert forall e: EnvVar | e in p1 + p2 + p3 :: e.name.Rank() <= 11;
    AscendingJoin(p1 + p2 + p3, p4, 11);
    AscendingDistinct(p1 + p2 + p3 + p4);
  }

  lemma AscendingDistinct(env: seq<EnvVar>)
    requires Ascending(env)
    ensures DistinctNames(env)
  {
  }

  /** A variable is in the environment exactly when it is in the stretch its rank belongs to. */
  lemma AppEnvSplit(config: Config, s: Server, dir: string, e: EnvVar)
    ensures e.name.Rank() <= 3 ==> (e in AppEnv(config, s, dir) <==> e in VersionEnv(s, dir))
    ensures 9 <= e.name.Rank() <= 11 ==> (e in AppEnv(config, s, dir) <==> e in FlagEnv(s))
  {
    var p1, p2, p3, p4 := VersionEnv(s, dir), InstanceEnv(config, s), FlagEnv(s), ServiceEnv(config, s);
    StretchesOrdered(config, s, dir);
    assert AppEnv(config, s, dir) == p1 + p2 + p3 + p4;
  }

  /** Which values a name is passed with in an environment. */
  predicate Passes(env: seq<EnvVar>, name: EnvName, value: string) {
    EnvVar(name, value) in env
  }

  lemma VersionEnvAdmin(s: Server, dir: string, value: string)
    ensures Passes(VersionEnv(s, dir), AdminServerHost, value) <==> HasAdmin(s) && value == "http://" + AdminName(s.id) + ":8001"
    ensures Passes(VersionEnv(s, dir), AdminVersion, value) <==> HasAdmin(s) && value == s.adminVersion.value
  {
  }

  lemma FlagEnvFlags(s: Server, value: string)
    ensures Passes(FlagEnv(s), InstanceLanguage, value) <==> FlagOn(s.french) && value == "fr"
    ensures Passes(FlagEnv(s), InstanceCalendar, value) <==> FlagOn(s.ethiopian) && value == "ethiopian"
    ensures Passes(FlagEnv(s), OpenAccess, value) <==> FlagOn(s.openAccess) && value == "1"
  {
  }

  /** The admin variables are passed exactly when an admin version is set, with the tenant's values. */
  lemma AppEnvAdmin(config: Config, s: Server, dir: string, value: string)
    ensures Passes(AppEnv(config, s, dir), AdminServerHost, value) <==> HasAdmin(s) && value == "http://" + AdminName(s.id) + ":8001"
    ensures Passes(AppEnv(config, s, dir), AdminVersion, value) <==> HasAdmin(s) && value == s.adminVersion.value
  {
    VersionEnvAdmin(s, dir, value);
    assert AdminServerHost.Rank() == 1 && AdminVersion.Rank() == 3;
    AppEnvSplit(config, s, dir, EnvVar(AdminServerHost, value));
    AppEnvSplit(config, s, dir, EnvVar(AdminVersion, value));
  }

  /** The language, calendar and open-access variables are passed exactly when their flags are on. */
  lemma AppEnvFlags(config: Config, s: Server, dir: string, value: string)
    ensures Passes(AppEnv(config, s, dir), InstanceLanguage, value) <==> FlagOn(s.french) && value == "fr"
    ensures Passes(AppEnv(config, s, dir), InstanceCalendar, value) <==> FlagOn(s.ethiopian) && value == "ethiopian"
    ensures Passes(AppEnv(config, s, dir), OpenAccess, value) <==> FlagOn(s.openAccess) && value == "1"
  {
    FlagEnvFlags(s, value);
    assert InstanceLanguage.Rank() == 9 && InstanceCalendar.Rank() == 10 && OpenAccess.Rank() == 11;
    AppEnvSplit(config, s, dir, EnvVar(InstanceLanguage, value));
    AppEnvSplit(config, s, dir, EnvVar(InstanceCalendar, value));
    AppEnvSplit(config, s, dir, EnvVar(OpenAccess, value));
  }

  /**
   * The version falls back to `latest`, the database folder is the
   * instance directory's name, and the public address and database host
   * are the tenant's own.
   */
  lemma AppEnvCore(config: Config, s: Server, dir: string)
    ensures Lookup(AppEnv(config, s, dir), ServerVersion) == Some(if s.serverVersion != "" then s.serverVersion else "latest")
    ensures Lookup(AppEnv(config, s, dir), DatabaseFolder) == Some(DirName(s))
    ensures Lookup(AppEnv(config, s, dir), InstanceRedirectUrl) == Some("https://" + Subdomain(s, config))
    ensures Lookup(AppEnv(config, s, dir), PgHost) == Some(PostgresName(s.id))
  {
    var env := AppEnv(config, s, dir);
    AppEnvDistinct(config, s, dir);
    assert EnvVar(ServerVersion, if s.serverVersion != "" then s.serverVersion else "latest") in VersionEnv(s, dir);
    LookupDistinct(env, ServerVersion, if s.serverVersion != "" then s.serverVersion else "latest");
    assert EnvVar(DatabaseFolder, DirName(s)) in InstanceEnv(config, s);
    LookupDistinct(env, DatabaseFolder, DirName(s));
    assert EnvVar(InstanceRedirectUrl, "https://" + Subdomain(s, config)) in ServiceEnv(config, s);
    LookupDistinct(env, InstanceRedirectUrl, "https://" + Subdomain(s, config));
    assert EnvVar(PgHost, PostgresName(s.id)) in ServiceEnv(config, s);
    LookupDistinct(env, PgHost, PostgresName(s.id));
  }

  /** The site file, if readable, proxies to the tenant's port. */
  predicate PortAgrees(s: Server, config: Config, host: Host) {
    var n := ConfiguredPort(s, config, host);
    n.None? || n.value == s.port
  }

  predicate ChmodAllowed(host: Host, path: string) {
    path in host.paths && path !in host.chmodRefused
  }

  predicate AdminStarts(s: Server, host: Host) {
    !HasAdmin(s) || AdminName(s.id) !in host.failingRuns
  }

  /**
   * Which check stops a start: the checks run in order, the first that
   * fails decides the error, and the start succeeds when none fails.
   */
  lemma RunContainerOutcome(config: Config, subdirectories: seq<string>, host: Host, s: Server, interactive: bool)
    ensures var p := RunContainer(config, subdirectories, host, s, interactive);
      var dir := InstanceDir(config, s);
      var sandbox := PathJoin(dir, "sandbox");
      var versioned := s.serverVersion != "";
      var agrees := PortAgrees(s, config, host);
      var ready := DirectoriesReady(host, dir, subdirectories);
      var chmod := ChmodAllowed(host, sandbox);
      && (p.failure == Some(MissingServerVersion(s.id)) <==> !versioned)
      && ((p.failure.Some? && p.failure.value.NginxPortMismatch?) <==> versioned && !agrees)
      && (p.failure == Some(DirectoriesNotReady) <==> versioned && agrees && !ready)
      && (p.failure == Some(ChmodFailed(sandbox)) <==> versioned && agrees && ready && !chmod)
      && (p.failure == Some(AdminStartFailed(s.id)) <==> versioned && agrees && ready && chmod && !AdminStarts(s, host))
      && (p.failure.None? <==> versioned && agrees && ready && chmod && AdminStarts(s, host))
  {
    if s.serverVersion != "" {
      var v := ValidateServerSetup(s, config, host);
      if v.failure.None? {
        assert RunContainer(config, subdirectories, host, s, interactive).failure
          == Launch(config, subdirectories, host, s, interactive).failure;
      }
    }
  }

  /** No plan has docker steps before the checks pass; only a failing admin start leaves docker steps behind. */
  lemma RunContainerChecksFirst(config: Config, subdirectories: seq<string>, host: Host, s: Server, interactive: bool)
    ensures var p := RunContainer(config, subdirectories, host, s, interactive);
      p.failure.Some? && !p.failure.value.AdminStartFailed? ==> forall st | st in p.steps :: !st.Docker?
  {
    if s.serverVersion != "" {
      var v := ValidateServerSetup(s, config, host);
      var l := Launch(config, subdirectories, host, s, interactive);
      if v.failure.None? && l.failure.Some? && !l.failure.value.AdminStartFailed? {
        assert forall st | st in l.steps :: !st.Docker?;
        assert RunContainer(config, subdirectories, host, s, interactive).steps == v.steps + l.steps;
      }
    }
  }

  /** The steps of a successful launch after the checks. */
  lemma LaunchSteps(config: Config, subdirectories: seq<string>, host: Host, s: Server, interactive: bool)
    requires Launch(config, subdirectories, host, s, interactive).failure.None?
    ensures var dir := InstanceDir(config, s);
      Launch(config, subdirectories, host, s, interactive).steps
      == [Chmod(PathJoin(dir, "sandbox"), 511), Docker(NetworkCreate(s.id)), Docker(PostgresRun(config, s, dir))]
        + RunAdminContainer(s, host).steps
        + [Docker(ContainerRm(s.id)), Docker(AppRun(config, s, dir, interactive))]
  {
  }

  /** The containers started by the step sequence a launch has. */
  lemma StartedShape(chmod: Step, net: DockerCmd, pg: DockerCmd, adm: seq<Step>, rm: DockerCmd, app: DockerCmd)
    requires !chmod.Docker? && !net.Run? && pg.Run? && !rm.Run? && app.Run?
    ensures Started([chmod, Docker(net), Docker(pg)] + adm + [Docker(rm), Docker(app)]) == {pg.name} + Started(adm) + {app.name}
  {
    StartedSandwich([chmod, Docker(net), Docker(pg)], adm, [Docker(rm), Docker(app)]);
    StartedPrefix(chmod, net, pg);
    StartedSuffix(rm, app);
  }

  /** A sequence in three parts runs what its parts run. */
  lemma StartedSandwich(pre: seq<Step>, mid: seq<Step>, post: seq<Step>)
    ensures Started(pre + mid + post) == Started(pre) + Started(mid) + Started(post)
  {
    StartedAppend(pre + mid, post);
    StartedAppend(pre, mid);
  }

  /** The launch's opening steps run only the database container. */
  lemma StartedPrefix(chmod: Step, net: DockerCmd, pg: DockerCmd)
    requires !chmod.Docker? && !net.Run? && pg.Run?
    ensures Started([chmod, Docker(net), Docker(pg)]) == {pg.name}
  {
    StartedAppend([chmod, Docker(net)], [Docker(pg)]);
    assert [chmod, Docker(net), Docker(pg)] == [chmod, Docker(net)] + [Docker(pg)];
    StartedAppend([chmod], [Docker(net)]);
    assert [chmod, Docker(net)] == [chmod] + [Docker(net)];
    StartedSingle(chmod);
    StartedSingle(Docker(net));
    StartedSingle(Docker(pg));
  }

  /** The launch's closing steps run only the application container. */
  lemma StartedSuffix(rm: DockerCmd, app: DockerCmd)
    requires !rm.Run? && app.Run?
    ensures Started([Docker(rm), Docker(app)]) == {app.name}
  {
    StartedAppend([Docker(rm)], [Docker(app)]);
    assert [Docker(rm), Docker(app)] == [Docker(rm)] + [Docker(app)];
    StartedSingle(Docker(rm));
    StartedSingle(Docker(app));
  }

  /** A successful launch starts the database, the admin container when there is one, and the application. */
  lemma LaunchStarts(config: Config, subdirectories: seq<string>, host: Host, s: Server, interactive: bool)
    requires Launch(config, subdirectories, host, s, interactive).failure.None?
    ensures Started(Launch(config, subdirectories, host, s, interactive).steps) == TenantContainers(s)
  {
    var dir := InstanceDir(config, s);
    LaunchSteps(config, subdirectories, host, s, interactive);
    PostgresRunShape(config, s, dir);
    AppRunShape(config, s, dir, interactive);
    AdminStarted(s, host);
    StartedShape(Chmod(PathJoin(dir, "sandbox"), 511), NetworkCreate(s.id), PostgresRun(config, s, dir),
      RunAdminContainer(s, host).steps, ContainerRm(s.id), AppRun(config, s, dir, interactive));
  }

  /** The admin start runs the admin container when there is an admin version, and nothing otherwise. */
  lemma AdminStarted(s: Server, host: Host)
    ensures Started(RunAdminContainer(s, host).steps) == (if HasAdmin(s) then {AdminName(s.id)} else {})
    ensures RunImages(RunAdminContainer(s, host).steps) == (if HasAdmin(s) then {AdminImage(s.adminVersion.value)} else {})
  {
    var steps := RunAdminContainer(s, host).steps;
    if HasAdmin(s) {
      assert steps == [steps[0]] + [steps[1]];
      StartedAppend([steps[0]], [steps[1]]);
      StartedSingle(steps[0]);
      StartedSingle(steps[1]);
      RunImagesAppend([steps[0]], [steps[1]]);
      RunImagesSingle(steps[0]);
      RunImagesSingle(steps[1]);
    }
  }

  /** Once the version and the checks pass, a start is the launch after the checks' steps. */
  lemma RunContainerSplit(config: Config, subdirectories: seq<string>, host: Host, s: Server, interactive: bool)
    requires RunContainer(config, subdirectories, host, s, interactive).failure.None?
    ensures s.serverVersion != "" && ValidateServerSetup(s, config, host).failure.None?
    ensures RunContainer(config, subdirectories, host, s, interactive).steps
      == ValidateServerSetup(s, config, host).steps + Launch(config, subdirectories, host, s, interactive).steps
    ensures Launch(config, subdirectories, host, s, interactive).failure.None?
  {
  }

  /** A successful start runs exactly the tenant's containers. */
  lemma RunContainerStartsTenant(config: Config, subdirectories: seq<string>, host: Host, s: Server, interactive: bool)
    requires RunContainer(config, subdirectories, host, s, interactive).failure.None?
    ensures Started(RunContainer(config, subdirectories, host, s, interactive).steps) == TenantContainers(s)
  {
    RunContainerSplit(config, subdirectories, host, s, interactive);
    var v := ValidateServerSetup(s, config, host).steps;
    var l := Launch(config, subdirectories, host, s, interactive).steps;
    LaunchStarts(config, subdirectories, host, s, interactive);
    ChecksFirstNoEffect(v, l);
  }

  /** The application container is started last, after the database and the admin container. */
  lemma RunContainerEndsWithApp(config: Config, subdirectories: seq<string>, host: Host, s: Server, interactive: bool)
    requires RunContainer(config, subdirectories, host, s, interactive).failure.None?
    ensures var p := RunContainer(config, subdirectories, host, s, interactive);
      p.steps[|p.steps| - 1] == Docker(AppRun(config, s, InstanceDir(config, s), interactive))
  {
    var v := ValidateServerSetup(s, config, host);
    var l := Launch(config, subdirectories, host, s, interactive);
    assert RunContainer(config, subdirectories, host, s, interactive).steps == v.steps + l.steps;
    LaunchSteps(config, subdirectories, host, s, interactive);
  }

  lemma TouchesAppend(a: seq<Step>, b: seq<Step>, names: set<string>)
    requires TouchesWithin(a, names) && TouchesWithin(b, names)
    ensures TouchesWithin(a + b, names)
  {
  }

  /** A launch that fails before the admin start has taken no docker step. */
  lemma LaunchEarlyFailure(config: Config, subdirectories: seq<string>, host: Host, s: Server, interactive: bool)
    requires Launch(config, subdirectories, host, s, interactive).failure.Some?
    requires Launch(config, subdirectories, host, s, interactive).failure != Some(AdminStartFailed(s.id))
    ensures forall st | st in Launch(config, subdirectories, host, s, interactive).steps :: !st.Docker?
  {
  }

  /** The database container's name, network and image. */
  lemma PostgresRunShape(config: Config, s: Server, dir: string)
    ensures var c := PostgresRun(config, s, dir);
      c.Run? && c.name == PostgresName(s.id) && c.network == s.id && c.image == PostgresImage
  {
  }

  /** The application container's name, network and image. */
  lemma AppRunShape(config: Config, s: Server, dir: string, interactive: bool)
    ensures var c := AppRun(config, s, dir, interactive);
      c.Run? && c.name == s.id && c.network == s.id && c.image == ServerImage(s.serverVersion)
  {
  }

  /** The first part of a launch names only the tenant's database and network. */
  lemma LaunchPreTouchesOnlyTenant(config: Config, s: Server, dir: string)
    ensures TouchesWithin([Chmod(PathJoin(dir, "sandbox"), 511), Docker(NetworkCreate(s.id)), Docker(PostgresRun(config, s, dir))], TenantContainers(s))
  {
    PostgresRunShape(config, s, dir);
    TouchesTriple(Chmod(PathJoin(dir, "sandbox"), 511), NetworkCreate(s.id), PostgresRun(config, s, dir), TenantContainers(s));
  }

  /** The admin start names only the tenant's admin container and network. */
  lemma AdminTouchesOnlyTenant(s: Server, host: Host)
    ensures TouchesWithin(RunAdminContainer(s, host).steps, TenantContainers(s))
  {
  }

  /** The last part of a launch names only the tenant's application container and network. */
  lemma LaunchPostTouchesOnlyTenant(config: Config, s: Server, dir: string, interactive: bool)
    ensures TouchesWithin([Docker(ContainerRm(s.id)), Docker(AppRun(config, s, dir, interactive))], TenantContainers(s))
  {
    AppRunShape(config, s, dir, interactive);
    TenantNamesOwn(s);
    TouchesPair(s.id, AppRun(config, s, dir, interactive), TenantContainers(s));
  }

  /** A tenant's own name is among its container names. */
  lemma TenantNamesOwn(s: Server)
    ensures s.id in TenantContainers(s)
  {
  }

  lemma TouchesTriple(chmod: Step, net: DockerCmd, pg: DockerCmd, names: set<string>)
    requires !chmod.Docker? && Touches(net) <= names && Touches(pg) <= names
    ensures TouchesWithin([chmod, Docker(net), Docker(pg)], names)
  {
  }

  lemma TouchesPair(id: string, app: DockerCmd, names: set<string>)
    requires app.Run? && app.name == id && app.network == id && id in names
    ensures TouchesWithin([Docker(ContainerRm(id)), Docker(app)], names)
  {
  }

  /** The steps a launch may take all name only the tenant's own containers and network. */
  lemma LaunchTouchesOnlyTenant(config: Config, subdirectories: seq<string>, host: Host, s: Server, interactive: bool)
    ensures TouchesWithin(Launch(config, subdirectories, host, s, interactive).steps, TenantContainers(s))
  {
    var dir := InstanceDir(config, s);
    var names := TenantContainers(s);
    var l := Launch(config, subdirectories, host, s, interactive);
    var pre := [Chmod(PathJoin(dir, "sandbox"), 511), Docker(NetworkCreate(s.id)), Docker(PostgresRun(config, s, dir))];
    var adm := RunAdminContainer(s, host).steps;
    var post := [Docker(ContainerRm(s.id)), Docker(AppRun(config, s, dir, interactive))];
    LaunchPreTouchesOnlyTenant(config, s, dir);
    AdminTouchesOnlyTenant(s, host);
    LaunchPostTouchesOnlyTenant(config, s, dir, interactive);
    if l.failure.None? {
      LaunchSteps(config, subdirectories, host, s, interactive);
      TouchesAppend(pre, adm, names);
      TouchesAppend(pre + adm, post, names);
    } else if l.failure == Some(AdminStartFailed(s.id)) {
      LaunchStepsOnAdminFailure(config, subdirectories, host, s, interactive);
      TouchesAppend(pre, adm, names);
    } else {
      LaunchEarlyFailure(config, subdirectories, host, s, interactive);
    }
  }

  /** Every docker step of a start, successful or not, names only the tenant's own containers and network. */
  lemma RunContainerTouchesOnlyTenant(config: Config, subdirectories: seq<string>, host: Host, s: Server, interactive: bool)
    ensures TouchesWithin(RunContainer(config, subdirectories, host, s, interactive).steps, TenantContainers(s))
  {
    if s.serverVersion != "" {
      var v := ValidateServerSetup(s, config, host);
      var l := Launch(config, subdirectories, host, s, interactive);
      LaunchTouchesOnlyTenant(config, subdirectories, host, s, interactive);
      if v.failure.None? {
        assert RunContainer(config, subdirectories, host, s, interactive).steps == v.steps + l.steps;
      }
    }
  }

  /** The steps of a launch whose admin start fails. */
  lemma LaunchStepsOnAdminFailure(config: Config, subdirectories: seq<string>, host: Host, s: Server, interactive: bool)
    requires Launch(config, subdirectories, host, s, interactive).failure == Some(AdminStartFailed(s.id))
    ensures var dir := InstanceDir(config, s);
      Launch(config, subdirectories, host, s, interactive).steps
      == [Chmod(PathJoin(dir, "sandbox"), 511), Docker(NetworkCreate(s.id)), Docker(PostgresRun(config, s, dir))]
        + RunAdminContainer(s, host).steps
  {
  }

  /** A launch never stops a container. */
  lemma LaunchStopsNothing(config: Config, subdirectories: seq<string>, host: Host, s: Server, interactive: bool)
    ensures NoStops(Launch(config, subdirectories, host, s, interactive).steps)
  {
    var dir := InstanceDir(config, s);
    var l := Launch(config, subdirectories, host, s, interactive);
    var pre := [Chmod(PathJoin(dir, "sandbox"), 511), Docker(NetworkCreate(s.id)), Docker(PostgresRun(config, s, dir))];
    var adm := RunAdminContainer(s, host).steps;
    var post := [Docker(ContainerRm(s.id)), Docker(AppRun(config, s, dir, interactive))];
    assert NoStops(pre) && NoStops(adm) && NoStops(post);
    if l.failure.None? {
      LaunchSteps(config, subdirectories, host, s, interactive);
      assert NoStops(pre + adm);
    } else if l.failure == Some(AdminStartFailed(s.id)) {
      LaunchStepsOnAdminFailure(config, subdirectories, host, s, interactive);
    }
  }

  /** A start, successful or not, never stops a container. */
  lemma RunContainerStopsNothing(config: Config, subdirectories: seq<string>, host: Host, s: Server, interactive: bool)
    ensures NoStops(RunContainer(config, subdirectories, host, s, interactive).steps)
  {
    if s.serverVersion != "" {
      var v := ValidateServerSetup(s, config, host);
      var l := Launch(config, subdirectories, host, s, interactive);
      LaunchStopsNothing(config, subdirectories, host, s, interactive);
      if v.failure.None? {
        assert RunContainer(config, subdirectories, host, s, interactive).steps == v.steps + l.steps;
      }
    }
  }

  /** The containers started by the steps of a launch whose admin start fails. */
  lemma StartedPrefixShape(chmod: Step, net: DockerCmd, pg: DockerCmd, adm: seq<Step>)
    requires !chmod.Docker? && !net.Run? && pg.Run?
    ensures Started([chmod, Docker(net), Docker(pg)] + adm) == {pg.name} + Started(adm)
  {
    var pre := [chmod, Docker(net), Docker(pg)];
    StartedAppend(pre, adm);
    StartedAppend([chmod, Docker(net)], [Docker(pg)]);
    assert pre == [chmod, Docker(net)] + [Docker(pg)];
    StartedAppend([chmod], [Docker(net)]);
    assert [chmod, Docker(net)] == [chmod] + [Docker(net)];
    StartedSingle(chmod);
    StartedSingle(Docker(net));
    StartedSingle(Docker(pg));
  }

  /** A launch whose admin start fails has started the database and tried the admin container. */
  lemma LaunchAdminFailureStarts(config: Config, subdirectories: seq<string>, host: Host, s: Server, interactive: bool)
    requires Launch(config, subdirectories, host, s, interactive).failure == Some(AdminStartFailed(s.id))
    ensures Started(Launch(config, subdirectories, host, s, interactive).steps) == {PostgresName(s.id), AdminName(s.id)}
  {
    var dir := InstanceDir(config, s);
    LaunchStepsOnAdminFailure(config, subdirectories, host, s, interactive);
    var adm := RunAdminContainer(s, host).steps;
    PostgresRunShape(config, s, dir);
    AdminStarted(s, host);
    StartedPrefixShape(Chmod(PathJoin(dir, "sandbox"), 511), NetworkCreate(s.id), PostgresRun(config, s, dir), adm);
  }

  /** The only failure a start reports after docker steps is the admin container's, raised by the launch. */
  lemma RunContainerAdminFailure(config: Config, subdirectories: seq<string>, host: Host, s: Server, interactive: bool)
    requires RunContainer(config, subdirectories, host, s, interactive).failure.Some?
    requires RunContainer(config, subdirectories, host, s, interactive).failure.value.AdminStartFailed?
    ensures Launch(config, subdirectories, host, s, interactive).failure == Some(AdminStartFailed(s.id))
    ensures RunContainer(config, subdirectories, host, s, interactive).steps
      == ValidateServerSetup(s, config, host).steps + Launch(config, subdirectories, host, s, interactive).steps
  {
  }

  /** A failed start never starts the application container. */
  lemma RunContainerFailureKeepsAppDown(config: Config, subdirectories: seq<string>, host: Host, s: Server, interactive: bool)
    requires RunContainer(config, subdirectories, host, s, interactive).failure.Some?
    ensures s.id !in Started(RunContainer(config, subdirectories, host, s, interactive).steps)
  {
    var p := RunContainer(config, subdirectories, host, s, interactive);
    RunContainerChecksFirst(config, subdirectories, host, s, interactive);
    if p.failure.value.AdminStartFailed? {
      RunContainerAdminFailure(config, subdirectories, host, s, interactive);
      LaunchAdminFailureStarts(config, subdirectories, host, s, interactive);
      HelperNamesDiffer(s.id);
      OnlyHelpersStarted(ValidateServerSetup(s, config, host).steps, Launch(config, subdirectories, host, s, interactive).steps,
        s.id, PostgresName(s.id), AdminName(s.id));
    } else {
      NoDockerNoEffect(p.steps);
    }
  }

  /** Checks followed by steps that start only two other containers leave `id` down. */
  lemma OnlyHelpersStarted(v: seq<Step>, l: seq<Step>, id: string, a: string, b: string)
    requires forall st | st in v :: !st.Docker?
    requires Started(l) == {a, b} && a != id && b != id
    ensures id !in Started(v + l)
  {
    ChecksFirstNoEffect(v, l);
  }

  /** Steps that touch no docker, placed first, change neither what is started nor which images run. */
  lemma ChecksFirstNoEffect(v: seq<Step>, l: seq<Step>)
    requires forall st | st in v :: !st.Docker?
    ensures Started(v + l) == Started(l) && RunImages(v + l) == RunImages(l)
  {
    NoDockerNoEffect(v);
    StartedAppend(v, l);
    RunImagesAppend(v, l);
  }

  /** The database and admin containers never share the application container's name. */
  lemma HelperNamesDiffer(id: string)
    ensures PostgresName(id) != id && AdminName(id) != id
  {
    assert |PostgresName(id)| != |id| && |AdminName(id)| != |id|;
  }

  /** The containers stopped by a stop sequence of this shape. */
  lemma StoppedShape(first: DockerCmd, mid: seq<Step>, last: DockerCmd)
    requires first.Stop? && last.Stop?
    ensures Stopped([Docker(first)] + mid + [Docker(last)]) == {first.name} + Stopped(mid) + {last.name}
  {
    StoppedAppend([Docker(first)] + mid, [Docker(last)]);
    StoppedAppend([Docker(first)], mid);
    StoppedSingle(Docker(first));
    StoppedSingle(Docker(last));
  }

  /** Stopping a tenant stops exactly its containers. */
  lemma StopTenantStopsAll(s: Server)
    ensures Stopped(StopTenant(s)) == TenantContainers(s)
  {
    var mid := if HasAdmin(s) then StopAdminContainer(s.id) else [];
    StoppedShape(Stop(s.id, None), mid, Stop(PostgresName(s.id), Some(30)));
    if HasAdmin(s) {
      StoppedAppend([mid[0]], [mid[1]]);
      assert mid == [mid[0]] + [mid[1]];
      StoppedSingle(mid[0]);
      StoppedSingle(mid[1]);
    } else {
      assert Stopped(mid) == {};
    }
  }

  /** Stopping a tenant names none but its own containers. */
  lemma StopTenantTouchesOnlyTenant(s: Server)
    ensures TouchesWithin(StopTenant(s), TenantContainers(s))
  {
  }

  /** Stopping starts nothing, and the database goes last, with a 30 second grace period. */
  lemma StopTenantOrder(s: Server)
    ensures NoStarts(StopTenant(s))
    ensures StopTenant(s)[0] == Docker(Stop(s.id, None))
    ensures StopTenant(s)[|StopTenant(s)| - 1] == Docker(Stop(PostgresName(s.id), Some(30)))
  {
  }

  /** What a successful start brings up is exactly what the stop sequence takes down. */
  lemma RunStopSymmetry(config: Config, subdirectories: seq<string>, host: Host, s: Server, interactive: bool)
    requires RunContainer(config, subdirectories, host, s, interactive).failure.None?
    ensures Started(RunContainer(config, subdirectories, host, s, interactive).steps) == Stopped(StopTenant(s))
  {
    RunContainerStartsTenant(config, subdirectories, host, s, interactive);
    StopTenantStopsAll(s);
  }

  /** The images run by the step sequence a launch has. */
  lemma RunImagesShape(chmod: Step, net: DockerCmd, pg: DockerCmd, adm: seq<Step>, rm: DockerCmd, app: DockerCmd)
    requires !chmod.Docker? && !net.Run? && pg.Run? && !rm.Run? && app.Run?
    ensures RunImages([chmod, Docker(net), Docker(pg)] + adm + [Docker(rm), Docker(app)]) == {pg.image} + RunImages(adm) + {app.image}
  {
    RunImagesSandwich([chmod, Docker(net), Docker(pg)], adm, [Docker(rm), Docker(app)]);
    RunImagesPrefix(chmod, net, pg);
    RunImagesSuffix(rm, app);
  }

  /** A sequence in three parts runs what its parts run. */
  lemma RunImagesSandwich(pre: seq<Step>, mid: seq<Step>, post: seq<Step>)
    ensures RunImages(pre + mid + post) == RunImages(pre) + RunImages(mid) + RunImages(post)
  {
    RunImagesAppend(pre + mid, post);
    RunImagesAppend(pre, mid);
  }

  /** The launch's opening steps run only the database container. */
  lemma RunImagesPrefix(chmod: Step, net: DockerCmd, pg: DockerCmd)
    requires !chmod.Docker? && !net.Run? && pg.Run?
    ensures RunImages([chmod, Docker(net), Docker(pg)]) == {pg.image}
  {
    RunImagesAppend([chmod, Docker(net)], [Docker(pg)]);
    assert [chmod, Docker(net), Docker(pg)] == [chmod, Docker(net)] + [Docker(pg)];
    RunImagesAppend([chmod], [Docker(net)]);
    assert [chmod, Docker(net)] == [chmod] + [Docker(net)];
    RunImagesSingle(chmod);
    RunImagesSingle(Docker(net));
    RunImagesSingle(Docker(pg));
  }

  /** The launch's closing steps run only the application container. */
  lemma RunImagesSuffix(rm: DockerCmd, app: DockerCmd)
    requires !rm.Run? && app.Run?
    ensures RunImages([Docker(rm), Docker(app)]) == {app.image}
  {
    RunImagesAppend([Docker(rm)], [Docker(app)]);
    assert [Docker(rm), Docker(app)] == [Docker(rm)] + [Docker(app)];
    RunImagesSingle(Docker(rm));
    RunImagesSingle(Docker(app));
  }

  /** The images a tenant's containers run from. */
  function TenantImages(s: Server): set<string> {
    {PostgresImage, ServerImage(s.serverVersion)} + (if HasAdmin(s) then {AdminImage(s.adminVersion.value)} else {})
  }

  /** A successful launch runs the database image, the tenant's server image and, with an admin version, the admin image. */
  lemma LaunchImages(config: Config, subdirectories: seq<string>, host: Host, s: Server, interactive: bool)
    requires Launch(config, subdirectories, host, s, interactive).failure.None?
    ensures RunImages(Launch(config, subdirectories, host, s, interactive).steps) == TenantImages(s)
  {
    var dir := InstanceDir(config, s);
    LaunchSteps(config, subdirectories, host, s, interactive);
    PostgresRunShape(config, s, dir);
    AppRunShape(config, s, dir, interactive);
    AdminStarted(s, host);
    RunImagesShape(Chmod(PathJoin(dir, "sandbox"), 511), NetworkCreate(s.id), PostgresRun(config, s, dir),
      RunAdminContainer(s, host).steps, ContainerRm(s.id), AppRun(config, s, dir, interactive));
  }

  /** A successful start runs the database image, the image of the tenant's version and, with an admin version, the admin image. */
  lemma RunContainerImages(config: Config, subdirectories: seq<string>, host: Host, s: Server, interactive: bool)
    requires RunContainer(config, subdirectories, host, s, interactive).failure.None?
    ensures RunImages(RunContainer(config, subdirectories, host, s, interactive).steps) == TenantImages(s)
  {
    RunContainerSplit(config, subdirectories, host, s, interactive);
    LaunchImages(config, subdirectories, host, s, interactive);
    ChecksFirstNoEffect(ValidateServerSetup(s, config, host).steps, Launch(config, subdirectories, host, s, interactive).steps);
  }
}
