/**
 * The docker lifecycle commands over a list of targets: `run`, `stop`,
 * `restart` and `pull`. The targets are resolved against one snapshot of the
 * registry; each command then plans, id by id, the per-tenant steps.
 */
module Lifecycle {
  import opened Wrappers
  import opened Seqs
  import opened Types
  import opened ServerStore
  import opened TagResolver
  import opened Images
  import opened Docker
  import opened Containers

  /** Why a batch command exits with status 1. */
  datatype BatchError =
    | NoTargets
    | Unresolved(cause: ResolveError)
    | StartFailed(id: string, reason: RunError)
  {
    function Message(): string {
      match this
      case NoTargets => "Error: Server ID(s) required"
      case Unresolved(e) => "Error: " + e.Message()
      case StartFailed(_, e) => "Error: " + e.Message()
    }
  }

  /** The facts every start in a batch shares. */
  datatype Setting = Setting(config: Config, subdirectories: seq<string>, host: Host, interactive: bool)

  /** How one record is started: `runContainer` under the batch's setting. */
  function Starter(env: Setting): Server -> Plan<RunError> {
    (s: Server) => RunContainer(env.config, env.subdirectories, env.host, s, env.interactive)
  }

  /** The error starting the record with this id throws; a missing record throws nothing. */
  function Outcome(servers: seq<Server>, id: string, start: Server -> Plan<RunError>): Option<RunError> {
    match Get(servers, id)
    case None => None
    case Some(s) => start(s).failure
  }

  /** Starting the record with this id, whose error ends the batch. */
  function StartOne(servers: seq<Server>, id: string, start: Server -> Plan<RunError>, report: bool): (p: Plan<BatchError>)
    ensures p.failure.None? <==> Outcome(servers, id, start).None?
    ensures p.failure.Some? ==> Get(servers, id).Some? && p.failure.value == StartFailed(id, Outcome(servers, id, start).value)
  {
    match Get(servers, id)
    case None => Plan(if report then [Warn(UnknownServer(id))] else [], None)
    case Some(s) =>
      var r := start(s);
      Plan(r.steps, if r.failure.Some? then Some(StartFailed(s.id, r.failure.value)) else None)
  }

  /**
   * Starting the ids in order: a missing record is reported (`run`) or
   * skipped without a word (`restart`); the first start that throws ends
   * the batch.
   */
  function StartAll(servers: seq<Server>, ids: seq<string>, start: Server -> Plan<RunError>, report: bool): (p: Plan<BatchError>)
    ensures p.failure.None? <==> forall k | 0 <= k < |ids| :: Outcome(servers, ids[k], start).None?
    ensures p.failure.Some? ==> p.failure.value.StartFailed?
  {
    if |ids| == 0 then Plan([], None)
    else
      var rest := StartAll(servers, ids[1..], start, report);
      assert forall k | 1 <= k < |ids| :: ids[k] == ids[1..][k - 1];
      Docker.Then(StartOne(servers, ids[0], start, report), rest)
  }

  /** The ids before position `k` all start without an error. */
  predicate CleanBefore(servers: seq<Server>, ids: seq<string>, start: Server -> Plan<RunError>, k: nat)
    requires k <= |ids|
  {
    forall m | 0 <= m < k :: Outcome(servers, ids[m], start).None?
  }

  /** The id at position `k` is the first whose start throws, and the batch fails with its error. */
  predicate FailsFirstAt(servers: seq<Server>, ids: seq<string>, start: Server -> Plan<RunError>, failure: BatchError, k: nat) {
    && k < |ids|
    && CleanBefore(servers, ids, start, k)
    && Get(servers, ids[k]).Some? && Outcome(servers, ids[k], start).Some?
    && failure == StartFailed(ids[k], Outcome(servers, ids[k], start).value)
  }

  /** A clean first id moves the first failure one place on. */
  lemma FailsFirstShift(servers: seq<Server>, ids: seq<string>, start: Server -> Plan<RunError>, failure: BatchError, k: nat)
    requires |ids| > 0 && Outcome(servers, ids[0], start).None?
    requires FailsFirstAt(servers, ids[1..], start, failure, k)
    ensures FailsFirstAt(servers, ids, start, failure, k + 1)
  {
    forall m | 0 <= m < k + 1
      ensures Outcome(servers, ids[m], start).None?
    {
      if m > 0 {
        assert ids[m] == ids[1..][m - 1];
      }
    }
    assert ids[k + 1] == ids[1..][k];
  }

  /** A failed batch names the first id, in order, whose start throws, with the error it throws. */
  lemma {:induction false} StartAllFirstFailure(servers: seq<Server>, ids: seq<string>, start: Server -> Plan<RunError>, report: bool)
    requires StartAll(servers, ids, start, report).failure.Some?
    ensures exists k: nat :: FailsFirstAt(servers, ids, start, StartAll(servers, ids, start, report).failure.value, k)
  {
    var first := StartOne(servers, ids[0], start, report);
    var rest := StartAll(servers, ids[1..], start, report);
    assert StartAll(servers, ids, start, report) == Docker.Then(first, rest);
    if first.failure.None? {
      StartAllFirstFailure(servers, ids[1..], start, report);
      var k: nat :| FailsFirstAt(servers, ids[1..], start, rest.failure.value, k);
      FailsFirstShift(servers, ids, start, rest.failure.value, k);
    } else {
      assert FailsFirstAt(servers, ids, start, first.failure.value, 0);
    }
  }

  /** `handleRun`: no targets, a target that does not resolve, or the starts of the resolved ids. */
  function HandleRun(env: Setting, servers: seq<Server>, targets: seq<string>): Plan<BatchError> {
    if |targets| == 0 then Plan([], Some(NoTargets))
    else
      match ResolveTargets(servers, targets)
      case Failure(e) => Plan([], Some(Unresolved(e)))
      case Success(ids) => StartAll(servers, ids, Starter(env), true)
  }

  /** The stop sequence for one id; a missing record is reported and skipped. */
  function StopOne(servers: seq<Server>, id: string, removeNetwork: bool): seq<Step> {
    match Get(servers, id)
    case None => [Warn(UnknownServer(id))]
    case Some(s) => StopTenant(s) + (if removeNetwork then [Docker(NetworkRm(s.id))] else [])
  }

  /** The stop sequences of the ids in order; nothing in them can fail the batch. */
  function StopAll(servers: seq<Server>, ids: seq<string>, removeNetwork: bool): seq<Step> {
    if |ids| == 0 then [] else StopOne(servers, ids[0], removeNetwork) + StopAll(servers, ids[1..], removeNetwork)
  }

  /** `handleStop`: each tenant's containers are stopped, then its network removed. */
  function HandleStop(servers: seq<Server>, targets: seq<string>): Plan<BatchError> {
    if |targets| == 0 then Plan([], Some(NoTargets))
    else
      match ResolveTargets(servers, targets)
      case Failure(e) => Plan([], Some(Unresolved(e)))
      case Success(ids) => Plan(StopAll(servers, ids, true), None)
  }

  /** `handleRestart`: every tenant is stopped, then after a second every one is started again. */
  function HandleRestart(env: Setting, servers: seq<Server>, targets: seq<string>): Plan<BatchError> {
    if |targets| == 0 then Plan([], Some(NoTargets))
    else
      match ResolveTargets(servers, targets)
      case Failure(e) => Plan([], Some(Unresolved(e)))
      case Success(ids) => Docker.Then(Plan(StopAll(servers, ids, false) + [Sleep(1000)], None), StartAll(servers, ids, Starter(env), false))
  }

  /** One `docker pull` per image, in order. */
  function PullSteps(images: seq<string>): (steps: seq<Step>)
    ensures |steps| == |images|
    ensures forall i | 0 <= i < |images| :: steps[i] == Docker(Pull(images[i]))
  {
    if |images| == 0 then [] else [Docker(Pull(images[0]))] + PullSteps(images[1..])
  }

  /** The server image of every record with a (non-empty) version, in registry order. */
  function ServerImages(servers: seq<Server>): (images: seq<string>)
    ensures forall image :: image in images <==> exists s | s in servers :: s.serverVersion != "" && image == ServerImage(s.serverVersion)
  {
    if |servers| == 0 then []
    else (if servers[0].serverVersion != "" then [ServerImage(servers[0].serverVersion)] else []) + ServerImages(servers[1..])
  }

  /** The admin image of every record with an admin version, in registry order. */
  function AdminImages(servers: seq<Server>): (images: seq<string>)
    ensures forall image :: image in images <==> exists s | s in servers :: HasAdmin(s) && image == AdminImage(s.adminVersion.value)
  {
    if |servers| == 0 then []
    else (if HasAdmin(servers[0]) then [AdminImage(servers[0].adminVersion.value)] else []) + AdminImages(servers[1..])
  }

  /** `handlePull`: the base images, then each distinct server image, then each distinct admin image. */
  function HandlePull(servers: seq<Server>, baseImages: seq<string>): seq<Step> {
    PullSteps(baseImages) + PullSteps(Dedup(ServerImages(servers))) + PullSteps(Dedup(AdminImages(servers)))
  }

  /** The containers of the records the ids name; an id without a record names none. */
  function Tenants(servers: seq<Server>, ids: seq<string>): (r: set<string>)
    ensures forall name :: name in r <==>
      exists k | 0 <= k < |ids| :: Get(servers, ids[k]).Some? && name in TenantContainers(Get(servers, ids[k]).value)
  {
    if |ids| == 0 then {}
    else
      assert forall k | 1 <= k < |ids| :: ids[k] == ids[1..][k - 1];
      (if Get(servers, ids[0]).Some? then TenantContainers(Get(servers, ids[0]).value) else {}) + Tenants(servers, ids[1..])
  }

  /** The stop steps of one id stop that record's containers. */
  lemma StopOneStops(servers: seq<Server>, id: string, removeNetwork: bool)
    ensures Stopped(StopOne(servers, id, removeNetwork)) == (if Get(servers, id).Some? then TenantContainers(Get(servers, id).value) else {})
    ensures NoStarts(StopOne(servers, id, removeNetwork))
  {
    match Get(servers, id)
    case None => StoppedSingle(Warn(UnknownServer(id)));
    case Some(s) =>
      StopTenantStopsAll(s);
      StopTenantOrder(s);
      var tail := if removeNetwork then [Docker(NetworkRm(s.id))] else [];
      assert NoStops(tail) && NoStarts(tail);
      QuietTail(StopTenant(s), tail);
  }

  /** Appending steps that neither start nor stop anything changes neither set. */
  lemma QuietTail(a: seq<Step>, tail: seq<Step>)
    requires NoStops(tail) && NoStarts(tail) && NoStarts(a)
    ensures Stopped(a + tail) == Stopped(a) && NoStarts(a + tail)
  {
    StoppedAppend(a, tail);
    NoStopsNothingStopped(tail);
  }

  /** Stopping a batch stops exactly the containers of the records named, and starts nothing. */
  lemma {:induction false} StopAllStops(servers: seq<Server>, ids: seq<string>, removeNetwork: bool)
    ensures Stopped(StopAll(servers, ids, removeNetwork)) == Tenants(servers, ids)
    ensures NoStarts(StopAll(servers, ids, removeNetwork))
  {
    if |ids| > 0 {
      StopAllStops(servers, ids[1..], removeNetwork);
      StopOneStops(servers, ids[0], removeNetwork);
      StoppedAppend(StopOne(servers, ids[0], removeNetwork), StopAll(servers, ids[1..], removeNetwork));
    }
  }

  /** Every start of a `start` function brings up exactly the record's containers and stops nothing. */
  predicate WellBehaved(start: Server -> Plan<RunError>, s: Server) {
    NoStops(start(s).steps) && (start(s).failure.None? ==> Started(start(s).steps) == TenantContainers(s))
  }

  /** `runContainer` is well behaved on every record. */
  lemma StarterWellBehaved(env: Setting, s: Server)
    ensures WellBehaved(Starter(env), s)
  {
    RunContainerStopsNothing(env.config, env.subdirectories, env.host, s, env.interactive);
    if RunContainer(env.config, env.subdirectories, env.host, s, env.interactive).failure.None? {
      RunContainerStartsTenant(env.config, env.subdirectories, env.host, s, env.interactive);
    }
  }

  /** The start steps of one id, when the start succeeds, start that record's containers. */
  lemma StartOneStarts(servers: seq<Server>, id: string, start: Server -> Plan<RunError>, report: bool)
    requires Get(servers, id).Some? ==> WellBehaved(start, Get(servers, id).value)
    ensures NoStops(StartOne(servers, id, start, report).steps)
    ensures StartOne(servers, id, start, report).failure.None? ==>
      Started(StartOne(servers, id, start, report).steps) == (if Get(servers, id).Some? then TenantContainers(Get(servers, id).value) else {})
  {
    if Get(servers, id).None? {
      StartedSingle(Warn(UnknownServer(id)));
    }
  }

  /** A successful batch start brings up exactly the containers of the records named, and stops nothing. */
  lemma {:induction false} StartAllStarts(servers: seq<Server>, ids: seq<string>, start: Server -> Plan<RunError>, report: bool)
    requires forall s :: WellBehaved(start, s)
    ensures NoStops(StartAll(servers, ids, start, report).steps)
    ensures StartAll(servers, ids, start, report).failure.None? ==>
      Started(StartAll(servers, ids, start, report).steps) == Tenants(servers, ids)
  {
    if |ids| > 0 {
      var first := StartOne(servers, ids[0], start, report);
      var rest := StartAll(servers, ids[1..], start, report);
      StartAllStarts(servers, ids[1..], start, report);
      StartOneStarts(servers, ids[0], start, report);
      if first.failure.None? {
        assert StartAll(servers, ids, start, report).steps == first.steps + rest.steps;
        StartedAppend(first.steps, rest.steps);
      }
    }
  }

  /** Steps in which nothing is started before something is stopped. */
  predicate StopsBeforeStarts(steps: seq<Step>) {
    forall i, j | 0 <= i < |steps| && 0 <= j < |steps| && IsStop(steps[i]) && IsStart(steps[j]) :: i < j
  }

  /** A phase that only stops, followed by one that only starts. */
  lemma PhasesInOrder(a: seq<Step>, b: seq<Step>)
    requires NoStarts(a) && NoStops(b)
    ensures StopsBeforeStarts(a + b)
  {
    forall i | |a| <= i < |a + b|
      ensures !IsStop((a + b)[i])
    {
      assert (a + b)[i] == b[i - |a|] && b[i - |a|] in b;
    }
    forall j | 0 <= j < |a|
      ensures !IsStart((a + b)[j])
    {
      assert (a + b)[j] == a[j] && a[j] in a;
    }
  }

  /** Resolved ids all have records, so `run`'s not-found report can never be issued. */
  lemma {:induction false} PresentIdsReportNothing(servers: seq<Server>, ids: seq<string>, start: Server -> Plan<RunError>)
    requires forall id | id in ids :: IdPresent(servers, id)
    ensures StartAll(servers, ids, start, true) == StartAll(servers, ids, start, false)
  {
    if |ids| > 0 {
      assert ids[0] in ids;
      assert forall id | id in ids[1..] :: id in ids;
      PresentIdsReportNothing(servers, ids[1..], start);
    }
  }

  /** `run` exits with an error exactly when there are no targets, a target does not resolve or a start throws; a success starts exactly the resolved tenants. */
  lemma HandleRunOutcome(env: Setting, servers: seq<Server>, targets: seq<string>)
    ensures HandleRun(env, servers, targets).failure == Some(NoTargets) <==> |targets| == 0
    ensures |targets| > 0 && ResolveTargets(servers, targets).Failure? ==>
      HandleRun(env, servers, targets) == Plan([], Some(Unresolved(ResolveTargets(servers, targets).error)))
    ensures |targets| > 0 && ResolveTargets(servers, targets).Success? ==>
      var ids := ResolveTargets(servers, targets).value;
      && HandleRun(env, servers, targets) == StartAll(servers, ids, Starter(env), false)
      && (HandleRun(env, servers, targets).failure.None? <==> forall k | 0 <= k < |ids| :: Outcome(servers, ids[k], Starter(env)).None?)
      && (HandleRun(env, servers, targets).failure.None? ==> Started(HandleRun(env, servers, targets).steps) == Tenants(servers, ids))
  {
    if |targets| > 0 && ResolveTargets(servers, targets).Success? {
      var ids := ResolveTargets(servers, targets).value;
      PresentIdsReportNothing(servers, ids, Starter(env));
      forall s { StarterWellBehaved(env, s); }
      StartAllStarts(servers, ids, Starter(env), false);
    }
  }

  /** With records for its ids, a batch stop removes each tenant's network. */
  lemma {:induction false} StopAllRemovesNetworks(servers: seq<Server>, ids: seq<string>)
    ensures forall k | 0 <= k < |ids| && Get(servers, ids[k]).Some? :: Docker(NetworkRm(ids[k])) in StopAll(servers, ids, true)
  {
    if |ids| > 0 {
      StopAllRemovesNetworks(servers, ids[1..]);
      assert forall k | 1 <= k < |ids| :: ids[k] == ids[1..][k - 1];
      var first := StopOne(servers, ids[0], true);
      if Get(servers, ids[0]).Some? {
        assert first[|first| - 1] == Docker(NetworkRm(ids[0]));
      }
    }
  }

  /** `stop` fails only for want of targets or on a target that does not resolve; otherwise it stops exactly the resolved tenants, starts nothing and removes their networks. */
  lemma HandleStopOutcome(servers: seq<Server>, targets: seq<string>)
    ensures HandleStop(servers, targets).failure.None? <==> |targets| > 0 && ResolveTargets(servers, targets).Success?
    ensures HandleStop(servers, targets).failure == Some(NoTargets) <==> |targets| == 0
    ensures |targets| > 0 && ResolveTargets(servers, targets).Failure? ==>
      HandleStop(servers, targets) == Plan([], Some(Unresolved(ResolveTargets(servers, targets).error)))
    ensures |targets| > 0 && ResolveTargets(servers, targets).Success? ==>
      var ids := ResolveTargets(servers, targets).value;
      var steps := HandleStop(servers, targets).steps;
      && Stopped(steps) == Tenants(servers, ids)
      && NoStarts(steps)
      && forall id | id in ids :: Docker(NetworkRm(id)) in steps
  {
    if |targets| > 0 && ResolveTargets(servers, targets).Success? {
      var ids := ResolveTargets(servers, targets).value;
      StopAllStops(servers, ids, true);
      StopAllRemovesNetworks(servers, ids);
      forall id | id in ids
        ensures Docker(NetworkRm(id)) in StopAll(servers, ids, true)
      {
        var k :| 0 <= k < |ids| && ids[k] == id;
      }
    }
  }

  /** `restart` stops every resolved tenant before it starts any, pausing one second in between; a success restarts exactly what it stopped. */
  lemma HandleRestartOutcome(env: Setting, servers: seq<Server>, targets: seq<string>)
    ensures HandleRestart(env, servers, targets).failure == Some(NoTargets) <==> |targets| == 0
    ensures |targets| > 0 && ResolveTargets(servers, targets).Failure? ==>
      HandleRestart(env, servers, targets) == Plan([], Some(Unresolved(ResolveTargets(servers, targets).error)))
    ensures |targets| > 0 && ResolveTargets(servers, targets).Success? ==>
      var ids := ResolveTargets(servers, targets).value;
      var p := HandleRestart(env, servers, targets);
      && StopsBeforeStarts(p.steps)
      && p.steps[|StopAll(servers, ids, false)|] == Sleep(1000)
      && (p.failure.None? <==> forall k | 0 <= k < |ids| :: Outcome(servers, ids[k], Starter(env)).None?)
      && (p.failure.None? ==> Started(p.steps) == Stopped(p.steps) == Tenants(servers, ids))
  {
    if |targets| > 0 && ResolveTargets(servers, targets).Success? {
      var ids := ResolveTargets(servers, targets).value;
      forall s { StarterWellBehaved(env, s); }
      RestartBatch(servers, ids, Starter(env));
    }
  }

  /** Stopping a batch, pausing, then starting it with a well-behaved start: the shape `restart` relies on. */
  lemma RestartBatch(servers: seq<Server>, ids: seq<string>, start: Server -> Plan<RunError>)
    requires forall s :: WellBehaved(start, s)
    ensures var p := Docker.Then(Plan(StopAll(servers, ids, false) + [Sleep(1000)], None), StartAll(servers, ids, start, false));
      && StopsBeforeStarts(p.steps)
      && p.steps[|StopAll(servers, ids, false)|] == Sleep(1000)
      && (p.failure.None? ==> Started(p.steps) == Stopped(p.steps) == Tenants(servers, ids))
  {
    StartAllStarts(servers, ids, start, false);
    StopAllStops(servers, ids, false);
    PauseBetween(StopAll(servers, ids, false), StartAll(servers, ids, start, false), Tenants(servers, ids));
  }

  /** A stop phase, a pause, then a start phase that starts what the stop phase stopped. */
  lemma PauseBetween(halt: seq<Step>, run: Plan<BatchError>, names: set<string>)
    requires NoStarts(halt) && Stopped(halt) == names
    requires NoStops(run.steps) && (run.failure.None? ==> Started(run.steps) == names)
    ensures var p := Docker.Then(Plan(halt + [Sleep(1000)], None), run);
      && StopsBeforeStarts(p.steps)
      && p.steps[|halt|] == Sleep(1000)
      && (p.failure.None? ==> Started(p.steps) == Stopped(p.steps) == names)
  {
    var stop := halt + [Sleep(1000)];
    assert stop[|halt|] == Sleep(1000);
    NoStartsSleep(halt);
    PhasesInOrder(stop, run.steps);
    PauseSets(stop, halt, run.steps);
  }

  /** The pause starts nothing, so the stop phase with it still starts nothing. */
  lemma NoStartsSleep(halt: seq<Step>)
    requires NoStarts(halt)
    ensures NoStarts(halt + [Sleep(1000)])
  {
  }

  /** The pause changes neither set, and starting and stopping split between the phases. */
  lemma PauseSets(stop: seq<Step>, halt: seq<Step>, run: seq<Step>)
    requires stop == halt + [Sleep(1000)]
    requires NoStarts(halt) && NoStops(run)
    ensures Started(stop + run) == Started(run) && Stopped(stop + run) == Stopped(halt)
  {
    StoppedAppend(halt, [Sleep(1000)]);
    StoppedSingle(Sleep(1000));
    StoppedAppend(stop, run);
    StartedAppend(halt, [Sleep(1000)]);
    StartedSingle(Sleep(1000));
    StartedAppend(stop, run);
    NoStartsNothingStarted(halt);
    NoStopsNothingStopped(run);
  }

  /** Pulling a list of images pulls exactly the images listed. */
  lemma PulledSteps(images: seq<string>)
    ensures forall image :: image in Pulled(PullSteps(images)) <==> image in images
  {
  }

  /** `pull` fetches the base images and the image of every version and admin version in the registry, and nothing else. */
  lemma HandlePullContents(servers: seq<Server>, baseImages: seq<string>)
    ensures forall image :: image in Pulled(HandlePull(servers, baseImages)) <==>
      || image in baseImages
      || (exists s | s in servers :: s.serverVersion != "" && image == ServerImage(s.serverVersion))
      || (exists s | s in servers :: HasAdmin(s) && image == AdminImage(s.adminVersion.value))
  {
    PulledThree(baseImages, Dedup(ServerImages(servers)), Dedup(AdminImages(servers)));
  }

  /** Pulling three lists in a row pulls exactly the images on any of them. */
  lemma PulledThree(a: seq<string>, b: seq<string>, c: seq<string>)
    ensures forall image :: image in Pulled(PullSteps(a) + PullSteps(b) + PullSteps(c)) <==> image in a || image in b || image in c
  {
    PulledSteps(a);
    PulledSteps(b);
    PulledSteps(c);
    PulledAppend(PullSteps(a) + PullSteps(b), PullSteps(c));
    PulledAppend(PullSteps(a), PullSteps(b));
  }

  /** A server image and an admin image never coincide, whatever the versions. */
  lemma ServerImageNotAdmin(version: string, adminVersion: string)
    ensures ServerImage(version) != AdminImage(adminVersion)
  {
    ImageAt(AdminFamily, adminVersion, 3);
    ImageAt(AdminFamily, adminVersion, 15);
    if IsNewFamily(version) {
      ImageAt(NewFamily, version, 3);
    } else {
      ImageAfterFamily(LegacyFamily, version);
    }
  }

  /** No image is both a server image and an admin image of the registry. */
  lemma ImageListsDisjoint(servers: seq<Server>)
    ensures forall x, y | x in ServerImages(servers) && y in AdminImages(servers) :: x != y
  {
    forall x, y | x in ServerImages(servers) && y in AdminImages(servers)
      ensures x != y
    {
      var s :| s in servers && s.serverVersion != "" && x == ServerImage(s.serverVersion);
      var t :| t in servers && HasAdmin(t) && y == AdminImage(t.adminVersion.value);
      ServerImageNotAdmin(s.serverVersion, t.adminVersion.value);
    }
  }

  /** After the base images, no image is pulled twice. */
  lemma HandlePullOnce(servers: seq<Server>, baseImages: seq<string>)
    ensures HandlePull(servers, baseImages)[|baseImages|..]
      == PullSteps(Dedup(ServerImages(servers)) + Dedup(AdminImages(servers)))
    ensures Distinct(Dedup(ServerImages(servers)) + Dedup(AdminImages(servers)))
  {
    var xs := Dedup(ServerImages(servers));
    var ys := Dedup(AdminImages(servers));
    PullStepsAppend(xs, ys);
    assert HandlePull(servers, baseImages) == PullSteps(baseImages) + (PullSteps(xs) + PullSteps(ys));
    ImageListsDisjoint(servers);
    DistinctConcat(xs, ys);
  }

  lemma PullStepsAppend(xs: seq<string>, ys: seq<string>)
    ensures PullSteps(xs + ys) == PullSteps(xs) + PullSteps(ys)
  {
  }

  /** With the database image among the base images, `pull` fetches every image a successful start of a registered tenant runs. */
  lemma PullCoversRun(env: Setting, servers: seq<Server>, baseImages: seq<string>, s: Server)
    requires s in servers
    requires PostgresImage in baseImages
    requires RunContainer(env.config, env.subdirectories, env.host, s, env.interactive).failure.None?
    ensures RunImages(RunContainer(env.config, env.subdirectories, env.host, s, env.interactive).steps) <= Pulled(HandlePull(servers, baseImages))
  {
    RunContainerImages(env.config, env.subdirectories, env.host, s, env.interactive);
    RunContainerSplit(env.config, env.subdirectories, env.host, s, env.interactive);
    PullCoversTenant(servers, baseImages, s);
  }

  /** `pull` fetches every image of a registered tenant with a version, given the database image among the base images. */
  lemma PullCoversTenant(servers: seq<Server>, baseImages: seq<string>, s: Server)
    requires s in servers && s.serverVersion != ""
    requires PostgresImage in baseImages
    ensures TenantImages(s) <= Pulled(HandlePull(servers, baseImages))
  {
    HandlePullContents(servers, baseImages);
    var pulled := Pulled(HandlePull(servers, baseImages));
    assert PostgresImage in pulled;
    assert ServerImage(s.serverVersion) in pulled;
    if HasAdmin(s) {
      assert AdminImage(s.adminVersion.value) in pulled;
    }
  }
}
