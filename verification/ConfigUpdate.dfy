/**
 * `wb config update`: the parsed options become one change set, which is
 * applied to every resolved tenant in turn. A tenant whose merged record
 * fails validation is reported and left as it was; the others go ahead.
 */
module ConfigUpdate {
  import opened Wrappers
  import opened Seqs
  import opened Strings
  import opened Types
  import opened Validation
  import opened ServerStore
  import opened TagResolver
  import opened ConfigOptions

  /** `Object.keys(options).length > 0`: at least one option was given. */
  predicate HasChanges(o: UpdateOptions) {
    o.labelText.Some? || o.french.Some? || o.ethiopian.Some? || o.openAccess.Some?
    || o.server.Some? || o.admin.Some? || o.instanceDir.Some?
  }

  /** `--admin ""` or `--admin none` (in any case) asks for the admin container to be dropped. */
  predicate ClearsAdmin(admin: string) {
    admin == "" || ToLower(admin) == "none"
  }

  /** A flag option becomes a supplied optional member. */
  function SetFlag(b: Option<bool>): Option<Option<bool>> {
    if b.Some? then Some(b) else None
  }

  /**
   * The change set `updateSingleServer` builds: the id, port and tags are
   * never touched; clearing the admin version writes `undefined` over it.
   */
  function ToChanges(o: UpdateOptions): (c: Changes)
    ensures c.id.None? && c.port.None? && c.tags.None?
  {
    Changes(
      None,
      o.labelText,
      None,
      if o.instanceDir.Some? then Some(o.instanceDir) else None,
      o.server,
      if o.admin.None? then None
      else if ClearsAdmin(o.admin.value) then Some(None)
      else Some(o.admin),
      SetFlag(o.french),
      SetFlag(o.ethiopian),
      SetFlag(o.openAccess),
      None)
  }

  /**
   * What an update does to one record: each given option replaces its
   * member, every other member keeps its value, and a clearing `--admin`
   * leaves the tenant without an admin container.
   */
  lemma ToChangesMeaning(s: Server, o: UpdateOptions)
    ensures var m := Merge(s, ToChanges(o));
      && m.id == s.id && m.port == s.port && m.tags == s.tags
      && m.labelText == (if o.labelText.Some? then o.labelText.value else s.labelText)
      && m.serverVersion == (if o.server.Some? then o.server.value else s.serverVersion)
      && m.instanceDir == (if o.instanceDir.Some? then o.instanceDir else s.instanceDir)
      && m.french == (if o.french.Some? then o.french else s.french)
      && m.ethiopian == (if o.ethiopian.Some? then o.ethiopian else s.ethiopian)
      && m.openAccess == (if o.openAccess.Some? then o.openAccess else s.openAccess)
      && (o.admin.None? ==> m.adminVersion == s.adminVersion)
      && (o.admin.Some? && ClearsAdmin(o.admin.value) ==> m.adminVersion.None? && !HasAdmin(m))
      && (o.admin.Some? && !ClearsAdmin(o.admin.value) ==> m.adminVersion == o.admin && HasAdmin(m))
  {
  }

  /** With no option given the change set is empty, so it would change nothing. */
  lemma NoOptionsNoChanges(o: UpdateOptions)
    ensures !HasChanges(o) <==> ToChanges(o) == NoChanges
    ensures !HasChanges(o) ==> forall s :: Merge(s, ToChanges(o)) == s
  {
    if !HasChanges(o) {
      forall s
        ensures Merge(s, ToChanges(o)) == s
      {
        MergeNothing(s);
      }
    }
  }

  /** What `updateSingleServer` prints about one tenant. */
  datatype UpdateReport =
    | NotFoundReported(id: string)
    | NothingToChange(id: string)
    | Updated(id: string)
    | UpdateRejected(id: string, cause: StoreError)

  /** The registry after a pass over the tenants, with one report per tenant. */
  datatype UpdatePass = UpdatePass(servers: seq<Server>, reports: seq<UpdateReport>)

  /** The record an update of `id` would store. */
  function Merged(servers: seq<Server>, id: string, o: UpdateOptions): Option<Server> {
    match Get(servers, id)
    case None => None
    case Some(s) => Some(Merge(s, ToChanges(o)))
  }

  /**
   * `updateSingleServer`: a missing tenant and an empty change set are
   * reported without touching the registry; the store's own error is
   * reported and the registry is left as it was.
   */
  function UpdateOne(servers: seq<Server>, id: string, o: UpdateOptions): (p: UpdatePass)
    ensures |p.reports| == 1 && p.reports[0].id == id
    ensures p.reports[0].NotFoundReported? <==> !IdPresent(servers, id)
    ensures p.reports[0].NothingToChange? <==> IdPresent(servers, id) && !HasChanges(o)
    ensures p.reports[0].Updated? <==>
      IdPresent(servers, id) && HasChanges(o) && WellFormed(Merged(servers, id, o).value)
    ensures p.reports[0].UpdateRejected? ==> p.reports[0].cause.ValidationFailed?
    ensures !p.reports[0].Updated? ==> p.servers == servers
  {
    match Get(servers, id)
    case None => UpdatePass(servers, [NotFoundReported(id)])
    case Some(_) =>
      if !HasChanges(o) then UpdatePass(servers, [NothingToChange(id)])
      else
        match Update(servers, id, ToChanges(o))
        case Failure(e) => UpdatePass(servers, [UpdateRejected(id, e)])
        case Success(updated) => UpdatePass(updated, [Updated(id)])
  }

  /** The `for` loop of `handleConfigUpdate`: each tenant in turn, against the registry as the previous one left it. */
  function UpdateAll(servers: seq<Server>, ids: seq<string>, o: UpdateOptions): (p: UpdatePass)
    ensures |p.reports| == |ids|
    ensures forall i | 0 <= i < |ids| :: p.reports[i].id == ids[i]
    decreases |ids|
  {
    if |ids| == 0 then UpdatePass(servers, [])
    else
      var first := UpdateOne(servers, ids[0], o);
      var rest := UpdateAll(first.servers, ids[1..], o);
      UpdatePass(rest.servers, first.reports + rest.reports)
  }

  /** Why `handleConfigUpdate` exits with status 1. */
  datatype UpdateError = NoTargets | NoOptions | Unresolved(cause: ResolveError)

  /** `handleConfigUpdate`: targets, then options, then resolution, then the pass. */
  function HandleUpdate(servers: seq<Server>, targets: seq<string>, o: UpdateOptions): Result<UpdatePass, UpdateError> {
    if |targets| == 0 then Failure(NoTargets)
    else if !HasChanges(o) then Failure(NoOptions)
    else
      match ResolveTargets(servers, targets)
      case Failure(e) => Failure(Unresolved(e))
      case Success(ids) => Success(UpdateAll(servers, ids, o))
  }

  /** Two records of a registry with unique ids that share an id are the same record. */
  lemma SameIdSameRecord(servers: seq<Server>, a: Server, b: Server)
    requires UniqueIds(servers) && a in servers && b in servers && a.id == b.id
    ensures a == b
  {
    var i :| 0 <= i < |servers| && servers[i] == a;
    var j :| 0 <= j < |servers| && servers[j] == b;
    assert servers[i].id == servers[j].id;
  }

  /** With unique ids, lookups depend only on which records there are, not on their order. */
  lemma GetByContents(a: seq<Server>, b: seq<Server>, id: string)
    requires UniqueIds(a) && UniqueIds(b) && multiset(a) == multiset(b)
    ensures Get(a, id) == Get(b, id)
    ensures IdPresent(a, id) <==> IdPresent(b, id)
  {
    if IdPresent(a, id) {
      var i :| 0 <= i < |a| && a[i].id == id;
      assert a[i] in multiset(b);
    }
    if IdPresent(b, id) {
      var j :| 0 <= j < |b| && b[j].id == id;
      assert b[j] in multiset(a);
    }
    if Get(a, id).Some? {
      assert Get(a, id).value in multiset(b);
      SameIdSameRecord(b, Get(a, id).value, Get(b, id).value);
    }
  }

  /** With unique ids, the record at any position is the one `get` finds for its id. */
  lemma GetAt(servers: seq<Server>, i: nat)
    requires UniqueIds(servers) && i < |servers|
    ensures Get(servers, servers[i].id) == Some(servers[i])
  {
    SameIdSameRecord(servers, Get(servers, servers[i].id).value, servers[i]);
  }

  /**
   * Replacing one record of a registry with unique ids by a record with
   * the same id: ids stay unique and present, that id now looks up to the
   * new record and every other id to the record it had before.
   */
  lemma ReplaceLookup(servers: seq<Server>, k: nat, m: Server)
    requires UniqueIds(servers) && k < |servers| && m.id == servers[k].id
    ensures var xs := servers[k := m];
      && UniqueIds(xs)
      && (forall x :: IdPresent(xs, x) <==> IdPresent(servers, x))
      && Get(xs, m.id) == Some(m)
      && (forall x | x != m.id :: Get(xs, x) == Get(servers, x))
  {
    var xs := servers[k := m];
    assert forall i | 0 <= i < |xs| :: xs[i].id == servers[i].id;
    assert UniqueIds(xs);
    GetAt(xs, k);
    forall x | x != m.id
      ensures Get(xs, x) == Get(servers, x)
    {
      if IdPresent(servers, x) {
        var i :| 0 <= i < |servers| && servers[i].id == x;
        GetAt(xs, i);
        GetAt(servers, i);
      } else {
        assert !IdPresent(xs, x);
      }
    }
  }

  /**
   * A successful update of `id` that keeps the id: ids stay unique and the
   * same ids are present, `id` now looks up to the merged record and every
   * other id to the record it had before.
   */
  lemma UpdateLookup(servers: seq<Server>, id: string, c: Changes)
    requires UniqueIds(servers) && c.id.None?
    requires Update(servers, id, c).Success?
    ensures var r := Update(servers, id, c).value;
      && UniqueIds(r)
      && (forall x :: IdPresent(r, x) <==> IdPresent(servers, x))
      && Get(r, id) == Some(Merge(Get(servers, id).value, c))
      && (forall x | x != id :: Get(r, x) == Get(servers, x))
  {
    var r := Update(servers, id, c).value;
    var k := FindIndex(servers, id).value;
    var m := Merge(servers[k], c);
    assert Get(servers, id) == Some(servers[k]);
    UpdateKeepsUniqueIds(servers, id, c);
    ReplaceLookup(servers, k, m);
    var xs := servers[k := m];
    assert multiset(r) == multiset(xs);
    forall x
      ensures Get(r, x) == Get(xs, x)
      ensures IdPresent(r, x) <==> IdPresent(xs, x)
    {
      GetByContents(r, xs, x);
    }
  }

  /**
   * One step of the pass over a present tenant with at least one option:
   * ids stay unique and present, the tenant looks up to its merged record
   * if that validates and to its old record otherwise, and every other
   * tenant looks up as before.
   */
  lemma UpdateOneEffect(servers: seq<Server>, id: string, o: UpdateOptions)
    requires UniqueIds(servers) && IdPresent(servers, id) && HasChanges(o)
    ensures var s1 := UpdateOne(servers, id, o).servers;
      && UniqueIds(s1)
      && (forall x :: IdPresent(s1, x) <==> IdPresent(servers, x))
      && Get(s1, id) == (if WellFormed(Merged(servers, id, o).value) then Merged(servers, id, o) else Get(servers, id))
      && (forall x | x != id :: Get(s1, x) == Get(servers, x))
  {
    if UpdateOne(servers, id, o).reports[0].Updated? {
      UpdateLookup(servers, id, ToChanges(o));
    }
  }

  /** Each tenant's lookup after the pass: the merged record if it validated, the old one otherwise. */
  function Expected(servers: seq<Server>, ids: seq<string>, o: UpdateOptions, x: string): Option<Server> {
    if x in ids && Merged(servers, x, o).Some? && WellFormed(Merged(servers, x, o).value)
    then Merged(servers, x, o)
    else Get(servers, x)
  }

  /** Every step of the pass keeps ids unique, keeps the same ids present and leaves other tenants alone. */
  lemma UpdateOneKeeps(servers: seq<Server>, id: string, o: UpdateOptions)
    requires UniqueIds(servers)
    ensures var s1 := UpdateOne(servers, id, o).servers;
      && UniqueIds(s1)
      && (forall x :: IdPresent(s1, x) <==> IdPresent(servers, x))
      && (forall x | x != id :: Get(s1, x) == Get(servers, x))
      && (forall x | x != id :: Merged(s1, x, o) == Merged(servers, x, o))
  {
    if UpdateOne(servers, id, o).reports[0].Updated? {
      UpdateLookup(servers, id, ToChanges(o));
    }
  }

  /** The pass keeps ids unique and keeps the same ids present. */
  lemma {:induction false} UpdateAllKeepsIds(servers: seq<Server>, ids: seq<string>, o: UpdateOptions)
    requires UniqueIds(servers)
    ensures UniqueIds(UpdateAll(servers, ids, o).servers)
    ensures forall x :: IdPresent(UpdateAll(servers, ids, o).servers, x) <==> IdPresent(servers, x)
    decreases |ids|
  {
    if |ids| > 0 {
      UpdateOneKeeps(servers, ids[0], o);
      UpdateAllKeepsIds(UpdateOne(servers, ids[0], o).servers, ids[1..], o);
    }
  }

  /** A tenant the pass does not name looks up as before. */
  lemma {:induction false} UpdateAllLeavesOthers(servers: seq<Server>, ids: seq<string>, o: UpdateOptions, x: string)
    requires UniqueIds(servers) && x !in ids
    ensures Get(UpdateAll(servers, ids, o).servers, x) == Get(servers, x)
    decreases |ids|
  {
    if |ids| > 0 {
      assert x != ids[0] && x !in ids[1..];
      UpdateOneKeeps(servers, ids[0], o);
      UpdateAllLeavesOthers(UpdateOne(servers, ids[0], o).servers, ids[1..], o, x);
    }
  }

  /** The report a present tenant gets when there is something to change: updated exactly when the merged record validates. */
  predicate Reported(servers: seq<Server>, id: string, o: UpdateOptions, report: UpdateReport) {
    && Merged(servers, id, o).Some?
    && (report.Updated? || report.UpdateRejected?)
    && (report.Updated? <==> WellFormed(Merged(servers, id, o).value))
  }

  /** The report depends on the registry only through the record it merges. */
  lemma ReportedAgain(a: seq<Server>, b: seq<Server>, id: string, o: UpdateOptions, report: UpdateReport)
    requires Merged(a, id, o) == Merged(b, id, o)
    requires Reported(a, id, o, report)
    ensures Reported(b, id, o, report)
  {
  }

  /**
   * Over distinct, present ids with at least one option, the pass reports
   * every tenant as updated or rejected by validation, never as missing or
   * as having nothing to change, and as updated exactly when its merged
   * record validates.
   */
  lemma {:induction false} UpdateAllReports(servers: seq<Server>, ids: seq<string>, o: UpdateOptions)
    requires UniqueIds(servers) && Distinct(ids) && HasChanges(o)
    requires forall id | id in ids :: IdPresent(servers, id)
    ensures var p := UpdateAll(servers, ids, o);
      forall i | 0 <= i < |ids| :: Reported(servers, ids[i], o, p.reports[i])
    decreases |ids|
  {
    if |ids| > 0 {
      var p := UpdateAll(servers, ids, o);
      var tail := ids[1..];
      var first := UpdateOne(servers, ids[0], o);
      var rest := UpdateAll(first.servers, tail, o);
      assert p.reports == first.reports + rest.reports;
      DistinctTail(ids);
      UpdateOneKeeps(servers, ids[0], o);
      assert forall id | id in tail :: IdPresent(first.servers, id);
      UpdateAllReports(first.servers, tail, o);
      ReportedFirst(servers, ids[0], o);
      ReportsShift(servers, first.servers, ids, o, first.reports, rest.reports);
    }
  }

  /** A present tenant with something to change gets the report its merged record calls for. */
  lemma ReportedFirst(servers: seq<Server>, id: string, o: UpdateOptions)
    requires IdPresent(servers, id) && HasChanges(o)
    ensures Reported(servers, id, o, UpdateOne(servers, id, o).reports[0])
  {
  }

  /** The reports of the later ids, made against the registry the first update left, hold against the original. */
  lemma ReportsShift(servers: seq<Server>, s1: seq<Server>, ids: seq<string>, o: UpdateOptions, head: seq<UpdateReport>, rest: seq<UpdateReport>)
    requires |ids| > 0 && |head| == 1 && |rest| == |ids| - 1 && Distinct(ids)
    requires forall x | x != ids[0] :: Merged(s1, x, o) == Merged(servers, x, o)
    requires forall i | 0 <= i < |ids| - 1 :: Reported(s1, ids[1..][i], o, rest[i])
    ensures forall i | 0 < i < |ids| :: Reported(servers, ids[i], o, (head + rest)[i])
  {
    forall i | 0 < i < |ids|
      ensures Reported(servers, ids[i], o, (head + rest)[i])
    {
      assert ids[i] == ids[1..][i - 1];
      assert (head + rest)[i] == rest[i - 1];
      assert ids[i] != ids[0];
      ReportedAgain(s1, servers, ids[i], o, rest[i - 1]);
    }
  }

  /** Over distinct, present ids, each named tenant ends with its merged record if that validates, its old record if not. */
  lemma {:induction false} UpdateAllLookups(servers: seq<Server>, ids: seq<string>, o: UpdateOptions)
    requires UniqueIds(servers) && Distinct(ids) && HasChanges(o)
    requires forall id | id in ids :: IdPresent(servers, id)
    ensures forall x | x in ids :: Get(UpdateAll(servers, ids, o).servers, x) == Expected(servers, ids, o, x)
    decreases |ids|
  {
    if |ids| > 0 {
      var id := ids[0];
      var tail := ids[1..];
      var s1 := UpdateOne(servers, id, o).servers;
      var after := UpdateAll(servers, ids, o).servers;
      assert after == UpdateAll(s1, tail, o).servers;
      DistinctTail(ids);
      UpdateOneEffect(servers, id, o);
      UpdateAllLookups(s1, tail, o);
      UpdateOneKeeps(servers, id, o);
      forall x | x in ids
        ensures Get(after, x) == Expected(servers, ids, o, x)
      {
        if x != id {
          ExpectedShift(servers, s1, ids, o, x);
        } else {
          UpdateAllLeavesOthers(s1, tail, o, x);
        }
      }
    }
  }

  /** After the first id's update, the expectation for any other id is unchanged. */
  lemma ExpectedShift(servers: seq<Server>, s1: seq<Server>, ids: seq<string>, o: UpdateOptions, x: string)
    requires |ids| > 0 && x != ids[0]
    requires Get(s1, x) == Get(servers, x) && Merged(s1, x, o) == Merged(servers, x, o)
    ensures Expected(s1, ids[1..], o, x) == Expected(servers, ids, o, x)
  {
    assert x in ids[1..] <==> x in ids;
  }

  /**
   * `handleConfigUpdate` fails for missing targets, then for missing
   * options, then for a target that does not resolve; otherwise every
   * resolved tenant is reported as updated or rejected, and the registry
   * afterwards holds the same ids with exactly the validating updates applied.
   */
  lemma HandleUpdateOutcome(servers: seq<Server>, targets: seq<string>, o: UpdateOptions)
    requires UniqueIds(servers)
    ensures HandleUpdate(servers, targets, o) == Failure(NoTargets) <==> |targets| == 0
    ensures HandleUpdate(servers, targets, o) == Failure(NoOptions) <==> |targets| > 0 && !HasChanges(o)
    ensures HandleUpdate(servers, targets, o).Failure? && HandleUpdate(servers, targets, o).error.Unresolved? <==>
      |targets| > 0 && HasChanges(o) && ResolveTargets(servers, targets).Failure?
    ensures HandleUpdate(servers, targets, o).Success? ==>
      var ids := ResolveTargets(servers, targets).value;
      var p := HandleUpdate(servers, targets, o).value;
      && |p.reports| == |ids|
      && (forall i | 0 <= i < |ids| :: p.reports[i].id == ids[i] && Reported(servers, ids[i], o, p.reports[i]))
      && UniqueIds(p.servers)
      && (forall x :: IdPresent(p.servers, x) <==> IdPresent(servers, x))
      && (forall x :: Get(p.servers, x) == Expected(servers, ids, o, x))
  {
    if |targets| > 0 && HasChanges(o) && ResolveTargets(servers, targets).Success? {
      var ids := ResolveTargets(servers, targets).value;
      UpdateAllReports(servers, ids, o);
      UpdateAllLookups(servers, ids, o);
      UpdateAllKeepsIds(servers, ids, o);
      forall x | x !in ids
        ensures Get(UpdateAll(servers, ids, o).servers, x) == Expected(servers, ids, o, x)
      {
        UpdateAllLeavesOthers(servers, ids, o, x);
      }
    }
  }
}
