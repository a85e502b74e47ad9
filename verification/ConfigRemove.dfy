/**
 * `wb config remove`: the target is resolved, the removal is confirmed at
 * a prompt unless forced, and every resolved tenant is removed in turn.
 * Only the registry changes; running containers are left running.
 */
module ConfigRemove {
  import opened Wrappers
  import opened Seqs
  import opened Strings
  import opened Types
  import opened ServerStore
  import opened TagResolver

  /** Why the command exits with status 1. */
  datatype RemoveError =
    | MissingTarget
    | Unresolved(cause: ResolveError)
    | StoreFailed(storeError: StoreError)

  /** `Cancelled.` at the prompt, or the registry as the command leaves it with the error it exits with, if any. */
  datatype RemoveOutcome =
    | Cancelled
    | Finished(servers: seq<Server>, failure: Option<RemoveError>)

  /** The prompt's answer, `null` when there is none, accepted when it is `y` or `yes` in any case. */
  predicate Confirmed(response: Option<string>) {
    response.Some? && (ToLower(response.value) == "y" || ToLower(response.value) == "yes")
  }

  /** The `for` loop of `store.remove` calls; the first store error ends it. */
  function RemoveAll(servers: seq<Server>, ids: seq<string>): (o: RemoveOutcome)
    ensures o.Finished?
    ensures o.failure.Some? ==> o.failure.value.StoreFailed?
    ensures |o.servers| <= |servers|
    decreases |ids|
  {
    if |ids| == 0 then Finished(servers, None)
    else
      match Remove(servers, ids[0])
      case Failure(e) => Finished(servers, Some(StoreFailed(e)))
      case Success(next) => RemoveAll(next, ids[1..])
  }

  /**
   * The `remove` subcommand: a target is required, it must resolve, and
   * without `force` the prompt's answer decides; `response` is what the
   * prompt would return and is not consulted when forced.
   */
  function HandleRemove(servers: seq<Server>, target: string, force: bool, response: Option<string>): RemoveOutcome {
    if target == "" then Finished(servers, Some(MissingTarget))
    else
      match ResolveTargets(servers, [target])
      case Failure(e) => Finished(servers, Some(Unresolved(e)))
      case Success(ids) =>
        if !force && !Confirmed(response) then Cancelled
        else RemoveAll(servers, ids)
  }

  /** The records whose ids are not among `ids`, in registry order. */
  function Keep(servers: seq<Server>, ids: seq<string>): seq<Server> {
    Filter(servers, (s: Server) => s.id !in ids)
  }

  /** One removal of a present id is a filter on that id. */
  lemma RemoveIsFilter(servers: seq<Server>, id: string)
    requires IdPresent(servers, id)
    ensures Remove(servers, id) == Success(Keep(servers, [id]))
  {
    FilterAgree(servers, (s: Server) => s.id != id, (s: Server) => s.id !in [id]);
  }

  /** Filtering twice is filtering once with both conditions. */
  lemma {:induction false} FilterTwice(servers: seq<Server>, f: Server -> bool, g: Server -> bool)
    ensures Filter(Filter(servers, f), g) == Filter(servers, (s: Server) => f(s) && g(s))
  {
    if |servers| > 0 {
      FilterTwice(servers[1..], f, g);
    }
  }

  /** Removing one id keeps every other id present. */
  lemma KeepOthersPresent(servers: seq<Server>, id: string, x: string)
    requires IdPresent(servers, x) && x != id
    ensures IdPresent(Keep(servers, [id]), x)
  {
    var i :| 0 <= i < |servers| && servers[i].id == x;
    assert servers[i].id !in [id];
    var next := Keep(servers, [id]);
    var k :| 0 <= k < |next| && next[k] == servers[i];
  }

  /** Keeping the records outside `[id]`, then those outside `rest`, keeps those outside `[id] + rest`. */
  lemma KeepTwice(servers: seq<Server>, id: string, rest: seq<string>)
    ensures Keep(Keep(servers, [id]), rest) == Keep(servers, [id] + rest)
  {
    var f := (s: Server) => s.id !in [id];
    var g := (s: Server) => s.id !in rest;
    FilterTwice(servers, f, g);
    FilterAgree(servers, (s: Server) => f(s) && g(s), (s: Server) => s.id !in [id] + rest);
  }

  /**
   * Removing distinct, present ids one after another never meets a store
   * error and leaves exactly the other records, in their order.
   */
  lemma {:induction false} RemoveAllEffect(servers: seq<Server>, ids: seq<string>)
    requires Distinct(ids)
    requires forall id | id in ids :: IdPresent(servers, id)
    ensures RemoveAll(servers, ids) == Finished(Keep(servers, ids), None)
    decreases |ids|
  {
    if |ids| == 0 {
      FilterKeepsAll(servers, (s: Server) => s.id !in ids);
    } else {
      var id := ids[0];
      var tail := ids[1..];
      DistinctTail(ids);
      RemoveIsFilter(servers, id);
      forall x | x in tail
        ensures IdPresent(Keep(servers, [id]), x)
      {
        KeepOthersPresent(servers, id, x);
      }
      RemoveAllEffect(Keep(servers, [id]), tail);
      KeepTwice(servers, id, tail);
      assert [id] + tail == ids;
    }
  }

  /**
   * `handleConfigRemove`: a missing target and an unresolved target are the
   * only errors and change nothing; a declined prompt changes nothing; a
   * forced or confirmed removal drops exactly the records the target picks
   * and keeps the rest in order.
   */
  lemma HandleRemoveOutcome(servers: seq<Server>, target: string, force: bool, response: Option<string>)
    ensures var o := HandleRemove(servers, target, force, response);
      && (o == Finished(servers, Some(MissingTarget)) <==> target == "")
      && (o.Finished? && o.failure.Some? && o.failure.value.Unresolved? <==>
          target != "" && ResolveTargets(servers, [target]).Failure?)
      && (o.Cancelled? <==> target != "" && ResolveTargets(servers, [target]).Success? && !force && !Confirmed(response))
      && (o.Finished? && o.failure.Some? ==> o.servers == servers && !o.failure.value.StoreFailed?)
    ensures var o := HandleRemove(servers, target, force, response);
      o.Finished? && o.failure.None? ==>
        && o.servers == Keep(servers, ResolveTargets(servers, [target]).value)
        && (forall x :: x in o.servers <==> x in servers && !PicksId(servers, Classify(target), x.id))
  {
    if target != "" && ResolveTargets(servers, [target]).Success? {
      var ids := ResolveTargets(servers, [target]).value;
      RemoveAllEffect(servers, ids);
      assert [target][0] == target;
      var kept := Keep(servers, ids);
      forall x
        ensures x in kept <==> x in servers && x.id !in ids
      {
        if x in servers && x.id !in ids {
          var i :| 0 <= i < |servers| && servers[i] == x;
        }
      }
    }
  }
}
