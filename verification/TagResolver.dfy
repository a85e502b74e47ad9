/**
 * `resolveTargets`: turns command-line selectors (`all`, `@tag`,
 * `server=VERSION`, or a literal id with a bare-tag fallback) into the
 * distinct ids they select, in first-seen order.
 */
module TagResolver {
  import opened Wrappers
  import opened Strings
  import opened Seqs
  import opened Types
  import opened ServerStore

  /** What one selector string asks for, in the order the resolver tests the forms. */
  datatype Selector =
    | Everything
    | Tagged(tag: string)
    | AtVersion(version: string)
    | Literal(target: string)

  const VersionPrefix := "server="

  /** `target === "all"`, then `startsWith("@")`, then `startsWith("server=")`, else a literal. */
  function Classify(target: string): Selector {
    if target == "all" then Everything
    else if StartsWith(target, "@") then Tagged(target[1..])
    else if StartsWith(target, VersionPrefix) then AtVersion(target[|VersionPrefix|..])
    else Literal(target)
  }

  /** The selector string of each form. */
  function Render(sel: Selector): string {
    match sel
    case Everything => "all"
    case Tagged(tag) => "@" + tag
    case AtVersion(version) => VersionPrefix + version
    case Literal(target) => target
  }

  /** A literal that would be read as one of the other forms cannot be written. */
  predicate Expressible(sel: Selector) {
    sel.Literal? ==> sel.target != "all" && !StartsWith(sel.target, "@") && !StartsWith(sel.target, VersionPrefix)
  }

  /** Classifying and rendering back gives the original string. */
  lemma RenderClassify(target: string)
    ensures Render(Classify(target)) == target
    ensures Expressible(Classify(target))
  {
    if target != "all" && StartsWith(target, "@") {
      assert target == [target[0]] + target[1..];
    } else if target != "all" && StartsWith(target, VersionPrefix) {
      assert target == target[..7] + target[7..];
    }
  }

  /** Every expressible selector is recovered from its string; in particular `"all"` is never an id. */
  lemma ClassifyRender(sel: Selector)
    requires Expressible(sel)
    ensures Classify(Render(sel)) == sel
  {
    match sel
    case Everything =>
    case Tagged(tag) =>
      var s := "@" + tag;
      assert s[0] == '@' && s[1..] == tag;
      assert s != "all" by { assert s[0] != "all"[0]; }
    case AtVersion(version) =>
      var s := VersionPrefix + version;
      assert s[..|VersionPrefix|] == VersionPrefix && s[|VersionPrefix|..] == version;
      assert s[0] == 's';
      assert s != "all" by { assert s[0] != "all"[0]; }
    case Literal(target) =>
  }

  /** The errors the resolver throws. */
  datatype ResolveError =
    | NoTagMatch(tag: string)
    | NoVersionMatch(version: string)
    | UnknownTarget(target: string)
  {
    function Message(): string {
      match this
      case NoTagMatch(tag) => "No servers found with tag '" + tag + "'"
      case NoVersionMatch(version) => "No servers found with version '" + version + "'"
      case UnknownTarget(target) => "Server or tag '" + target + "' not found"
    }
  }

  /** The record `s` is one a selector stands for: the reference meaning of each form. */
  predicate Picks(servers: seq<Server>, sel: Selector, s: Server) {
    match sel
    case Everything => true
    case Tagged(tag) => HasTag(s, tag)
    case AtVersion(version) => s.serverVersion == version
    case Literal(target) => if IdPresent(servers, target) then s.id == target else HasTag(s, target)
  }

  /** `id` is the id of some record the selector stands for. */
  predicate PicksId(servers: seq<Server>, sel: Selector, id: string) {
    exists i | 0 <= i < |servers| :: servers[i].id == id && Picks(servers, sel, servers[i])
  }

  /** A selector resolves unless it stands for no record; `all` resolves even on an empty registry. */
  predicate Resolves(servers: seq<Server>, sel: Selector) {
    sel.Everything? || exists i | 0 <= i < |servers| :: Picks(servers, sel, servers[i])
  }

  /** The ids of a list of records, membership stated through the records. */
  lemma IdsOfRecords(rs: seq<Server>, id: string)
    ensures id in Ids(rs) <==> exists x | x in rs :: x.id == id
  {
    if id in Ids(rs) {
      var i :| 0 <= i < |rs| && Ids(rs)[i] == id;
      assert rs[i] in rs;
    }
  }

  /** The ids one selector contributes, or the error it throws. */
  function SelectIds(servers: seq<Server>, sel: Selector): (r: Result<seq<string>, ResolveError>)
  {
    match sel
    case Everything => Success(Ids(servers))
    case Tagged(tag) =>
      var found := GetByTag(servers, tag);
      if |found| == 0 then Failure(NoTagMatch(tag)) else Success(Ids(found))
    case AtVersion(version) =>
      var found := GetByVersion(servers, version);
      if |found| == 0 then Failure(NoVersionMatch(version)) else Success(Ids(found))
    case Literal(target) =>
      if Get(servers, target).None? then
        var found := GetByTag(servers, target);
        if |found| > 0 then Success(Ids(found)) else Failure(UnknownTarget(target))
      else Success([target])
  }

  /** One selector resolves exactly to the ids of the records it stands for, and fails exactly when there are none. */
  lemma SelectIdsMeaning(servers: seq<Server>, sel: Selector)
    ensures SelectIds(servers, sel).Success? <==> Resolves(servers, sel)
    ensures SelectIds(servers, sel).Success? ==>
      forall id :: id in SelectIds(servers, sel).value <==> PicksId(servers, sel, id)
  {
    match sel
    case Everything =>
      forall id
        ensures id in Ids(servers) <==> PicksId(servers, sel, id)
      {
        if id in Ids(servers) {
          var i :| 0 <= i < |servers| && Ids(servers)[i] == id;
        }
      }
    case Tagged(tag) =>
      var found := GetByTag(servers, tag);
      FoundMeaning(servers, sel, found);
    case AtVersion(version) =>
      var found := GetByVersion(servers, version);
      FoundMeaning(servers, sel, found);
    case Literal(target) =>
      if Get(servers, target).None? {
        var found := GetByTag(servers, target);
        FoundMeaning(servers, sel, found);
      } else {
        var k :| 0 <= k < |servers| && servers[k].id == target;
        assert Picks(servers, sel, servers[k]);
      }
  }

  /** A filter result that holds exactly the picked records gives exactly the picked ids. */
  lemma FoundMeaning(servers: seq<Server>, sel: Selector, found: seq<Server>)
    requires !sel.Everything?
    requires forall x | x in found :: x in servers && Picks(servers, sel, x)
    requires forall i | 0 <= i < |servers| && Picks(servers, sel, servers[i]) :: servers[i] in found
    ensures |found| > 0 <==> Resolves(servers, sel)
    ensures forall id :: id in Ids(found) <==> PicksId(servers, sel, id)
  {
    if |found| > 0 {
      assert found[0] in found;
    }
    forall id
      ensures id in Ids(found) <==> PicksId(servers, sel, id)
    {
      IdsOfRecords(found, id);
      if PicksId(servers, sel, id) {
        var i :| 0 <= i < |servers| && servers[i].id == id && Picks(servers, sel, servers[i]);
        assert servers[i] in found;
      }
    }
  }

  /** The ids one target selects on its own; none when it does not resolve. */
  function Selection(servers: seq<Server>, target: string): seq<string> {
    match SelectIds(servers, Classify(target))
    case Success(ids) => ids
    case Failure(_) => []
  }

  /** One selection per target, in target order. */
  function Selections(servers: seq<Server>, targets: seq<string>): (r: seq<seq<string>>)
    ensures |r| == |targets|
  {
    seq(|targets|, j requires 0 <= j < |targets| => Selection(servers, targets[j]))
  }

  /** The concatenated ids of the selectors, left to right; the first failing selector aborts. */
  function Collect(servers: seq<Server>, targets: seq<string>): (r: Result<seq<string>, ResolveError>)
    ensures r.Success? <==> forall j | 0 <= j < |targets| :: Resolves(servers, Classify(targets[j]))
    ensures r.Failure? ==> exists j | 0 <= j < |targets| ::
      (forall m | 0 <= m < j :: Resolves(servers, Classify(targets[m])))
      && SelectIds(servers, Classify(targets[j])) == Failure(r.error)
  {
    if |targets| == 0 then Success([])
    else
      var first := SelectIds(servers, Classify(targets[0]));
      SelectIdsMeaning(servers, Classify(targets[0]));
      var rest := Collect(servers, targets[1..]);
      assert forall j | 1 <= j < |targets| :: targets[j] == targets[1..][j - 1];
      if first.Failure? then Failure(first.error)
      else if rest.Failure? then
        var j :| 0 <= j < |targets[1..]| && (forall m | 0 <= m < j :: Resolves(servers, Classify(targets[1..][m])))
          && SelectIds(servers, Classify(targets[1..][j])) == Failure(rest.error);
        assert forall m | 1 <= m < j + 1 :: targets[m] == targets[1..][m - 1];
        Failure(rest.error)
      else
        Success(first.value + rest.value)
  }

  /** A successful collection is each target's own selection, concatenated in target order. */
  lemma {:induction false} CollectConcat(servers: seq<Server>, targets: seq<string>)
    requires Collect(servers, targets).Success?
    ensures Collect(servers, targets).value == Flatten(Selections(servers, targets))
  {
    if |targets| > 0 {
      var first := SelectIds(servers, Classify(targets[0]));
      var rest := Collect(servers, targets[1..]);
      assert first.Success? && rest.Success?;
      CollectConcat(servers, targets[1..]);
      assert Selections(servers, targets) == [first.value] + Selections(servers, targets[1..]);
      assert Collect(servers, targets).value == first.value + rest.value;
    }
  }

  /** Some target picks the id. */
  predicate PickedBySome(servers: seq<Server>, targets: seq<string>, id: string) {
    exists j | 0 <= j < |targets| :: PicksId(servers, Classify(targets[j]), id)
  }

  /** An id is picked by some target exactly when the first or one of the rest picks it. */
  lemma PickedBySomeCons(servers: seq<Server>, targets: seq<string>, id: string)
    requires |targets| > 0
    ensures PickedBySome(servers, targets, id) <==>
      PicksId(servers, Classify(targets[0]), id) || PickedBySome(servers, targets[1..], id)
  {
    if PickedBySome(servers, targets, id) {
      var j :| 0 <= j < |targets| && PicksId(servers, Classify(targets[j]), id);
      if j > 0 {
        assert targets[j] == targets[1..][j - 1];
      }
    }
    if PickedBySome(servers, targets[1..], id) {
      var j :| 0 <= j < |targets[1..]| && PicksId(servers, Classify(targets[1..][j]), id);
      assert targets[1..][j] == targets[j + 1];
    }
  }

  /** A successful collection holds exactly the ids some target picks. */
  lemma {:induction false} CollectIds(servers: seq<Server>, targets: seq<string>)
    requires Collect(servers, targets).Success?
    ensures forall id :: id in Collect(servers, targets).value <==> PickedBySome(servers, targets, id)
  {
    if |targets| > 0 {
      var first := SelectIds(servers, Classify(targets[0]));
      SelectIdsMeaning(servers, Classify(targets[0]));
      var rest := Collect(servers, targets[1..]);
      CollectIds(servers, targets[1..]);
      assert Collect(servers, targets).value == first.value + rest.value;
      forall id
        ensures id in Collect(servers, targets).value <==> PickedBySome(servers, targets, id)
      {
        PickedBySomeCons(servers, targets, id);
      }
    }
  }

  /**
   * `resolveTargets`: the collected ids with repeats removed at first
   * occurrence, or the first selector's error.
   */
  function ResolveTargets(servers: seq<Server>, targets: seq<string>): (r: Result<seq<string>, ResolveError>)
    ensures r.Success? <==> forall j | 0 <= j < |targets| :: Resolves(servers, Classify(targets[j]))
    ensures r.Failure? ==> exists j | 0 <= j < |targets| ::
      (forall m | 0 <= m < j :: Resolves(servers, Classify(targets[m])))
      && SelectIds(servers, Classify(targets[j])) == Failure(r.error)
    ensures r.Success? ==> Distinct(r.value)
    ensures r.Success? ==> forall id | id in r.value :: IdPresent(servers, id)
    ensures r.Success? ==> forall id | id in r.value :: exists j | 0 <= j < |targets| :: PicksId(servers, Classify(targets[j]), id)
    ensures r.Success? ==> forall j, id | 0 <= j < |targets| && PicksId(servers, Classify(targets[j]), id) :: id in r.value
    ensures r.Success? ==> FirstSeen(r.value, Flatten(Selections(servers, targets)))
  {
    var c := Collect(servers, targets);
    if c.Failure? then Failure(c.error)
    else
      CollectIds(servers, targets);
      CollectConcat(servers, targets);
      DedupFirstSeen(c.value);
      Success(Dedup(c.value))
  }

  /** `all` yields every id in registry order, `[]` for an empty registry, even when a record is named "all". */
  lemma ResolveAll(servers: seq<Server>)
    requires UniqueIds(servers)
    ensures ResolveTargets(servers, ["all"]) == Success(Ids(servers))
  {
    assert Collect(servers, ["all"][1..]) == Success([]);
    assert Collect(servers, ["all"]) == Success(Ids(servers) + []);
    assert Ids(servers) + [] == Ids(servers);
    DedupOfDistinct(Ids(servers));
  }

  /** A repeated id and a tag matching the same record give that id once: `["a", "a", "@x"]` gives `["a"]`. */
  lemma ResolveRepeated(s: Server)
    requires s.id == "a" && s.tags == Some(["x"])
    ensures ResolveTargets([s], ["a", "a", "@x"]) == Success(["a"])
  {
    var servers := [s];
    assert Get(servers, "a") == Some(s);
    assert !StartsWith("a", "@") by { assert "a"[..1] == "a" && "a"[0] != "@"[0]; }
    assert Classify("a") == Literal("a");
    assert SelectIds(servers, Classify("a")) == Success(["a"]);
    assert StartsWith("@x", "@");
    assert Classify("@x") == Tagged("x");
    assert HasTag(s, "x");
    assert GetByTag(servers, "x") == [s] by {
      assert servers[1..] == [];
    }
    assert Ids([s]) == ["a"];
    assert SelectIds(servers, Classify("@x")) == Success(["a"]);
    var ts := ["a", "a", "@x"];
    assert ts[1..] == ["a", "@x"] && ts[1..][1..] == ["@x"] && ts[1..][1..][1..] == [];
    assert ts[0] == "a" && ts[1..][0] == "a" && ts[1..][1..][0] == "@x";
    var one := ts[1..][1..];
    assert Collect(servers, one[1..]) == Success([]);
    assert SelectIds(servers, Classify(one[0])) == Success(["a"]);
    assert Collect(servers, one) == Success(["a"] + []);
    assert ["a"] + [] == ["a"] && ["a"] + ["a"] == ["a", "a"] && ["a"] + ["a", "a"] == ["a", "a", "a"];
    assert Collect(servers, ts[1..]) == Success(["a"] + ["a"]);
    assert Collect(servers, ts) == Success(["a"] + ["a", "a"]);
    assert Dedup(["a", "a", "a"]) == ["a"] by {
      assert ["a", "a", "a"][..2] == ["a", "a"];
      assert ["a", "a"][..1] == ["a"];
      assert Dedup(["a"]) == ["a"] by { assert ["a"][..0] == []; }
    }
  }
}
