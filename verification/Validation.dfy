/** Field rules for a tenant record (`validateServer`) and the id-conflict lookup (`checkIdConflict`). */
module Validation {
  import opened Wrappers
  import opened Strings
  import opened Seqs
  import opened Types

  predicate IsIdChar(c: char) {
    IsLowerAsciiLetter(c) || IsDigit(c) || c == '-'
  }

  /** The record invariants of the data model, stated rule by rule. */
  predicate IdOk(s: Server) {
    |s.id| > 0 && forall i | 0 <= i < |s.id| :: IsIdChar(s.id[i])
  }

  predicate LabelOk(s: Server) {
    !Blank(s.labelText)
  }

  predicate VersionOk(s: Server) {
    !Blank(s.serverVersion)
  }

  predicate PortOk(s: Server) {
    1000 <= s.port <= 65535
  }

  predicate WellFormed(s: Server) {
    IdOk(s) && LabelOk(s) && VersionOk(s) && PortOk(s)
  }

  /** The rule a violation stands for does not hold of the record. */
  predicate Violates(s: Server, v: Violation) {
    match v
    case BadId => !IdOk(s)
    case MissingLabel => !LabelOk(s)
    case MissingVersion => !VersionOk(s)
    case BadPort => !PortOk(s)
  }

  /** `/^[a-z0-9-]+$/.test(s)`, as a left-to-right scan. */
  function MatchesIdPattern(s: string): (b: bool)
    ensures b <==> |s| > 0 && forall i | 0 <= i < |s| :: IsIdChar(s[i])
  {
    if |s| == 0 then false
    else if !IsIdChar(s[0]) then false
    else if |s| == 1 then true
    else
      var rest := MatchesIdPattern(s[1..]);
      assert forall i | 1 <= i < |s| :: s[i] == s[1..][i - 1];
      rest
  }

  /** The rules in the order `validateServer` checks them. */
  const Rules: seq<Violation> := [BadId, MissingLabel, MissingVersion, BadPort]

  predicate RankSorted(vs: seq<Violation>) {
    forall i, j | 0 <= i < j < |vs| :: vs[i].Rank() < vs[j].Rank()
  }

  /** A record that is not well formed breaks one of the four rules. */
  lemma BrokenRule(s: Server)
    ensures WellFormed(s) <==> !Violates(s, BadId) && !Violates(s, MissingLabel) && !Violates(s, MissingVersion) && !Violates(s, BadPort)
  {
  }

  /** The rules are checked in rank order. */
  lemma RulesSorted()
    ensures RankSorted(Rules)
  {
    assert forall i | 0 <= i < |Rules| :: Rules[i].Rank() == i;
  }

  /** Every rule is checked. */
  lemma RulesComplete()
    ensures forall v: Violation :: v in Rules
  {
    forall v: Violation
      ensures v in Rules
    {
      match v
      case BadId => assert Rules[0] == v;
      case MissingLabel => assert Rules[1] == v;
      case MissingVersion => assert Rules[2] == v;
      case BadPort => assert Rules[3] == v;
    }
  }

  /** The rules among `rules` that are in `failing`, kept in checking order. */
  function Failed(rules: seq<Violation>, failing: set<Violation>): (errors: seq<Violation>)
    ensures forall v | v in errors :: v in rules && v in failing
    ensures forall v | v in rules && v in failing :: v in errors
    ensures RankSorted(rules) ==> RankSorted(errors)
  {
    if |rules| == 0 then []
    else
      var rest := Failed(rules[1..], failing);
      SortedTail(rules);
      if rules[0] in failing then
        SortedCons(rules[0], rest, rules[1..]);
        [rules[0]] + rest
      else
        rest
  }

  lemma SortedTail(rules: seq<Violation>)
    requires |rules| > 0
    ensures RankSorted(rules) ==> RankSorted(rules[1..]) && forall v | v in rules[1..] :: rules[0].Rank() < v.Rank()
  {
    if RankSorted(rules) {
      forall v | v in rules[1..]
        ensures rules[0].Rank() < v.Rank()
      {
        var k :| 0 <= k < |rules[1..]| && rules[1..][k] == v;
        assert rules[k + 1] == v;
      }
    }
  }

  lemma SortedCons(x: Violation, rest: seq<Violation>, from: seq<Violation>)
    requires forall v | v in rest :: v in from
    ensures RankSorted(rest) && (forall v | v in from :: x.Rank() < v.Rank()) ==> RankSorted([x] + rest)
  {
    if RankSorted(rest) && (forall v | v in from :: x.Rank() < v.Rank()) {
      forall i, j | 0 <= i < j < |[x] + rest|
        ensures ([x] + rest)[i].Rank() < ([x] + rest)[j].Rank()
      {
        assert ([x] + rest)[j] == rest[j - 1] && rest[j - 1] in rest;
        if i > 0 {
          assert ([x] + rest)[i] == rest[i - 1];
        }
      }
    }
  }

  /** The rules the record fails, each by the check `validateServer` performs. */
  function FailingRules(s: Server): (failing: set<Violation>)
    ensures forall v: Violation :: v in failing <==> Violates(s, v)
  {
    RulesComplete();
    set v | v in Rules && RuleFails(s, v)
  }

  /** The check `validateServer` performs for one rule. */
  function RuleFails(s: Server, v: Violation): (b: bool)
    ensures b <==> Violates(s, v)
  {
    match v
    case BadId => s.id == "" || !MatchesIdPattern(s.id)
    case MissingLabel => BlankField(s.labelText)
    case MissingVersion => BlankField(s.serverVersion)
    case BadPort => s.port == 0 || s.port < 1000 || s.port > 65535
  }

  /** `!server.label || server.label.trim().length === 0` and the same test on the version. */
  predicate BlankField(text: string)
    ensures BlankField(text) <==> Blank(text)
  {
    TrimEmptyIffBlank(text);
    text == "" || |Trim(text)| == 0
  }

  /**
   * `validateServer`: one message per violated rule, checked in the order
   * id, label, server version, port; valid exactly when no message was produced.
   */
  function ValidateServer(s: Server): (r: ValidationResult)
    ensures r.valid <==> |r.errors| == 0
    ensures r.valid <==> WellFormed(s)
    ensures forall v | v in r.errors :: Violates(s, v)
    ensures forall v: Violation | Violates(s, v) :: v in r.errors
    ensures RankSorted(r.errors)
  {
    var errors := Failed(Rules, FailingRules(s));
    RulesSorted();
    RulesComplete();
    BrokenRule(s);
    assert |errors| > 0 ==> errors[0] in errors;
    ValidationResult(|errors| == 0, errors)
  }

  /** Ranks strictly increase along a rank-ordered list, so they spread at least one per step. */
  lemma {:induction false} RankGap(errors: seq<Violation>)
    requires RankSorted(errors) && |errors| > 0
    ensures errors[|errors| - 1].Rank() >= errors[0].Rank() + |errors| - 1
  {
    if |errors| > 1 {
      var p := errors[..|errors| - 1];
      assert RankSorted(p);
      RankGap(p);
      assert errors[|errors| - 2].Rank() < errors[|errors| - 1].Rank();
    }
  }

  /** A rank-ordered list whose only member is `v` is exactly `[v]`. */
  lemma SoleViolation(errors: seq<Violation>, v: Violation)
    requires RankSorted(errors)
    requires v in errors
    requires forall x | x in errors :: x == v
    ensures errors == [v]
  {
    assert errors[0] in errors && errors[|errors| - 1] in errors;
    RankGap(errors);
  }

  /**
   * Breaking a single required field of a valid record yields exactly the
   * error of that field's rule.
   */
  lemma SingleFieldBreaks(s: Server)
    requires WellFormed(s)
    ensures ValidateServer(s.(id := "")).errors == [BadId]
    ensures ValidateServer(s.(id := "Demo")).errors == [BadId]
    ensures ValidateServer(s.(labelText := " ")).errors == [MissingLabel]
    ensures ValidateServer(s.(serverVersion := "")).errors == [MissingVersion]
    ensures ValidateServer(s.(port := 999)).errors == [BadPort]
  {
    assert !IsIdChar("Demo"[0]);
    BreakId(s, "");
    BreakId(s, "Demo");
    assert IsSpace(" "[0]);
    BreakLabel(s, " ");
    BreakVersion(s, "");
    BreakPort(s, 999);
  }

  lemma BreakId(s: Server, id: string)
    requires WellFormed(s) && !IdOk(s.(id := id))
    ensures ValidateServer(s.(id := id)).errors == [BadId]
  {
    OnlyViolation(s.(id := id), BadId);
  }

  lemma BreakLabel(s: Server, text: string)
    requires WellFormed(s) && !LabelOk(s.(labelText := text))
    ensures ValidateServer(s.(labelText := text)).errors == [MissingLabel]
  {
    OnlyViolation(s.(labelText := text), MissingLabel);
  }

  lemma BreakVersion(s: Server, version: string)
    requires WellFormed(s) && !VersionOk(s.(serverVersion := version))
    ensures ValidateServer(s.(serverVersion := version)).errors == [MissingVersion]
  {
    OnlyViolation(s.(serverVersion := version), MissingVersion);
  }

  lemma BreakPort(s: Server, port: int)
    requires WellFormed(s) && !PortOk(s.(port := port))
    ensures ValidateServer(s.(port := port)).errors == [BadPort]
  {
    OnlyViolation(s.(port := port), BadPort);
  }

  /** A record that breaks exactly one rule gets exactly that rule's error. */
  lemma OnlyViolation(s: Server, v: Violation)
    requires Violates(s, v)
    requires forall x: Violation | x != v :: !Violates(s, x)
    ensures ValidateServer(s).errors == [v]
  {
    SoleViolation(ValidateServer(s).errors, v);
  }

  /** The port rule is inclusive at both ends: 1000 and 65535 pass, 0, 999 and 65536 fail. */
  lemma PortBounds(s: Server)
    ensures !Violates(s.(port := 1000), BadPort) && !Violates(s.(port := 65535), BadPort)
    ensures BadPort in ValidateServer(s.(port := 0)).errors
    ensures BadPort in ValidateServer(s.(port := 999)).errors
    ensures BadPort in ValidateServer(s.(port := 65536)).errors
    ensures BadPort !in ValidateServer(s.(port := 1000)).errors
    ensures BadPort !in ValidateServer(s.(port := 65535)).errors
  {
  }

  /**
   * `checkIdConflict`: the first record with this id, unless the id is the
   * excluded one (an absent `excludeId` excludes nothing).
   */
  function CheckIdConflict(servers: seq<Server>, id: string, excludeId: Option<string>): (r: Option<Server>)
    ensures r.Some? <==> excludeId != Some(id) && IdPresent(servers, id)
    ensures r.Some? ==> r.value.id == id
    ensures r.Some? ==> exists k | 0 <= k < |servers| :: servers[k] == r.value && forall j | 0 <= j < k :: servers[j].id != id
  {
    if |servers| == 0 then None
    else if servers[0].id == id && Some(servers[0].id) != excludeId then
      Some(servers[0])
    else
      var r := CheckIdConflict(servers[1..], id, excludeId);
      assert forall j | 1 <= j < |servers| :: servers[j] == servers[1..][j - 1];
      assert IdPresent(servers, id) ==> servers[0].id == id || IdPresent(servers[1..], id);
      if r.Some? then
        var k :| 0 <= k < |servers[1..]| && servers[1..][k] == r.value && forall j | 0 <= j < k :: servers[1..][j].id != id;
        assert servers[k + 1] == r.value;
        r
      else
        r
  }
}
