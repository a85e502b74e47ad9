/**
 * `wb config add <id>`: a new record whose label is derived from the id,
 * whose version is the newest one in the registry and whose port is fresh.
 */
module ConfigAdd {
  import opened Wrappers
  import opened Strings
  import opened Types
  import opened Validation
  import opened PortUtils
  import opened ServerStore

  /** `replaceAll("-", " ")`. */
  function DashesToSpaces(s: string): (r: string)
    ensures |r| == |s|
    ensures forall i | 0 <= i < |s| :: r[i] == (if s[i] == '-' then ' ' else s[i])
  {
    seq(|s|, i requires 0 <= i < |s| => if s[i] == '-' then ' ' else s[i])
  }

  /** `word.charAt(0).toUpperCase() + word.slice(1)`. */
  function Capitalize(word: string): (r: string)
    ensures |r| == |word|
    ensures forall i | 0 <= i < |word| :: r[i] == (if i == 0 then ToUpperChar(word[0]) else word[i])
  {
    if |word| == 0 then "" else [ToUpperChar(word[0])] + word[1..]
  }

  /** The words after the first capitalized, the first only when `capFirst` holds. */
  function CapWords(words: seq<string>, capFirst: bool): (r: seq<string>)
    requires |words| >= 1
    ensures |r| == |words|
    ensures r[0] == (if capFirst then Capitalize(words[0]) else words[0])
    ensures forall i | 1 <= i < |words| :: r[i] == Capitalize(words[i])
  {
    seq(|words|, i requires 0 <= i < |words| => if i == 0 && !capFirst then words[0] else Capitalize(words[i]))
  }

  /** The label character at position `i`: a dash is a space, a word's first character is upper-cased. */
  function LabelChar(id: string, i: nat): char
    requires i < |id|
  {
    if id[i] == '-' then ' '
    else if i == 0 || id[i - 1] == '-' || id[i - 1] == ' ' then ToUpperChar(id[i])
    else id[i]
  }

  /** Position `i` starts a word: the start of the text when `atStart` holds, or right after a space. */
  predicate StartsWord(s: string, atStart: bool, i: nat)
    requires i < |s|
  {
    if i == 0 then atStart else s[i - 1] == ' '
  }

  /** The label `add` derives from an id: dashes become spaces and every word is capitalized. */
  function DeriveLabel(id: string): (text: string)
    ensures |text| == |id|
    ensures forall i | 0 <= i < |id| :: text[i] == LabelChar(id, i)
  {
    var spaced := DashesToSpaces(id);
    TitleCaseOfWords(spaced, true);
    TitleCaseOfSpaced(id);
    Join(CapWords(Split(spaced, ' '), true), ' ')
  }

  /** Title case after turning dashes into spaces, character by character. */
  lemma TitleCaseOfSpaced(id: string)
    ensures forall i | 0 <= i < |id| :: TitleCase(DashesToSpaces(id), true)[i] == LabelChar(id, i)
  {
    var spaced := DashesToSpaces(id);
    var t := TitleCase(spaced, true);
    forall i | 0 <= i < |id|
      ensures t[i] == LabelChar(id, i)
    {
      assert t[i] == if StartsWord(spaced, true, i) then ToUpperChar(spaced[i]) else spaced[i];
      if i > 0 {
        assert spaced[i - 1] == ' ' <==> id[i - 1] == '-' || id[i - 1] == ' ';
      }
      if id[i] == '-' {
        assert spaced[i] == ' ';
        assert ToUpperChar(' ') == ' ';
      }
    }
  }

  /** Title case, character by character: a character that starts a word is upper-cased. */
  function TitleCase(s: string, atStart: bool): (r: string)
    ensures |r| == |s|
    ensures forall i | 0 <= i < |s| :: r[i] == (if StartsWord(s, atStart, i) then ToUpperChar(s[i]) else s[i])
  {
    if |s| == 0 then ""
    else
      var rest := TitleCase(s[1..], s[0] == ' ');
      TitleCaseCons(s, atStart, rest);
      [if atStart then ToUpperChar(s[0]) else s[0]] + rest
  }

  /** The character-wise meaning of title case carries over from the tail to the whole text. */
  lemma TitleCaseCons(s: string, atStart: bool, rest: string)
    requires |s| > 0 && |rest| == |s| - 1
    requires forall i | 0 <= i < |s| - 1 ::
      rest[i] == (if StartsWord(s[1..], s[0] == ' ', i) then ToUpperChar(s[1..][i]) else s[1..][i])
    ensures forall i | 0 <= i < |s| ::
      ([if atStart then ToUpperChar(s[0]) else s[0]] + rest)[i] == (if StartsWord(s, atStart, i) then ToUpperChar(s[i]) else s[i])
  {
    var r := [if atStart then ToUpperChar(s[0]) else s[0]] + rest;
    forall i | 0 <= i < |s|
      ensures r[i] == (if StartsWord(s, atStart, i) then ToUpperChar(s[i]) else s[i])
    {
      if i > 0 {
        assert r[i] == rest[i - 1];
        assert s[1..][i - 1] == s[i];
        assert StartsWord(s[1..], s[0] == ' ', i - 1) == StartsWord(s, atStart, i) by {
          if i > 1 {
            assert s[1..][i - 2] == s[i - 1];
          }
        }
      }
    }
  }

  /** Joining parts whose first starts with `c` starts with `c`. */
  lemma JoinConsHead(c: char, x: string, ys: seq<string>, sep: char)
    ensures Join([[c] + x] + ys, sep) == [c] + Join([x] + ys, sep)
  {
    if |ys| > 0 {
      assert ([[c] + x] + ys)[1..] == ys;
      assert ([x] + ys)[1..] == ys;
    }
  }

  /** Splitting into words, capitalizing them and joining them back is title case. */
  lemma {:induction false} TitleCaseOfWords(s: string, atStart: bool)
    ensures Join(CapWords(Split(s, ' '), atStart), ' ') == TitleCase(s, atStart)
  {
    if |s| == 0 {
      assert Split(s, ' ') == [""];
      assert CapWords([""], atStart) == [""];
    } else {
      TitleCaseOfWords(s[1..], s[0] == ' ');
      if s[0] == ' ' {
        WordsAfterSpace(s, atStart);
      } else {
        WordsAfterLetter(s, atStart);
      }
    }
  }

  /** A leading space ends an empty first word. */
  lemma WordsAfterSpace(s: string, atStart: bool)
    requires |s| > 0 && s[0] == ' '
    ensures Join(CapWords(Split(s, ' '), atStart), ' ') == [' '] + Join(CapWords(Split(s[1..], ' '), true), ' ')
    ensures TitleCase(s, atStart) == [' '] + TitleCase(s[1..], true)
  {
    var rest := Split(s[1..], ' ');
    var tail := CapWords(rest, true);
    assert Split(s, ' ') == [""] + rest;
    assert CapWords([""] + rest, atStart) == [""] + tail;
    assert ([""] + tail)[1..] == tail;
    assert ToUpperChar(' ') == ' ';
  }

  /** Capitalizing words whose first starts with `c`. */
  lemma CapWordsCons(c: char, x: string, ys: seq<string>, atStart: bool)
    ensures CapWords([[c] + x] + ys, atStart)
      == [[if atStart then ToUpperChar(c) else c] + x] + CapWords([x] + ys, false)[1..]
  {
    var w := [c] + x;
    var l := CapWords([w] + ys, atStart);
    var r := CapWords([x] + ys, false);
    var target := [[if atStart then ToUpperChar(c) else c] + x] + r[1..];
    assert |l| == |target|;
    assert l[0] == target[0] by {
      CapitalizeCons(c, x);
    }
    assert l[1..] == target[1..] by {
      SameTail(w, x, ys, atStart);
    }
  }

  /** Capitalizing a word that starts with `c` upper-cases just `c`. */
  lemma CapitalizeCons(c: char, x: string)
    ensures Capitalize([c] + x) == [ToUpperChar(c)] + x
  {
    assert ([c] + x)[1..] == x;
  }

  /** The words after the first are capitalized the same way whatever the first word is. */
  lemma SameTail(w: string, x: string, ys: seq<string>, atStart: bool)
    ensures CapWords([w] + ys, atStart)[1..] == CapWords([x] + ys, false)[1..]
  {
    var l := CapWords([w] + ys, atStart);
    var r := CapWords([x] + ys, false);
    forall i | 0 <= i < |ys|
      ensures l[1..][i] == r[1..][i]
    {
      assert ([w] + ys)[i + 1] == ys[i] == ([x] + ys)[i + 1];
    }
  }

  /** Capitalizing and joining words whose first starts with `c`. */
  lemma CapJoinCons(c: char, rest: seq<string>, atStart: bool)
    requires |rest| >= 1
    ensures Join(CapWords([[c] + rest[0]] + rest[1..], atStart), ' ')
      == [if atStart then ToUpperChar(c) else c] + Join(CapWords(rest, false), ' ')
  {
    var c' := if atStart then ToUpperChar(c) else c;
    CapWordsCons(c, rest[0], rest[1..], atStart);
    assert [rest[0]] + rest[1..] == rest;
    var tail := CapWords(rest, false);
    assert tail == [rest[0]] + tail[1..];
    JoinConsHead(c', rest[0], tail[1..], ' ');
  }

  /** A leading non-space character joins the first word. */
  lemma WordsAfterLetter(s: string, atStart: bool)
    requires |s| > 0 && s[0] != ' '
    ensures Join(CapWords(Split(s, ' '), atStart), ' ')
      == [if atStart then ToUpperChar(s[0]) else s[0]] + Join(CapWords(Split(s[1..], ' '), false), ' ')
  {
    var rest := Split(s[1..], ' ');
    assert Split(s, ' ') == [[s[0]] + rest[0]] + rest[1..];
    CapJoinCons(s[0], rest, atStart);
  }

  /** The label characters of the first word of `a-b`. */
  lemma LabelInFirst(a: string, b: string, i: nat)
    requires i < |a| && '-' !in a && ' ' !in a
    ensures LabelChar(a + "-" + b, i) == Capitalize(a)[i]
  {
    var id := a + "-" + b;
    assert a[i] in a;
    assert id[i] == a[i];
    if i > 0 {
      assert a[i - 1] in a;
      assert id[i - 1] == a[i - 1];
    }
  }

  /** The label characters of the second word of `a-b`. */
  lemma LabelInSecond(a: string, b: string, j: nat)
    requires j < |b| && '-' !in b && ' ' !in b
    ensures LabelChar(a + "-" + b, |a| + 1 + j) == Capitalize(b)[j]
  {
    var id := a + "-" + b;
    var i := |a| + 1 + j;
    assert b[j] in b;
    assert id[i] == b[j];
    if j == 0 {
      assert id[i - 1] == '-';
    } else {
      assert b[j - 1] in b;
      assert id[i - 1] == b[j - 1];
    }
  }

  /** Two dash-joined words, like `south-sudan`, give the two words capitalized with a space between: `South Sudan`. */
  lemma LabelOfTwoWords(a: string, b: string)
    requires |a| > 0 && |b| > 0
    requires '-' !in a && ' ' !in a && '-' !in b && ' ' !in b
    ensures DeriveLabel(a + "-" + b) == Capitalize(a) + " " + Capitalize(b)
  {
    var id := a + "-" + b;
    var l := DeriveLabel(id);
    var ca, cb := Capitalize(a), Capitalize(b);
    assert l[..|a|] == ca by {
      forall i | 0 <= i < |a|
        ensures l[..|a|][i] == ca[i]
      {
        LabelInFirst(a, b, i);
      }
    }
    assert l[|a|] == ' ' by {
      assert id[|a|] == '-';
    }
    assert l[|a| + 1..] == cb by {
      forall j | 0 <= j < |b|
        ensures l[|a| + 1..][j] == cb[j]
      {
        LabelInSecond(a, b, j);
      }
    }
    assert l == l[..|a|] + [l[|a|]] + l[|a| + 1..];
  }

  /** An id made of dashes only passes the id rule but derives a blank label. */
  lemma DashOnlyIdRejected(n: nat)
    requires n > 0
    ensures var id := seq(n, i => '-');
      IdOk(Server(id, DeriveLabel(id), 3000, None, "1.0.0", None, None, None, None, None))
      && Blank(DeriveLabel(id))
  {
    var id := seq(n, i => '-');
    var l := DeriveLabel(id);
    assert forall i | 0 <= i < |l| :: l[i] == ' ' by {
      forall i | 0 <= i < |l|
        ensures l[i] == ' '
      {
        assert id[i] == '-';
        assert l[i] == LabelChar(id, i);
      }
    }
  }

  /** The versions of the records that have one, in registry order. */
  function Versions(servers: seq<Server>): (vs: seq<string>)
    ensures forall v :: v in vs <==> v != "" && exists s | s in servers :: s.serverVersion == v
  {
    if |servers| == 0 then []
    else
      var rest := Versions(servers[1..]);
      assert forall s | s in servers[1..] :: s in servers;
      assert forall s | s in servers :: s == servers[0] || s in servers[1..];
      (if servers[0].serverVersion != "" then [servers[0].serverVersion] else []) + rest
  }

  /**
   * `sortVersions(versions, true)[0] || "1.0.0"`. The version ordering lives
   * outside this model, so it is a parameter: any function from the versions
   * to their descending order.
   */
  function LatestVersion(servers: seq<Server>, sortDescending: seq<string> -> seq<string>): (v: string)
    ensures v != ""
    ensures multiset(sortDescending(Versions(servers))) == multiset(Versions(servers)) ==>
      v == "1.0.0" || exists s | s in servers :: s.serverVersion == v
    ensures |sortDescending(Versions(servers))| > 0 && sortDescending(Versions(servers))[0] != "" ==>
      v == sortDescending(Versions(servers))[0]
  {
    var sorted := sortDescending(Versions(servers));
    if |sorted| > 0 && sorted[0] != "" then
      assert sorted[0] in multiset(sorted);
      assert multiset(sorted) == multiset(Versions(servers)) ==> sorted[0] in Versions(servers);
      sorted[0]
    else "1.0.0"
  }

  /** The record `add` builds: trimmed id, derived label, newest version, fresh port, flags off, no admin. */
  function NewRecord(servers: seq<Server>, id: string, sortDescending: seq<string> -> seq<string>): Server {
    var trimmed := Trim(id);
    Server(trimmed, DeriveLabel(trimmed), AllocatePort(servers, None), None,
      LatestVersion(servers, sortDescending), None, Some(false), Some(false), Some(false), None)
  }

  /** Why `add` exits with status 1. */
  datatype AddError = MissingId | Rejected(cause: StoreError)

  /** `handleConfigAdd`: the registry after the add, or the error. */
  function HandleAdd(servers: seq<Server>, id: string, sortDescending: seq<string> -> seq<string>): Result<seq<Server>, AddError> {
    if Blank(id) then Failure(MissingId)
    else
      match Add(servers, NewRecord(servers, id, sortDescending))
      case Failure(e) => Failure(Rejected(e))
      case Success(r) => Success(r)
  }

  /**
   * `add` refuses a blank id, then an id taken or a record breaking a rule;
   * otherwise the new record is found under the trimmed id with a port above
   * every registered port, no admin and every flag off.
   */
  lemma HandleAddOutcome(servers: seq<Server>, id: string, sortDescending: seq<string> -> seq<string>)
    ensures HandleAdd(servers, id, sortDescending) == Failure(MissingId) <==> Blank(id)
    ensures !Blank(id) ==>
      var s := NewRecord(servers, id, sortDescending);
      && (HandleAdd(servers, id, sortDescending).Success? <==> WellFormed(s) && !IdPresent(servers, Trim(id)))
      && (HandleAdd(servers, id, sortDescending) == Failure(Rejected(AlreadyExists(Trim(id))))
          <==> WellFormed(s) && IdPresent(servers, Trim(id)))
    ensures HandleAdd(servers, id, sortDescending).Success? ==>
      var r := HandleAdd(servers, id, sortDescending).value;
      && Get(r, Trim(id)).Some?
      && var s := Get(r, Trim(id)).value;
      && s.labelText == DeriveLabel(Trim(id))
      && (forall x | x in servers :: x.port < s.port)
      && !HasAdmin(s) && !FlagOn(s.french) && !FlagOn(s.ethiopian) && !FlagOn(s.openAccess)
      && (UniqueIds(servers) ==> UniqueIds(r))
  {
    if HandleAdd(servers, id, sortDescending).Success? {
      var s := NewRecord(servers, id, sortDescending);
      AddThenGet(servers, s);
      var p := AllocatePort(servers, None);
      forall x | x in servers
        ensures x.port < p
      {
        var i :| 0 <= i < |servers| && servers[i] == x;
        assert Considered(servers[i], None);
      }
    }
  }
}
