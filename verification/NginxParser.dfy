/**
 * `extractPortFromNginxFile`: the first match of
 * `proxy_pass\s+http:\/\/localhost:(\d+)` in a site file, read as a decimal
 * number; a file that cannot be read gives no port, as does a file without a
 * match. The site-file text `handleInitNginx` writes is the partner: parsing
 * it gives back the port it was written with.
 */
module NginxParser {
  import opened Wrappers
  import opened Strings

  const Directive := "proxy_pass"
  const Upstream := "http://localhost:"

  /** The length of the run of whitespace starting at `i`. */
  function SpaceRun(s: string, i: nat): (n: nat)
    requires i <= |s|
    ensures i + n <= |s|
    ensures forall k | i <= k < i + n :: IsSpace(s[k])
    ensures i + n == |s| || !IsSpace(s[i + n])
    decreases |s| - i
  {
    if i < |s| && IsSpace(s[i]) then 1 + SpaceRun(s, i + 1) else 0
  }

  /** The length of the run of decimal digits starting at `i`. */
  function DigitRun(s: string, i: nat): (n: nat)
    requires i <= |s|
    ensures i + n <= |s|
    ensures AllDigits(s[i..i + n])
    ensures i + n == |s| || !IsDigit(s[i + n])
    decreases |s| - i
  {
    if i < |s| && IsDigit(s[i]) then
      var n := 1 + DigitRun(s, i + 1);
      assert s[i..i + n] == [s[i]] + s[i + 1..i + n];
      n
    else 0
  }

  /**
   * The pattern matched at position `i`: `proxy_pass`, a maximal non-empty
   * run of whitespace, `http://localhost:`, a maximal non-empty run of digits;
   * the result is the digits' value.
   */
  function MatchAt(s: string, i: nat): Option<nat>
    requires i <= |s|
  {
    if !StartsWith(s[i..], Directive) then None
    else AfterDirective(s, i + |Directive|)
  }

  /** The rest of the pattern once the directive ends at `a`: whitespace, the upstream prefix, the port. */
  function AfterDirective(s: string, a: nat): Option<nat>
    requires a <= |s|
  {
    var w := SpaceRun(s, a);
    if w == 0 || !StartsWith(s[a + w..], Upstream) then None
    else PortDigits(s, a + w + |Upstream|)
  }

  /** The port: the value of a maximal non-empty run of digits at `start`. */
  function PortDigits(s: string, start: nat): Option<nat>
    requires start <= |s|
  {
    var d := DigitRun(s, start);
    if d == 0 then None else Some(DecimalValue(s[start..start + d]))
  }

  /** A maximal non-empty run of `d` digits at `start` with value `v`. */
  predicate DigitsAt(s: string, start: nat, d: nat, v: nat) {
    start + d <= |s|
    && d >= 1 && AllDigits(s[start..start + d])
    && (start + d == |s| || !IsDigit(s[start + d]))
    && v == DecimalValue(s[start..start + d])
  }

  /** `w` whitespace characters at `a`, then the upstream prefix, then the port digits. */
  predicate UpstreamAt(s: string, a: nat, w: nat, d: nat, v: nat) {
    var start := a + w + |Upstream|;
    start <= |s|
    && w >= 1 && (forall k | a <= k < a + w :: IsSpace(s[k]))
    && s[a + w..start] == Upstream
    && DigitsAt(s, start, d, v)
  }

  /** The pattern at `i`, written out position by position: the reference meaning of the expression. */
  predicate PatternAt(s: string, i: nat, w: nat, d: nat, value: nat) {
    i + |Directive| <= |s|
    && s[i..i + |Directive|] == Directive
    && UpstreamAt(s, i + |Directive|, w, d, value)
  }

  lemma PortDigitsSound(s: string, start: nat)
    requires start <= |s| && PortDigits(s, start).Some?
    ensures DigitsAt(s, start, DigitRun(s, start), PortDigits(s, start).value)
  {
  }

  lemma PortDigitsComplete(s: string, start: nat, d: nat, v: nat)
    requires DigitsAt(s, start, d, v)
    ensures PortDigits(s, start) == Some(v)
  {
    DigitRunIs(s, start, d);
  }

  lemma AfterDirectiveSound(s: string, a: nat)
    requires a <= |s| && AfterDirective(s, a).Some?
    ensures exists w: nat, d: nat :: UpstreamAt(s, a, w, d, AfterDirective(s, a).value)
  {
    var w := SpaceRun(s, a);
    var start := a + w + |Upstream|;
    assert s[a + w..start] == s[a + w..][..|Upstream|];
    PortDigitsSound(s, start);
    assert UpstreamAt(s, a, w, DigitRun(s, start), AfterDirective(s, a).value);
  }

  lemma AfterDirectiveComplete(s: string, a: nat, w: nat, d: nat, v: nat)
    requires UpstreamAt(s, a, w, d, v)
    ensures AfterDirective(s, a) == Some(v)
  {
    var start := a + w + |Upstream|;
    assert StartsWith(s[a + w..], Upstream) by {
      assert s[a + w..][..|Upstream|] == s[a + w..start];
    }
    assert !IsSpace(s[a + w]) by {
      assert s[a + w] == s[a + w..start][0] == 'h';
    }
    SpaceRunIs(s, a, w);
    PortDigitsComplete(s, start, d, v);
  }

  /** `MatchAt` finds only the written-out pattern. */
  lemma MatchAtSound(s: string, i: nat)
    requires i <= |s|
    requires MatchAt(s, i).Some?
    ensures exists w: nat, d: nat :: PatternAt(s, i, w, d, MatchAt(s, i).value)
  {
    var a := i + |Directive|;
    assert s[i..a] == s[i..][..|Directive|];
    AfterDirectiveSound(s, a);
    var w: nat, d: nat :| UpstreamAt(s, a, w, d, AfterDirective(s, a).value);
    assert PatternAt(s, i, w, d, MatchAt(s, i).value);
  }

  /** `MatchAt` finds every written-out pattern: the runs it takes are the only ones that fit. */
  lemma MatchAtComplete(s: string, i: nat, w: nat, d: nat, v: nat)
    requires PatternAt(s, i, w, d, v)
    ensures MatchAt(s, i) == Some(v)
  {
    var a := i + |Directive|;
    assert StartsWith(s[i..], Directive) by {
      assert s[i..][..|Directive|] == s[i..a];
    }
    AfterDirectiveComplete(s, a, w, d, v);
  }

  /** The first position at or after `i` where the pattern matches, if there is one. */
  function SearchIndex(s: string, i: nat): (r: Option<nat>)
    requires i <= |s|
    ensures r.Some? ==> i <= r.value <= |s| && MatchAt(s, r.value).Some?
    ensures r.Some? ==> forall j | i <= j < r.value :: MatchAt(s, j).None?
    ensures r.None? ==> forall j | i <= j <= |s| :: MatchAt(s, j).None?
    decreases |s| - i
  {
    if MatchAt(s, i).Some? then Some(i)
    else if i == |s| then None
    else SearchIndex(s, i + 1)
  }

  /** `content.match(...)` followed by `parseInt(match[1], 10)`: the port of the first match, if any. */
  function ParsePort(content: string): (r: Option<nat>)
  {
    match SearchIndex(content, 0)
    case None => None
    case Some(k) => MatchAt(content, k)
  }

  /** The port is found exactly when the pattern occurs somewhere in the file. */
  lemma ParsePortFinds(content: string)
    ensures ParsePort(content).Some? <==> exists k | 0 <= k <= |content| :: MatchAt(content, k).Some?
  {
    var r := SearchIndex(content, 0);
    if r.Some? {
      assert MatchAt(content, r.value).Some?;
    }
  }

  /** A port found is the value of the leftmost occurrence of the pattern. */
  lemma ParsePortLeftmost(content: string)
    requires ParsePort(content).Some?
    ensures exists k | 0 <= k <= |content| ::
      MatchAt(content, k) == ParsePort(content) && forall j | 0 <= j < k :: MatchAt(content, j).None?
  {
    var k := SearchIndex(content, 0).value;
    assert MatchAt(content, k) == ParsePort(content);
  }

  /** The whole function: `None` for the file when it cannot be read, and no error ever escapes. */
  function ExtractPort(file: Option<string>): (r: Option<nat>)
    ensures file.None? ==> r.None?
    ensures file.Some? ==> r == ParsePort(file.value)
  {
    if file.None? then None else ParsePort(file.value)
  }

  /** The text before the site name in the generated site file. */
  const Head := "server {\n  listen 80;\n  server_name "
  /** The text between the site name and the directive. */
  const Middle := ";\n  location / {\n    "
  /** The text after the port. */
  const Tail := ";" + TailBody
  const TailBody := "\n    proxy_buffering off;\n    proxy_set_header Host $host;\n    proxy_set_header X-Real-IP $remote_addr;\n    proxy_set_header X-Forwarded-For $proxy_add_x_forwarded_for;\n    proxy_set_header X-Forwarded-Proto $scheme;\n  }\n}\n"

  /** The site file `handleInitNginx` writes for `<serverId>.<domain>` and a port. */
  function SiteFile(subdomain: string, port: int): string {
    Head + subdomain + Middle + Directive + " " + Upstream + IntToDecimal(port) + Tail
  }

  /** Reading the written site file back gives the port it was written with (site names never contain `_`). */
  lemma SiteFileRoundTrip(subdomain: string, port: nat)
    requires '_' !in subdomain
    ensures ExtractPort(Some(SiteFile(subdomain, port))) == Some(port)
  {
    assert 'p' !in Head;
    assert 'p' !in Middle && Middle[0] == ';';
    assert Tail[0] == ';';
    FirstMatchIsDirective(Head, subdomain, Middle, NatToDecimal(port), port, Tail);
  }

  /**
   * In text laid out as the site file is, with any fixed parts free of `p`,
   * the first match is the written directive.
   */
  lemma FirstMatchIsDirective(head: string, subdomain: string, middle: string, digits: string, port: nat, tail: string)
    requires 'p' !in head && 'p' !in middle && |middle| > 0 && middle[0] == ';'
    requires '_' !in subdomain
    requires digits == NatToDecimal(port)
    requires |tail| > 0 && !IsDigit(tail[0])
    ensures ParsePort(head + subdomain + middle + Directive + " " + Upstream + digits + tail) == Some(port)
  {
    var pre := head + subdomain + middle;
    var t := head + subdomain + middle + Directive + " " + Upstream + digits + tail;
    assert t == pre + Directive + " " + Upstream + digits + tail;
    assert StartsWith(t, pre) by { assert t[..|pre|] == pre; }
    forall j | 0 <= j < |pre|
      ensures MatchAt(t, j).None?
    {
      NoDirectiveBefore(head, subdomain, middle, t, j);
    }
    MatchAtWritten(pre, digits, port, tail, t);
    FirstMatch(t, |pre|, port);
  }

  /** A match with none before it is the one the parser returns. */
  lemma FirstMatch(t: string, p: nat, v: nat)
    requires p <= |t| && MatchAt(t, p) == Some(v)
    requires forall j | 0 <= j < p :: MatchAt(t, j).None?
    ensures ParsePort(t) == Some(v)
  {

  }

  /** A character of a directive found at `j`. */
  lemma DirectiveChar(t: string, j: nat, k: nat)
    requires j <= |t| && k < |Directive|
    ensures StartsWith(t[j..], Directive) ==> j + k < |t| && t[j + k] == Directive[k]
  {
    if StartsWith(t[j..], Directive) {
      assert t[j + k] == t[j..][..|Directive|][k];
    }
  }

  /** No directive starts before the site file's own: the fixed text has no `p` and the site name no `_`. */
  lemma NoDirectiveBefore(head: string, subdomain: string, middle: string, t: string, j: nat)
    requires 'p' !in head && 'p' !in middle && |middle| > 0 && middle[0] == ';'
    requires '_' !in subdomain
    requires StartsWith(t, head + subdomain + middle)
    requires j < |head| + |subdomain| + |middle|
    ensures !StartsWith(t[j..], Directive)
  {
    var n := |head| + |subdomain|;
    var pre := head + subdomain + middle;
    assert t[..|pre|] == pre;
    DirectiveChar(t, j, 0);
    if j < |head| {
      assert t[j] == pre[j] == head[j];
    } else if j < n {
      if j + 5 < n {
        DirectiveChar(t, j, 5);
        assert t[j + 5] == pre[j + 5] == subdomain[j + 5 - |head|];
      } else {
        DirectiveChar(t, j, n - j);
        assert t[n] == pre[n] == middle[0];
      }
    } else {
      assert t[j] == pre[j] == middle[j - n];
    }
  }

  /** The directive written with one space and a port matches where it is written, giving that port. */
  lemma MatchAtWritten(pre: string, digits: string, port: nat, tail: string, t: string)
    requires digits == NatToDecimal(port)
    requires |tail| > 0 && !IsDigit(tail[0])
    requires t == pre + Directive + " " + Upstream + digits + tail
    ensures MatchAt(t, |pre|) == Some(port)
  {
    var a := |pre| + |Directive|;
    assert t[|pre|..][..|Directive|] == Directive;
    assert t[a] == ' ';
    var start := a + 1 + |Upstream|;
    assert t[a + 1..start] == Upstream;
    assert t[a + 1] == 'h';
    SpaceRunIs(t, a, 1);
    assert t[start..start + |digits|] == digits;
    assert t[start + |digits|] == tail[0];
    DigitRunIs(t, start, |digits|);
  }

  /** A whitespace run of known extent. */
  lemma {:induction false} SpaceRunIs(s: string, i: nat, n: nat)
    requires i + n <= |s|
    requires forall k | i <= k < i + n :: IsSpace(s[k])
    requires i + n == |s| || !IsSpace(s[i + n])
    ensures SpaceRun(s, i) == n
    decreases n
  {
    if n > 0 {
      SpaceRunIs(s, i + 1, n - 1);
    }
  }

  /** A digit run of known extent. */
  lemma {:induction false} DigitRunIs(s: string, i: nat, n: nat)
    requires i + n <= |s|
    requires AllDigits(s[i..i + n])
    requires i + n == |s| || !IsDigit(s[i + n])
    ensures DigitRun(s, i) == n
    decreases n
  {
    if n > 0 {
      assert s[i] == s[i..i + n][0];
      assert s[i + 1..i + n] == s[i..i + n][1..];
      DigitRunIs(s, i + 1, n - 1);
    }
  }

  /**
   * `proxy_pass` directly followed by anything but whitespace does not
   * match: at least one whitespace character is required (the rest of the
   * text is taken free of `_`, so no later directive starts).
   */
  lemma SpaceRequired(rest: string)
    requires '_' !in rest
    requires |rest| == 0 || !IsSpace(rest[0])
    ensures ParsePort(Directive + rest) == None
  {
    forall k | 0 <= k <= |Directive + rest|
      ensures MatchAt(Directive + rest, k).None?
    {
      if k == 0 {
        NoSpaceAfterDirective(rest);
      } else {
        NoLaterDirective(rest, k);
      }
    }
    ParsePortFinds(Directive + rest);
  }

  lemma NoSpaceAfterDirective(rest: string)
    requires |rest| == 0 || !IsSpace(rest[0])
    ensures MatchAt(Directive + rest, 0).None?
  {
    var s := Directive + rest;
    SpaceRunIs(s, |Directive|, 0);
  }

  lemma NoLaterDirective(rest: string, k: nat)
    requires '_' !in rest
    requires 0 < k <= |Directive| + |rest|
    ensures !StartsWith((Directive + rest)[k..], Directive)
  {
    var s := Directive + rest;
    DirectiveChar(s, k, 5);
    if k < 5 {
      assert s[k + 5] == Directive[k + 5];
    } else if k + 5 < |s| {
      assert s[k + 5] == rest[k + 5 - |Directive|];
    }
  }
}
