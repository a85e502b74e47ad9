/**
 * Docker image names: `getServerImageName`, written the same way in the
 * run-container and pull commands, and the admin image name. The version
 * string is split on `.` and its first two parts read with `Number`.
 */
module Images {
  import opened Wrappers
  import opened Strings

  /**
   * `Number(part)` for the shapes a version part takes: surrounding
   * whitespace is ignored, an empty part is 0, a run of digits is its value,
   * anything else is NaN (`None`).
   */
  function ToNumber(part: string): (n: Option<nat>)
    ensures AllDigits(part) && |part| > 0 ==> n == Some(DecimalValue(part))
  {
    var t := Trim(part);
    TrimOfDigits(part);
    if |t| == 0 then Some(0)
    else if AllDigits(t) then Some(DecimalValue(t))
    else None
  }

  /** Trimming leaves a string without whitespace as it is. */
  lemma TrimOfDigits(s: string)
    ensures AllDigits(s) ==> Trim(s) == s
  {
  }

  /**
   * `major > 1 || (major === 1 && minor >= 6)` on the first two parts;
   * a comparison with NaN or with a missing part is false.
   */
  predicate IsNewFamily(version: string) {
    var parts := Split(version, '.');
    var major := ToNumber(parts[0]);
    var minor := if |parts| > 1 then ToNumber(parts[1]) else None;
    (major.Some? && major.value > 1) || (major == Some(1) && minor.Some? && minor.value >= 6)
  }

  const Repository := "timroberton/comb:"
  const NewFamily := "wb-fastr-server"
  const LegacyFamily := "wb-hmis-server"
  const AdminFamily := "wb-hmis-server-admin"

  /** `getServerImageName(version)`. */
  function ServerImage(version: string): (image: string)
  {
    Repository + (if IsNewFamily(version) then NewFamily else LegacyFamily) + "-v" + version
  }

  /** The admin image, whatever the server version: always the legacy admin family. */
  function AdminImage(adminVersion: string): (image: string)
  {
    Repository + AdminFamily + "-v" + adminVersion
  }

  /** The first two parts of `a.b` followed by nothing or by a further `.` part. */
  lemma SplitTwo(a: string, b: string, rest: string)
    requires '.' !in a && '.' !in b
    requires |rest| == 0 || rest[0] == '.'
    ensures |Split(a + "." + b + rest, '.')| > 1
    ensures Split(a + "." + b + rest, '.')[0] == a
    ensures Split(a + "." + b + rest, '.')[1] == b
  {
    assert a + "." + b + rest == a + (['.'] + (b + rest));
    SplitPlain(a, ['.'] + (b + rest), '.');
    SplitAtSeparator(b + rest, '.');
    SplitPlain(b, rest, '.');
    if |rest| > 0 {
      assert rest == ['.'] + rest[1..];
      SplitAtSeparator(rest[1..], '.');
    }
  }

  /** `major.minor` and anything after a further `.` picks the family by the 1.6 cutover. */
  lemma FamilyCutover(major: nat, minor: nat, rest: string)
    requires |rest| == 0 || rest[0] == '.'
    ensures IsNewFamily(NatToDecimal(major) + "." + NatToDecimal(minor) + rest) <==> major > 1 || (major == 1 && minor >= 6)
  {
    var a, b := NatToDecimal(major), NatToDecimal(minor);
    NoDot(a);
    NoDot(b);
    SplitTwo(a, b, rest);
    NewFamilyOfParts(a + "." + b + rest, major, minor);
  }

  /** A string of digits has no `.` in it. */
  lemma NoDot(s: string)
    requires AllDigits(s)
    ensures '.' !in s
  {
    assert forall i | 0 <= i < |s| :: s[i] != '.';
  }

  /** The family depends only on the numbers the first two parts read as. */
  lemma NewFamilyOfParts(version: string, major: nat, minor: nat)
    requires |Split(version, '.')| > 1
    requires ToNumber(Split(version, '.')[0]) == Some(major)
    requires ToNumber(Split(version, '.')[1]) == Some(minor)
    ensures IsNewFamily(version) <==> major > 1 || (major == 1 && minor >= 6)
  {
  }

  /** Version 1.5.9 is in the legacy family. */
  lemma LegacyExample()
    ensures !IsNewFamily("1.5.9")
  {
    FamilyCutover(1, 5, ".9");
    ExampleDigits();
  }

  /** Version 1.6.0 is the first of the new family. */
  lemma CutoverExample()
    ensures IsNewFamily("1.6.0")
  {
    FamilyCutover(1, 6, ".0");
    ExampleDigits();
  }

  /** Version 2.0.0 is in the new family. */
  lemma MajorTwoExample()
    ensures IsNewFamily("2.0.0")
  {
    FamilyCutover(2, 0, ".0");
    ExampleDigits();
  }

  /** The example versions written with `NatToDecimal`. */
  lemma ExampleDigits()
    ensures NatToDecimal(1) + "." + NatToDecimal(5) + ".9" == "1.5.9"
    ensures NatToDecimal(1) + "." + NatToDecimal(6) + ".0" == "1.6.0"
    ensures NatToDecimal(2) + "." + NatToDecimal(0) + ".0" == "2.0.0"
  {
    assert NatToDecimal(0) == "0" && NatToDecimal(1) == "1" && NatToDecimal(2) == "2";
    assert NatToDecimal(5) == "5" && NatToDecimal(6) == "6";
  }

  /** The character at offset `i` of an image's family name. */
  lemma ImageAt(family: string, version: string, i: nat)
    requires i < |family|
    ensures (Repository + family + "-v" + version)[|Repository| + i] == family[i]
  {
  }

  /** The character after the dash that follows the family name. */
  lemma ImageAfterFamily(family: string, version: string)
    ensures (Repository + family + "-v" + version)[|Repository| + |family| + 1] == 'v'
  {
  }


  /** A version without a minor part is legacy unless its major is above 1. */
  lemma MissingMinor(major: nat)
    ensures IsNewFamily(NatToDecimal(major)) <==> major > 1
  {
    var a := NatToDecimal(major);
    assert '.' !in a;
    SplitPlain(a, [], '.');
    assert a + [] == a;
  }
}
