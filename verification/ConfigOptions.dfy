/**
 * The option handling of `wb config update`: the check for unknown options,
 * the parsing of boolean values and the copying of the options that were
 * given a value. Splitting the command line into options is the job of the
 * argument parser and is not modelled: its result is the input here.
 */
module ConfigOptions {
  import opened Wrappers
  import opened Strings
  import opened Seqs
  import opened Types

  const TrueWords: seq<string> := ["true", "1", "yes"]
  const FalseWords: seq<string> := ["false", "0", "no"]

  /** `parseBooleanOption`: the value, compared without regard to case, must be one of six words. */
  function ParseBoolean(value: string): (r: Result<bool, string>)
    ensures r.Success? <==> ToLower(value) in TrueWords || ToLower(value) in FalseWords
    ensures r == Success(true) <==> ToLower(value) in TrueWords
  {
    var lower := ToLower(value);
    if lower in TrueWords then Success(true)
    else if lower in FalseWords then Success(false)
    else Failure("Invalid boolean value: " + value + ". Use true/false, yes/no, or 1/0.")
  }

  /** Lower-casing twice is lower-casing once. */
  lemma ToLowerIdempotent(s: string)
    ensures ToLower(ToLower(s)) == ToLower(s)
  {
  }

  /** Case does not matter: a value parses as its lower-case form does. */
  lemma ParseBooleanIgnoresCase(value: string)
    ensures ParseBoolean(ToLower(value)).Success? == ParseBoolean(value).Success?
    ensures ParseBoolean(value).Success? ==> ParseBoolean(ToLower(value)) == ParseBoolean(value)
  {
    ToLowerIdempotent(value);
  }

  /** The words `true` and `false` parse to the booleans they name, and so do `YES` and `No`. */
  lemma ParseBooleanWords(b: bool)
    ensures ParseBoolean(if b then "true" else "false") == Success(b)
    ensures ParseBoolean(if b then "YES" else "No") == Success(b)
  {
    assert ToLower("true") == "true";
    assert ToLower("false") == "false";
    assert ToLower("YES") == "yes";
    assert ToLower("No") == "no";
  }

  /** Option names the update command accepts, with the parser's own `_`, `json` and `force`. */
  const KnownOptions: set<string> := {"_", "json", "force", "label", "french", "ethiopian", "open-access", "open_access",
    "server", "admin", "instance-dir", "instance_dir"}

  /** The option names that are not known, in the order the parser lists them. */
  function UnknownOptions(keys: seq<string>): (r: seq<string>)
    ensures forall k :: k in r <==> k in keys && k !in KnownOptions
  {
    Filter(keys, (k: string) => k !in KnownOptions)
  }

  /** The string options as the parser hands them over; an option given without a value is `""`. */
  datatype RawOptions = RawOptions(
    labelText: Option<string>,
    french: Option<string>,
    ethiopian: Option<string>,
    openAccess: Option<string>,
    server: Option<string>,
    admin: Option<string>,
    instanceDir: Option<string>)

  /** The options passed on to the update: only those given a non-empty value, booleans parsed. */
  datatype UpdateOptions = UpdateOptions(
    labelText: Option<string>,
    french: Option<bool>,
    ethiopian: Option<bool>,
    openAccess: Option<bool>,
    server: Option<string>,
    admin: Option<string>,
    instanceDir: Option<string>)

  /** Why the update command stops before touching the registry. */
  datatype OptionError = Unknown(names: seq<string>) | InvalidBoolean(message: string)

  /** `if (parsed.x) options.x = parsed.x`: an empty value is not copied. */
  function CopyText(raw: Option<string>): Option<string> {
    if raw.Some? && raw.value != "" then raw else None
  }

  /** `if (parsed.x) options.x = parseBooleanOption(parsed.x)`. */
  function CopyFlag(raw: Option<string>): Result<Option<bool>, string> {
    if raw.Some? && raw.value != "" then
      match ParseBoolean(raw.value)
      case Success(b) => Success(Some(b))
      case Failure(e) => Failure(e)
    else Success(None)
  }

  /** The unknown-option check, then the copies in the order `mod.ts` writes them; the first bad boolean throws. */
  function ParseUpdateOptions(keys: seq<string>, raw: RawOptions): Result<UpdateOptions, OptionError> {
    var unknown := UnknownOptions(keys);
    if |unknown| > 0 then Failure(Unknown(unknown))
    else
      match CopyFlag(raw.french)
      case Failure(e) => Failure(InvalidBoolean(e))
      case Success(french) =>
        match CopyFlag(raw.ethiopian)
        case Failure(e) => Failure(InvalidBoolean(e))
        case Success(ethiopian) =>
          match CopyFlag(raw.openAccess)
          case Failure(e) => Failure(InvalidBoolean(e))
          case Success(openAccess) =>
            Success(UpdateOptions(CopyText(raw.labelText), french, ethiopian, openAccess,
              CopyText(raw.server), CopyText(raw.admin), CopyText(raw.instanceDir)))
  }

  /** A non-empty value that is acceptable to the boolean parser, or no value at all. */
  predicate FlagAcceptable(raw: Option<string>) {
    raw.None? || raw.value == "" || ParseBoolean(raw.value).Success?
  }

  /**
   * Parsing fails exactly on an unknown name or an unparsable boolean; on
   * success an option is set exactly when it was given a non-empty value,
   * a flag carries the parsed value, and so `--admin ""` never reaches the
   * update as a request to clear the admin version.
   */
  lemma ParseUpdateOptionsMeaning(keys: seq<string>, raw: RawOptions)
    ensures ParseUpdateOptions(keys, raw).Success? <==>
      (forall k | k in keys :: k in KnownOptions)
      && FlagAcceptable(raw.french) && FlagAcceptable(raw.ethiopian) && FlagAcceptable(raw.openAccess)
    ensures ParseUpdateOptions(keys, raw).Failure? && ParseUpdateOptions(keys, raw).error.Unknown? ==>
      ParseUpdateOptions(keys, raw).error.names == UnknownOptions(keys) && |UnknownOptions(keys)| > 0
    ensures ParseUpdateOptions(keys, raw).Success? ==>
      var o := ParseUpdateOptions(keys, raw).value;
      && (o.labelText.Some? <==> Truthy(raw.labelText)) && (o.labelText.Some? ==> o.labelText == raw.labelText)
      && (o.server.Some? <==> Truthy(raw.server)) && (o.server.Some? ==> o.server == raw.server)
      && (o.instanceDir.Some? <==> Truthy(raw.instanceDir)) && (o.instanceDir.Some? ==> o.instanceDir == raw.instanceDir)
      && (o.admin.Some? <==> Truthy(raw.admin)) && (o.admin.Some? ==> o.admin == raw.admin) && o.admin != Some("")
      && (o.french.Some? <==> Truthy(raw.french))
      && (o.french.Some? ==> ParseBoolean(raw.french.value) == Success(o.french.value))
      && (o.ethiopian.Some? <==> Truthy(raw.ethiopian))
      && (o.ethiopian.Some? ==> ParseBoolean(raw.ethiopian.value) == Success(o.ethiopian.value))
      && (o.openAccess.Some? <==> Truthy(raw.openAccess))
      && (o.openAccess.Some? ==> ParseBoolean(raw.openAccess.value) == Success(o.openAccess.value))
  {
    var unknown := UnknownOptions(keys);
    if |unknown| > 0 {
      assert unknown[0] in unknown;
    } else {
      assert forall k | k in keys :: k in KnownOptions by {
        assert forall k :: k !in unknown;
      }
    }
  }
}
