/**
 * The JSON values the editor reads and writes, with the Python behaviours the
 * helpers rely on: truthiness, `str()` of a value, and the two library calls
 * the helpers cannot do without (Unicode NFKC normalisation and `json.loads`),
 * which are passed in as a `Runtime` rather than reimplemented.
 */
module JsonValues {
  import opened Wrappers
  import opened Text
  import opened Dicts

  /** A value produced by `json.loads` (numbers restricted to integers). Objects keep key order. */
  datatype Json =
    | Null
    | Bool(b: bool)
    | Num(n: int)
    | Str(s: string)
    | Arr(items: seq<Json>)
    | Obj(fields: Dict<Json>)

  /** Python's `bool(value)`. */
  predicate Truthy(j: Json)
  {
    match j
    case Null => false
    case Bool(b) => b
    case Num(n) => n != 0
    case Str(s) => s != ""
    case Arr(xs) => xs != []
    case Obj(fs) => fs != []
  }

  /** The entries of a dict value; no entries for anything else. */
  function FieldsOf(j: Json): Dict<Json>
  {
    if j.Obj? then j.fields else []
  }

  /** `value.get(k, default)` on a dict value. */
  function Field(j: Json, k: string, default: Json): Json
  {
    Get(FieldsOf(j), k, default)
  }

  /** A JSON list of strings. */
  function Strs(xs: seq<string>): (r: Json)
    ensures r.Arr? && |r.items| == |xs|
    ensures forall i :: 0 <= i < |xs| ==> r.items[i] == Str(xs[i])
  {
    Arr(seq(|xs|, i requires 0 <= i < |xs| => Str(xs[i])))
  }

  /** The strings of a list of strings. */
  function StrsOf(j: Json): seq<string>
  {
    if j.Arr? then
      seq(|j.items|, i requires 0 <= i < |j.items| => if j.items[i].Str? then j.items[i].s else "")
    else []
  }

  function DigitChar(d: nat): char
    requires d < 10
  {
    "0123456789"[d]
  }

  function NatText(n: nat): string
    decreases n
  {
    if n < 10 then [DigitChar(n)] else NatText(n / 10) + [DigitChar(n % 10)]
  }

  /** `str(n)` for an integer. */
  function IntText(n: int): string
  {
    if n < 0 then "-" + NatText(-n) else NatText(n)
  }

  function Join(parts: seq<string>): string
  {
    if parts == [] then ""
    else if |parts| == 1 then parts[0]
    else parts[0] + ", " + Join(parts[1..])
  }

  /** `repr(value)`, with strings quoted in single quotes (Python's escaping is not modelled). */
  function PyRepr(j: Json): string
    decreases j
  {
    match j
    case Null => "None"
    case Bool(b) => if b then "True" else "False"
    case Num(n) => IntText(n)
    case Str(s) => "'" + s + "'"
    case Arr(xs) => "[" + Join(seq(|xs|, i requires 0 <= i < |xs| => PyRepr(xs[i]))) + "]"
    case Obj(fs) =>
      "{" + Join(seq(|fs|, i requires 0 <= i < |fs| => "'" + fs[i].0 + "': " + PyRepr(fs[i].1))) + "}"
  }

  /** `str(value)`. */
  function PyStr(j: Json): (r: string)
    ensures j == Arr([]) ==> r == "[]"
    ensures j == Obj([]) ==> r == "{}"
  {
    if j.Str? then j.s else PyRepr(j)
  }

  /**
   * The library calls the helpers make: `unicodedata.normalize("NFKC", s)`
   * and `json.loads(s)` (None when it raises).
   */
  datatype Runtime = Runtime(nfkc: string -> string, loads: string -> Option<Json>)

  /** `normalize_text(value)`: "" for None, otherwise NFKC of `str(value)`. */
  function NormalizeText(rt: Runtime, v: Json): string
  {
    if v.Null? then "" else rt.nfkc(PyStr(v))
  }

  /** `normalize_text(value).strip()`, the cleaning step applied to every list item. */
  function Clean(rt: Runtime, v: Json): string
  {
    Trim(NormalizeText(rt, v))
  }

  /** `normalize_text(s).strip()` for a string. */
  function CleanStr(rt: Runtime, s: string): string
  {
    Trim(rt.nfkc(s))
  }

  /**
   * `parse_json_text(text)`: the parsed value, or Null when the text is blank,
   * does not parse, or is the JSON literal `null` (the source cannot tell these apart).
   */
  function ParseJsonText(rt: Runtime, text: string): (r: Json)
    ensures Trim(text) == "" ==> r == Null
  {
    var raw := Trim(text);
    if raw == "" then Null
    else
      match rt.loads(raw)
      case None => Null
      case Some(v) => v
  }

  predicate IsAscii(s: string)
  {
    forall i :: 0 <= i < |s| ==> s[i] < '\U{80}'
  }

  /** NFKC leaves ASCII text unchanged. */
  ghost predicate KeepsAscii(rt: Runtime)
  {
    forall s :: IsAscii(s) ==> rt.nfkc(s) == s
  }

  /**
   * Cleaning is idempotent: NFKC is idempotent, and the whitespace that
   * `strip()` removes from a normalised string neither composes nor decomposes
   * with what is left.
   */
  ghost predicate CleanIsStable(rt: Runtime)
  {
    forall s :: CleanStr(rt, CleanStr(rt, s)) == CleanStr(rt, s)
  }

  /** A runtime satisfying both hypotheses (the identity normaliser), so they are consistent. */
  lemma StableRuntimeExists(loads: string -> Option<Json>)
    ensures KeepsAscii(Runtime(s => s, loads)) && CleanIsStable(Runtime(s => s, loads))
  {
    forall s ensures Trim(Trim(s)) == Trim(s) {
      TrimTwice(s);
    }
  }
}
