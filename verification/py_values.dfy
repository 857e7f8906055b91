/**
 * Dynamic values as the Python back end and the browser script see them:
 * dictionaries, lists, strings, integers, dates, enum members and ORM
 * entities, with Python truthiness and the string helpers the code uses.
 */
module PyValues {

  /** An enum member: its `.name` and its `.value`. */
  datatype Member = Member(name: string, value: string)

  /**
   * A Python value. `Object` is an ORM entity: its attributes are the keyword
   * arguments of its constructor (an attribute never set reads as `PyNone`),
   * and like every object without `__bool__` it is truthy. `Date` is a
   * calendar date or timestamp by its ordinal, so that dates compare.
   */
  datatype Value =
    | PyNone
    | Bool(b: bool)
    | Int(i: int)
    | Str(s: string)
    | Date(ordinal: int)
    | Enum(member: Member)
    | List(items: seq<Value>)
    | Dict(entries: map<string, Value>)
    | Object(attrs: map<string, Value>)

  type Dict = map<string, Value>

  /** Python truthiness. */
  predicate Truthy(v: Value) {
    match v
    case PyNone => false
    case Bool(b) => b
    case Int(i) => i != 0
    case Str(s) => s != ""
    case Date(_) => true
    case Enum(_) => true
    case List(items) => items != []
    case Dict(entries) => entries != map[]
    case Object(_) => true
  }

  /** `d.get(k)`: the value under `k`, or `None` when the key is absent. */
  function Get(d: Dict, k: string): Value {
    if k in d then d[k] else PyNone
  }

  /** `d.get(k, default)`. */
  function GetOr(d: Dict, k: string, default: Value): Value {
    if k in d then d[k] else default
  }

  /** Reading attribute `a` of an entity; unset columns read as `None`. */
  function Attr(o: Dict, a: string): Value {
    Get(o, a)
  }

  /**
   * A value on which `.get(...)` can be called: a dictionary. `d.get(k, {})`
   * with `k` absent also yields one. Anything else makes the mapper raise.
   */
  predicate DictOrAbsent(d: Dict, k: string) {
    k !in d || d[k].Dict?
  }

  /** `d.get(k, {})` for a key that is absent or holds a dictionary. */
  function Section(d: Dict, k: string): (r: Dict)
    requires DictOrAbsent(d, k)
    ensures k !in d ==> r == map[]
  {
    if k in d then d[k].entries else map[]
  }

  /** A dictionary of `keys`, each read from `d` (`None` when absent). */
  function Project(d: Dict, keys: set<string>): (r: Dict)
    ensures r.Keys == keys
    ensures forall k :: k in keys ==> r[k] == Get(d, k)
  {
    map k | k in keys :: Get(d, k)
  }

  /** Setting a key outside the projected ones leaves the projection as it was. */
  lemma ProjectOtherKey(d: Dict, keys: set<string>, k: string, v: Value)
    requires k !in keys
    ensures Project(d[k := v], keys) == Project(d, keys)
  {
  }

  /** Projecting a dictionary onto its own keys gives it back. */
  lemma ProjectOwnKeys(d: Dict, keys: set<string>)
    requires d.Keys == keys
    ensures Project(d, keys) == d
  {
  }

  /** `str(x)` for an integer. */
  function IntToString(n: int): (r: string)
    ensures |r| > 0
  {
    if n < 0 then "-" + NatToString(-n) else NatToString(n)
  }

  function NatToString(n: nat): (r: string)
    ensures |r| > 0
    ensures forall i :: 0 <= i < |r| ==> IsDigit(r[i])
  {
    if n < 10 then [DigitChar(n)] else NatToString(n / 10) + [DigitChar(n % 10)]
  }

  function DigitChar(d: nat): (c: char)
    requires d < 10
    ensures IsDigit(c)
  {
    "0123456789"[d]
  }

  /** An ASCII decimal digit (`\d` in a JavaScript regular expression). */
  predicate IsDigit(c: char) {
    '0' <= c <= '9'
  }

  predicate AllDigits(s: string) {
    forall i :: 0 <= i < |s| ==> IsDigit(s[i])
  }

  /** The number a string of decimal digits denotes (`int(s)`; 0 for the empty string). */
  function DecimalValue(s: string): (n: nat)
    requires AllDigits(s)
  {
    if s == [] then 0 else DecimalValue(s[..|s| - 1]) * 10 + (s[|s| - 1] as int - '0' as int)
  }

  /** Python `str.isdigit`, restricted to ASCII digits: non-empty and digits only. */
  predicate IsDigitString(s: string) {
    |s| > 0 && AllDigits(s)
  }

  /** Whitespace removed by JavaScript `String.prototype.trim` (white space and line terminators). */
  predicate IsJsSpace(c: char) {
    ('\t' <= c <= '\r') || c == ' ' || c == '\U{00A0}' || c == '\U{1680}'
    || ('\U{2000}' <= c <= '\U{200A}') || c == '\U{2028}' || c == '\U{2029}'
    || c == '\U{202F}' || c == '\U{205F}' || c == '\U{3000}' || c == '\U{FEFF}'
  }

  /** Whitespace removed by Python `str.strip()` (`str.isspace`). */
  predicate IsPySpace(c: char) {
    ('\t' <= c <= '\r') || ('\U{001C}' <= c <= ' ') || c == '\U{0085}'
    || c == '\U{00A0}' || c == '\U{1680}' || ('\U{2000}' <= c <= '\U{200A}')
    || c == '\U{2028}' || c == '\U{2029}' || c == '\U{202F}' || c == '\U{205F}' || c == '\U{3000}'
  }

  /** Drops leading and trailing characters satisfying `space`. */
  function TrimBy(s: string, space: char -> bool): (r: string)
    ensures |r| <= |s|
    ensures r != [] ==> !space(r[0]) && !space(r[|r| - 1])
    ensures (forall i :: 0 <= i < |s| ==> space(s[i])) <==> r == []
    decreases |s|
  {
    if s == [] then []
    else if space(s[0]) then TrimBy(s[1..], space)
    else if space(s[|s| - 1]) then TrimBy(s[..|s| - 1], space)
    else s
  }

  /** JavaScript `value.trim()`. */
  function Trim(s: string): string {
    TrimBy(s, IsJsSpace)
  }

  /** Python `value.strip()`. */
  function Strip(s: string): string {
    TrimBy(s, IsPySpace)
  }

  predicate StartsWith(s: string, prefix: string) {
    |prefix| <= |s| && s[..|prefix|] == prefix
  }

  predicate EndsWith(s: string, suffix: string) {
    |suffix| <= |s| && s[|s| - |suffix|..] == suffix
  }

  /** `needle in hay` for strings (SQL `LIKE '%needle%'` with escaping). */
  predicate ContainsSub(hay: string, needle: string) {
    exists i | 0 <= i <= |hay| :: OccursAt(hay, needle, i)
  }

  predicate OccursAt(hay: string, needle: string, i: int) {
    0 <= i <= |hay| - |needle| && hay[i..i + |needle|] == needle
  }

  /**
   * `s.split(sep)` for a non-empty separator: the pieces between
   * non-overlapping occurrences, scanning left to right.
   */
  function Split(s: string, sep: string): (r: seq<string>)
    requires sep != []
    ensures |r| >= 1
    decreases |s|
  {
    if |s| < |sep| then [s]
    else if s[..|sep|] == sep then [""] + Split(s[|sep|..], sep)
    else
      var rest := Split(s[1..], sep);
      [[s[0]] + rest[0]] + rest[1..]
  }

  /** `sep.join(parts)`. */
  function Join(parts: seq<string>, sep: string): string {
    if parts == [] then ""
    else if |parts| == 1 then parts[0]
    else parts[0] + sep + Join(parts[1..], sep)
  }

  /** ASCII lower-casing of one character. */
  function AsciiLower(c: char): char {
    if 'A' <= c <= 'Z' then (c as int + 32) as char else c
  }

  function AsciiLowerString(s: string): (r: string)
    ensures |r| == |s|
    ensures forall i :: 0 <= i < |s| ==> r[i] == AsciiLower(s[i])
  {
    seq(|s|, i requires 0 <= i < |s| => AsciiLower(s[i]))
  }
}
