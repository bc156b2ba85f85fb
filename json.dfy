/** The values `json.loads` produces, and the handful of Python operations the
    form pipeline applies to them: truthiness, positional subscripting,
    iteration, `key in value`, `value[key]` and `str(value)`. */
module JsonValues {
  import opened Results

  /** A parsed JSON value. An object keeps its members in document order, as a
      Python dict does; `json.loads` gives it distinct keys. */
  datatype Json =
    | JNull
    | JBool(b: bool)
    | JInt(i: int)
    | JStr(s: string)
    | JArr(elems: seq<Json>)
    | JObj(fields: seq<Field>)

  datatype Field = Field(key: string, val: Json)

  /** Python truthiness: `None`, `False`, `0`, `""`, `[]` and `{}` are falsy. */
  predicate Truthy(j: Json)
    ensures !Truthy(j) <==> j in {JNull, JBool(false), JInt(0), JStr(""), JArr([]), JObj([])}
  {
    match j
    case JNull => false
    case JBool(b) => b
    case JInt(i) => i != 0
    case JStr(s) => s != ""
    case JArr(xs) => xs != []
    case JObj(fs) => fs != []
  }

  /** `j[k]` for a non-negative integer position `k`. A string yields its
      one-character substring; a dict has only string keys, so an integer
      subscript is a missing key. */
  function Index(j: Json, k: nat): (r: Result<Json>)
    ensures j.JArr? ==> (r.Ok? <==> k < |j.elems|)
    ensures j.JArr? && k < |j.elems| ==> r.value == j.elems[k]
    ensures j.JArr? && k >= |j.elems| ==> r == Err(IndexError)
    ensures j.JObj? ==> r == Err(KeyError)
    ensures (j.JNull? || j.JBool? || j.JInt?) ==> r == Err(TypeError)
  {
    match j
    case JArr(xs) => if k < |xs| then Ok(xs[k]) else Err(IndexError)
    case JStr(s) => if k < |s| then Ok(JStr([s[k]])) else Err(IndexError)
    case JObj(_) => Err(KeyError)
    case _ => Err(TypeError)
  }

  /** What `for x in j` visits: list elements, the characters of a string, the
      keys of a dict; other values are not iterable. */
  function Elements(j: Json): (r: Result<seq<Json>>)
    ensures r.Ok? <==> (j.JArr? || j.JStr? || j.JObj?)
    ensures j.JArr? ==> r == Ok(j.elems)
    ensures j.JStr? ==> |r.value| == |j.s| && forall i :: 0 <= i < |j.s| ==> r.value[i] == JStr([j.s[i]])
    ensures j.JObj? ==> |r.value| == |j.fields| && forall i :: 0 <= i < |j.fields| ==> r.value[i] == JStr(j.fields[i].key)
  {
    match j
    case JArr(xs) => Ok(xs)
    case JStr(s) => Ok(seq(|s|, i requires 0 <= i < |s| => JStr([s[i]])))
    case JObj(fs) => Ok(seq(|fs|, i requires 0 <= i < |fs| => JStr(fs[i].key)))
    case _ => Err(TypeError)
  }

  predicate HasKey(fs: seq<Field>, key: string) {
    exists i :: 0 <= i < |fs| && fs[i].key == key
  }

  /** The value stored under `key`, looked up from the front. */
  function Lookup(fs: seq<Field>, key: string): (r: Option<Json>)
    ensures r.Some? <==> HasKey(fs, key)
    ensures r.Some? ==> exists i :: 0 <= i < |fs| && fs[i] == Field(key, r.value)
    decreases |fs|
  {
    if fs == [] then None
    else if fs[0].key == key then Some(fs[0].val)
    else
      var rest := Lookup(fs[1..], key);
      assert forall i :: 1 <= i < |fs| ==> fs[i] == fs[1..][i - 1];
      rest
  }

  /** `needle` occurs in `hay` at some position. */
  predicate IsSubstring(needle: string, hay: string)
    decreases |hay|
  {
    needle <= hay || (hay != [] && IsSubstring(needle, hay[1..]))
  }

  /** `key in j`: membership of a key in a dict, of the string in a list,
      of a substring in a string; other values raise. */
  function Contains(j: Json, key: string): (r: Result<bool>)
    ensures r.Ok? <==> (j.JObj? || j.JArr? || j.JStr?)
    ensures j.JObj? ==> r == Ok(HasKey(j.fields, key))
  {
    match j
    case JObj(fs) => Ok(HasKey(fs, key))
    case JArr(xs) => Ok(JStr(key) in xs)
    case JStr(s) => Ok(IsSubstring(key, s))
    case _ => Err(TypeError)
  }

  /** `j[key]` for a string key: only a dict can be subscripted by a string. */
  function Subscript(j: Json, key: string): (r: Result<Json>)
    ensures r.Ok? <==> j.JObj? && HasKey(j.fields, key)
    ensures r.Ok? ==> Lookup(j.fields, key) == Some(r.value)
  {
    match j
    case JObj(fs) => var v := Lookup(fs, key); if v.Some? then Ok(v.value) else Err(KeyError)
    case _ => Err(TypeError)
  }

  // ---------------------------------------------------------------------------
  // Decimal text of integers, as Python's str(int) writes it.

  function DigitChar(d: nat): char
    requires d < 10
  {
    "0123456789"[d]
  }

  function DigitValue(c: char): int {
    c as int - '0' as int
  }

  predicate IsDigit(c: char) {
    '0' <= c <= '9'
  }

  /** Decimal digits of a natural number, most significant first, with no
      leading zero. */
  function NatDecimal(n: nat): (r: string)
    ensures |r| >= 1 && (forall k :: 0 <= k < |r| ==> IsDigit(r[k]))
    ensures |r| > 1 ==> r[0] != '0'
    decreases n
  {
    if n < 10 then [DigitChar(n)] else NatDecimal(n / 10) + [DigitChar(n % 10)]
  }

  /** `str(i)`: a minus sign for negative numbers, then the digits. */
  function Decimal(i: int): string {
    if i < 0 then "-" + NatDecimal(-i) else NatDecimal(i)
  }

  /** Reading decimal digits back, most significant first. */
  function ParseDigits(s: string): int
    decreases |s|
  {
    if s == [] then 0 else 10 * ParseDigits(s[..|s| - 1]) + DigitValue(s[|s| - 1])
  }

  function ParseDecimal(s: string): int {
    if s != [] && s[0] == '-' then -ParseDigits(s[1..]) else ParseDigits(s)
  }

  lemma {:induction false} NatDecimalRoundTrip(n: nat)
    ensures ParseDigits(NatDecimal(n)) == n
    decreases n
  {
    if n >= 10 {
      var d := NatDecimal(n / 10);
      NatDecimalRoundTrip(n / 10);
      assert (d + [DigitChar(n % 10)])[..|d|] == d;
    }
  }

  /** The entry ids and date parts written into the query string read back as
      the numbers they came from. */
  lemma DecimalRoundTrip(i: int)
    ensures ParseDecimal(Decimal(i)) == i
  {
    if i < 0 {
      var d := NatDecimal(-i);
      NatDecimalRoundTrip(-i);
      assert ("-" + d)[0] == '-';
      assert ("-" + d)[1..] == d;
    } else {
      var d := NatDecimal(i);
      NatDecimalRoundTrip(i);
      assert IsDigit(d[0]);
    }
  }

  // ---------------------------------------------------------------------------
  // str() and repr() of parsed values, as f-strings interpolate them.

  /** `str(j)`: a string is written as it is, everything else as its repr. */
  function Str(j: Json): (r: string)
    ensures j.JStr? ==> r == j.s
    ensures j.JInt? ==> r == Decimal(j.i) && ParseDecimal(r) == j.i
    ensures j.JNull? ==> r == "None"
  {
    if j.JStr? then j.s else Repr(j)
  }

  /** `repr(j)`. Strings are quoted with single quotes (quoting and escaping
      of embedded quotes are not modelled). */
  function Repr(j: Json): (r: string)
    ensures j.JNull? ==> r == "None"
    ensures j.JBool? ==> r == if j.b then "True" else "False"
    ensures j.JInt? ==> r == Decimal(j.i) && ParseDecimal(r) == j.i
    ensures j.JStr? ==> r == "'" + j.s + "'"
    ensures j.JArr? ==> |r| >= 2 && r[0] == '[' && r[|r| - 1] == ']'
    ensures j.JObj? ==> |r| >= 2 && r[0] == '{' && r[|r| - 1] == '}'
    decreases j
  {
    match j
    case JNull => "None"
    case JBool(b) => if b then "True" else "False"
    case JInt(i) => DecimalRoundTrip(i); Decimal(i)
    case JStr(s) => "'" + s + "'"
    case JArr(xs) => "[" + Join(", ", seq(|xs|, k requires 0 <= k < |xs| => Repr(xs[k]))) + "]"
    case JObj(fs) =>
      "{" + Join(", ", seq(|fs|, k requires 0 <= k < |fs| => "'" + fs[k].key + "': " + Repr(fs[k].val))) + "}"
  }
}
