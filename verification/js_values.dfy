/**
 * The JavaScript values the analyzer handles: what `JSON.parse` and
 * `response.json()` can return, JavaScript truthiness, property reads that
 * throw on `null`/`undefined`, and `String(v)` as `new Error(v)` applies it.
 */
module JsValues {
  import opened Wrappers
  import opened JsStrings

  /** A parsed JSON value. Numbers are integers in this model. */
  datatype Json =
    | JNull
    | JBool(b: bool)
    | JNum(n: int)
    | JStr(s: string)
    | JArr(items: seq<Json>)
    | JObj(fields: map<string, Json>)

  /** How an expression finished: with a value, or by throwing (a TypeError). */
  datatype Completion<+T> = Normal(value: T) | Throws

  /** JavaScript truthiness of a value; `None` is `undefined`. */
  predicate Truthy(v: Option<Json>) {
    match v
    case None => false
    case Some(JNull) => false
    case Some(JBool(b)) => b
    case Some(JNum(n)) => n != 0
    case Some(JStr(s)) => s != ""
    case Some(_) => true
  }

  /**
   * The property read `v.key`. Reading from `undefined` or `null` throws; an
   * object yields its own field (or `undefined`); the other values have none
   * of the field names this program reads.
   */
  function Get(v: Option<Json>, key: string): (r: Completion<Option<Json>>)
    ensures r.Throws? <==> v == None || v == Some(JNull)
    ensures r.Normal? && r.value.Some? ==> v.value.JObj? && key in v.value.fields
    // an object yields its own field, or `undefined` when it has none
    ensures v.Some? && v.value.JObj? ==>
      r == Normal(if key in v.value.fields then Some(v.value.fields[key]) else None)
    // any other value that is not `null` yields `undefined`
    ensures v.Some? && v.value != JNull && !v.value.JObj? ==> r == Normal(None)
  {
    match v
    case None => Throws
    case Some(JNull) => Throws
    case Some(JObj(fields)) => Normal(if key in fields then Some(fields[key]) else None)
    case Some(_) => Normal(None)
  }

  /** `v.key` for a value that is not `null`, where the read cannot throw. */
  function Field(v: Json, key: string): (r: Option<Json>)
    ensures v != JNull ==> Get(Some(v), key) == Normal(r)
  {
    if v.JObj? && key in v.fields then Some(v.fields[key]) else None
  }

  /**
   * `v.includes(needle)`: substring search on a string, element search on an
   * array; any other value has no `includes` method, so the call throws.
   */
  function Includes(v: Option<Json>, needle: string): (r: Completion<bool>)
    ensures r.Normal? <==> v.Some? && (v.value.JStr? || v.value.JArr?)
    ensures r.Normal? ==> r.value == if v.value.JStr? then Contains(v.value.s, needle) else JStr(needle) in v.value.items
  {
    match v
    case Some(JStr(s)) => Normal(Contains(s, needle))
    case Some(JArr(items)) => Normal(JStr(needle) in items)
    case _ => Throws
  }

  /** A string made only of the digits `0`-`9`. */
  predicate IsDigits(s: string) {
    forall k :: 0 <= k < |s| ==> '0' <= s[k] <= '9'
  }

  /** The number a string of decimal digits denotes. */
  function DecimalValue(s: string): nat
    requires IsDigits(s)
    decreases |s|
  {
    if s == [] then 0 else 10 * DecimalValue(s[..|s| - 1]) + (s[|s| - 1] as int - '0' as int)
  }

  /** Decimal digits of a natural number, with no leading zero. */
  function NatToDecimal(n: nat): (r: string)
    ensures |r| > 0 && IsDigits(r)
    ensures r[0] == '0' ==> r == "0"
    decreases n
  {
    var digit := ('0' as int + n % 10) as char;
    if n < 10 then [digit] else NatToDecimal(n / 10) + [digit]
  }

  /** Reading the digits back gives the number. */
  lemma {:induction false} NatToDecimalValue(n: nat)
    ensures DecimalValue(NatToDecimal(n)) == n
    decreases n
  {
    var r := NatToDecimal(n);
    if n >= 10 {
      NatToDecimalValue(n / 10);
      assert r[..|r| - 1] == NatToDecimal(n / 10);
    }
  }

  /** Joins strings with a separator, as `Array.prototype.join` does. */
  function Join(parts: seq<string>, sep: string): string
    decreases |parts|
  {
    if |parts| == 0 then ""
    else if |parts| == 1 then parts[0]
    else parts[0] + sep + Join(parts[1..], sep)
  }

  /** `s.split(c)`: the pieces between the occurrences of `c`; always at least one. */
  function Split(s: string, c: char): (r: seq<string>)
    ensures |r| > 0
    decreases |s|
  {
    if s == [] then [""]
    else
      var rest := Split(s[1..], c);
      if s[0] == c then [""] + rest else [[s[0]] + rest[0]] + rest[1..]
  }

  /** A piece without the separator, followed by the separator, splits off as one piece. */
  lemma {:induction false} SplitPiece(p: string, c: char, t: string)
    requires c !in p
    ensures Split(p + [c] + t, c) == [p] + Split(t, c)
    decreases |p|
  {
    if p == [] {
      assert p + [c] + t == [c] + t;
      assert ([c] + t)[1..] == t;
    } else {
      SplitPiece(p[1..], c, t);
      assert (p + [c] + t)[1..] == p[1..] + [c] + t;
      assert [p[0]] + p[1..] == p;
    }
  }

  /** A string without the separator is a single piece. */
  lemma {:induction false} SplitWhole(p: string, c: char)
    requires c !in p
    ensures Split(p, c) == [p]
    decreases |p|
  {
    if p != [] {
      SplitWhole(p[1..], c);
      assert [p[0]] + p[1..] == p;
    }
  }

  /** Splitting a comma-joined list gives the list back when no element holds a comma. */
  lemma {:induction false} SplitJoin(parts: seq<string>, c: char)
    requires |parts| > 0
    requires forall k :: 0 <= k < |parts| ==> c !in parts[k]
    ensures Split(Join(parts, [c]), c) == parts
    decreases |parts|
  {
    if |parts| == 1 {
      SplitWhole(parts[0], c);
    } else {
      SplitJoin(parts[1..], c);
      SplitPiece(parts[0], c, Join(parts[1..], [c]));
      assert [parts[0]] + parts[1..] == parts;
    }
  }

  /**
   * `String(v)` for a parsed JSON value: arrays join their elements with
   * commas (a `null` element becomes the empty string) and objects print as
   * `[object Object]`.
   */
  function ToJsString(v: Json): (r: string)
    ensures v.JStr? ==> r == v.s
    ensures v.JNum? ==> |r| > 0 && (r[0] == '-' <==> v.n < 0)
    ensures v.JNum? ==> var digits := if v.n < 0 then r[1..] else r;
      |digits| > 0 && IsDigits(digits) && (digits[0] == '0' ==> digits == "0")
    ensures v == JNull ==> r == "null"
    ensures v.JBool? ==> r == if v.b then "true" else "false"
    ensures v == JArr([]) ==> r == ""
    ensures v.JObj? ==> r == "[object Object]"
    decreases v
  {
    match v
    case JNull => "null"
    case JBool(b) => if b then "true" else "false"
    case JNum(n) => if n < 0 then "-" + NatToDecimal(-n) else NatToDecimal(n)
    case JStr(s) => s
    case JArr(items) =>
      Join(seq(|items|, k requires 0 <= k < |items| =>
        if items[k] == JNull then "" else ToJsString(items[k])), ",")
    case JObj(_) => "[object Object]"
  }

  /** The digits of a number's string read back as its magnitude. */
  lemma NumberToStringValue(n: int)
    ensures var r := ToJsString(JNum(n));
      var digits := if n < 0 then r[1..] else r;
      DecimalValue(digits) == if n < 0 then -n else n
  {
    if n < 0 {
      NatToDecimalValue(-n);
      assert ("-" + NatToDecimal(-n))[1..] == NatToDecimal(-n);
    } else {
      NatToDecimalValue(n);
    }
  }

  /**
   * An array of strings without commas prints as its elements joined by
   * commas: splitting the printed text at the commas gives the elements back.
   */
  lemma ArrayToStringSplits(items: seq<Json>)
    requires |items| > 0
    requires forall k :: 0 <= k < |items| ==> items[k].JStr? && ',' !in items[k].s
    ensures Split(ToJsString(JArr(items)), ',') == seq(|items|, k requires 0 <= k < |items| => items[k].s)
  {
    var parts := seq(|items|, k requires 0 <= k < |items| => if items[k] == JNull then "" else ToJsString(items[k]));
    assert parts == seq(|items|, k requires 0 <= k < |items| => items[k].s);
    SplitJoin(parts, ',');
  }
}
