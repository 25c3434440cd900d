/** A model of the JavaScript values that the core passes around: payload
    values, persisted state, option records.  It defines the three pieces of
    JavaScript semantics the core leans on: truthiness (`x || default`,
    `if (x)`), `String(x)` (template literals, `Array.prototype.join`) and
    `parseInt(x, 10)`. */
module Values {
  import opened Wrappers

  /** A JavaScript value.  Numbers are integers (the core only parses and
      compares whole numbers) and unbounded; `IsSafeInteger` marks the ones
      a JavaScript number holds exactly.  An object is the map of its own
      enumerable properties. */
  datatype Value =
    | Undefined
    | Null
    | Bool(b: bool)
    | Num(n: int)
    | Str(s: string)
    | Arr(items: seq<Value>)
    | Obj(fields: map<string, Value>)

  /** JavaScript truthiness: `undefined`, `null`, `false`, `0` and `""`
      are falsy, everything else (every array and object) is truthy. */
  predicate Truthy(v: Value) {
    match v
    case Undefined => false
    case Null => false
    case Bool(b) => b
    case Num(n) => n != 0
    case Str(s) => s != ""
    case Arr(_) => true
    case Obj(_) => true
  }

  /** `o[key]` on an object; any other property read the core performs
      yields `undefined`. */
  function Get(o: Value, key: string): (r: Value)
    ensures o.Obj? && key in o.fields ==> r == o.fields[key]
    ensures !(o.Obj? && key in o.fields) ==> r == Undefined
  {
    if o.Obj? && key in o.fields then o.fields[key] else Undefined
  }

  /** The own enumerable properties of a value, as `Object.keys(v)` and
      `v[k]` see them: an object's fields, an array's or a string's indices,
      and none for any other value. */
  function OwnEntries(v: Value): (m: map<string, Value>)
    ensures v.Obj? ==> m == v.fields
    ensures |m.Keys| == match v case Arr(items) => |items| case Str(s) => |s| case Obj(f) => |f.Keys| case _ => 0
  {
    match v
    case Obj(fields) => fields
    case Arr(items) => NatToStringInjective(); IndexMap(items)
    case Str(s) => NatToStringInjective(); IndexMap(seq(|s|, i requires 0 <= i < |s| => Str([s[i]])))
    case _ => map[]
  }

  /** The map from the index keys `"0"`, `"1"`, … to the elements. */
  function IndexMap(items: seq<Value>): (m: map<string, Value>)
    ensures |m.Keys| == |items|
    ensures forall i :: 0 <= i < |items| ==> NatToString(i) in m && m[NatToString(i)] == items[i]
  {
    NatToStringInjective();
    IndexKeyCount(|items|);
    var m := map i | 0 <= i < |items| :: NatToString(i) := items[i];
    assert m.Keys == IndexKeys(|items|);
    m
  }

  function IndexKeys(n: nat): set<string> {
    set i | 0 <= i < n :: NatToString(i)
  }

  lemma {:induction false} IndexKeyCount(n: nat)
    ensures |IndexKeys(n)| == n
  {
    if n > 0 {
      IndexKeyCount(n - 1);
      IndexKeysStep(n);
    }
  }

  /** The index keys below `n` are those below `n - 1` and one more. */
  lemma IndexKeysStep(n: nat)
    requires n > 0
    ensures IndexKeys(n) == IndexKeys(n - 1) + {NatToString(n - 1)}
    ensures NatToString(n - 1) !in IndexKeys(n - 1)
  {
    if NatToString(n - 1) in IndexKeys(n - 1) {
      var i :| 0 <= i < n - 1 && NatToString(i) == NatToString(n - 1);
      DigitsValueOfNatToString(i);
      DigitsValueOfNatToString(n - 1);
    }
  }

  /** Distinct numbers have distinct numerals. */
  lemma NatToStringInjective()
    ensures forall i: nat, j: nat :: NatToString(i) == NatToString(j) ==> i == j
  {
    forall i: nat, j: nat | NatToString(i) == NatToString(j) ensures i == j {
      DigitsValueOfNatToString(i);
      DigitsValueOfNatToString(j);
    }
  }

  /** A map read with JavaScript's `undefined` for a missing key. */
  function Lookup(m: map<string, Value>, key: string): Value {
    if key in m then m[key] else Undefined
  }

  // ---------------------------------------------------------------------
  // Decimal text
  // ---------------------------------------------------------------------

  predicate IsDigit(c: char) { '0' <= c <= '9' }

  function DigitChar(d: nat): (c: char)
    requires d < 10
    ensures IsDigit(c)
  {
    ['0', '1', '2', '3', '4', '5', '6', '7', '8', '9'][d]
  }

  function DigitOf(c: char): (d: nat)
    requires IsDigit(c)
    ensures d < 10 && DigitChar(d) == c
  {
    if c == '0' then 0 else if c == '1' then 1 else if c == '2' then 2
    else if c == '3' then 3 else if c == '4' then 4 else if c == '5' then 5
    else if c == '6' then 6 else if c == '7' then 7 else if c == '8' then 8
    else 9
  }

  predicate AllDigits(s: string) {
    forall i :: 0 <= i < |s| ==> IsDigit(s[i])
  }

  /** The decimal numeral of `n`, as `String(n)` writes it. */
  function NatToString(n: nat): (s: string)
    ensures |s| > 0 && AllDigits(s)
    decreases n
  {
    if n < 10 then [DigitChar(n)] else NatToString(n / 10) + [DigitChar(n % 10)]
  }

  function IntToString(i: int): (s: string)
    ensures |s| > 0
  {
    if i < 0 then "-" + NatToString(-i) else NatToString(i)
  }

  /** The number an all-digit string denotes. */
  function DigitsValue(s: string): nat
    requires AllDigits(s)
  {
    if s == [] then 0 else 10 * DigitsValue(s[..|s| - 1]) + DigitOf(s[|s| - 1])
  }

  /** The longest prefix of `s` made of decimal digits. */
  function DigitPrefix(s: string): (p: string)
    ensures AllDigits(p) && p <= s
    ensures |p| < |s| ==> !IsDigit(s[|p|])
  {
    if s == [] || !IsDigit(s[0]) then [] else [s[0]] + DigitPrefix(s[1..])
  }

  /** `s.split(sep)` for a one-character separator: the pieces between
      the occurrences of `sep`, in order. */
  function Split(s: string, sep: char): (parts: seq<string>)
    ensures |parts| >= 1
    decreases |s|
  {
    if sep !in s then [s]
    else
      var i := IndexOf(s, sep);
      [s[..i]] + Split(s[i + 1..], sep)
  }

  /** The position of the first occurrence of `c`. */
  function IndexOf(s: string, c: char): (i: nat)
    requires c in s
    ensures i < |s| && s[i] == c && c !in s[..i]
  {
    if s[0] == c then 0 else 1 + IndexOf(s[1..], c)
  }

  /** Joining the pieces of a split with the separator gives the string
      back, and no piece contains the separator. */
  lemma {:induction false} SplitJoin(s: string, sep: char)
    ensures JoinWith(Split(s, sep), sep) == s
    ensures forall k :: 0 <= k < |Split(s, sep)| ==> sep !in Split(s, sep)[k]
    decreases |s|
  {
    if sep in s {
      var i := IndexOf(s, sep);
      var rest := Split(s[i + 1..], sep);
      var parts := [s[..i]] + rest;
      assert Split(s, sep) == parts;
      SplitJoin(s[i + 1..], sep);
      assert parts[0] == s[..i] && parts[1..] == rest && |parts| >= 2;
      assert JoinWith(parts, sep) == s[..i] + [sep] + JoinWith(rest, sep);
      assert s == s[..i] + [sep] + s[i + 1..];
      forall k | 0 <= k < |parts| ensures sep !in parts[k] {
        if k > 0 {
          assert parts[k] == rest[k - 1];
        }
      }
    }
  }

  function JoinWith(parts: seq<string>, sep: char): string {
    if parts == [] then "" else if |parts| == 1 then parts[0]
    else parts[0] + [sep] + JoinWith(parts[1..], sep)
  }

  // ---------------------------------------------------------------------
  // White space (the characters String.prototype.trim removes)
  // ---------------------------------------------------------------------

  predicate IsSpace(c: char) {
    c == '\t' || c == '\n' || c == '\U{000B}' || c == '\U{000C}' || c == '\r'
    || c == ' ' || c == '\U{00A0}' || c == '\U{1680}'
    || ('\U{2000}' <= c <= '\U{200A}')
    || c == '\U{2028}' || c == '\U{2029}' || c == '\U{202F}' || c == '\U{205F}'
    || c == '\U{3000}' || c == '\U{FEFF}'
  }

  /** How many white-space characters `s` starts with. */
  function LeadingSpaces(s: string): (n: nat)
    ensures n <= |s| && (n < |s| ==> !IsSpace(s[n]))
    ensures forall i :: 0 <= i < n ==> IsSpace(s[i])
  {
    if s == [] || !IsSpace(s[0]) then 0
    else
      var n := LeadingSpaces(s[1..]);
      assert forall i :: 0 < i <= n ==> s[i] == s[1..][i - 1];
      n + 1
  }

  /** `s.trimStart()`: `s` without its leading white space. */
  function TrimStart(s: string): string {
    s[LeadingSpaces(s)..]
  }

  function TrimEnd(s: string): (r: string)
    ensures r <= s
    ensures r != [] ==> !IsSpace(r[|r| - 1])
    ensures forall i :: |r| <= i < |s| ==> IsSpace(s[i])
  {
    if s != [] && IsSpace(s[|s| - 1]) then TrimEnd(s[..|s| - 1]) else s
  }

  /** `s.trim()`. */
  function Trim(s: string): string {
    TrimEnd(TrimStart(s))
  }

  // ---------------------------------------------------------------------
  // String(x) and parseInt(x, 10)
  // ---------------------------------------------------------------------

  /** `String(v)`.  An array is joined with commas, its `null` and
      `undefined` elements written as empty strings; an object is
      `"[object Object]"`. */
  function ToJsString(v: Value): string
    decreases v
  {
    match v
    case Undefined => "undefined"
    case Null => "null"
    case Bool(b) => if b then "true" else "false"
    case Num(n) => IntToString(n)
    case Str(s) => s
    case Arr(items) =>
      JoinComma(seq(|items|, i requires 0 <= i < |items| =>
        if items[i].Undefined? || items[i].Null? then "" else ToJsString(items[i])))
    case Obj(_) => "[object Object]"
  }

  function JoinComma(parts: seq<string>): string {
    if parts == [] then "" else if |parts| == 1 then parts[0]
    else JoinComma(parts[..|parts| - 1]) + "," + parts[|parts| - 1]
  }

  /** `parseInt(s, 10)` on a string: leading white space is skipped, one
      sign is read, then the longest run of decimal digits; no digit at all
      is `NaN`, modelled as `None`. */
  function ParseIntText(s: string): (r: Option<int>)
    ensures r.None? <==>
      (var t := TrimStart(s);
       var u := if t != [] && (t[0] == '-' || t[0] == '+') then t[1..] else t;
       u == [] || !IsDigit(u[0]))
  {
    var t := TrimStart(s);
    var negative := t != [] && t[0] == '-';
    var u := if t != [] && (t[0] == '-' || t[0] == '+') then t[1..] else t;
    var digits := DigitPrefix(u);
    if digits == [] then None
    else if negative then Some(-(DigitsValue(digits) as int))
    else Some(DigitsValue(digits))
  }

  /** `parseInt(v, 10)`: the argument is first converted with `String`. */
  function ParseInt(v: Value): Option<int> {
    ParseIntText(ToJsString(v))
  }

  lemma {:induction false} DigitsValueOfNatToString(n: nat)
    ensures DigitsValue(NatToString(n)) == n
    decreases n
  {
    if n < 10 {
      DigitRoundTrip(n);
      assert [DigitChar(n)][..0] == [];
    } else {
      var q, r := n / 10, n % 10;
      DigitsValueOfNatToString(q);
      DigitRoundTrip(r);
      var s := NatToString(q) + [DigitChar(r)];
      assert s[..|s| - 1] == NatToString(q);
      assert DigitsValue(s) == 10 * q + r;
    }
  }

  lemma DigitRoundTrip(d: nat)
    requires d < 10
    ensures DigitOf(DigitChar(d)) == d
  {
  }

  lemma DigitPrefixOfDigits(s: string)
    requires AllDigits(s)
    ensures DigitPrefix(s) == s
  {
    if s != [] {
      DigitPrefixOfDigits(s[1..]);
    }
  }

  /** `Number.MAX_SAFE_INTEGER`, 2^53 - 1. */
  const MAX_SAFE_INTEGER: int := 0x1F_FFFF_FFFF_FFFF

  /** Whole numbers a JavaScript number represents exactly, and that
      `String` writes in plain decimal notation (beyond 10^21 it switches to
      exponent notation, and `parseInt` then stops at the `e`). */
  predicate IsSafeInteger(n: int) {
    -MAX_SAFE_INTEGER <= n <= MAX_SAFE_INTEGER
  }

  /** `parseInt(String(n), 10) == n` for every safe integer. */
  lemma ParseIntOfNumber(n: int)
    requires IsSafeInteger(n)
    ensures ParseInt(Num(n)) == Some(n)
  {
    var m: nat := if n < 0 then -n else n;
    var digits := NatToString(m);
    var text := IntToString(n);
    assert ToJsString(Num(n)) == text;
    assert !IsSpace(text[0]);
    assert TrimStart(text) == text;
    DigitPrefixOfDigits(digits);
    DigitsValueOfNatToString(m);
    if n < 0 {
      assert text == "-" + digits;
      assert text[1..] == digits;
    } else {
      assert text == digits;
      assert !(text[0] == '-' || text[0] == '+');
    }
  }
}
