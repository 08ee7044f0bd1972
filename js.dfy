/** The JavaScript values that reach the relay's handlers through the JSON body
    parser, and the handful of built-in operations the phone and message code
    applies to them: truthiness, `toString()`, `||`, binary `+`, property reads
    with optional chaining, `includes`, `replace` with a string pattern, and
    `trim()`. */
module Js {

  datatype Option<T> = None | Some(value: T)

  /** A JavaScript value as produced by parsing a JSON request body (plus
      `undefined`, which is what reading a missing property yields). JSON numbers
      are modelled as exact integers. */
  datatype Value =
    | Undefined
    | Null
    | Bool(b: bool)
    | Num(n: int)
    | Str(s: string)
    | Arr(items: seq<Value>)
    | Obj(fields: map<string, Value>)

  /** ToBoolean: `undefined`, `null`, `false`, `0` and `""` are falsy, every
      other value is truthy. */
  predicate Truthy(v: Value) {
    match v
    case Undefined => false
    case Null => false
    case Bool(b) => b
    case Num(n) => n != 0
    case Str(s) => s != ""
    case Arr(_) => true
    case Obj(_) => true
  }

  /** The short-circuiting `a || b`: the left operand when it is truthy,
      otherwise the right one. */
  function Or(a: Value, b: Value): (r: Value)
    ensures Truthy(a) ==> r == a
    ensures !Truthy(a) ==> r == b
    ensures Truthy(r) <==> Truthy(a) || Truthy(b)
  {
    if Truthy(a) then a else b
  }

  predicate IsDigit(c: char) {
    '0' <= c <= '9'
  }

  predicate AllDigits(s: string) {
    forall i :: 0 <= i < |s| ==> IsDigit(s[i])
  }

  lemma AllDigitsConcat(a: string, b: string)
    requires AllDigits(a) && AllDigits(b)
    ensures AllDigits(a + b)
  {
    assert forall i :: 0 <= i < |a + b| ==> (a + b)[i] == (if i < |a| then a[i] else b[i - |a|]);
  }

  function DigitChar(d: nat): (c: char)
    requires d < 10
    ensures IsDigit(c)
  {
    (48 + d) as char
  }

  /** The number a string of decimal digits denotes, most significant digit
      first. */
  function DecimalValue(s: string): nat
    requires AllDigits(s)
  {
    if s == "" then 0
    else DecimalValue(s[..|s| - 1]) * 10 + (s[|s| - 1] as int - '0' as int)
  }

  /** Decimal rendering of a natural number, most significant digit first and
      without leading zeros. */
  function Decimal(n: nat): (r: string)
    ensures |r| >= 1 && AllDigits(r)
    ensures DecimalValue(r) == n
    ensures r[0] == '0' ==> n == 0
  {
    if n < 10 then [DigitChar(n)]
    else
      var r := Decimal(n / 10) + [DigitChar(n % 10)];
      assert r[..|r| - 1] == Decimal(n / 10);
      r
  }

  /** Elements of an array as `Array.prototype.join` shows them: `null` and
      `undefined` become the empty string. */
  function JoinItems(parts: seq<string>): string {
    if |parts| == 0 then ""
    else if |parts| == 1 then parts[0]
    else parts[0] + "," + JoinItems(parts[1..])
  }

  /** Turning `v` into a string throws a TypeError: `v` is an object whose own
      `toString` field (a JSON value, so never callable) hides the prototype's
      method, or an array holding such an object at any depth, which `join`
      converts in turn. `String(v)`, `v.toString()` and `+` all throw for it. */
  predicate ToStrThrows(v: Value)
    decreases v
  {
    match v
    case Obj(f) => "toString" in f
    case Arr(items) => exists i :: 0 <= i < |items| && ToStrThrows(items[i])
    case _ => false
  }

  /** `String(v)`, which is also what `v.toString()` yields for every value
      that has a `toString` method; a plain object shows as `[object Object]`
      and an array as its elements joined with commas. The text is only
      meaningful when `ToStrThrows(v)` does not hold. */
  function ToStr(v: Value): string
    decreases v
  {
    match v
    case Undefined => "undefined"
    case Null => "null"
    case Bool(b) => if b then "true" else "false"
    case Num(n) => if n < 0 then "-" + Decimal(-n) else Decimal(n)
    case Str(s) => s
    case Arr(items) =>
      JoinItems(seq(|items|, i requires 0 <= i < |items| =>
        if items[i].Undefined? || items[i].Null? then "" else ToStr(items[i])))
    case Obj(_) => "[object Object]"
  }

  /** ToPrimitive with the default hint: objects and arrays become their
      string form, every other value is already primitive. */
  function ToPrimitive(v: Value): (r: Value)
    requires !ToStrThrows(v)
    ensures (v.Arr? || v.Obj?) ==> r == Str(ToStr(v))
    ensures !(v.Arr? || v.Obj?) ==> r == v
    ensures !r.Arr? && !r.Obj?
  {
    if v.Arr? || v.Obj? then Str(ToStr(v)) else v
  }

  /** ToNumber of a primitive other than a string or `undefined`. */
  function ToNumber(v: Value): int
    requires !v.Undefined? && !v.Str? && !v.Arr? && !v.Obj?
  {
    match v
    case Null => 0
    case Bool(b) => if b then 1 else 0
    case Num(n) => n
  }

  /** Binary `+`: string concatenation as soon as either operand is (or turns
      into) a string, numeric addition otherwise. An `undefined` operand would
      give `NaN`, which this model has no value for; the relay only adds operands
      of the form `x || ''`, which are never `undefined`. An operand whose
      conversion throws makes `+` throw, so the caller checks `ToStrThrows`
      first. */
  function Plus(a: Value, b: Value): (r: Value)
    requires !a.Undefined? && !b.Undefined?
    requires !ToStrThrows(a) && !ToStrThrows(b)
    ensures (a.Str? || a.Arr? || a.Obj? || b.Str? || b.Arr? || b.Obj?) ==> r == Str(ToStr(a) + ToStr(b))
    ensures !(a.Str? || a.Arr? || a.Obj? || b.Str? || b.Arr? || b.Obj?) ==> r == Num(ToNumber(a) + ToNumber(b))
  {
    var pa, pb := ToPrimitive(a), ToPrimitive(b);
    if pa.Str? || pb.Str? then Str(ToStr(pa) + ToStr(pb))
    else Num(ToNumber(pa) + ToNumber(pb))
  }

  /** `v?.name` for the data properties the relay reads: the object's own
      field, and `undefined` for every other value (optional chaining on `null`
      or `undefined`, or a primitive or an array, none of which has a property
      of those names). None of the names read is `length`, an array index or a
      name inherited from a prototype. */
  function Get(v: Value, name: string): (r: Value)
    ensures !v.Obj? ==> r == Undefined
    ensures v.Obj? && name !in v.fields ==> r == Undefined
    ensures v.Obj? && name in v.fields ==> r == v.fields[name]
  {
    match v
    case Obj(f) => if name in f then f[name] else Undefined
    case _ => Undefined
  }

  /** `v?.[0]`: the first element of an array, the first character of a
      string, the field "0" of an object, `undefined` otherwise. */
  function First(v: Value): Value {
    match v
    case Arr(items) => if |items| > 0 then items[0] else Undefined
    case Str(s) => if |s| > 0 then Str([s[0]]) else Undefined
    case Obj(f) => if "0" in f then f["0"] else Undefined
    case _ => Undefined
  }

  /** `p` occurs in `s` starting at index `i`. */
  predicate OccursAt(s: string, p: string, i: int) {
    0 <= i && i + |p| <= |s| && s[i..i + |p|] == p
  }

  /** `s.indexOf(p)` for a non-empty pattern: the first index at which `p`
      occurs, if any. */
  function IndexOf(s: string, p: string): (r: Option<nat>)
    requires p != ""
    ensures r.Some? ==> OccursAt(s, p, r.value)
    ensures r.Some? ==> forall j :: 0 <= j < r.value ==> !OccursAt(s, p, j)
    ensures r.None? ==> forall j :: !OccursAt(s, p, j)
    decreases |s|
  {
    if |s| < |p| then None
    else if s[..|p|] == p then Some(0)
    else
      match IndexOf(s[1..], p)
      case None =>
        assert forall j :: OccursAt(s, p, j) ==> j == 0 || OccursAt(s[1..], p, j - 1);
        None
      case Some(k) =>
        assert forall j :: 1 <= j <= k ==> (OccursAt(s, p, j) ==> OccursAt(s[1..], p, j - 1));
        assert OccursAt(s[1..], p, k) ==> OccursAt(s, p, k + 1);
        Some(k + 1)
  }

  /** A string is the text before an occurrence, the occurrence, and the
      text after it. */
  lemma SplitAtOccurrence(s: string, p: string, i: int)
    requires OccursAt(s, p, i)
    ensures s == s[..i] + (p + s[i + |p|..])
  {
    assert s == s[..i] + s[i..i + |p|] + s[i + |p|..];
  }

  /** `s.includes(p)` */
  predicate Includes(s: string, p: string)
    requires p != ""
  {
    IndexOf(s, p).Some?
  }

  /** `s.replace(p, '')` with a string pattern: only the first occurrence of
      `p` is removed. */
  function RemoveFirst(s: string, p: string): (r: string)
    requires p != ""
    ensures IndexOf(s, p).None? ==> r == s
    ensures IndexOf(s, p).Some? ==>
      var i := IndexOf(s, p).value; r == s[..i] + s[i + |p|..] && |r| == |s| - |p|
  {
    match IndexOf(s, p)
    case None => s
    case Some(i) => s[..i] + s[i + |p|..]
  }

  /** The characters `String.prototype.trim` removes: the ECMAScript
      WhiteSpace code points (tab, vertical tab, form feed, the byte order mark
      and the Unicode space separators) and the LineTerminator code points. */
  predicate IsWhite(c: char) {
    || c == '\U{9}' || c == '\U{B}' || c == '\U{C}' || c == '\U{20}'
    || c == '\U{A0}' || c == '\U{FEFF}'
    || c == '\U{1680}' || ('\U{2000}' <= c <= '\U{200A}') || c == '\U{202F}'
    || c == '\U{205F}' || c == '\U{3000}'
    || c == '\U{A}' || c == '\U{D}' || c == '\U{2028}' || c == '\U{2029}'
  }

  predicate AllWhite(s: string) {
    forall i :: 0 <= i < |s| ==> IsWhite(s[i])
  }

  /** `s` with its leading white space removed. */
  function TrimStart(s: string): (r: string)
    ensures |r| <= |s| && r == s[|s| - |r|..]
    ensures AllWhite(s[..|s| - |r|])
    ensures r == "" || !IsWhite(r[0])
  {
    if s != "" && IsWhite(s[0]) then TrimStart(s[1..]) else s
  }

  /** `s` with its trailing white space removed. */
  function TrimEnd(s: string): (r: string)
    ensures |r| <= |s| && r == s[..|r|]
    ensures AllWhite(s[|r|..])
    ensures r == "" || !IsWhite(r[|r| - 1])
  {
    if s != "" && IsWhite(s[|s| - 1]) then TrimEnd(s[..|s| - 1]) else s
  }

  /** `s.trim()` */
  function Trim(s: string): string {
    TrimEnd(TrimStart(s))
  }

  /** Slicing a suffix is slicing the whole. */
  lemma SuffixSlices(s: string, i: int, k: int)
    requires 0 <= i && 0 <= k && i + k <= |s|
    ensures s[i..][..k] == s[i..i + k]
    ensures s[i..][k..] == s[i + k..]
  {
  }

  /** `trim()` cuts `s` at two points with only white space outside them. */
  lemma TrimCut(s: string) returns (i: int, j: int)
    ensures 0 <= i <= j <= |s| && Trim(s) == s[i..j]
    ensures AllWhite(s[..i]) && AllWhite(s[j..])
  {
    var t := TrimStart(s);
    var r := TrimEnd(t);
    i := |s| - |t|;
    j := i + |r|;
    SuffixSlices(s, i, |r|);
    assert AllWhite(t[|r|..]);
  }

  /** What `trim()` returns: `s` cut at `i` and `j` where everything cut off is
      white space, the result neither starts nor ends with white space, and it
      is empty exactly when `s` is all white space. */
  lemma TrimSpec(s: string)
    ensures var r := Trim(s);
      && (r == "" || (!IsWhite(r[0]) && !IsWhite(r[|r| - 1])))
      && (exists i, j :: 0 <= i <= j <= |s| && r == s[i..j] && AllWhite(s[..i]) && AllWhite(s[j..]))
      && (r == "" <==> AllWhite(s))
  {
    var t := TrimStart(s);
    var r := TrimEnd(t);
    var i, j := TrimCut(s);
    if r != "" {
      assert r[0] == t[0];
      assert !IsWhite(s[i]);
    } else {
      forall k | 0 <= k < |s|
        ensures IsWhite(s[k])
      {
        if k < i {
          assert s[k] == s[..i][k];
        } else {
          assert s[k] == s[j..][k - j];
        }
      }
    }
  }
}
