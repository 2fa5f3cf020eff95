/**
 * The parts of Python's built-in string and integer behaviour that the
 * labeler relies on: `str.isspace`, `strip`/`lstrip`/`rstrip`, `int(...)`,
 * `str(...)`, truthiness, `str.split` and `str.join`, `str.endswith`.
 */
module PyBuiltins {

  datatype Option<T> = None | Some(value: T)

  /** A scalar value as a parsed JSON record or a request body hands it over. */
  datatype Value = VNone | VBool(b: bool) | VInt(i: int) | VStr(s: string)

  // ---------------------------------------------------------------------------
  // Whitespace and strip
  // ---------------------------------------------------------------------------

  /** Python's `str.isspace` for one character. */
  predicate IsSpace(c: char) {
    var n := c as int;
    (0x09 <= n <= 0x0D) || (0x1C <= n <= 0x20) || n == 0x85 || n == 0xA0 ||
    n == 0x1680 || (0x2000 <= n <= 0x200A) || n == 0x2028 || n == 0x2029 ||
    n == 0x202F || n == 0x205F || n == 0x3000
  }

  predicate AllSpace(s: string) {
    forall i :: 0 <= i < |s| ==> IsSpace(s[i])
  }

  /** Number of leading whitespace characters: what `lstrip` removes. */
  function LeadCount(s: string): (n: nat)
    ensures n <= |s|
  {
    if |s| > 0 && IsSpace(s[0]) then 1 + LeadCount(s[1..]) else 0
  }

  /** Number of trailing whitespace characters: what `rstrip` removes. */
  function TrailCount(s: string): (n: nat)
    ensures n <= |s|
  {
    if |s| > 0 && IsSpace(s[|s| - 1]) then 1 + TrailCount(s[..|s| - 1]) else 0
  }

  /** The leading count covers whitespace only and stops at the first non-space. */
  lemma {:induction false} LeadCountSpec(s: string)
    ensures forall i :: 0 <= i < LeadCount(s) ==> IsSpace(s[i])
    ensures LeadCount(s) < |s| ==> !IsSpace(s[LeadCount(s)])
  {
    if |s| > 0 && IsSpace(s[0]) {
      var t := s[1..];
      LeadCountSpec(t);
      forall i | 1 <= i < LeadCount(s) ensures IsSpace(s[i]) {
        assert s[i] == t[i - 1];
      }
      if LeadCount(s) < |s| {
        assert s[LeadCount(s)] == t[LeadCount(t)];
      }
    }
  }

  /** The trailing count covers whitespace only and stops at the last non-space. */
  lemma {:induction false} TrailCountSpec(s: string)
    ensures forall i :: |s| - TrailCount(s) <= i < |s| ==> IsSpace(s[i])
    ensures TrailCount(s) < |s| ==> !IsSpace(s[|s| - 1 - TrailCount(s)])
  {
    if |s| > 0 && IsSpace(s[|s| - 1]) {
      var t := s[..|s| - 1];
      TrailCountSpec(t);
      forall i | |s| - TrailCount(s) <= i < |s| - 1 ensures IsSpace(s[i]) {
        assert s[i] == t[i];
      }
      if TrailCount(s) < |s| {
        assert s[|s| - 1 - TrailCount(s)] == t[|t| - 1 - TrailCount(t)];
      }
    }
  }

  function LStrip(s: string): string { s[LeadCount(s)..] }

  function RStrip(s: string): string { s[..|s| - TrailCount(s)] }

  /** Python's `s.strip()`. */
  function Strip(s: string): string { RStrip(LStrip(s)) }

  /** A string that `strip` leaves alone. */
  predicate IsStripped(s: string) {
    |s| == 0 || (!IsSpace(s[0]) && !IsSpace(s[|s| - 1]))
  }

  /** Any count with TrailCount's two defining properties is TrailCount. */
  lemma {:induction false} TrailCountUnique(s: string, n: nat)
    requires n <= |s|
    requires forall i :: |s| - n <= i < |s| ==> IsSpace(s[i])
    requires n < |s| ==> !IsSpace(s[|s| - 1 - n])
    ensures n == TrailCount(s)
  {
    if n > 0 {
      var t := s[..|s| - 1];
      forall i | |t| - (n - 1) <= i < |t| ensures IsSpace(t[i]) {
        assert t[i] == s[i];
      }
      if n - 1 < |t| {
        assert t[|t| - 1 - (n - 1)] == s[|s| - 1 - n];
      }
      TrailCountUnique(t, n - 1);
    }
  }

  /** Dropping a stripped-off prefix that ends before a non-space keeps the trailing count. */
  lemma {:induction false} TrailCountOfSuffix(s: string, l: nat)
    requires l < |s| && !IsSpace(s[l])
    ensures TrailCount(s[l..]) == TrailCount(s) < |s| - l
  {
    var t := s[l..];
    var k := TrailCount(t);
    TrailCountSpec(t);
    assert t[0] == s[l];
    assert k < |t|;
    forall i | |s| - k <= i < |s| ensures IsSpace(s[i]) {
      assert s[i] == t[i - l];
    }
    assert s[|s| - 1 - k] == t[|t| - 1 - k];
    TrailCountUnique(s, k);
  }

  /**
   * `strip` keeps exactly the window between the leading and the trailing
   * whitespace; an all-whitespace string strips to "" and both counts are
   * its whole length.
   */
  lemma {:induction false} StripWindow(s: string)
    ensures LeadCount(s) < |s| ==>
              LeadCount(s) + TrailCount(s) < |s| &&
              Strip(s) == s[LeadCount(s)..|s| - TrailCount(s)]
    ensures LeadCount(s) == |s| <==> AllSpace(s)
    ensures LeadCount(s) == |s| ==> TrailCount(s) == |s| && Strip(s) == ""
  {
    if LeadCount(s) < |s| {
      LeadCountSpec(s);
      StripInner(s, LeadCount(s), TrailCount(s));
    } else {
      StripAllSpace(s);
    }
  }

  lemma {:induction false} StripAllSpace(s: string)
    requires LeadCount(s) == |s|
    ensures AllSpace(s) && TrailCount(s) == |s| && Strip(s) == ""
  {
    LeadCountSpec(s);
    TrailCountUnique(s, |s|);
    assert LStrip(s) == "";
  }

  lemma {:induction false} StripInner(s: string, l: nat, k: nat)
    requires l == LeadCount(s) < |s| && k == TrailCount(s)
    ensures l + k < |s|
    ensures Strip(s) == s[l..|s| - k]
  {
    LeadCountSpec(s);
    TrailCountOfSuffix(s, l);
    StripAt(s, l, s[l..], k);
  }

  lemma {:induction false} StripAt(s: string, l: nat, t: string, k: nat)
    requires l == LeadCount(s) < |s| && t == s[l..]
    requires k == TrailCount(t) && k == TrailCount(s)
    ensures Strip(s) == s[l..|s| - k]
  {
  }

  /** `strip` gives a stripped string, and stripping is idempotent. */
  lemma {:induction false} StripIdempotent(s: string)
    ensures IsStripped(Strip(s))
    ensures Strip(Strip(s)) == Strip(s)
  {
    StripIsStripped(s);
    StrippedIsFixed(Strip(s));
  }

  lemma {:induction false} StripIsStripped(s: string)
    ensures IsStripped(Strip(s))
  {
    var l, k := LeadCount(s), TrailCount(s);
    if l < |s| {
      StripInner(s, l, k);
      LeadCountSpec(s);
      TrailCountSpec(s);
      StrippedWindow(s, l, k);
    } else {
      StripAllSpace(s);
    }
  }

  /** The window between a non-space at `l` and a non-space at `|s| - 1 - k` is stripped. */
  lemma StrippedWindow(s: string, l: nat, k: nat)
    requires l + k < |s|
    requires !IsSpace(s[l]) && !IsSpace(s[|s| - 1 - k])
    ensures IsStripped(s[l..|s| - k])
  {
    var r := s[l..|s| - k];
    assert r[0] == s[l] && r[|r| - 1] == s[|s| - 1 - k];
  }

  /** A string is left alone by `strip` exactly when it is stripped. */
  lemma {:induction false} StrippedIsFixed(s: string)
    ensures Strip(s) == s <==> IsStripped(s)
  {
    StripWindow(s);
    if IsStripped(s) && |s| > 0 {
      assert LeadCount(s) == 0;
      assert TrailCount(s) == 0;
    }
    if Strip(s) == s && |s| > 0 {
      assert LeadCount(s) < |s|;
      assert |Strip(s)| == |s| - LeadCount(s) - TrailCount(s);
      LeadCountSpec(s);
      TrailCountSpec(s);
    }
  }

  // ---------------------------------------------------------------------------
  // Decimal digits, int(...) and str(...)
  // ---------------------------------------------------------------------------

  predicate IsDigit(c: char) { '0' <= c <= '9' }

  predicate AllDigits(s: string) {
    forall i :: 0 <= i < |s| ==> IsDigit(s[i])
  }

  function DigitValue(c: char): (d: nat)
    requires IsDigit(c)
    ensures d < 10
  {
    (c as int) - ('0' as int)
  }

  function DigitChar(d: nat): (c: char)
    requires d < 10
    ensures IsDigit(c) && DigitValue(c) == d
  {
    (('0' as int) + d) as char
  }

  /** The number a string of decimal digits denotes. */
  function DigitsValue(s: string): nat
    requires AllDigits(s)
  {
    if |s| == 0 then 0 else 10 * DigitsValue(s[..|s| - 1]) + DigitValue(s[|s| - 1])
  }

  /** Decimal rendering of a natural number, without leading zeros. */
  function NatToString(n: nat): (r: string)
    ensures |r| > 0 && AllDigits(r)
  {
    if n < 10 then [DigitChar(n)] else NatToString(n / 10) + [DigitChar(n % 10)]
  }

  lemma {:induction false} NatToStringValue(n: nat)
    ensures DigitsValue(NatToString(n)) == n
  {
    if n >= 10 {
      NatToStringValue(n / 10);
      var r := NatToString(n);
      assert r[..|r| - 1] == NatToString(n / 10);
    }
  }

  /** Python's `str(i)` for an integer. */
  function IntToString(i: int): (r: string)
    ensures |r| > 0
  {
    if i < 0 then "-" + NatToString(-i) else NatToString(i)
  }

  /** Python's `int(s)` for a string: None where Python raises ValueError. */
  function ParseInt(s: string): Option<int> {
    ParseStripped(Strip(s))
  }

  /** `int(...)` once the surrounding whitespace is gone: an optional sign and decimal digits. */
  function ParseStripped(t: string): Option<int> {
    if |t| > 0 && (t[0] == '-' || t[0] == '+') then
      var body := t[1..];
      if |body| > 0 && AllDigits(body) then
        var v: int := DigitsValue(body);
        Some(if t[0] == '-' then -v else v)
      else None
    else if |t| > 0 && AllDigits(t) then Some(DigitsValue(t))
    else None
  }

  /** A string that starts and ends with a non-space character is its own strip. */
  lemma {:induction false} StripNoop(t: string)
    requires |t| > 0 && !IsSpace(t[0]) && !IsSpace(t[|t| - 1])
    ensures Strip(t) == t
  {
    StrippedIsFixed(t);
  }

  /** A stripped run of digits parses to its value. */
  lemma {:induction false} ParseDigits(t: string)
    requires |t| > 0 && AllDigits(t)
    ensures ParseInt(t) == Some(DigitsValue(t))
  {
    assert IsDigit(t[0]) && IsDigit(t[|t| - 1]);
    StripNoop(t);
  }

  /** A minus sign followed by a run of digits parses to the negated value. */
  lemma {:induction false} ParseNegative(body: string)
    requires |body| > 0 && AllDigits(body)
    ensures ParseInt("-" + body) == Some(0 - DigitsValue(body))
  {
    var t := "-" + body;
    assert t[0] == '-' && t[|t| - 1] == body[|body| - 1] && IsDigit(body[|body| - 1]);
    StripNoop(t);
    assert t[1..] == body;
  }

  /** `int(str(i)) == i` for every integer. */
  lemma {:induction false} IntToStringRoundTrip(i: int)
    ensures ParseInt(IntToString(i)) == Some(i)
  {
    if i < 0 {
      var n: nat := -i;
      assert IntToString(i) == "-" + NatToString(n);
      NegativeRoundTrip(n);
    } else {
      NatRoundTrip(i);
    }
  }

  lemma {:induction false} NegativeRoundTrip(n: nat)
    ensures ParseInt("-" + NatToString(n)) == Some(0 - n as int)
  {
    NatToStringValue(n);
    ParseNegative(NatToString(n));
  }

  lemma {:induction false} NatRoundTrip(n: nat)
    ensures ParseInt(IntToString(n)) == Some(n)
  {
    NatToStringValue(n);
    ParseDigits(NatToString(n));
  }

  /** Python's `str(v)`. */
  function PyStr(v: Value): (r: string)
    ensures v.VStr? ==> r == v.s
    ensures Truthy(v) ==> r != ""
  {
    match v
    case VNone => "None"
    case VBool(b) => if b then "True" else "False"
    case VInt(i) => IntToString(i)
    case VStr(s) => s
  }

  /** Python's `int(v)`: None where Python raises TypeError or ValueError. */
  function PyInt(v: Value): Option<int> {
    match v
    case VNone => None
    case VBool(b) => Some(if b then 1 else 0)
    case VInt(i) => Some(i)
    case VStr(s) => ParseInt(s)
  }

  /** Python's truth value: None, False, 0 and "" are falsy. */
  predicate Truthy(v: Value) {
    match v
    case VNone => false
    case VBool(b) => b
    case VInt(i) => i != 0
    case VStr(s) => s != ""
  }

  /** `dict.get(key, default)`. */
  function Get<K, V>(m: map<K, V>, key: K, default: V): V {
    if key in m then m[key] else default
  }

  // ---------------------------------------------------------------------------
  // split, join, endswith
  // ---------------------------------------------------------------------------

  /** Python's `s.split(sep)` for a one-character separator. */
  function Split(s: string, sep: char): (r: seq<string>)
    ensures |r| > 0
    ensures forall k :: 0 <= k < |r| ==> sep !in r[k]
  {
    if |s| == 0 then [""]
    else if s[0] == sep then [""] + Split(s[1..], sep)
    else
      var rest := Split(s[1..], sep);
      [[s[0]] + rest[0]] + rest[1..]
  }

  /** Python's `sep.join(parts)`. */
  function Join(parts: seq<string>, sep: string): string {
    if |parts| == 0 then ""
    else if |parts| == 1 then parts[0]
    else parts[0] + sep + Join(parts[1..], sep)
  }

  lemma {:induction false} SplitNoSep(a: string, sep: char)
    requires sep !in a
    ensures Split(a, sep) == [a]
  {
    if |a| > 0 {
      SplitNoSep(a[1..], sep);
      assert [a[0]] + a[1..] == a;
    }
  }

  lemma {:induction false} SplitAtSep(a: string, sep: char, b: string)
    requires sep !in a
    ensures Split(a + [sep] + b, sep) == [a] + Split(b, sep)
  {
    if |a| == 0 {
      assert a + [sep] + b == [sep] + b;
      assert ([sep] + b)[1..] == b;
    } else {
      var s := a + [sep] + b;
      assert s[0] == a[0];
      assert s[1..] == a[1..] + [sep] + b;
      SplitAtSep(a[1..], sep, b);
      assert [a[0]] + a[1..] == a;
    }
  }

  /**
   * Splitting a join on the same one-character separator gives the parts
   * back, provided no part contains the separator.
   */
  lemma {:induction false} SplitJoin(parts: seq<string>, sep: char)
    requires |parts| > 0
    requires forall k :: 0 <= k < |parts| ==> sep !in parts[k]
    ensures Split(Join(parts, [sep]), sep) == parts
  {
    if |parts| == 1 {
      SplitNoSep(parts[0], sep);
    } else {
      SplitJoin(parts[1..], sep);
      SplitAtSep(parts[0], sep, Join(parts[1..], [sep]));
      assert [parts[0]] + parts[1..] == parts;
    }
  }

  /** Python's `s.endswith(suffix)`. */
  predicate EndsWith(s: string, suffix: string) {
    |suffix| <= |s| && s[|s| - |suffix|..] == suffix
  }
}
