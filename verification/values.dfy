/** Python values as they appear in the keyword arguments of the analytical
    tools (`category='Food'`, `year=2024`, `compare=True`), with Python's
    truthiness, `str()`, `int()` and the number formats the tools print. */
module Values {
  import opened Wrappers
  import opened Text

  datatype Value = VNone | VBool(b: bool) | VInt(i: int) | VStr(s: string)

  /** A call's keyword arguments. */
  type Kwargs = map<string, Value>

  /** `kwargs.get(key)` */
  function Get(kw: Kwargs, key: string): (v: Value)
    ensures key !in kw ==> v == VNone
  {
    if key in kw then kw[key] else VNone
  }

  /** Python's `bool(v)`: `None`, `False`, `0` and `""` are false. */
  predicate Truthy(v: Value) {
    match v
    case VNone => false
    case VBool(b) => b
    case VInt(i) => i != 0
    case VStr(s) => |s| > 0
  }

  // ---------------------------------------------------------------------------
  // Decimal digits

  function DigitChar(d: nat): (c: char)
    requires d < 10
    ensures '0' <= c <= '9'
  {
    ('0' as int + d) as char
  }

  predicate AllDigits(s: string) {
    forall i :: 0 <= i < |s| ==> '0' <= s[i] <= '9'
  }

  /** The decimal digits of `n`, most significant first, no leading zero. */
  function NatToString(n: nat): (r: string)
    ensures |r| > 0 && AllDigits(r)
    ensures |r| > 1 ==> r[0] != '0'
    ensures n < 10 <==> |r| == 1
    ensures n < 10 ==> r == [DigitChar(n)]
  {
    if n < 10 then [DigitChar(n)] else NatToString(n / 10) + [DigitChar(n % 10)]
  }

  /** The number a string of decimal digits denotes. */
  function DigitsValue(s: string): nat
    requires AllDigits(s)
  {
    if |s| == 0 then 0 else DigitsValue(s[..|s| - 1]) * 10 + (s[|s| - 1] as int - '0' as int)
  }

  lemma {:induction false} DigitsRoundTrip(n: nat)
    ensures DigitsValue(NatToString(n)) == n
  {
    if n >= 10 {
      var r := NatToString(n);
      assert r[..|r| - 1] == NatToString(n / 10);
      DigitsRoundTrip(n / 10);
    }
  }

  /** `str(i)` */
  function IntToString(i: int): (r: string)
    ensures |r| > 0
  {
    if i < 0 then "-" + NatToString(-i) else NatToString(i)
  }

  /** `int(s)` on a string: optional surrounding whitespace, an optional sign
      and at least one ASCII digit; anything else is Python's `ValueError`. */
  function ParseInt(s: string): Option<int> {
    ParseSigned(Strip(s))
  }

  /** `int(t)` for a string without surrounding whitespace. */
  function ParseSigned(t: string): (r: Option<int>)
    ensures r.Some? ==> |t| > 0
  {
    if |t| > 0 && (t[0] == '-' || t[0] == '+') then
      var body := t[1..];
      if |body| > 0 && AllDigits(body) then
        var magnitude: int := DigitsValue(body);
        Some(if t[0] == '-' then -magnitude else magnitude)
      else None
    else if |t| > 0 && AllDigits(t) then Some(DigitsValue(t))
    else None
  }

  lemma NumberIsStripStable(r: string)
    requires |r| > 0
    requires r[0] == '-' || '0' <= r[0] <= '9'
    requires '0' <= r[|r| - 1] <= '9'
    ensures Strip(r) == r
  {
    assert r[0] !in Whitespace;
    assert r[|r| - 1] !in Whitespace;
    StripSetOfStable(r, Whitespace);
  }

  lemma ParseSignedOfString(i: int)
    ensures ParseSigned(IntToString(i)) == Some(i)
  {
    if i < 0 {
      ParseNegative(-i);
    } else {
      var ds := NatToString(i);
      assert '0' <= ds[0] <= '9';
      DigitsRoundTrip(i);
      assert ParseSigned(ds) == Some(DigitsValue(ds));
    }
  }

  /** A minus sign in front of the digits of `n` reads as `-n`. */
  lemma ParseNegative(n: nat)
    requires n > 0
    ensures ParseSigned("-" + NatToString(n)) == Some(-(n as int))
  {
    var ds := NatToString(n);
    var t := "-" + ds;
    assert t[0] == '-' && t[1..] == ds;
    DigitsRoundTrip(n);
    var v: int := DigitsValue(ds);
    assert ParseSigned(t) == Some(-v);
  }

  /** Reading back what `str()` printed gives the integer again. */
  lemma ParseIntToString(i: int)
    ensures ParseInt(IntToString(i)) == Some(i)
  {
    var r := IntToString(i);
    assert r[0] == '-' || '0' <= r[0] <= '9';
    NumberIsStripStable(r);
    ParseSignedOfString(i);
  }

  // ---------------------------------------------------------------------------
  // Python conversions of a keyword argument

  /** `str(v)` */
  function ToStr(v: Value): string {
    match v
    case VNone => "None"
    case VBool(b) => if b then "True" else "False"
    case VInt(i) => IntToString(i)
    case VStr(s) => s
  }

  /** `int(v)`; `None` where Python raises (`int(None)`, `int("abc")`). */
  function IntOf(v: Value): (r: Option<int>)
    ensures v.VInt? ==> r == Some(v.i)
    ensures v.VNone? ==> r.None?
  {
    match v
    case VNone => None
    case VBool(b) => Some(if b then 1 else 0)
    case VInt(i) => Some(i)
    case VStr(s) => ParseInt(s)
  }

  /** `f"{v:02d}"`: zero-padded to two characters; `None` where Python raises
      because the format code `d` does not apply (strings, `None`). */
  function Pad2(v: Value): (r: Option<string>)
    ensures v.VInt? && 0 <= v.i < 10 ==> r == Some(['0', DigitChar(v.i)])
    ensures v.VInt? && (v.i >= 10 || v.i < 0) ==> r == Some(IntToString(v.i))
    ensures v.VStr? || v.VNone? ==> r.None?
  {
    match v
    case VNone => None
    case VStr(_) => None
    case VBool(b) => Some(if b then "01" else "00")
    case VInt(i) => Some(if 0 <= i < 10 then ['0', DigitChar(i)] else IntToString(i))
  }

  /** `n` zero-padded on the left to `width` digits. */
  function PadNat(n: nat, width: nat): (r: string)
    ensures |r| >= width && AllDigits(r)
  {
    var ds := NatToString(n);
    if |ds| >= width then ds else seq(width - |ds|, _ => '0') + ds
  }

  // ---------------------------------------------------------------------------
  // Thousands separators: the `{x:,.0f}` format of whole amounts

  /** Digits with a comma before every group of three, counted from the right. */
  function GroupDigits(ds: string): (r: string)
    decreases |ds|
  {
    if |ds| <= 3 then ds else GroupDigits(ds[..|ds| - 3]) + "," + ds[|ds| - 3..]
  }

  /** `f"{i:,.0f}"` for a whole number `i`. */
  function Grouped(i: int): string {
    if i < 0 then "-" + GroupDigits(NatToString(-i)) else GroupDigits(NatToString(i))
  }

  /** Deleting the separators from a grouped number gives back its digits. */
  lemma {:induction false} GroupDigitsRoundTrip(ds: string)
    requires AllDigits(ds)
    ensures RemoveChar(GroupDigits(ds), ',') == ds
  {
    if |ds| <= 3 {
      RemoveAbsentChar(ds, ',');
    } else {
      var head := ds[..|ds| - 3];
      var tail := ds[|ds| - 3..];
      assert AllDigits(head) && AllDigits(tail);
      GroupDigitsRoundTrip(head);
      RemoveSeparatorGroup(GroupDigits(head), tail);
      assert ds == head + tail;
    }
  }

  /** Removing the commas from `g + "," + tail` with a comma-free `tail`. */
  lemma RemoveSeparatorGroup(g: string, tail: string)
    requires AllDigits(tail)
    ensures RemoveChar(g + "," + tail, ',') == RemoveChar(g, ',') + tail
  {
    assert g + "," + tail == g + ("," + tail);
    RemoveCharAppend(g, "," + tail, ',');
    RemoveCharAppend(",", tail, ',');
    assert RemoveChar(",", ',') == "";
    RemoveAbsentChar(tail, ',');
  }

  lemma {:induction false} RemoveCharAppend(a: string, b: string, c: char)
    ensures RemoveChar(a + b, c) == RemoveChar(a, c) + RemoveChar(b, c)
  {
    if |a| > 0 {
      assert (a + b)[1..] == a[1..] + b;
      RemoveCharAppend(a[1..], b, c);
    } else {
      assert a + b == b;
    }
  }

  /** `Grouped` prints exactly the value: without its commas it is `str(i)`. */
  lemma GroupedRoundTrip(i: int)
    ensures RemoveChar(Grouped(i), ',') == IntToString(i)
  {
    if i < 0 {
      GroupDigitsRoundTrip(NatToString(-i));
      RemoveCharAppend("-", GroupDigits(NatToString(-i)), ',');
      RemoveAbsentChar("-", ',');
    } else {
      GroupDigitsRoundTrip(NatToString(i));
    }
  }

  // ---------------------------------------------------------------------------
  // Rounding of a quotient, as `{q:,.0f}` and `{q:.1f}` round (half to even)

  /** The integer nearest to `n / d`, ties to the even neighbour. */
  function RoundHalfEven(n: int, d: int): (r: int)
    requires d > 0
    ensures d * (2 * r - 1) <= 2 * n <= d * (2 * r + 1)
    ensures 2 * n == d * (2 * r - 1) || 2 * n == d * (2 * r + 1) ==> r % 2 == 0
  {
    var q := n / d;
    var rem := n % d;
    if 2 * rem < d then q
    else if 2 * rem > d then q + 1
    else if q % 2 == 0 then q
    else q + 1
  }
}
