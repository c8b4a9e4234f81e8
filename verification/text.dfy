/** Byte strings: the order SQLite's BINARY collation and std::map<std::string> share, and the decimal
    text that std::ostream, std::to_string, std::istream and std::stoi exchange.
    A char of the model stands for one byte of the C++ string. */
module Text {

  datatype Option<+T> = None | Some(value: T)

  const INT_MAX: int := 2147483647
  const INT_MIN: int := -2147483648
  const SIZE_MAX: int := 18446744073709551615

  // ----- order -----

  /** Lexicographic byte order, "a is not after b". */
  predicate Le(a: string, b: string)
  {
    a == "" || (b != "" && (a[0] < b[0] || (a[0] == b[0] && Le(a[1..], b[1..]))))
  }

  lemma LeRefl(a: string)
    ensures Le(a, a)
  {
  }

  lemma LeTotal(a: string, b: string)
    ensures Le(a, b) || Le(b, a)
  {
  }

  lemma LeAntisym(a: string, b: string)
    requires Le(a, b) && Le(b, a)
    ensures a == b
  {
    if a != "" {
      LeAntisym(a[1..], b[1..]);
      assert a == [a[0]] + a[1..] && b == [b[0]] + b[1..];
    }
  }

  lemma LeTrans(a: string, b: string, c: string)
    requires Le(a, b) && Le(b, c)
    ensures Le(a, c)
  {
  }

  /** A proper prefix sorts before every extension of it. */
  lemma PrefixLe(a: string, b: string)
    requires a <= b
    ensures Le(a, b)
  {
    if a != "" {
      assert a[1..] <= b[1..];
      PrefixLe(a[1..], b[1..]);
    }
  }

  /** All order facts at once, for lemmas that compare a handful of days. */
  lemma LeOrder()
    ensures forall a :: Le(a, a)
    ensures forall a, b :: Le(a, b) || Le(b, a)
    ensures forall a, b :: Le(a, b) && Le(b, a) ==> a == b
    ensures forall a, b, c :: Le(a, b) && Le(b, c) ==> Le(a, c)
  {
    forall a ensures Le(a, a) { LeRefl(a); }
    forall a, b ensures Le(a, b) || Le(b, a) { LeTotal(a, b); }
    forall a, b | Le(a, b) && Le(b, a) ensures a == b { LeAntisym(a, b); }
    forall a, b, c | Le(a, b) && Le(b, c) ensures Le(a, c) { LeTrans(a, b, c); }
  }

  ghost predicate Sorted(ks: seq<string>)
  {
    forall i, j :: 0 <= i < j < |ks| ==> ks[i] != ks[j] && Le(ks[i], ks[j])
  }

  lemma LeastExists(s: set<string>) returns (x: string)
    requires s != {}
    ensures x in s && forall y :: y in s ==> Le(x, y)
  {
    var e :| e in s;
    if s == {e} {
      x := e;
      LeRefl(e);
    } else {
      var r := LeastExists(s - {e});
      LeTotal(e, r);
      x := if Le(e, r) then e else r;
      forall y | y in s ensures Le(x, y) {
        LeRefl(e);
        if y != e {
          assert y in s - {e};
          if Le(e, r) { LeTrans(e, r, y); }
        }
      }
    }
  }

  ghost function Least(s: set<string>): (x: string)
    requires s != {}
    ensures x in s && forall y :: y in s ==> Le(x, y)
  {
    assert exists x :: x in s && forall y :: y in s ==> Le(x, y) by { var w := LeastExists(s); }
    var x :| x in s && forall y :: y in s ==> Le(x, y);
    x
  }

  /** The keys in the order in which std::map iterates over them. */
  ghost function SortedKeys(s: set<string>): (ks: seq<string>)
    ensures Sorted(ks)
    ensures forall k :: k in ks <==> k in s
    ensures |ks| == |s|
  {
    if s == {} then [] else
      var x := Least(s);
      [x] + SortedKeys(s - {x})
  }

  /** Two sorted lists of the same names are the same list. */
  lemma SortedUnique(a: seq<string>, b: seq<string>)
    requires Sorted(a) && Sorted(b) && forall x :: x in a <==> x in b
    ensures a == b
    decreases a
  {
    hide Le;
    if a == [] {
      if b != [] { HasMember(b); }
    } else {
      HasMember(b) by { assert a[0] in b; }
      assert a[0] in b && b[0] in a;
      var i :| 0 <= i < |b| && b[i] == a[0];
      var j :| 0 <= j < |a| && a[j] == b[0];
      if i > 0 && j > 0 { LeAntisym(a[0], b[0]); }
      forall x ensures x in a[1..] <==> x in b[1..] {
        TailMember(a, x);
        TailMember(b, x);
      }
      SortedUnique(a[1..], b[1..]);
    }
  }

  lemma HasMember(a: seq<string>)
    requires a != []
    ensures exists x :: x in a
  {
    assert a[0] in a;
  }

  lemma TailMember(a: seq<string>, x: string)
    requires Sorted(a) && a != []
    ensures x in a[1..] <==> x in a && x != a[0]
  {
    assert forall k :: 0 <= k < |a[1..]| ==> a[1..][k] == a[k + 1];
    if x in a && x != a[0] {
      var k :| 0 <= k < |a| && a[k] == x;
      assert a[1..][k - 1] == x;
    }
  }

  // ----- white space and digits -----

  predicate Space(c: char) { c == ' ' || c == '\t' || c == '\n' || c == '\r' || c as int == 11 || c as int == 12 }

  predicate IsDigit(c: char) { '0' <= c <= '9' }

  ghost predicate NoSpace(t: string) { forall i :: 0 <= i < |t| ==> !Space(t[i]) }

  ghost predicate AllDigits(t: string) { forall i :: 0 <= i < |t| ==> IsDigit(t[i]) }

  function SkipSpace(b: string): (r: string)
    ensures |r| <= |b|
    ensures r != "" ==> !Space(r[0])
  {
    if b != "" && Space(b[0]) then SkipSpace(b[1..]) else b
  }

  function SpanDigits(b: string): (k: nat)
    ensures k <= |b|
    ensures AllDigits(b[..k])
    ensures k < |b| ==> !IsDigit(b[k])
  {
    if b != "" && IsDigit(b[0]) then
      var k := SpanDigits(b[1..]);
      assert forall i :: 0 < i <= k ==> b[i] == b[1..][i - 1];
      assert k < |b[1..]| ==> b[1 + k] == b[1..][k];
      1 + k
    else 0
  }

  lemma SpanDigitsIs(b: string, k: nat)
    requires k <= |b| && AllDigits(b[..k]) && (k < |b| ==> !IsDigit(b[k]))
    ensures SpanDigits(b) == k
  {
    var m := SpanDigits(b);
    assert forall i :: 0 <= i < k ==> b[i] == b[..k][i];
    assert forall i :: 0 <= i < m ==> b[i] == b[..m][i];
  }

  // ----- decimal text -----

  function Digit(d: int): (c: char)
    requires 0 <= d < 10
    ensures IsDigit(c) && c as int - '0' as int == d
  {
    (d + '0' as int) as char
  }

  function Dec(n: nat): (t: string)
    ensures t != "" && AllDigits(t)
  {
    if n < 10 then [Digit(n)] else Dec(n / 10) + [Digit(n % 10)]
  }

  /** std::to_string of an integer. */
  function ToString(n: int): string
  {
    if n < 0 then "-" + Dec(-n) else Dec(n)
  }

  function Zeros(k: nat): (t: string)
    ensures |t| == k && AllDigits(t)
  {
    seq(k, _ => '0')
  }

  /** What `std::setw(10) << std::setfill('0') << n` writes: padding goes before a sign. */
  function Format(n: int): string
  {
    var t := ToString(n);
    if |t| < 10 then Zeros(10 - |t|) + t else t
  }

  /** The value of a digit string. */
  function Value(t: string): (v: int)
    requires AllDigits(t)
    ensures v >= 0
  {
    if t == "" then 0 else Value(t[..|t| - 1]) * 10 + (t[|t| - 1] as int - '0' as int)
  }

  lemma ZerosValue(k: nat)
    ensures Value(Zeros(k)) == 0
  {
    if k > 0 {
      assert Zeros(k)[..k - 1] == Zeros(k - 1);
      ZerosValue(k - 1);
    }
  }

  lemma {:induction false} PaddedValue(k: nat, n: nat)
    ensures AllDigits(Zeros(k) + Dec(n)) && Value(Zeros(k) + Dec(n)) == n
  {
    var t := Zeros(k) + Dec(n);
    if n < 10 {
      assert t[..|t| - 1] == Zeros(k);
      ZerosValue(k);
    } else {
      PaddedValue(k, n / 10);
      assert t[..|t| - 1] == Zeros(k) + Dec(n / 10);
    }
  }

  function Pow10(k: nat): (p: nat)
    ensures p >= 1
  {
    if k == 0 then 1 else 10 * Pow10(k - 1)
  }

  /** The decimal text of n has at most k digits exactly when n < 10^k. */
  lemma {:induction false} DecLength(n: nat, k: nat)
    requires k >= 1
    ensures |Dec(n)| <= k <==> n < Pow10(k)
  {
    if k == 1 {
      assert Pow10(1) == 10 * Pow10(0) == 10;
    } else if n >= 10 {
      DecLength(n / 10, k - 1);
    } else {
      assert Pow10(k) == 10 * Pow10(k - 1);
    }
  }

  /** A non-negative number below 10^10 fills its field exactly. */
  lemma FormatShape(n: nat)
    requires n < 10000000000
    ensures |Format(n)| == 10 && AllDigits(Format(n)) && Value(Format(n)) == n
  {
    DecLength(n, 10);
    assert Pow10(10) == 10000000000;
    var k := 10 - |Dec(n)|;
    PaddedValue(k, n);
    assert Zeros(0) + Dec(n) == Dec(n);
  }

  // ----- reading a number -----

  datatype Scanned = Number(value: int, rest: string) | NoNumber(rest: string)

  /** The shared core of `istream >> int` and std::stoi: skip white space, take a sign, take digits. */
  function ScanInt(b: string): Scanned
  {
    var s := SkipSpace(b);
    var negative := s != "" && s[0] == '-';
    var d := if negative || (s != "" && s[0] == '+') then s[1..] else s;
    var k := SpanDigits(d);
    if k == 0 then NoNumber(d)
    else Number(if negative then -Value(d[..k]) else Value(d[..k]), d[k..])
  }

  lemma ScanDigits(b: string, d: string, tail: string)
    requires SkipSpace(b) == d + tail
    requires d != "" && AllDigits(d) && (tail != "" ==> !IsDigit(tail[0]))
    ensures ScanInt(b) == Number(Value(d), tail)
  {
    var s := d + tail;
    assert s[0] == d[0];
    assert s[..|d|] == d && s[|d|..] == tail;
    SpanDigitsIs(s, |d|);
  }

  lemma ScanNegative(b: string, d: string, tail: string)
    requires SkipSpace(b) == "-" + d + tail
    requires d != "" && AllDigits(d) && (tail != "" ==> !IsDigit(tail[0]))
    ensures ScanInt(b) == Number(-Value(d), tail)
  {
    var s := "-" + d + tail;
    assert s[1..] == d + tail;
    assert (d + tail)[..|d|] == d && (d + tail)[|d|..] == tail;
    SpanDigitsIs(d + tail, |d|);
  }

  /** std::stoi; None stands for the exception it throws. */
  function Stoi(t: string): Option<int>
  {
    match ScanInt(t)
    case Number(v, _) => if INT_MIN <= v <= INT_MAX then Some(v) else None
    case NoNumber(_) => None
  }

  /** Metadata text written with std::to_string reads back exactly when it is in the range of int. */
  lemma StoiToString(n: int)
    ensures Stoi(ToString(n)) == (if INT_MIN <= n <= INT_MAX then Some(n) else None)
  {
    hide Value, Dec, ScanInt, Zeros;
    var t := ToString(n);
    var d := Dec(if n < 0 then -n else n);
    PaddedValue(0, if n < 0 then -n else n);
    assert Zeros(0) + d == d;
    assert !Space(t[0]) by { if n >= 0 { assert IsDigit(t[0]); } }
    if n < 0 {
      assert t == "-" + d + "";
      ScanNegative(t, d, "");
    } else {
      assert t == d + "";
      ScanDigits(t, d, "");
    }
  }

  lemma ToStringIsWord(n: int)
    ensures '\n' !in ToString(n)
    ensures n >= 0 ==> |ToString(n)| <= 10 || n >= 10000000000
  {
    if n >= 0 { DecLength(n, 10); assert Pow10(10) == 10000000000; }
  }
}
