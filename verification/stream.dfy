/** A socket read through a persistent boost::asio::streambuf and std::istream: the bytes that have
    arrived but not been read, the bytes the buffer holds, and the stream's eof and fail bits. */
module Streams {
  import opened Text

  datatype Stream = Stream(net: string, buf: string, eof: bool, fail: bool) {
    predicate Good() { !eof && !fail }
  }

  /** Outcome of a piece of decoding.
      Blocked: the bytes it waits for have not arrived, so the read has not returned.
      Broken: an extraction failed or ran into the end of the buffer, so every later one fails too. */
  datatype Read<+T> = Got(value: T, next: Stream) | Blocked | Broken {
    predicate IsFailure() { !Got? }
    function PropagateFailure<U>(): Read<U>
      requires IsFailure()
    {
      if Blocked? then Blocked else Broken
    }
    function Extract(): (T, Stream)
      requires !IsFailure()
    {
      (value, next)
    }
  }

  /** The stream is usable and holds nothing but, possibly, the newline the last `>>` left behind. */
  predicate Boundary(s: Stream) { s.Good() && (s.buf == "" || s.buf == "\n") }

  // ----- the library operations -----

  /** boost::asio::read(socket, buf, transfer_exactly(n)): moves n bytes whatever the buffer holds. */
  function Transfer(s: Stream, n: int): Read<()>
  {
    if n < 0 then Broken
    else if n <= |s.net| then Got((), s.(net := s.net[n..], buf := s.buf + s.net[..n]))
    else Blocked
  }

  /** `stream >> number` for a type whose values lie in lo..hi. */
  function ExtractNumber(s: Stream, lo: int, hi: int): (int, Stream)
  {
    if !s.Good() then (0, s.(fail := true))
    else
      match ScanInt(s.buf)
      case NoNumber(rest) => (0, s.(buf := rest, eof := rest == "", fail := true))
      case Number(v, rest) =>
        if v < lo then (lo, s.(buf := rest, eof := rest == "", fail := true))
        else if v > hi then (hi, s.(buf := rest, eof := rest == "", fail := true))
        else (v, s.(buf := rest, eof := rest == ""))
  }

  function SpanWord(b: string): (k: nat)
    ensures k <= |b|
    ensures NoSpace(b[..k])
    ensures k < |b| ==> Space(b[k])
  {
    if b != "" && !Space(b[0]) then
      var k := SpanWord(b[1..]);
      assert forall i :: 0 < i <= k ==> b[i] == b[1..][i - 1];
      assert k < |b[1..]| ==> b[1 + k] == b[1..][k];
      1 + k
    else 0
  }

  /** `stream >> text`. */
  function ExtractWord(s: Stream): (string, Stream)
  {
    if !s.Good() then ("", s.(fail := true))
    else
      var b := SkipSpace(s.buf);
      var k := SpanWord(b);
      (b[..k], s.(buf := b[k..], eof := b[k..] == "", fail := k == 0))
  }

  /** `stream.ignore()`. */
  function IgnoreOne(s: Stream): Stream
  {
    if !s.Good() then s.(fail := true)
    else if s.buf == "" then s.(eof := true)
    else s.(buf := s.buf[1..])
  }

  function IndexOfNewline(b: string): (k: nat)
    ensures k <= |b|
    ensures '\n' !in b[..k]
    ensures k < |b| ==> b[k] == '\n'
  {
    if b != "" && b[0] != '\n' then
      var k := IndexOfNewline(b[1..]);
      assert b[..k + 1] == [b[0]] + b[1..][..k];
      assert k < |b[1..]| ==> b[1 + k] == b[1..][k];
      1 + k
    else 0
  }

  /** std::getline: stops after the first newline, which it drops. */
  function ExtractLine(s: Stream): (string, Stream)
  {
    if !s.Good() then ("", s.(fail := true))
    else
      var k := IndexOfNewline(s.buf);
      if k < |s.buf| then (s.buf[..k], s.(buf := s.buf[k + 1..]))
      else (s.buf, s.(buf := "", eof := true, fail := s.buf == ""))
  }

  /** `stream.read(array, n)`. */
  function ExtractBytes(s: Stream, n: nat): (string, Stream)
  {
    if !s.Good() then ("", s.(fail := true))
    else if n <= |s.buf| then (s.buf[..n], s.(buf := s.buf[n..]))
    else (s.buf, s.(buf := "", eof := true, fail := true))
  }

  // ----- the combinations every reader is made of -----

  function Checked<T>(v: T, s: Stream): Read<T>
  {
    if s.Good() then Got(v, s) else Broken
  }

  /** transfer_exactly(11); `>> number`. */
  function ReadNumber(s: Stream, lo: int, hi: int): Read<int>
  {
    var (_, s1) :- Transfer(s, 11);
    var (v, s2) := ExtractNumber(s1, lo, hi);
    Checked(v, s2)
  }

  /** transfer_exactly(n + 1); ignore(); getline. */
  function ReadText(s: Stream, n: int): Read<string>
  {
    var (_, s1) :- Transfer(s, n + 1);
    var (t, s2) := ExtractLine(IgnoreOne(s1));
    Checked(t, s2)
  }

  /** transfer_exactly(n + 1); `>> text`. */
  function ReadWord(s: Stream, n: int): Read<string>
  {
    var (_, s1) :- Transfer(s, n + 1);
    var (t, s2) := ExtractWord(s1);
    Checked(t, s2)
  }

  function Skip(s: Stream): Read<()>
  {
    Checked((), IgnoreOne(s))
  }

  /** transfer_exactly(n); read(n): what a receive loop of chunks has to amount to. */
  function ReadBytes(s: Stream, n: nat): Read<string>
  {
    var (_, s1) :- Transfer(s, n);
    var (t, s2) := ExtractBytes(s1, n);
    Checked(t, s2)
  }

  // ----- one line on the wire, and what reads it back -----

  /** A line followed by k. */
  function Line(t: string, k: string): string
  {
    t + "\n" + k
  }

  lemma LineCat(t: string, k: string, more: string)
    ensures Line(t, k) + more == Line(t, k + more)
  {
  }

  lemma LineNet(t: string, k: string)
    ensures Line(t, k)[..|t| + 1] == t + "\n" && Line(t, k)[|t| + 1..] == k
  {
    assert Line(t, k) == (t + "\n") + k;
  }

  /** A padded number reads back from either residue and leaves its newline in the buffer. */
  lemma NumberField(s: Stream, n: int, k: string, lo: int, hi: int)
    requires Boundary(s) && s.net == Line(Format(n), k)
    requires 0 <= n < 10000000000 && lo <= n <= hi
    ensures ReadNumber(s, lo, hi) == Got(n, Stream(k, "\n", false, false))
  {
    hide ScanInt, Format, SpanDigits, Value;
    FormatShape(n);
    var f := Format(n);
    LineNet(f, k);
    var b := s.buf + (f + "\n");
    assert SkipSpace(f + "\n") == f + "\n" by { assert IsDigit((f + "\n")[0]); }
    if s.buf == "\n" {
      assert b[1..] == f + "\n";
    } else {
      assert b == f + "\n";
    }
    ScanDigits(b, f, "\n");
  }

  /** A length-prefixed text without newline reads back and empties the buffer. */
  lemma TextField(s: Stream, t: string, k: string)
    requires s.Good() && s.buf == "\n" && s.net == Line(t, k) && '\n' !in t
    ensures ReadText(s, |t|) == Got(t, Stream(k, "", false, false))
  {
    hide Space, SkipSpace;
    LineNet(t, k);
    var b := "\n" + (t + "\n");
    assert b[1..] == t + "\n";
    NewlineAt(t, "");
    assert (t + "\n")[..|t|] == t && (t + "\n")[|t| + 1..] == "";
  }

  lemma NewlineAt(t: string, k: string)
    requires '\n' !in t
    ensures IndexOfNewline(Line(t, k)) == |t|
  {
    var b := Line(t, k);
    var m := IndexOfNewline(b);
    assert b[|t|] == '\n';
    assert forall i :: 0 <= i < |t| ==> b[i] == t[i];
    assert forall i :: 0 <= i < m ==> b[i] == b[..m][i];
  }

  /** A word reads back and leaves its newline in the buffer. */
  lemma WordField(s: Stream, t: string, k: string)
    requires s.Good() && s.buf == "\n" && s.net == Line(t, k) && t != "" && NoSpace(t)
    ensures ReadWord(s, |t|) == Got(t, Stream(k, "\n", false, false))
  {
    LineNet(t, k);
    var w := t + "\n";
    var b := "\n" + w;
    assert b[1..] == w && w[0] == t[0];
    assert SkipSpace(b) == w;
    var m := SpanWord(w);
    assert forall i :: 0 <= i < |t| ==> w[i] == t[i];
    assert forall i :: 0 <= i < m ==> w[i] == w[..m][i];
    assert w[|t|] == '\n' && Space(w[|t|]);
    assert m == |t|;
    assert w[..m] == t && w[m..] == "\n";
  }

  /** Raw bytes read back from an empty buffer. */
  lemma BytesField(s: Stream, c: string, k: string)
    requires s.Good() && s.buf == "" && s.net == c + k
    ensures ReadBytes(s, |c|) == Got(c, Stream(k, "", false, false))
  {
    assert (c + k)[..|c|] == c && (c + k)[|c|..] == k;
    assert s.buf + s.net[..|c|] == c && c[..|c|] == c && c[|c|..] == "";
  }

  lemma SkipField(k: string)
    ensures Skip(Stream(k, "\n", false, false)) == Got((), Stream(k, "", false, false))
  {
  }

  /** What the receive loops rely on: reading n bytes at once is reading a first chunk and then the rest. */
  lemma ReadBytesSplit(s: Stream, a: nat, b: nat)
    requires s.Good() && ReadBytes(s, a).Got?
    ensures ReadBytes(s, a).next.Good()
    ensures ReadBytes(s, a + b) ==
            match ReadBytes(ReadBytes(s, a).next, b)
            case Got(t, n) => Got(ReadBytes(s, a).value + t, n)
            case Blocked => Blocked
            case Broken => Broken
  {
    var x := s.buf + s.net[..a];
    var s1 := ReadBytes(s, a).next;
    if a + b <= |s.net| {
      assert s.net[a..][..b] == s.net[a..a + b] && s.net[a..][b..] == s.net[a + b..];
      var whole := s.buf + s.net[..a + b];
      assert whole == x + s.net[a..a + b];
      assert x[a..] + s.net[a..a + b] == whole[a..];
      assert whole[..a + b] == x[..a] + whole[a..][..b];
      assert whole[a..][b..] == whole[a + b..];
    }
  }

  /** A loop of chunks never breaks: it either waits or reads on. */
  lemma ReadBytesNeverBroken(s: Stream, n: nat)
    requires s.Good()
    ensures ReadBytes(s, n).Got? <==> n <= |s.net|
    ensures !ReadBytes(s, n).Broken?
  {
  }

  // ----- where the framing fails -----

  /** A number field written with setw(10) keeps the frame exactly when it is non-negative or has
      nine digits after its sign: shorter negatives get their padding in front of the sign, longer
      ones overflow the field. */
  lemma NumberFieldExact(s: Stream, n: int, k: string)
    requires Boundary(s) && s.net == Line(Format(n), k) && INT_MIN <= n <= INT_MAX
    ensures ReadNumber(s, INT_MIN, INT_MAX) == Got(n, Stream(k, "\n", false, false))
            <==> (n >= 0 || -1000000000 < n <= -100000000)
  {
    hide ReadNumber, Line, ToString, Zeros;
    if n >= 0 {
      NumberField(s, n, k, INT_MIN, INT_MAX);
    } else {
      NegativeLength(-n);
      if |Dec(-n)| < 9 {
        ShortNegative(s, n, k);
      } else if |Dec(-n)| == 9 {
        NineDigitNegative(s, n, k);
      } else {
        LongNegative(s, n, k);
      }
    }
  }

  lemma DecValue(m: nat)
    ensures Value(Dec(m)) == m
  {
    PaddedValue(0, m);
    assert Zeros(0) + Dec(m) == Dec(m);
  }

  lemma NegativeLength(m: nat)
    requires 0 < m <= 2147483648
    ensures |Dec(m)| < 9 <==> m < 100000000
    ensures |Dec(m)| <= 9 <==> m < 1000000000
    ensures |Dec(m)| <= 10
  {
    DecLength(m, 8);
    DecLength(m, 9);
    DecLength(m, 10);
    assert Pow10(8) == 100000000 by { assert Pow10(4) == 10000; }
    assert Pow10(9) == 1000000000;
    assert Pow10(10) == 10000000000;
  }

  /** Reading a number whose eleven bytes scan to v with rest left over. */
  lemma ReadScanned(s: Stream, f: string, k: string, v: int, rest: string)
    requires Boundary(s) && |f| == 11 && s.net == f + k && !Space(f[0])
    requires ScanInt(f) == Number(v, rest) && INT_MIN <= v <= INT_MAX
    ensures ReadNumber(s, INT_MIN, INT_MAX) ==
            if rest == "" then Broken else Got(v, Stream(k, rest, false, false))
  {
    assert s.net[..11] == f && s.net[11..] == k;
    assert SkipSpace(s.buf + f) == SkipSpace(f) by {
      if s.buf == "\n" { assert (s.buf + f)[1..] == f; } else { assert s.buf + f == f; }
    }
  }

  lemma ScanPadded(z: string, d: string)
    requires z != "" && AllDigits(z) && d != "" && AllDigits(d) && Value(z) == 0
    ensures ScanInt(z + ("-" + d + "\n")) == Number(0, "-" + d + "\n")
    ensures !Space((z + ("-" + d + "\n"))[0])
  {
    var tail := "-" + d + "\n";
    assert IsDigit(z[0]) && (z + tail)[0] == z[0];
    ScanDigits(z + tail, z, tail);
  }

  lemma ShortNegative(s: Stream, n: int, k: string)
    requires Boundary(s) && n < 0 && |Dec(-n)| < 9
    requires s.net == Line(Format(n), k)
    ensures !(ReadNumber(s, INT_MIN, INT_MAX).Got? && ReadNumber(s, INT_MIN, INT_MAX).next.buf == "\n")
  {
    hide ReadNumber, Value, Dec, ScanInt, Format, Line, Zeros, Space;
    var d := Dec(-n);
    var z, rest := Zeros(9 - |d|), "-" + d + "\n";
    PaddedMinus(n, k);
    ZerosValue(9 - |d|);
    ScanPadded(z, d);
    ReadScanned(s, z + rest, k, 0, rest);
    assert |rest| == |d| + 2;
  }

  /** The padding of a short negative number goes in front of its sign. */
  lemma PaddedMinus(n: int, k: string)
    requires n < 0 && |Dec(-n)| < 9
    ensures Line(Format(n), k) == Zeros(9 - |Dec(-n)|) + ("-" + Dec(-n) + "\n") + k
    ensures |Zeros(9 - |Dec(-n)|) + ("-" + Dec(-n) + "\n")| == 11 && Zeros(9 - |Dec(-n)|) != ""
  {
    hide Dec;
  }

  lemma NineDigitNegative(s: Stream, n: int, k: string)
    requires Boundary(s) && INT_MIN <= n < 0 && |Dec(-n)| == 9
    requires s.net == Line(Format(n), k)
    ensures ReadNumber(s, INT_MIN, INT_MAX) == Got(n, Stream(k, "\n", false, false))
  {
    hide ReadNumber, Value, Dec, ScanInt;
    var d := Dec(-n);
    var f := "-" + d + "\n";
    assert s.net == f + k;
    DecValue(-n);
    ScanNegative(f, d, "\n");
    ReadScanned(s, f, k, n, "\n");
  }

  lemma LongNegative(s: Stream, n: int, k: string)
    requires Boundary(s) && INT_MIN <= n < 0 && |Dec(-n)| == 10
    requires s.net == Line(Format(n), k)
    ensures ReadNumber(s, INT_MIN, INT_MAX).Broken?
  {
    hide ReadNumber, Value, Dec, ScanInt;
    var d := Dec(-n);
    var f := "-" + d;
    assert s.net == f + ("\n" + k);
    assert f == "-" + d + "";
    DecValue(-n);
    ScanNegative(f, d, "");
    ReadScanned(s, f, "\n" + k, n, "");
  }

  /** A text field yields the text exactly when it holds no newline. */
  lemma TextFieldExact(s: Stream, t: string, k: string)
    requires s.Good() && s.buf == "\n" && s.net == Line(t, k)
    ensures ReadText(s, |t|).Got?
    ensures ReadText(s, |t|).value == t <==> '\n' !in t
    ensures Boundary(ReadText(s, |t|).next) && ReadText(s, |t|).next.buf == "" <==> '\n' !in t
  {
    if '\n' !in t {
      TextField(s, t, k);
    } else {
      LineNet(t, k);
      var b := "\n" + (t + "\n");
      assert b[1..] == t + "\n";
      var w := t + "\n";
      var m := IndexOfNewline(w);
      var i :| 0 <= i < |t| && t[i] == '\n';
      assert w[i] == '\n';
      assert forall j :: 0 <= j < m ==> w[j] == w[..m][j];
      assert m <= i;
    }
  }
}
