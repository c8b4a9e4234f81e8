/** Digests on both sides: the client absorbs a file chunk by chunk, the server a whole blob, and both
    print the result in hexadecimal. The digest itself is a parameter. */
module Digests {
  import opened Text
  import opened Store

  newtype byte = b: int | 0 <= b < 256

  /** What the digest context yields for the bytes it has absorbed (EVP_sha256, EVP_DigestFinal_ex). */
  type Digest = string -> seq<byte>

  const BUF_SIZE := 1024

  ghost predicate Sha256Like(dg: Digest) { forall c :: |dg(c)| == 32 }

  function HexDigit(n: int): (c: char)
    requires 0 <= n < 16
    ensures !Space(c)
    ensures n == if c <= '9' then c as int - '0' as int else c as int - 'a' as int + 10
  {
    if n < 10 then (n + '0' as int) as char else (n - 10 + 'a' as int) as char
  }

  /** One byte as std::hex << setfill('0') << setw(2) prints it. */
  function HexByte(b: byte): string { [HexDigit(b as int / 16), HexDigit(b as int % 16)] }

  function Hex(d: seq<byte>): string
  {
    if d == [] then "" else Hex(d[..|d| - 1]) + HexByte(d[|d| - 1])
  }

  function FileHash(dg: Digest, content: string): string { Hex(dg(content)) }

  lemma {:induction false} HexShape(d: seq<byte>)
    ensures |Hex(d)| == 2 * |d| && NoSpace(Hex(d))
  {
    if d != [] { HexShape(d[..|d| - 1]); }
  }

  function DigitValue(c: char): int { if c <= '9' then c as int - '0' as int else c as int - 'a' as int + 10 }

  /** The text shows every byte in place, high digit first. */
  lemma {:induction false} HexAt(d: seq<byte>, i: nat)
    requires i < |d|
    ensures |Hex(d)| == 2 * |d|
    ensures d[i] as int == 16 * DigitValue(Hex(d)[2 * i]) + DigitValue(Hex(d)[2 * i + 1])
  {
    HexShape(d);
    var n := |d| - 1;
    HexShape(d[..n]);
    if i < n {
      HexAt(d[..n], i);
      assert Hex(d)[2 * i] == Hex(d[..n])[2 * i] && Hex(d)[2 * i + 1] == Hex(d[..n])[2 * i + 1];
    }
  }

  /** Two digests print alike only if they are equal, as operator== compares them. */
  lemma {:induction false} HexInjective(d: seq<byte>, e: seq<byte>)
    ensures Hex(d) == Hex(e) <==> d == e
  {
    hide HexByte, Space;
    HexShape(d);
    HexShape(e);
    if Hex(d) == Hex(e) && d != [] {
      var n := |d| - 1;
      var p, q := Hex(d[..n]), Hex(e[..n]);
      HexShape(d[..n]);
      HexShape(e[..n]);
      assert Hex(d) == p + HexByte(d[n]) && Hex(e) == q + HexByte(e[n]);
      assert (p + HexByte(d[n]))[..2 * n] == p && (q + HexByte(e[n]))[..2 * n] == q;
      assert (p + HexByte(d[n]))[2 * n..] == HexByte(d[n]) && (q + HexByte(e[n]))[2 * n..] == HexByte(e[n]);
      HexInjective(d[..n], e[..n]);
      HexByteInjective(d[n], e[n]);
      assert d == d[..n] + [d[n]] && e == e[..n] + [e[n]];
    }
  }

  lemma HexByteInjective(a: byte, b: byte)
    requires HexByte(a) == HexByte(b)
    ensures a == b
  {
    assert HexByte(a)[0] == HexByte(b)[0] && HexByte(a)[1] == HexByte(b)[1];
  }

  /** A printed digest is one word, and never the mark "dir" that stands for a folder. */
  lemma FileHashText(dg: Digest, content: string)
    requires Sha256Like(dg)
    ensures HashText(FileHash(dg, content))
  {
    HexShape(dg(content));
  }

  class Hash {
    var mdValue: seq<byte>

    /** Client/Hash.cpp: reads until eof, absorbing what each read delivered. */
    constructor FromFile(content: string, dg: Digest)
      ensures mdValue == dg(content)
    {
      var absorbed := "";
      var pos := 0;
      var eof := false;
      while !eof
        invariant 0 <= pos <= |content| && absorbed == content[..pos]
        invariant eof ==> pos == |content|
        decreases !eof, |content| - pos
      {
        var n := if |content| - pos < BUF_SIZE then |content| - pos else BUF_SIZE;
        eof := n < BUF_SIZE;
        absorbed := absorbed + content[pos..pos + n];
        pos := pos + n;
      }
      assert absorbed == content;
      mdValue := dg(absorbed);
    }

    /** Server/Hash.cpp: absorbs the blob in one piece. */
    constructor FromBlob(blob: string, dg: Digest)
      ensures mdValue == dg(blob)
    {
      mdValue := dg(blob);
    }

    method GetHash() returns (text: string)
      ensures text == Hex(mdValue)
    {
      text := "";
      for i := 0 to |mdValue|
        invariant text == Hex(mdValue[..i])
      {
        text := text + HexByte(mdValue[i]);
        assert mdValue[..i + 1][..i] == mdValue[..i];
      }
      assert mdValue[..|mdValue|] == mdValue;
    }
  }

  /** Hashing on the two sides agrees for every file length: the texts are equal exactly when the
      digests of the contents are. */
  method CompareSides(clientFile: string, serverBlob: string, dg: Digest) returns (same: bool)
    ensures same <==> dg(clientFile) == dg(serverBlob)
    ensures same <==> FileHash(dg, clientFile) == FileHash(dg, serverBlob)
  {
    var c := new Hash.FromFile(clientFile, dg);
    var s := new Hash.FromBlob(serverBlob, dg);
    var ct := c.GetHash();
    var st := s.GetHash();
    HexInjective(c.mdValue, s.mdValue);
    same := ct == st;
  }
}
