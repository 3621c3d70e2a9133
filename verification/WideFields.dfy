// The fields of libibmad/src/fields.c that are whole bytes: 64-bit numbers in network
// order.
module WideFields {
  import opened Binary
  import opened BitFields

  // The low n bytes of v, the highest first
  function BigEndian(v: nat, n: nat): (r: seq<Byte>)
    ensures |r| == n
    decreases n
  {
    if n == 0 then [] else BigEndian(v / 256, n - 1) + [ByteOf(v)]
  }

  function Number(s: seq<Byte>): nat {
    if s == [] then 0 else 256 * Number(s[..|s| - 1]) + s[|s| - 1] as nat
  }

  lemma {:induction false} NumberOfBigEndian(v: nat, n: nat)
    ensures Number(BigEndian(v, n)) == v % Pow2(8 * n)
    decreases n
  {
    if n > 0 {
      var r := BigEndian(v, n);
      assert r[..n - 1] == BigEndian(v / 256, n - 1);
      NumberOfBigEndian(v / 256, n - 1);
      var m := Pow2(8 * (n - 1));
      Pow2Words();
      Pow2Sum(8, 8 * (n - 1));
      ModBytes(v, m);
    }
  }

  lemma ModBytes(v: nat, m: nat)
    requires 0 < m
    ensures v % (256 * m) == 256 * (v / 256 % m) + v % 256
  {
    var h := v / 256;
    var q := h / m;
    assert h == m * q + h % m;
    assert v == (256 * m) * q + (256 * (h % m) + v % 256);
    DivUnique(v, 256 * m, q, 256 * (h % m) + v % 256);
  }

  lemma {:induction false} BigEndianOfNumber(s: seq<Byte>)
    ensures BigEndian(Number(s), |s|) == s
    decreases |s|
  {
    if s != [] {
      var front, last := s[..|s| - 1], s[|s| - 1];
      BigEndianOfNumber(front);
      DivUnique(Number(s), 256, Number(front), last);
      assert s == front + [last];
    }
  }

  // _set_field64
  method SetField64(buf: array<Byte>, base: nat, f: Layout, v: nat)
    requires base + f.off / 8 + 8 <= buf.Length && v < Pow2(64)
    modifies buf
    ensures var start := base + f.off / 8;
      buf[..] == old(buf[..start]) + BigEndian(v, 8) + old(buf[start + 8..])
  {
    CopyInto(buf, base + f.off / 8, BigEndian(v, 8));
  }

  // memcpy into a buffer
  method CopyInto(buf: array<Byte>, start: nat, bytes: seq<Byte>)
    requires start + |bytes| <= buf.Length
    modifies buf
    ensures buf[..] == old(buf[..start]) + bytes + old(buf[start + |bytes|..])
  {
    forall i | 0 <= i < |bytes| {
      buf[start + i] := bytes[i];
    }
  }

  // _get_field64
  method GetField64(buf: array<Byte>, base: nat, f: Layout) returns (v: nat)
    requires base + f.off / 8 + 8 <= buf.Length
    ensures v == Number(buf[base + f.off / 8..base + f.off / 8 + 8])
    ensures v < Pow2(64)
  {
    var start := base + f.off / 8;
    v := 0;
    for i := 0 to 8
      invariant v == Number(buf[start..start + i])
    {
      assert buf[start..start + i + 1][..i] == buf[start..start + i];
      v := 256 * v + buf[start + i] as nat;
    }
    BigEndianOfNumber(buf[start..start + 8]);
    NumberOfBigEndian(v, 8);
  }

  // A 64-bit field at a word boundary is two big-endian words.
  lemma NumberIsTwoWords(s: seq<Byte>, j: nat)
    requires 4 * j + 8 <= |s|
    ensures Number(s[4 * j..4 * j + 8]) == Word(s, j) * 0x1_0000_0000 + Word(s, j + 1)
  {
    NumberSplit(s[4 * j..4 * j + 8], 4);
    FourBytesNumber(s[4 * j..4 * j + 8][..4]);
    FourBytesNumber(s[4 * j..4 * j + 8][4..]);
    Pow2Words();
  }

  lemma FourBytesNumber(b: seq<Byte>)
    requires |b| == 4
    ensures Number(b) == b[0] as nat * 0x100_0000 + b[1] as nat * 0x1_0000 + b[2] as nat * 0x100 + b[3] as nat
  {
    assert b[..3][..2] == b[..2] && b[..2][..1] == b[..1];
    assert Number(b[..1]) == b[0] as nat by { assert b[..1][..0] == []; }
    assert Number(b[..2]) == 256 * Number(b[..1]) + b[1] as nat;
    assert Number(b[..3]) == 256 * Number(b[..2]) + b[2] as nat;
  }

  lemma {:induction false} NumberSplit(b: seq<Byte>, k: nat)
    requires k <= |b|
    ensures Number(b) == Number(b[..k]) * Pow2(8 * (|b| - k)) + Number(b[k..])
    decreases |b| - k
  {
    if k == |b| {
      assert b[..k] == b;
    } else {
      var front := b[..|b| - 1];
      NumberSplit(front, k);
      assert front[..k] == b[..k] && b[k..][..|b| - k - 1] == front[k..];
      Pow2Words();
      Pow2Sum(8, 8 * (|front| - k));
      Distribute(256, Number(b[..k]), Pow2(8 * (|front| - k)));
    }
  }

  lemma Distribute(a: nat, x: nat, y: nat)
    ensures a * (x * y) == x * (a * y)
  {
  }
}
