// 256-bit masks as hexadecimal text: mad_dump_array of libibmad/src/dump.c prints them,
// parse256 of src/ibccconfig.c reads them.
module Hex256 {
  import opened Wrappers
  import opened BitFields
  import opened WideFields

  const MASK_BYTES := 32

  // isxdigit
  predicate IsHex(c: char) {
    '0' <= c <= '9' || 'a' <= c <= 'f' || 'A' <= c <= 'F'
  }

  function DigitOf(c: char): (d: nat)
    requires IsHex(c)
    ensures d < 16
  {
    if '0' <= c <= '9' then (c - '0') as nat
    else if 'a' <= c <= 'f' then (c - 'a') as nat + 10
    else (c - 'A') as nat + 10
  }

  // The digit that %02x prints
  function CharOf(d: nat): (c: char)
    requires d < 16
    ensures IsHex(c) && DigitOf(c) == d
  {
    if d < 10 then '0' + d as char else 'a' + (d - 10) as char
  }

  predicate AllHex(s: string) {
    forall i :: 0 <= i < |s| ==> IsHex(s[i])
  }

  // The number that the digits stand for
  function HexValue(s: string): nat
    requires AllHex(s)
  {
    if s == [] then 0 else 16 * HexValue(s[..|s| - 1]) + DigitOf(s[|s| - 1])
  }

  // ---------------------------------------------------------------------------
  // Printing

  function HexText(s: seq<Byte>): (r: string)
    ensures |r| == 2 * |s| && AllHex(r)
  {
    if s == [] then []
    else HexText(s[..|s| - 1]) + [CharOf(s[|s| - 1] / 16), CharOf(s[|s| - 1] % 16)]
  }

  // One sprintf of mad_dump_array.  The zero character that ends its two digits may fall
  // on the place behind the buffer.
  method PrintByte(buf: array<char>, s: nat, b: Byte) returns (over: bool)
    requires s + 2 <= buf.Length
    modifies buf
    ensures buf[..s + 2] == old(buf[..s]) + [CharOf(b / 16), CharOf(b % 16)] && (s + 2 < buf.Length ==> buf[s + 2] == '\0')
    ensures forall j :: s + 3 <= j < buf.Length ==> buf[j] == old(buf[j])
    ensures over <==> s + 2 == buf.Length
  {
    buf[s], buf[s + 1] := CharOf(b / 16), CharOf(b % 16);
    over := s + 2 == buf.Length;
    if !over {
      buf[s + 2] := '\0';
    }
  }

  // The number of bytes that mad_dump_array prints
  function Printed(bufsz: nat, valsz: nat): nat {
    if bufsz < 2 * valsz then bufsz / 2 else valsz
  }

  // mad_dump_array, and whether it stores a zero character behind the buffer
  method DumpArray(buf: array<char>, bufsz: nat, val: seq<Byte>) returns (over: bool)
    requires 2 * Printed(bufsz, |val|) <= buf.Length
    modifies buf
    ensures var n := Printed(bufsz, |val|);
      && buf[..2 * n] == HexText(val[..n]) && (0 < 2 * n < buf.Length ==> buf[2 * n] == '\0')
      && (forall j :: 2 * n < j < buf.Length ==> buf[j] == old(buf[j]))
      && (over <==> 0 < 2 * n == buf.Length)
  {
    var valsz := |val|;
    if bufsz < valsz * 2 {
      valsz := bufsz / 2;
    }
    var k, s := 0, 0;
    over := false;
    while k < valsz
      invariant 0 <= k <= valsz && s == 2 * k
      invariant buf[..s] == HexText(val[..k]) && (0 < s < buf.Length ==> buf[s] == '\0')
      invariant forall j :: s < j < buf.Length ==> buf[j] == old(buf[j])
      invariant over <==> 0 < s == buf.Length
    {
      over := PrintByte(buf, s, val[k]);
      assert val[..k + 1][..k] == val[..k];
      k := k + 1;
      s := s + 2;
    }
  }

  // A caller that passes the size of its buffer has a character stored behind it exactly
  // when the size is even, at least two, and not more than the digits need.
  method DumpOverruns(size: nat, val: seq<Byte>) returns (over: bool)
    ensures over <==> size % 2 == 0 && 2 <= size <= 2 * |val|
  {
    var buf := new char[size];
    over := DumpArray(buf, size, val);
  }

  // ---------------------------------------------------------------------------
  // Reading

  function Pair(high: char, low: char): Byte
    requires IsHex(high) && IsHex(low)
  {
    16 * DigitOf(high) + DigitOf(low)
  }

  // The bytes of a text of hex digits; an odd digit at the front is a byte of its own.
  function BytesOf(s: string): (r: seq<Byte>)
    requires AllHex(s)
    ensures |r| == (|s| + 1) / 2
    decreases |s|
  {
    if |s| == 0 then []
    else if |s| == 1 then [DigitOf(s[0])]
    else BytesOf(s[..|s| - 2]) + [Pair(s[|s| - 2], s[|s| - 1])]
  }

  // The byte with m - 1 bytes behind it is the pair of digits with m - 1 pairs behind it.
  lemma {:induction false} PairAt(s: string, at: nat, m: nat)
    requires AllHex(s) && m > 0 && |s| == at + 2 * m
    ensures m <= |BytesOf(s)| && BytesOf(s)[|BytesOf(s)| - m] == Pair(s[at], s[at + 1])
    decreases m
  {
    if m > 1 {
      var front := s[..|s| - 2];
      PairAt(front, at, m - 1);
      assert BytesOf(s)[|BytesOf(s)| - m] == BytesOf(front)[|BytesOf(front)| - (m - 1)];
    }
  }

  lemma {:induction false} OddFront(s: string, m: nat)
    requires AllHex(s) && |s| == 1 + 2 * m
    ensures BytesOf(s)[0] == DigitOf(s[0])
    decreases m
  {
    if m > 0 {
      OddFront(s[..|s| - 2], m - 1);
    }
  }

  // The bytes spell the number of the text.
  lemma {:induction false} BytesSpell(s: string)
    requires AllHex(s)
    ensures Number(BytesOf(s)) == HexValue(s)
    decreases |s|
  {
    if |s| == 1 {
      assert s[..0] == [] && BytesOf(s)[..0] == [];
    } else if |s| > 1 {
      var front := s[..|s| - 2];
      BytesSpell(front);
      assert BytesOf(s)[..|BytesOf(s)| - 1] == BytesOf(front);
      assert s[..|s| - 1][..|s| - 2] == front;
    }
  }

  // Zeros in front do not change a number.
  lemma {:induction false} LeadingZeros(zeros: seq<Byte>, s: seq<Byte>)
    requires forall i :: 0 <= i < |zeros| ==> zeros[i] == 0
    ensures Number(zeros + s) == Number(s)
    decreases |zeros| + |s|
  {
    if s != [] {
      assert (zeros + s)[..|zeros + s| - 1] == zeros + s[..|s| - 1];
      LeadingZeros(zeros, s[..|s| - 1]);
    } else if zeros != [] {
      assert zeros + s == zeros && zeros[..|zeros| - 1] + s == zeros[..|zeros| - 1];
      LeadingZeros(zeros[..|zeros| - 1], s);
    }
  }

  lemma PairOfByte(b: Byte)
    ensures Pair(CharOf(b / 16), CharOf(b % 16)) == b
  {
    var high, low := b / 16, b % 16;
    assert DigitOf(CharOf(high)) == high && DigitOf(CharOf(low)) == low;
  }

  lemma PairReads(text: string, high: char, low: char)
    requires AllHex(text) && IsHex(high) && IsHex(low)
    ensures AllHex(text + [high, low]) && BytesOf(text + [high, low]) == BytesOf(text) + [Pair(high, low)]
  {
    var all := text + [high, low];
    assert all[..|all| - 2] == text;
  }

  const DIGITS := "0123456789abcdef"

  // Byte k is shown by two lower-case digits, the high one first.
  lemma {:induction false} HexTextAt(s: seq<Byte>, k: nat)
    requires k < |s|
    ensures HexText(s)[2 * k] == DIGITS[s[k] / 16] && HexText(s)[2 * k + 1] == DIGITS[s[k] % 16]
    decreases |s|
  {
    DigitChar(s[k] / 16);
    DigitChar(s[k] % 16);
    if k < |s| - 1 { HexTextAt(s[..|s| - 1], k); }
  }

  lemma DigitChar(d: nat)
    requires d < 16
    ensures CharOf(d) == DIGITS[d]
  {
  }

  // What is printed is read back.
  lemma {:induction false} TextReads(s: seq<Byte>)
    ensures BytesOf(HexText(s)) == s
    decreases |s|
  {
    if s != [] {
      var front, last := s[..|s| - 1], s[|s| - 1];
      TextReads(front);
      PairReads(HexText(front), CharOf(last / 16), CharOf(last % 16));
      PairOfByte(last);
      assert s == front + [last];
    }
  }

  datatype ParseError = InvalidDigit | TooLong

  // A C string, without its terminator
  type CString = s: string | '\0' !in s

  // What is read at index i of a string, where `behind` is what follows its terminator
  function CharAt(arg: CString, behind: char, i: nat): char
    requires i <= |arg| + 1
  {
    if i < |arg| then arg[i] else if i == |arg| then '\0' else behind
  }

  predicate HasPrefix(arg: string) {
    |arg| >= 2 && arg[0] == '0' && (arg[1] == 'x' || arg[1] == 'X')
  }

  // The text without a 0x prefix
  function Digits(arg: string): string {
    if HasPrefix(arg) then arg[2..] else arg
  }

  // The bytes parse256 stores: no digits at all still give one byte.
  function Stored(text: string): (r: seq<Byte>)
    requires AllHex(text)
  {
    if text == [] then [0] else BytesOf(text)
  }

  // strtoul with base 16 on two characters; it stops at the terminator.
  function NumberOf(high: char, low: char): Byte
    requires high == '\0' || (IsHex(high) && IsHex(low))
  {
    if high == '\0' then 0 else Pair(high, low)
  }

  // The digits of the byte that is stored at index i
  lemma DigitsAt(arg: CString, start: nat, i: nat, at: nat)
    requires start <= |arg| && AllHex(arg[start..]) && |arg[start..]| <= 64
    requires var first := MASK_BYTES - |Stored(arg[start..])|;
      first <= i < MASK_BYTES && at == start + if i == first then 0 else 2 * (i - first) - (|arg| - start) % 2
    ensures var text, bytes := arg[start..], Stored(arg[start..]);
      var first := MASK_BYTES - |bytes|;
      if text == [] then at == |arg| && bytes[i - first] == 0
      else if i == first && |text| % 2 == 1 then at < |arg| && IsHex(arg[at]) && bytes[i - first] == DigitOf(arg[at])
      else at + 1 < |arg| && IsHex(arg[at]) && IsHex(arg[at + 1]) && bytes[i - first] == Pair(arg[at], arg[at + 1])
  {
    var text := arg[start..];
    if text != [] && i == MASK_BYTES - |Stored(text)| && |text| % 2 == 1 {
      OddFront(text, |text| / 2);
    } else if text != [] {
      PairAt(text, at - start, MASK_BYTES - i);
    }
  }

  // The second loop of parse256, which starts at index `start` of the argument; `last` is the
  // last index that it reads.
  method StoreDigits(arg: CString, behind: char, start: nat, buf: array<Byte>) returns (last: nat)
    requires buf.Length == MASK_BYTES && start <= |arg| && AllHex(arg[start..]) && |arg[start..]| <= 64
    modifies buf
    ensures buf[..] == old(buf[..MASK_BYTES - |Stored(arg[start..])|]) + Stored(arg[start..])
    ensures last == if start == |arg| then |arg| + 1 else |arg| - 1
  {
    ghost var bytes := Stored(arg[start..]);
    var numdigits := |arg| - start;
    var startindex := 32 - (if numdigits == 0 then 0 else (numdigits - 1) / 2) - 1;
    assert startindex == 32 - |bytes|;
    var i, at := startindex, start;
    last := start;
    while i <= 31
      invariant startindex <= i <= 32
      invariant at == start + if i == startindex then 0 else 2 * (i - startindex) - numdigits % 2
      invariant forall k :: 0 <= k < startindex ==> buf[k] == old(buf[k])
      invariant forall k :: startindex <= k < i ==> buf[k] == bytes[k - startindex]
      invariant i > startindex ==> last == at - 1
    {
      DigitsAt(arg, start, i, at);
      if i == startindex && numdigits % 2 == 1 {
        buf[i], last := DigitOf(CharAt(arg, behind, at)), at;
        at := at + 1;
      } else {
        buf[i], last := NumberOf(CharAt(arg, behind, at), CharAt(arg, behind, at + 1)), at + 1;
        at := at + 2;
      }
      i := i + 1;
    }
  }

  // parse256; `last` is the last index of the argument that it reads.  It reads behind the
  // terminator exactly when there are no digits.
  method Parse256(arg: CString, behind: char, buf: array<Byte>) returns (err: Option<ParseError>, last: nat)
    requires buf.Length == MASK_BYTES
    modifies buf
    ensures err == if !AllHex(Digits(arg)) then Some(InvalidDigit)
                   else if |Digits(arg)| > 64 then Some(TooLong) else None
    ensures err.Some? ==> buf[..] == old(buf[..])
    ensures err.None? ==> buf[..] == old(buf[..MASK_BYTES - |Stored(Digits(arg))|]) + Stored(Digits(arg))
    ensures last <= |arg| + 1 && (last == |arg| + 1 <==> arg in {"", "0x", "0X"})
  {
    var start := if HasPrefix(arg) then 2 else 0;
    var ptr := start;
    assert Digits(arg) == arg[start..];
    NoDigits(arg);
    while CharAt(arg, behind, ptr) != '\0'
      invariant start <= ptr <= |arg| && forall i :: start <= i < ptr ==> IsHex(arg[i])
      invariant buf[..] == old(buf[..])
      decreases |arg| - ptr
    {
      if !IsHex(CharAt(arg, behind, ptr)) {
        assert !IsHex(Digits(arg)[ptr - start]);
        return Some(InvalidDigit), ptr;
      }
      ptr := ptr + 1;
    }
    assert ptr == |arg|;
    if ptr - start > 64 {
      return Some(TooLong), ptr;
    }
    last := StoreDigits(arg, behind, start, buf);
    return None, if last > ptr then last else ptr;
  }

  lemma NoDigits(arg: string)
    ensures Digits(arg) == [] <==> arg in {"", "0x", "0X"}
  {
    if Digits(arg) == [] && HasPrefix(arg) {
      assert arg == [arg[0], arg[1]];
    }
  }

  // A zeroed buffer gets the big-endian number of the digits.
  lemma StoredSpells(text: string, buf: seq<Byte>)
    requires AllHex(text) && |text| <= 64
    requires |buf| == MASK_BYTES && forall i :: 0 <= i < |buf| ==> buf[i] == 0
    ensures Number(buf[..MASK_BYTES - |Stored(text)|] + Stored(text)) == HexValue(text)
  {
    LeadingZeros(buf[..MASK_BYTES - |Stored(text)|], Stored(text));
    if text == [] {
      assert [0 as Byte][..0] == [];
    } else {
      BytesSpell(text);
    }
  }

  method ParseMask(arg: CString, behind: char) returns (buf: array<Byte>, err: Option<ParseError>)
    ensures buf.Length == MASK_BYTES
    ensures err.None? <==> AllHex(Digits(arg)) && |Digits(arg)| <= 64
    ensures Number(buf[..]) == if err.None? then HexValue(Digits(arg)) else 0
  {
    buf := new Byte[MASK_BYTES](i => 0);
    ghost var zeros := buf[..];
    var last;
    err, last := Parse256(arg, behind, buf);
    if err.None? {
      StoredSpells(Digits(arg), zeros);
    } else {
      LeadingZeros(zeros, []);
      assert zeros + [] == zeros;
    }
  }

  // parse256 undoes mad_dump_array on every mask.
  method DumpAndParse(mask: seq<Byte>) returns (buf: array<Byte>, err: Option<ParseError>, over: bool)
    requires |mask| == MASK_BYTES
    ensures err.None? && buf[..] == mask && !over
  {
    var text := new char[2 * MASK_BYTES + 1];
    over := DumpArray(text, 2 * MASK_BYTES, mask);
    assert mask[..MASK_BYTES] == mask;
    var arg := text[..2 * MASK_BYTES];
    TextReads(mask);
    assert IsHex(arg[1]);
    assert Digits(arg) == HexText(mask);
    assert forall i :: 0 <= i < |arg| ==> IsHex(arg[i]);
    buf := new Byte[MASK_BYTES](i => 0);
    var last;
    err, last := Parse256(arg, text[2 * MASK_BYTES], buf);
  }
}
