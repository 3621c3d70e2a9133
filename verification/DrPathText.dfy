// Direct-route paths as text: str2drpath and drpath2str of libibmad/src/portid.c.
module DrPathText {
  import opened BitFields

  // IB_SUBNET_PATH_HOPS_MAX
  const HOPS_MAX := 64

  // ---------------------------------------------------------------------------
  // Decimal numbers

  predicate IsDigit(c: char) {
    '0' <= c <= '9'
  }

  predicate IsSpace(c: char) {
    c == ' ' || '\t' <= c <= '\r'
  }

  predicate AllDigits(s: string) {
    forall i :: 0 <= i < |s| ==> IsDigit(s[i])
  }

  function Figure(c: char): (d: nat)
    requires IsDigit(c)
  {
    (c - '0') as nat
  }

  function CharOf(d: nat): (c: char)
    requires d < 10
    ensures IsDigit(c) && Figure(c) == d
  {
    '0' + d as char
  }

  // %d and %u of a number that is not negative
  function Decimal(n: nat): (s: string)
    ensures s != [] && AllDigits(s)
  {
    if n < 10 then [CharOf(n)] else Decimal(n / 10) + [CharOf(n % 10)]
  }

  function Value(s: string): nat
    requires AllDigits(s)
  {
    if s == [] then 0 else 10 * Value(s[..|s| - 1]) + Figure(s[|s| - 1])
  }

  // The digits that a text starts with
  function Run(s: string): (r: string)
    ensures AllDigits(r)
  {
    if s == [] || !IsDigit(s[0]) then [] else [s[0]] + Run(s[1..])
  }

  // atoi of a number that fits an int
  function Atoi(s: string): int
    decreases |s|
  {
    if s == [] then 0
    else if IsSpace(s[0]) then Atoi(s[1..])
    else if s[0] == '-' then 0 - Value(Run(s[1..])) as int
    else if s[0] == '+' then Value(Run(s[1..]))
    else Value(Run(s))
  }

  lemma {:induction false} ValueOfDecimal(n: nat)
    ensures Value(Decimal(n)) == n
    decreases n
  {
    if n < 10 {
      assert Decimal(n)[..0] == [];
    } else {
      var s := Decimal(n);
      assert s[..|s| - 1] == Decimal(n / 10) && s[|s| - 1] == CharOf(n % 10);
      ValueOfDecimal(n / 10);
    }
  }

  lemma {:induction false} RunOfDigits(s: string)
    requires AllDigits(s)
    ensures Run(s) == s
    decreases |s|
  {
    if s != [] {
      RunOfDigits(s[1..]);
    }
  }

  lemma AtoiOfDecimal(n: nat)
    ensures Atoi(Decimal(n)) == n
  {
    var s := Decimal(n);
    assert IsDigit(s[0]);
    RunOfDigits(s);
    ValueOfDecimal(n);
  }

  // ---------------------------------------------------------------------------
  // Reading a list of hops

  // Where the first comma is, or where the text ends
  function Comma(s: string): (i: nat)
    ensures i <= |s| && (i < |s| ==> s[i] == ',')
    ensures forall k :: 0 <= k < i ==> s[k] != ','
  {
    if s == [] || s[0] == ',' then 0 else Comma(s[1..]) + 1
  }

  // What lies between the commas; nothing follows a comma at the end.
  function Fields(s: string): (r: seq<string>)
    decreases |s|
  {
    if s == [] then []
    else [s[..Comma(s)]] + Rest(s)
  }

  function Rest(s: string): (r: seq<string>)
    requires s != []
    decreases |s|, 0
  {
    if Comma(s) == |s| then [] else Fields(s[Comma(s) + 1..])
  }

  // The byte that a field is stored as
  function HopOf(field: string): Byte {
    Atoi(field) % 256
  }

  // The hops of a text, without a bound on their number
  function Hops(s: string): (r: seq<Byte>)
    ensures |r| == |Fields(s)|
  {
    seq(|Fields(s)|, i requires 0 <= i < |Fields(s)| => HopOf(Fields(s)[i]))
  }

  // strchr
  method FindComma(s: string, from: nat) returns (i: nat)
    requires from <= |s|
    ensures i == from + Comma(s[from..])
  {
    i := from;
    while i < |s| && s[i] != ','
      invariant from <= i <= |s|
      invariant from + Comma(s[from..]) == i + Comma(s[i..])
    {
      assert s[i..][1..] == s[i + 1..];
      i := i + 1;
    }
  }

  // The first n fields of a text are stored as hops; the others start at position str.
  ghost predicate Parsed(s: string, str: nat, n: nat, p: seq<Byte>, before: seq<Byte>) {
    && str <= |s| && n <= |Fields(s)| && n <= |p| == |before|
    && Fields(s)[n..] == Fields(s[str..])
    && (forall k :: 0 <= k < n ==> p[k] == HopOf(Fields(s)[k]))
    && (forall k :: n <= k < |p| ==> p[k] == before[k])
  }

  lemma ParsedMore(s: string, str: nat, to: nat, n: nat, p: seq<Byte>, before: seq<Byte>)
    requires Parsed(s, str, n, p, before) && str < |s| && to == str + Comma(s[str..])
    ensures n < |Fields(s)|
    ensures n < |p| ==> Parsed(s, if to == |s| then to else to + 1, n + 1, p[n := HopOf(s[str..to])], before)
  {
    FieldsFrom(s, str, to);
    FirstAndRest(Fields(s), n, s[str..to], Rest(s[str..]));
  }

  // str2drpath: cnt is the index of the last hop, -1 when there is none.  A store behind
  // the array of the path ends it here; there is one exactly when the text has more hops
  // than the array has places.
  method StrToDrPath(routepath: string, p: array<Byte>) returns (cnt: int, over: bool)
    requires p.Length == HOPS_MAX
    modifies p
    ensures over <==> |Hops(routepath)| > HOPS_MAX
    ensures !over ==> cnt == |Hops(routepath)| - 1 && p[..] == Hops(routepath) + old(p[..])[|Hops(routepath)|..]
    ensures over ==> p[..] == Hops(routepath)[..HOPS_MAX]
  {
    cnt, over := -1, false;
    var str := 0;
    ghost var before := p[..];
    assert routepath[0..] == routepath;
    while str < |routepath|
      invariant cnt >= -1 && !over && 0 <= str && Parsed(routepath, str, cnt + 1, p[..], before)
      decreases |routepath| - str
    {
      var s := FindComma(routepath, str);
      ParsedMore(routepath, str, s, cnt + 1, p[..], before);
      cnt := cnt + 1;
      if cnt == HOPS_MAX {
        return cnt, true;
      }
      p[cnt] := HopOf(routepath[str..s]);
      if s == |routepath| {
        str := s;
        break;
      }
      str := s + 1;
    }
    HopsStored(routepath, p[..], before);
  }

  lemma HopsStored(s: string, p: seq<Byte>, before: seq<Byte>)
    requires |Fields(s)| <= |p| == |before|
    requires forall k :: 0 <= k < |Fields(s)| ==> p[k] == HopOf(Fields(s)[k])
    requires forall k :: |Fields(s)| <= k < |p| ==> p[k] == before[k]
    ensures p == Hops(s) + before[|Hops(s)|..]
  {
  }

  lemma FieldsFrom(s: string, from: nat, to: nat)
    requires from < |s| && to == from + Comma(s[from..])
    ensures Fields(s[from..]) == [s[from..to]] + Rest(s[from..])
    ensures Rest(s[from..]) == if to == |s| then [] else Fields(s[to + 1..])
  {
    assert s[from..][..to - from] == s[from..to];
    if to < |s| {
      assert s[from..][to - from + 1..] == s[to + 1..];
    }
  }

  lemma FirstAndRest<T>(s: seq<T>, n: nat, first: T, rest: seq<T>)
    requires n <= |s| && s[n..] == [first] + rest
    ensures n < |s| && s[n] == first && s[n + 1..] == rest
  {
    assert s[n] == s[n..][0] && s[n + 1..] == s[n..][1..];
  }

  // ---------------------------------------------------------------------------
  // Printing a path

  function Joined(hops: seq<Byte>): (s: string)
    requires hops != []
    ensures s != []
  {
    if |hops| == 1 then Decimal(hops[0]) else Decimal(hops[0]) + [','] + Joined(hops[1..])
  }

  function Prefix(slid: nat, dlid: nat): string {
    "slid " + Decimal(slid) + "; dlid " + Decimal(dlid) + "; "
  }

  lemma {:induction false} JoinedMore(hops: seq<Byte>, hop: Byte)
    requires hops != []
    ensures Joined(hops + [hop]) == Joined(hops) + [','] + Decimal(hop)
    decreases |hops|
  {
    var more := hops + [hop];
    assert more[0] == hops[0] && more[1..] == hops[1..] + [hop];
    if |hops| == 1 {
      assert more[1..] == [hop];
    } else {
      JoinedMore(hops[1..], hop);
    }
  }

  lemma CommaAfterDigits(digits: string, rest: string)
    requires AllDigits(digits) && (rest == [] || rest[0] == ',')
    ensures Comma(digits + rest) == |digits|
  {
    var s := digits + rest;
    assert forall k :: 0 <= k < |digits| ==> s[k] == digits[k] && s[k] != ',';
    if rest != [] {
      assert s[|digits|] == ',';
    }
  }

  lemma LastField(digits: string)
    requires AllDigits(digits) && digits != []
    ensures Fields(digits) == [digits]
  {
    CommaAfterDigits(digits, []);
    assert digits + [] == digits;
  }

  lemma FirstField(digits: string, rest: string)
    requires AllDigits(digits)
    ensures Fields(digits + [','] + rest) == [digits] + Fields(rest)
  {
    var s := digits + [','] + rest;
    CommaAfterDigits(digits, [','] + rest);
    assert s == digits + ([','] + rest);
    FieldsFrom(s, 0, |digits|);
    assert s[0..] == s && s[0..|digits|] == digits && s[|digits| + 1..] == rest;
  }

  // The fields of a printed list are its numbers.
  lemma {:induction false} FieldsOfJoined(hops: seq<Byte>)
    requires hops != []
    ensures |Fields(Joined(hops))| == |hops|
    ensures forall i :: 0 <= i < |hops| ==> Fields(Joined(hops))[i] == Decimal(hops[i])
    decreases |hops|
  {
    if |hops| == 1 {
      LastField(Decimal(hops[0]));
    } else {
      FirstField(Decimal(hops[0]), Joined(hops[1..]));
      FieldsOfJoined(hops[1..]);
    }
  }

  lemma HopOfDecimal(hop: Byte)
    ensures HopOf(Decimal(hop)) == hop
  {
    AtoiOfDecimal(hop);
  }

  // Reading what was printed gives the hops back.
  lemma HopsOfJoined(hops: seq<Byte>)
    requires hops != []
    ensures Hops(Joined(hops)) == hops
  {
    var fields := Fields(Joined(hops));
    FieldsOfJoined(hops);
    forall i | 0 <= i < |hops|
      ensures HopOf(fields[i]) == hops[i]
    {
      HopOfDecimal(hops[i]);
    }
  }

  // The characters of a text that snprintf keeps in a buffer of the given size
  function Kept(text: string, size: nat): string {
    if |text| < size then text else text[..if size == 0 then 0 else size - 1]
  }

  // A buffer holds a text, cut to what fits, and the zero character behind it.
  predicate Shows(buf: seq<char>, text: string) {
    var kept := Kept(text, |buf|);
    kept <= buf && (buf != [] ==> buf[|kept|] == '\0')
  }

  // snprintf at position at; the result is the length of the whole text.
  method Snprintf(buf: array<char>, at: nat, text: string) returns (n: nat)
    requires at <= buf.Length
    modifies buf
    ensures n == |text|
    ensures buf[..at] == old(buf[..at]) && Shows(buf[at..], text)
  {
    var kept := Kept(text, buf.Length - at);
    var i := 0;
    while i < |kept|
      invariant 0 <= i <= |kept|
      invariant buf[..at] == old(buf[..at]) && buf[at..at + i] == kept[..i]
    {
      buf[at + i] := kept[i];
      i := i + 1;
    }
    if at < buf.Length {
      buf[at + i] := '\0';
    }
    assert buf[at..][..i] == buf[at..at + i];
    n := |text|;
  }

  // Printing behind a text that still fits
  lemma ShowsMore(buf: seq<char>, text: string, more: string)
    requires |text| < |buf| && text <= buf && Shows(buf[|text|..], more)
    ensures Shows(buf, text + more)
  {
    assert Kept(text + more, |buf|) == text + Kept(more, |buf| - |text|);
    assert buf == text + buf[|text|..];
  }

  // A text that no longer fits shows the same as any longer one.
  lemma ShowsLong(buf: seq<char>, text: string, longer: string)
    requires |buf| <= |text| && text <= longer && Shows(buf, text)
    ensures Shows(buf, longer)
  {
    assert Kept(longer, |buf|) == Kept(text, |buf|);
  }

  function Text(slid: nat, dlid: nat, hops: seq<Byte>): string
    requires hops != []
  {
    Prefix(slid, dlid) + Joined(hops)
  }

  // drpath2str with cnt + 1 hops: the whole text, cut to what fits
  method DrPathToStr(slid: nat, dlid: nat, hops: seq<Byte>, dstr: array<char>)
    requires 1 <= |hops| <= HOPS_MAX
    modifies dstr
    ensures Shows(dstr[..], Text(slid, dlid, hops))
  {
    var rc := Snprintf(dstr, 0, Prefix(slid, dlid) + Decimal(hops[0]));
    assert hops[..1] == [hops[0]] && dstr[0..] == dstr[..];
    ghost var text := Text(slid, dlid, hops[..1]);
    var i := 1;
    while i < |hops| && rc < dstr.Length
      invariant 1 <= i <= |hops| && text == Text(slid, dlid, hops[..i]) && rc == |text|
      invariant Shows(dstr[..], text)
    {
      TextMore(slid, dlid, hops, i);
      rc, text := Append(dstr, text, rc, [','] + Decimal(hops[i]));
      i := i + 1;
    }
    if i < |hops| {
      TextPrefix(slid, dlid, hops, i);
      ShowsLong(dstr[..], text, Text(slid, dlid, hops));
    } else {
      assert hops[..i] == hops;
    }
  }

  method Append(dstr: array<char>, ghost text: string, rc: nat, more: string) returns (n: nat, ghost all: string)
    requires rc == |text| < dstr.Length && Shows(dstr[..], text)
    modifies dstr
    ensures all == text + more && n == |all| && Shows(dstr[..], all)
  {
    assert dstr[..rc] == text;
    n := Snprintf(dstr, rc, more);
    n := rc + n;
    all := text + more;
    assert dstr[..][rc..] == dstr[rc..] && dstr[..][..rc] == dstr[..rc];
    ShowsMore(dstr[..], text, more);
  }

  lemma TextMore(slid: nat, dlid: nat, hops: seq<Byte>, i: nat)
    requires 0 < i < |hops|
    ensures Text(slid, dlid, hops[..i + 1]) == Text(slid, dlid, hops[..i]) + ([','] + Decimal(hops[i]))
  {
    assert hops[..i + 1] == hops[..i] + [hops[i]];
    JoinedMore(hops[..i], hops[i]);
  }

  lemma {:induction false} TextPrefix(slid: nat, dlid: nat, hops: seq<Byte>, i: nat)
    requires 0 < i <= |hops|
    ensures Text(slid, dlid, hops[..i]) <= Text(slid, dlid, hops)
    decreases |hops| - i
  {
    if i < |hops| {
      TextMore(slid, dlid, hops, i);
      TextPrefix(slid, dlid, hops, i + 1);
    } else {
      assert hops[..i] == hops;
    }
  }

  // The hop list of a printed path is read back as the same path, and with the same count.
  method PrintAndRead(slid: nat, dlid: nat, hops: seq<Byte>, dstr: array<char>, p: array<Byte>) returns (cnt: int, over: bool)
    requires 1 <= |hops| <= HOPS_MAX && p.Length == HOPS_MAX
    requires |Text(slid, dlid, hops)| < dstr.Length
    modifies dstr, p
    ensures !over && cnt == |hops| - 1 && p[..] == hops + old(p[..])[|hops|..]
  {
    var text := Text(slid, dlid, hops);
    DrPathToStr(slid, dlid, hops, dstr);
    var list := dstr[|Prefix(slid, dlid)|..|text|];
    assert dstr[..][..|text|] == text && list == text[|Prefix(slid, dlid)|..];
    HopsOfJoined(hops);
    cnt, over := StrToDrPath(list, p);
  }
}
