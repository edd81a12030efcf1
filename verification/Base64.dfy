/**
 * The four base64 variants of encoding/base64 the node uses (RFC 4648 sections 4 and 5, with and
 * without the padding of section 3.2), as the library computes them: shifts and masks on 24-bit
 * groups, trailing bits of the last group ignored on decoding.
 */
module Base64 {
  import opened Wrappers

  type Byte = bv8
  type Sextet = bv6

  datatype Variant = Variant(url: bool, padded: bool)

  const RAW_STD := Variant(false, false)
  const STD := Variant(false, true)
  const RAW_URL := Variant(true, false)
  const URL := Variant(true, true)

  function Symbol(v: Variant, d: Sextet): (c: char) {
    var n := d as int;
    if n < 26 then (65 + n) as char
    else if n < 52 then (97 + (n - 26)) as char
    else if n < 62 then (48 + (n - 52)) as char
    else if n == 62 then (if v.url then '-' else '+')
    else (if v.url then '_' else '/')
  }

  function Value(v: Variant, c: char): Option<Sextet> {
    if 'A' <= c <= 'Z' then Some((c as int - 65) as Sextet)
    else if 'a' <= c <= 'z' then Some((c as int - 97 + 26) as Sextet)
    else if '0' <= c <= '9' then Some((c as int - 48 + 52) as Sextet)
    else if c == (if v.url then '-' else '+') then Some(62)
    else if c == (if v.url then '_' else '/') then Some(63)
    else None
  }

  predicate IsSymbol(v: Variant, c: char) { Value(v, c).Some? }

  lemma ValueOfSymbol(v: Variant, d: Sextet)
    ensures Value(v, Symbol(v, d)) == Some(d)
  {
  }

  lemma SextetOfInt(n: nat)
    requires n < 64
    ensures (n as Sextet) as int == n
  {
  }

  lemma SymbolOfValue(v: Variant, c: char)
    requires IsSymbol(v, c)
    ensures Symbol(v, Value(v, c).value) == c
  {
    if 'A' <= c <= 'Z' { SextetOfInt(c as int - 65); }
    else if 'a' <= c <= 'z' { SextetOfInt(c as int - 97 + 26); }
    else if '0' <= c <= '9' { SextetOfInt(c as int - 48 + 52); }
  }

  // ----- One group -----

  function Join4(d0: Sextet, d1: Sextet, d2: Sextet, d3: Sextet): bv24 {
    (d0 as bv24 << 18) | (d1 as bv24 << 12) | (d2 as bv24 << 6) | d3 as bv24
  }

  function Join3(b0: Byte, b1: Byte, b2: Byte): bv24 {
    (b0 as bv24 << 16) | (b1 as bv24 << 8) | b2 as bv24
  }

  function Bytes3(w: bv24): (r: seq<Byte>)
    ensures |r| == 3
  {
    [((w >> 16) & 0xFF) as Byte, ((w >> 8) & 0xFF) as Byte, (w & 0xFF) as Byte]
  }

  function Sextets4(w: bv24): (r: seq<Sextet>)
    ensures |r| == 4
  {
    [((w >> 18) & 0x3F) as Sextet, ((w >> 12) & 0x3F) as Sextet, ((w >> 6) & 0x3F) as Sextet, (w & 0x3F) as Sextet]
  }

  /** The bytes of one group of 2 to 4 sextets; missing sextets count as zero and their bytes are not produced. */
  function GroupBytes(ds: seq<Sextet>): (r: seq<Byte>)
    requires 2 <= |ds| <= 4
    ensures |r| == |ds| - 1
  {
    Bytes3(Join4(ds[0], ds[1], if |ds| > 2 then ds[2] else 0, if |ds| > 3 then ds[3] else 0))[..|ds| - 1]
  }

  /** The sextets of one group of 1 to 3 bytes. */
  function GroupSextets(bs: seq<Byte>): (r: seq<Sextet>)
    requires 1 <= |bs| <= 3
    ensures |r| == |bs| + 1
  {
    Sextets4(Join3(bs[0], if |bs| > 1 then bs[1] else 0, if |bs| > 2 then bs[2] else 0))[..|bs| + 1]
  }

  /** The bits of the last sextet of a partial group that no byte uses are zero. */
  predicate CanonicalGroup(ds: seq<Sextet>)
    requires 2 <= |ds| <= 4
  {
    (|ds| == 2 ==> ds[1] & 0xF == 0) && (|ds| == 3 ==> ds[2] & 0x3 == 0)
  }

  lemma GroupRoundTrip(bs: seq<Byte>)
    requires 1 <= |bs| <= 3
    ensures GroupBytes(GroupSextets(bs)) == bs && CanonicalGroup(GroupSextets(bs))
  {
  }

  lemma SextetsOfJoin(d0: Sextet, d1: Sextet, d2: Sextet, d3: Sextet)
    ensures Sextets4(Join4(d0, d1, d2, d3)) == [d0, d1, d2, d3]
  {
  }

  /** Going through the bytes of a group clears the bits no byte carries, and only those. */
  lemma JoinThroughOneByte(d0: Sextet, d1: Sextet)
    ensures Join3(Bytes3(Join4(d0, d1, 0, 0))[0], 0, 0) == Join4(d0, d1 & 0x30, 0, 0)
  {
  }

  lemma JoinThroughTwoBytes(d0: Sextet, d1: Sextet, d2: Sextet)
    ensures var b := Bytes3(Join4(d0, d1, d2, 0)); Join3(b[0], b[1], 0) == Join4(d0, d1, d2 & 0x3C, 0)
  {
    JoinOfBytes(Join4(d0, d1, d2, 0));
  }

  lemma JoinOfBytes(w: bv24)
    ensures Join3(Bytes3(w)[0], Bytes3(w)[1], Bytes3(w)[2]) == w
    ensures Join3(Bytes3(w)[0], Bytes3(w)[1], 0) == w & 0xFFFF00
    ensures Join3(Bytes3(w)[0], 0, 0) == w & 0xFF0000
  {
  }

  lemma MaskedIffClear(d: Sextet)
    ensures d & 0x30 == d <==> d & 0xF == 0
    ensures d & 0x3C == d <==> d & 0x3 == 0
  {
  }

  lemma GroupRoundTripBack(ds: seq<Sextet>)
    requires 2 <= |ds| <= 4
    ensures GroupSextets(GroupBytes(ds)) == ds <==> CanonicalGroup(ds)
  {
    hide Join4, Join3, Sextets4, Bytes3;
    var d2, d3 := if |ds| > 2 then ds[2] else 0, if |ds| > 3 then ds[3] else 0;
    JoinOfBytes(Join4(ds[0], ds[1], d2, d3));
    if |ds| == 2 {
      JoinThroughOneByte(ds[0], ds[1]);
      SextetsOfJoin(ds[0], ds[1] & 0x30, 0, 0);
      MaskedIffClear(ds[1]);
      assert ds == [ds[0], ds[1]] && GroupSextets(GroupBytes(ds)) == [ds[0], ds[1] & 0x30];
    } else if |ds| == 3 {
      JoinThroughTwoBytes(ds[0], ds[1], ds[2]);
      SextetsOfJoin(ds[0], ds[1], ds[2] & 0x3C, 0);
      MaskedIffClear(ds[2]);
      assert ds == [ds[0], ds[1], ds[2]] && GroupSextets(GroupBytes(ds)) == [ds[0], ds[1], ds[2] & 0x3C];
    } else {
      SextetsOfJoin(ds[0], ds[1], ds[2], ds[3]);
    }
  }

  // ----- Whole texts -----

  ghost predicate AllSymbols(v: Variant, s: string) {
    forall i :: 0 <= i < |s| ==> IsSymbol(v, s[i])
  }

  function Pads(n: nat): (r: string)
    ensures |r| == n && forall i :: 0 <= i < n ==> r[i] == '='
  {
    seq(n, i => '=')
  }

  /** How many of the first `max` characters are symbols, up to the first that is not. */
  function LeadingSymbols(v: Variant, s: string, max: nat): (n: nat)
    ensures n <= max && n <= |s| && AllSymbols(v, s[..n])
    ensures n < max && n < |s| ==> !IsSymbol(v, s[n])
  {
    if max == 0 || s == "" || !IsSymbol(v, s[0]) then 0
    else
      var n := LeadingSymbols(v, s[1..], max - 1);
      assert forall i :: 0 < i <= n ==> s[i] == s[1..][i - 1];
      n + 1
  }

  function Values(v: Variant, s: string): (r: seq<Sextet>)
    requires AllSymbols(v, s)
    ensures |r| == |s|
  {
    seq(|s|, i requires 0 <= i < |s| => Value(v, s[i]).value)
  }

  function Symbols(v: Variant, ds: seq<Sextet>): (r: string)
    ensures |r| == |ds|
  {
    seq(|ds|, i requires 0 <= i < |ds| => Symbol(v, ds[i]))
  }

  /** DecodeString: group after group, with the library's four ways to end. */
  function Decode(v: Variant, s: string): Option<seq<Byte>>
    decreases |s|
  {
    var n := LeadingSymbols(v, s, 4);
    if n == 4 then
      match Decode(v, s[4..])
      case Some(rest) => Some(GroupBytes(Values(v, s[..4])) + rest)
      case None => None
    else if n == |s| then
      if n == 0 then Some([])
      else if n == 1 || v.padded then None
      else Some(GroupBytes(Values(v, s)))
    else if !v.padded || s[n] != '=' || n < 2 then None
    else if |s| == 4 && s[3] == '=' then Some(GroupBytes(Values(v, s[..n])))
    else None
  }

  /** EncodeToString. */
  function Encode(v: Variant, bs: seq<Byte>): string
    decreases |bs|
  {
    if bs == [] then ""
    else if |bs| < 3 then Symbols(v, GroupSextets(bs)) + Pads(if v.padded then 3 - |bs| else 0)
    else Symbols(v, GroupSextets(bs[..3])) + Encode(v, bs[3..])
  }

  // ----- What decoding means -----

  /** The sextets cut into groups of four, each turned into bytes. */
  function Regroup(ds: seq<Sextet>): (r: seq<Byte>)
    requires |ds| % 4 != 1
    decreases |ds|
  {
    if ds == [] then []
    else if |ds| < 4 then GroupBytes(ds)
    else GroupBytes(ds[..4]) + Regroup(ds[4..])
  }

  function Ungroup(bs: seq<Byte>): (r: seq<Sextet>)
    ensures |r| % 4 != 1
    decreases |bs|
  {
    if bs == [] then []
    else if |bs| < 3 then GroupSextets(bs)
    else GroupSextets(bs[..3]) + Ungroup(bs[3..])
  }

  lemma {:induction false} RegroupLength(ds: seq<Sextet>)
    requires |ds| % 4 != 1
    ensures |Regroup(ds)| == 6 * |ds| / 8
    decreases |ds|
  {
    if |ds| >= 4 { RegroupLength(ds[4..]); }
  }

  function BodyLength(s: string): (n: nat)
    ensures n <= |s| && (forall i :: 0 <= i < n ==> s[i] != '=') && (n < |s| ==> s[n] == '=')
  {
    if s == "" || s[0] == '=' then 0 else
      var n := BodyLength(s[1..]);
      assert forall i :: 0 < i <= n ==> s[i] == s[1..][i - 1];
      n + 1
  }

  function Padding(v: Variant, n: nat): nat {
    if v.padded then (4 - n % 4) % 4 else 0
  }

  /** RFC 4648: symbols of one alphabet, never one too many for a byte, then exactly the padding due. */
  ghost predicate WellFormed(v: Variant, s: string) {
    var n := BodyLength(s);
    WellFormedParts(v, s[..n], s[n..])
  }

  ghost predicate WellFormedParts(v: Variant, body: string, pad: string) {
    AllSymbols(v, body) && |body| % 4 != 1 && pad == Pads(Padding(v, |body|))
  }

  lemma SymbolIsNoPad(v: Variant)
    ensures !IsSymbol(v, '=')
  {
  }

  lemma BodyOfGroupPrefix(v: Variant, s: string)
    requires |s| >= 4 && AllSymbols(v, s[..4])
    ensures BodyLength(s) == 4 + BodyLength(s[4..])
  {
    SymbolIsNoPad(v);
    forall i | 0 <= i < 4 ensures s[i] != '=' {
      assert s[..4][i] == s[i];
    }
    assert s[1..][1..][1..][1..] == s[4..];
  }

  lemma BodyIs(s: string, n: nat)
    requires n <= |s| && (forall i :: 0 <= i < n ==> s[i] != '=') && (n < |s| ==> s[n] == '=')
    ensures BodyLength(s) == n
  {
  }

  /** A leading full group changes neither well-formedness nor the meaning of the rest. */
  lemma WellFormedAfterGroup(v: Variant, s: string)
    requires |s| >= 4 && AllSymbols(v, s[..4])
    ensures WellFormed(v, s) <==> WellFormed(v, s[4..])
    ensures
      WellFormed(v, s) ==>
        var t := s[4..];
        Regroup(Values(v, s[..BodyLength(s)])) == GroupBytes(Values(v, s[..4])) + Regroup(Values(v, t[..BodyLength(t)]))
  {
    hide GroupBytes, Value, Decode, Regroup, Pads, Padding, IsSymbol, LeadingSymbols;
    var t, m := s[4..], BodyLength(s);
    BodyOfGroupPrefix(v, s);
    assert s[m..] == t[m - 4..];
    assert s[..m] == s[..4] + t[..m - 4];
    PartsAfterGroup(v, s[..4], t[..m - 4], s[m..]);
  }

  lemma PartsAfterGroup(v: Variant, group: string, body: string, pad: string)
    requires |group| == 4 && AllSymbols(v, group)
    ensures WellFormedParts(v, group + body, pad) <==> WellFormedParts(v, body, pad)
    ensures WellFormedParts(v, body, pad) ==>
              Regroup(Values(v, group + body)) == GroupBytes(Values(v, group)) + Regroup(Values(v, body))
  {
    hide GroupBytes, Value;
    SymbolsOfConcat(v, group, body);
    PaddingAfterGroup(v, |body|);
    if WellFormedParts(v, body, pad) {
      var ds := Values(v, group + body);
      assert ds[..4] == Values(v, group) && ds[4..] == Values(v, body);
    }
  }

  lemma PaddingAfterGroup(v: Variant, n: nat)
    ensures Padding(v, 4 + n) == Padding(v, n)
  {
  }

  lemma SymbolsOfConcat(v: Variant, a: string, b: string)
    ensures AllSymbols(v, a + b) <==> AllSymbols(v, a) && AllSymbols(v, b)
  {
    assert forall i :: 0 <= i < |a| ==> a[i] == (a + b)[i];
    assert forall i :: 0 <= i < |b| ==> b[i] == (a + b)[|a| + i];
  }

  /** The group at which decoding ends. */
  lemma WellFormedLastGroup(v: Variant, s: string)
    requires LeadingSymbols(v, s, 4) < 4
    ensures Decode(v, s).Some? <==> WellFormed(v, s)
    ensures WellFormed(v, s) ==> Decode(v, s) == Some(Regroup(Values(v, s[..BodyLength(s)])))
  {
    hide GroupBytes, Value;
    var n, m := LeadingSymbols(v, s, 4), BodyLength(s);
    SymbolIsNoPad(v);
    assert forall i :: 0 <= i < n ==> s[i] == s[..n][i];
    if n < |s| && s[n] != '=' {
      assert forall i :: 0 <= i <= n ==> s[i] != '=';
      assert s[..m][n] == s[n];
    } else {
      BodyIs(s, n);
      LastPadding(v, s, n);
      assert n == |s| ==> s[..n] == s;
    }
  }

  lemma LastPadding(v: Variant, s: string, n: nat)
    requires n < 4 && n <= |s| && (n < |s| ==> s[n] == '=')
    ensures
      s[n..] == Pads(Padding(v, n)) && n != 1 <==>
      if n == |s| then n == 0 || (n != 1 && !v.padded) else v.padded && 2 <= n && |s| == 4 && s[3] == '='
  {
    if s[n..] == Pads(Padding(v, n)) {
      assert |s| == n + Padding(v, n);
      if |s| == 4 && n < 4 { assert s[3] == s[n..][3 - n]; }
    }
  }

  /** Decoding accepts exactly the well-formed texts, and then regroups the values of their symbols. */
  lemma {:induction false} DecodeIffWellFormed(v: Variant, s: string)
    ensures Decode(v, s).Some? <==> WellFormed(v, s)
    ensures WellFormed(v, s) ==> Decode(v, s) == Some(Regroup(Values(v, s[..BodyLength(s)])))
    decreases |s|
  {
    if LeadingSymbols(v, s, 4) == 4 {
      DecodeIffWellFormed(v, s[4..]);
      WellFormedAfterGroup(v, s);
    } else {
      WellFormedLastGroup(v, s);
    }
  }

  /** Two variants that both accept a text read the same bytes from it. */
  lemma VariantsAgree(v: Variant, w: Variant, s: string)
    requires Decode(v, s).Some? && Decode(w, s).Some?
    ensures Decode(v, s) == Decode(w, s)
  {
    hide Decode, Regroup;
    DecodeIffWellFormed(v, s);
    DecodeIffWellFormed(w, s);
    var body := s[..BodyLength(s)];
    assert Values(v, body) == Values(w, body);
  }

  // ----- The bits -----

  /** Bit `i` of a byte, most significant first. */
  predicate ByteBit(b: Byte, i: nat)
    requires i < 8
  {
    if i == 0 then b & 0x80 != 0 else if i == 1 then b & 0x40 != 0
    else if i == 2 then b & 0x20 != 0 else if i == 3 then b & 0x10 != 0
    else if i == 4 then b & 0x08 != 0 else if i == 5 then b & 0x04 != 0
    else if i == 6 then b & 0x02 != 0 else b & 0x01 != 0
  }

  predicate SextetBit(d: Sextet, i: nat)
    requires i < 6
  {
    if i == 0 then d & 0x20 != 0 else if i == 1 then d & 0x10 != 0
    else if i == 2 then d & 0x08 != 0 else if i == 3 then d & 0x04 != 0
    else if i == 4 then d & 0x02 != 0 else d & 0x01 != 0
  }

  /** Bit `k` of the bit string that the bytes spell. */
  predicate BitOfBytes(bs: seq<Byte>, k: nat)
    requires k < 8 * |bs|
  {
    ByteBit(bs[k / 8], k % 8)
  }

  predicate BitOfSextets(ds: seq<Sextet>, k: nat)
    requires k < 6 * |ds|
  {
    SextetBit(ds[k / 6], k % 6)
  }

  /** Each byte of a group holds eight consecutive bits of the sextets. */
  lemma FirstByteBits(d0: Sextet, d1: Sextet, d2: Sextet, d3: Sextet, i: nat)
    requires i < 8
    ensures ByteBit(Bytes3(Join4(d0, d1, d2, d3))[0], i) == if i < 6 then SextetBit(d0, i) else SextetBit(d1, i - 6)
  {
  }

  lemma SecondByteBits(d0: Sextet, d1: Sextet, d2: Sextet, d3: Sextet, i: nat)
    requires i < 8
    ensures ByteBit(Bytes3(Join4(d0, d1, d2, d3))[1], i) == if i < 4 then SextetBit(d1, i + 2) else SextetBit(d2, i - 4)
  {
  }

  lemma ThirdByteBits(d0: Sextet, d1: Sextet, d2: Sextet, d3: Sextet, i: nat)
    requires i < 8
    ensures ByteBit(Bytes3(Join4(d0, d1, d2, d3))[2], i) == if i < 2 then SextetBit(d2, i + 4) else SextetBit(d3, i - 2)
  {
  }

  lemma GroupBits(ds: seq<Sextet>, k: nat)
    requires 2 <= |ds| <= 4 && k < 8 * (|ds| - 1)
    ensures BitOfBytes(GroupBytes(ds), k) == BitOfSextets(ds, k)
  {
    hide ByteBit, SextetBit, Bytes3, Join4;
    var d2, d3 := if |ds| > 2 then ds[2] else 0, if |ds| > 3 then ds[3] else 0;
    if k < 8 { FirstByteBits(ds[0], ds[1], d2, d3, k); }
    else if k < 16 { SecondByteBits(ds[0], ds[1], d2, d3, k - 8); }
    else { ThirdByteBits(ds[0], ds[1], d2, d3, k - 16); }
  }

  /** The decoded bytes are the bits of the symbols in order, cut after the last whole byte. */
  lemma {:induction false} RegroupKeepsBits(ds: seq<Sextet>, k: nat)
    requires |ds| % 4 != 1 && k < 8 * |Regroup(ds)|
    ensures |Regroup(ds)| == 6 * |ds| / 8
    ensures BitOfBytes(Regroup(ds), k) == BitOfSextets(ds, k)
    decreases |ds|
  {
    hide GroupBytes, BitOfBytes, BitOfSextets;
    RegroupLength(ds);
    if |ds| < 4 {
      GroupBits(ds, k);
    } else {
      SameRemainder(|ds|);
      RegroupFirst(ds);
      assert ds == ds[..4] + ds[4..];
      BitsBehindGroup(GroupBytes(ds[..4]), Regroup(ds[4..]), ds[..4], ds[4..], k);
      if k < 24 { GroupBits(ds[..4], k); } else { RegroupKeepsBits(ds[4..], k - 24); }
    }
  }

  /** Three bytes and four sextets are 24 bits each. */
  lemma BitsBehindGroup(group: seq<Byte>, rest: seq<Byte>, ds: seq<Sextet>, more: seq<Sextet>, k: nat)
    requires |group| == 3 && |ds| == 4 && k < 8 * |group + rest| && 8 * |rest| <= 6 * |more|
    ensures BitOfBytes(group + rest, k) == if k < 24 then BitOfBytes(group, k) else BitOfBytes(rest, k - 24)
    ensures BitOfSextets(ds + more, k) == if k < 24 then BitOfSextets(ds, k) else BitOfSextets(more, k - 24)
  {
    hide ByteBit, SextetBit;
    assert k >= 24 ==> (k - 24) / 8 == k / 8 - 3 && (k - 24) % 8 == k % 8;
    assert k >= 24 ==> (k - 24) / 6 == k / 6 - 4 && (k - 24) % 6 == k % 6;
  }

  // ----- Round trips -----

  lemma {:induction false} RegroupUngroup(bs: seq<Byte>)
    ensures Regroup(Ungroup(bs)) == bs
    decreases |bs|
  {
    if bs != [] {
      if |bs| < 3 { GroupRoundTrip(bs); } else {
        GroupRoundTrip(bs[..3]);
        RegroupUngroup(bs[3..]);
        assert Ungroup(bs)[..4] == GroupSextets(bs[..3]) && Ungroup(bs)[4..] == Ungroup(bs[3..]);
      }
    }
  }

  /** The bits of the symbols that no byte uses are zero. */
  predicate Canonical(ds: seq<Sextet>)
    requires |ds| % 4 != 1
  {
    |ds| % 4 == 0 || CanonicalGroup(ds[|ds| - |ds| % 4..])
  }

  lemma SamePrefix<T>(p: seq<T>, a: seq<T>, b: seq<T>)
    ensures p + a == p + b <==> a == b
  {
    assert (p + a)[|p|..] == a && (p + b)[|p|..] == b;
  }

  lemma {:induction false} UngroupRegroup(ds: seq<Sextet>)
    requires |ds| % 4 != 1
    ensures |Ungroup(Regroup(ds))| == |ds|
    ensures Ungroup(Regroup(ds)) == ds <==> Canonical(ds)
    decreases |ds|
  {
    hide GroupBytes, GroupSextets, CanonicalGroup;
    if |ds| >= 4 {
      GroupRoundTripBack(ds[..4]);
      UngroupRegroup(ds[4..]);
      FullGroupFirst(ds);
      SamePrefix(ds[..4], Ungroup(Regroup(ds[4..])), ds[4..]);
      assert ds == ds[..4] + ds[4..];
    } else if ds != [] {
      GroupRoundTripBack(ds);
      WholeAsGroup(ds);
    }
  }

  lemma FullGroupFirst(ds: seq<Sextet>)
    requires |ds| % 4 != 1 && |ds| >= 4
    ensures CanonicalGroup(ds[..4]) && (Canonical(ds) <==> Canonical(ds[4..]))
    ensures Ungroup(Regroup(ds)) == GroupSextets(GroupBytes(ds[..4])) + Ungroup(Regroup(ds[4..]))
  {
    hide Regroup, Ungroup, GroupBytes, GroupSextets, CanonicalGroup, Canonical;
    FullIsCanonical(ds[..4]);
    SameRemainder(|ds|);
    LastGroupStays(ds);
    RegroupFirst(ds);
    UngroupFirst(GroupBytes(ds[..4]), Regroup(ds[4..]));
  }

  lemma SameRemainder(n: nat)
    requires n >= 4
    ensures (n - 4) % 4 == n % 4
  {
  }

  lemma FullIsCanonical(group: seq<Sextet>)
    requires |group| == 4
    ensures CanonicalGroup(group)
  {
  }

  lemma LastGroupStays(ds: seq<Sextet>)
    requires |ds| % 4 != 1 && |ds| >= 4
    ensures Canonical(ds) <==> Canonical(ds[4..])
  {
    hide CanonicalGroup;
    var part := |ds| % 4;
    SameRemainder(|ds|);
    if part != 0 {
      assert ds[|ds| - part..] == ds[4..][|ds[4..]| - part..];
    }
  }

  lemma RegroupFirst(ds: seq<Sextet>)
    requires |ds| % 4 != 1 && |ds| >= 4
    ensures Regroup(ds) == GroupBytes(ds[..4]) + Regroup(ds[4..])
  {
    hide GroupBytes;
  }

  lemma UngroupFirst(group: seq<Byte>, rest: seq<Byte>)
    requires |group| == 3
    ensures Ungroup(group + rest) == GroupSextets(group) + Ungroup(rest)
  {
    hide GroupSextets;
    assert (group + rest)[..3] == group && (group + rest)[3..] == rest;
  }

  lemma WholeAsGroup(ds: seq<Sextet>)
    requires 2 <= |ds| < 4
    ensures Canonical(ds) <==> CanonicalGroup(ds)
    ensures Ungroup(Regroup(ds)) == GroupSextets(GroupBytes(ds))
  {
    hide GroupBytes, GroupSextets, CanonicalGroup, Ungroup;
    assert |ds| % 4 == |ds| && ds[0..] == ds;
    OneGroup(GroupBytes(ds));
  }

  lemma OneGroup(group: seq<Byte>)
    requires 1 <= |group| < 3
    ensures Ungroup(group) == GroupSextets(group)
  {
    hide GroupSextets;
  }

  lemma SymbolsConcat(v: Variant, a: seq<Sextet>, b: seq<Sextet>)
    ensures Symbols(v, a + b) == Symbols(v, a) + Symbols(v, b)
  {
  }

  lemma {:induction false} EncodeForm(v: Variant, bs: seq<Byte>)
    ensures Encode(v, bs) == Symbols(v, Ungroup(bs)) + Pads(Padding(v, |Ungroup(bs)|))
    decreases |bs|
  {
    hide GroupSextets, Symbol;
    if |bs| >= 3 {
      EncodeForm(v, bs[3..]);
      var group, rest := GroupSextets(bs[..3]), Ungroup(bs[3..]);
      SymbolsConcat(v, group, rest);
      PaddingAfterGroup(v, |rest|);
    } else if bs != [] {
      assert Padding(v, |bs| + 1) == if v.padded then 3 - |bs| else 0;
    }
  }

  lemma ValuesOfSymbols(v: Variant, ds: seq<Sextet>)
    ensures AllSymbols(v, Symbols(v, ds)) && Values(v, Symbols(v, ds)) == ds
  {
    forall i | 0 <= i < |ds| ensures Value(v, Symbols(v, ds)[i]) == Some(ds[i]) { ValueOfSymbol(v, ds[i]); }
  }

  /** Every variant's encoding decodes, under that variant, to the bytes it came from. */
  lemma EncodeDecode(v: Variant, bs: seq<Byte>)
    ensures Decode(v, Encode(v, bs)) == Some(bs)
  {
    var ds, s := Ungroup(bs), Encode(v, bs);
    EncodeForm(v, bs);
    ValuesOfSymbols(v, ds);
    SymbolIsNoPad(v);
    forall i | 0 <= i < |ds| ensures s[i] != '=' {
      assert IsSymbol(v, Symbols(v, ds)[i]);
    }
    BodyIs(s, |ds|);
    assert s[..|ds|] == Symbols(v, ds) && s[|ds|..] == Pads(Padding(v, |ds|));
    DecodeIffWellFormed(v, s);
    RegroupUngroup(bs);
  }

  /** The other direction holds exactly for the canonical texts: the decoder ignores the trailing bits. */
  lemma DecodeEncodeIffCanonical(v: Variant, s: string)
    requires Decode(v, s).Some?
    ensures WellFormed(v, s)
    ensures Encode(v, Decode(v, s).value) == s <==> Canonical(Values(v, s[..BodyLength(s)]))
  {
    hide Decode, Encode, Regroup, Ungroup, Value, Symbol, CanonicalGroup;
    DecodeIffWellFormed(v, s);
    var n := BodyLength(s);
    var ds := Values(v, s[..n]);
    var again := Ungroup(Regroup(ds));
    EncodeForm(v, Regroup(ds));
    UngroupRegroup(ds);
    assert Symbols(v, ds) == s[..n] by {
      forall i | 0 <= i < n ensures Symbols(v, ds)[i] == s[..n][i] { SymbolOfValue(v, s[..n][i]); }
    }
    assert s == s[..n] + s[n..];
    if Encode(v, Regroup(ds)) == s {
      assert |again| == |ds|;
      assert Symbols(v, again) == s[..n];
      ValuesOfSymbols(v, again);
    }
  }

  /** There are accepted texts that are not canonical: the last four bits of "AB" are not zero and not read. */
  lemma NoncanonicalAccepted()
    ensures Decode(RAW_STD, "AB") == Decode(RAW_STD, "AA") == Some([0])
    ensures Encode(RAW_STD, [0]) == "AA" && !Canonical(Values(RAW_STD, "AB"))
  {
    hide GroupBytes, GroupSextets;
    OneByteTexts();
    var ab, aa := "AB", "AA";
    assert ab[1..][1..] == "" && aa[1..][1..] == "";
    assert LeadingSymbols(RAW_STD, ab, 4) == 2 && LeadingSymbols(RAW_STD, aa, 4) == 2;
    assert Values(RAW_STD, ab) == [0, 1] && Values(RAW_STD, aa) == [0, 0];
    assert Symbols(RAW_STD, [0, 0]) == "AA";
  }

  lemma OneByteTexts()
    ensures GroupBytes([0, 1]) == [0] && GroupBytes([0, 0]) == [0] && GroupSextets([0]) == [0, 0]
  {
  }
}
