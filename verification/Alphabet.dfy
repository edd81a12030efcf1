/** The alphabets and worked examples of RFC 4648, written out, against the arithmetic of `Base64`. */
module Alphabet {
  import opened Base64
  import opened Keys
  import opened Wrappers

  /** Table 1 of RFC 4648, section 4. */
  const STANDARD_TABLE := "ABCDEFGHIJKLMNOPQRSTUVWXYZ" + "abcdefghijklmnopqrstuvwxyz" + "0123456789" + "+/"

  /** Table 2 of RFC 4648, section 5. */
  const URL_TABLE := "ABCDEFGHIJKLMNOPQRSTUVWXYZ" + "abcdefghijklmnopqrstuvwxyz" + "0123456789" + "-_"

  function Table(v: Variant): (t: string)
    ensures |t| == 64
  {
    if v.url then URL_TABLE else STANDARD_TABLE
  }

  lemma SymbolIsInTable(v: Variant, d: Sextet)
    ensures Symbol(v, d) == Table(v)[d as int]
  {
  }

  /** A character has the value of its one place in the table, and none outside it. */
  lemma ValueIsPlaceInTable(v: Variant, c: char)
    ensures forall d: int :: 0 <= d < 64 ==> (Table(v)[d] == c <==> Value(v, c) == Some(d as Sextet))
    ensures Value(v, c) == None <==> c !in Table(v)
  {
    hide Symbol, Value, Table;
    forall d: int | 0 <= d < 64 ensures Table(v)[d] == c <==> Value(v, c) == Some(d as Sextet) {
      SextetOfInt(d);
      SymbolIsInTable(v, d as Sextet);
      ValueOfSymbol(v, d as Sextet);
      if Value(v, c).Some? { SymbolOfValue(v, c); }
    }
    if Value(v, c).Some? {
      SymbolOfValue(v, c);
      SymbolIsInTable(v, Value(v, c).value);
    }
  }

  // ----- The examples of RFC 4648, section 10 -----

  lemma OneByteExample()
    ensures Encode(STD, [0x66]) == "Zg==" && Encode(RAW_URL, [0x66]) == "Zg"
  {
    assert GroupSextets([0x66]) == [25, 32];
    assert Symbols(STD, [25, 32]) == "Zg" && Symbols(RAW_URL, [25, 32]) == "Zg";
    assert Pads(2) == "==" && Pads(0) == "";
  }

  lemma TwoBytesExample()
    ensures Encode(STD, [0x66, 0x6F]) == "Zm8=" && Encode(RAW_URL, [0x66, 0x6F]) == "Zm8"
  {
    assert GroupSextets([0x66, 0x6F]) == [25, 38, 60];
    assert Symbols(STD, [25, 38, 60]) == "Zm8" && Symbols(RAW_URL, [25, 38, 60]) == "Zm8";
    assert Pads(1) == "=" && Pads(0) == "";
  }

  lemma ThreeBytesExample()
    ensures Encode(STD, [0x66, 0x6F, 0x6F]) == "Zm9v"
  {
    var foo: seq<Byte> := [0x66, 0x6F, 0x6F];
    assert foo[..3] == foo && foo[3..] == [];
    assert GroupSextets(foo) == [25, 38, 61, 47];
    assert Symbols(STD, [25, 38, 61, 47]) == "Zm9v";
  }

  /** A key with the last two symbols of each alphabet: the same bytes under both, and not others. */
  lemma LastSymbolsExample()
    ensures KeyBytes("++++") == Some([0xFB, 0xEF, 0xBE]) && KeyBytes("----") == Some([0xFB, 0xEF, 0xBE])
    ensures KeyBytes("////") == Some([0xFF, 0xFF, 0xFF]) && KeyBytes("____") == Some([0xFF, 0xFF, 0xFF])
  {
    hide GroupSextets, Symbols, KeyBytes;
    LastGroups();
    LastSymbols();
    EncodesTo(RAW_STD, [0xFB, 0xEF, 0xBE], [62, 62, 62, 62], "++++");
    EncodesTo(RAW_URL, [0xFB, 0xEF, 0xBE], [62, 62, 62, 62], "----");
    EncodesTo(RAW_STD, [0xFF, 0xFF, 0xFF], [63, 63, 63, 63], "////");
    EncodesTo(RAW_URL, [0xFF, 0xFF, 0xFF], [63, 63, 63, 63], "____");
  }

  lemma LastGroups()
    ensures GroupSextets([0xFB, 0xEF, 0xBE]) == [62, 62, 62, 62] && GroupSextets([0xFF, 0xFF, 0xFF]) == [63, 63, 63, 63]
  {
  }

  lemma LastSymbols()
    ensures Symbols(RAW_STD, [62, 62, 62, 62]) == "++++" && Symbols(RAW_URL, [62, 62, 62, 62]) == "----"
    ensures Symbols(RAW_STD, [63, 63, 63, 63]) == "////" && Symbols(RAW_URL, [63, 63, 63, 63]) == "____"
  {
  }

  /** A text of four symbols without white space is the key it spells. */
  lemma EncodesTo(v: Variant, bs: seq<Byte>, ds: seq<Sextet>, s: string)
    requires |bs| == 3 && GroupSextets(bs) == ds && Symbols(v, ds) == s
    ensures KeyBytes(s) == Some(bs)
  {
    hide GroupSextets, Symbols;
    assert bs[..3] == bs && bs[3..] == [];
    assert Encode(v, bs) == s + "";
    SymbolsAreNotSpace(v, bs);
    NothingToDrop(s);
    KeyRoundTrip(v, bs, s);
  }
}
