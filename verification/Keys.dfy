/**
 * Key texts: decodeKey of the configuration and decodeKLESSKey of the user sync (the same algorithm in
 * two files), and encodeClientSecret.
 */
module Keys {
  import opened Base64
  import opened Text
  import opened Wrappers

  /** The encodings in the order they are tried. */
  const ENCODINGS := [RAW_STD, STD, RAW_URL, URL]

  predicate IsDropped(c: char) {
    c == ' ' || c == '\t' || c == '\n' || c == '\r'
  }

  /** strings.Map with the dropping function. */
  function Compact(s: string): (r: string)
    ensures |r| <= |s| && (forall c <- r :: c in s && !IsDropped(c))
  {
    if s == "" then "" else (if IsDropped(s[0]) then "" else [s[0]]) + Compact(s[1..])
  }

  /** The text that reaches the decoders. */
  function KeyText(text: string): string {
    Compact(TrimSpace(text))
  }

  function FirstAccepted(order: seq<Variant>, s: string): Option<seq<Byte>> {
    if order == [] then None
    else if Decode(order[0], s).Some? then Decode(order[0], s)
    else FirstAccepted(order[1..], s)
  }

  function KeyBytes(text: string): Option<seq<Byte>> {
    FirstAccepted(ENCODINGS, KeyText(text))
  }

  /** A decoding error carries the variant that reported it. */
  datatype CorruptInput = CorruptInput(variant: Variant)

  method DecodeKey(text: string) returns (r: Result<seq<Byte>, CorruptInput>)
    ensures r == if KeyBytes(text).Some? then Ok(KeyBytes(text).value) else Err(CorruptInput(RAW_STD))
  {
    var compact := KeyText(text);
    var firstErr: Option<CorruptInput> := None;
    var i := 0;
    while i < |ENCODINGS|
      invariant 0 <= i <= |ENCODINGS|
      invariant FirstAccepted(ENCODINGS, compact) == FirstAccepted(ENCODINGS[i..], compact)
      invariant firstErr == if i == 0 then None else Some(CorruptInput(RAW_STD))
    {
      var out := Decode(ENCODINGS[i], compact);
      if out.Some? {
        return Ok(out.value);
      }
      if firstErr.None? {
        firstErr := Some(CorruptInput(ENCODINGS[i]));
      }
      assert ENCODINGS[i..][1..] == ENCODINGS[i + 1..];
      i := i + 1;
    }
    return Err(firstErr.value);
  }

  /** encodeClientSecret. */
  function EncodeClientSecret(secret: seq<Byte>): string {
    Encode(RAW_URL, secret)
  }

  // ----- The fallback order does not matter -----

  /** Trying variants in turn yields the union of the partial decoders. */
  lemma {:induction false} FirstAcceptedIsUnion(order: seq<Variant>, s: string, b: seq<Byte>)
    ensures FirstAccepted(order, s) == Some(b) <==> exists v :: v in order && Decode(v, s) == Some(b)
  {
    if order != [] {
      FirstAcceptedIsUnion(order[1..], s, b);
      if Decode(order[0], s).Some? {
        forall v | v in order && Decode(v, s) == Some(b) ensures FirstAccepted(order, s) == Some(b) {
          VariantsAgree(order[0], v, s);
        }
        assert order[0] in order;
      } else {
        forall v | v in order && Decode(v, s) == Some(b) ensures v in order[1..] {}
      }
    }
  }

  lemma OrderIrrelevant(order: seq<Variant>, other: seq<Variant>, s: string)
    requires forall v :: v in order <==> v in other
    ensures FirstAccepted(order, s) == FirstAccepted(other, s)
  {
    var a, b := FirstAccepted(order, s), FirstAccepted(other, s);
    if a.Some? {
      FirstAcceptedIsUnion(order, s, a.value);
      FirstAcceptedIsUnion(other, s, a.value);
    }
    if b.Some? {
      FirstAcceptedIsUnion(order, s, b.value);
      FirstAcceptedIsUnion(other, s, b.value);
    }
  }

  lemma AllVariantsTried(v: Variant)
    ensures v in ENCODINGS
  {
    match v {
      case Variant(url, padded) =>
        assert v == if url then (if padded then ENCODINGS[3] else ENCODINGS[2]) else (if padded then ENCODINGS[1] else ENCODINGS[0]);
    }
  }

  /** A text is a key exactly when it is well formed in one of the variants. */
  lemma KeyAcceptedIff(text: string)
    ensures KeyBytes(text).Some? <==> exists v :: WellFormed(v, KeyText(text))
  {
    var s := KeyText(text);
    if KeyBytes(text).Some? {
      FirstAcceptedIsUnion(ENCODINGS, s, KeyBytes(text).value);
      var v :| v in ENCODINGS && Decode(v, s) == KeyBytes(text);
      DecodeIffWellFormed(v, s);
    }
    forall v | WellFormed(v, s) ensures KeyBytes(text).Some? {
      DecodeIffWellFormed(v, s);
      AllVariantsTried(v);
      FirstAcceptedIsUnion(ENCODINGS, s, Decode(v, s).value);
    }
  }

  // ----- Round trip under inserted white space -----

  lemma {:induction false} CompactConcat(a: string, b: string)
    ensures Compact(a + b) == Compact(a) + Compact(b)
  {
    hide IsDropped;
    if a == "" { assert a + b == b; } else {
      assert (a + b)[1..] == a[1..] + b;
      CompactConcat(a[1..], b);
    }
  }

  /** Trimming Unicode space first loses nothing when all the space in the text is of the dropped kind. */
  lemma TrimThenCompact(text: string)
    requires forall c <- Compact(text) :: !IsSpace(c)
    ensures KeyText(text) == Compact(text)
  {
    var pre, post := TrimSpaceSplits(text);
    var mid := TrimSpace(text);
    CompactConcat(pre + mid, post);
    CompactConcat(pre, mid);
    assert Compact(text) == Compact(pre) + Compact(mid) + Compact(post);
    OnlyDropped(pre);
    OnlyDropped(post);
  }

  lemma OnlyDropped(s: string)
    requires AllSpace(s) && (forall c <- Compact(s) :: !IsSpace(c))
    ensures Compact(s) == ""
  {
    if Compact(s) != "" {
      assert Compact(s)[0] in Compact(s);
    }
  }

  lemma SymbolsAreNotSpace(v: Variant, bs: seq<Byte>)
    ensures forall c <- Encode(v, bs) :: !IsSpace(c)
  {
    EncodeForm(v, bs);
    var ds := Ungroup(bs);
    ValuesOfSymbols(v, ds);
    forall i | 0 <= i < |ds| ensures !IsSpace(Symbols(v, ds)[i]) {
      assert IsSymbol(v, Symbols(v, ds)[i]);
    }
  }

  /**
   * Any byte string, encoded under any variant and with spaces, tabs, CR or LF inserted anywhere,
   * decodes to itself.
   */
  lemma KeyRoundTrip(v: Variant, bs: seq<Byte>, text: string)
    requires Compact(text) == Encode(v, bs)
    ensures KeyBytes(text) == Some(bs)
  {
    SymbolsAreNotSpace(v, bs);
    TrimThenCompact(text);
    EncodeDecode(v, bs);
    AllVariantsTried(v);
    FirstAcceptedIsUnion(ENCODINGS, KeyText(text), bs);
  }

  // ----- White space anywhere -----

  function Inserted(text: string, k: nat, c: char): string
    requires k <= |text|
  {
    text[..k] + [c] + text[k..]
  }

  lemma CompactInserted(text: string, k: nat, c: char)
    requires k <= |text| && IsDropped(c)
    ensures Compact(Inserted(text, k, c)) == Compact(text)
  {
    hide Compact, IsDropped;
    CompactOne(c);
    assert text == text[..k] + text[k..];
    CompactConcat(text[..k], text[k..]);
    CompactConcat(text[..k] + [c], text[k..]);
    CompactConcat(text[..k], [c]);
    assert Compact(text[..k]) + "" == Compact(text[..k]);
  }

  lemma CompactOne(c: char)
    requires IsDropped(c)
    ensures Compact([c]) == ""
  {
    assert [c][1..] == "";
  }

  /** A space, tab, LF or CR at any position of any text, accepted or not, changes nothing of what the text means as a key. */
  lemma WhiteSpaceAnywhere(text: string, k: nat, c: char)
    requires k <= |text| && c in [' ', '\t', '\n', '\r']
    ensures KeyBytes(Inserted(text, k, c)) == KeyBytes(text)
  {
    hide IsSpace, TrimSpace, FirstAccepted, Compact, Inserted, Trimmed, AllSpace, IsDropped;
    var pre, post := TrimSpaceSplits(text);
    var mid := TrimSpace(text);
    DroppedIsSpace(c);
    InsertedAround(pre, mid, post, k, c);
    if |pre| < k < |pre| + |mid| { CompactInserted(mid, k - |pre|, c); }
  }

  /** White space put into a text ends up around its trimmed core or inside it. */
  lemma InsertedAround(pre: string, mid: string, post: string, k: nat, c: char)
    requires AllSpace(pre) && AllSpace(post) && Trimmed(mid) && IsSpace(c) && k <= |pre + mid + post|
    ensures TrimSpace(Inserted(pre + mid + post, k, c)) == if |pre| < k < |pre| + |mid| then Inserted(mid, k - |pre|, c) else mid
  {
    hide IsSpace, TrimSpace;
    if k <= |pre| {
      assert Inserted(pre + mid + post, k, c) == Inserted(pre, k, c) + mid + post;
      TrimSpaceIs(Inserted(pre, k, c), mid, post);
    } else if k >= |pre| + |mid| {
      var j := k - |pre| - |mid|;
      assert Inserted(pre + mid + post, k, c) == pre + mid + Inserted(post, j, c);
      TrimSpaceIs(pre, mid, Inserted(post, j, c));
    } else {
      var j := k - |pre|;
      assert Inserted(pre + mid + post, k, c) == pre + Inserted(mid, j, c) + post;
      assert Inserted(mid, j, c)[0] == mid[0] && Inserted(mid, j, c)[|mid|] == mid[|mid| - 1];
      TrimSpaceIs(pre, Inserted(mid, j, c), post);
    }
  }

  lemma DroppedIsSpace(c: char)
    ensures IsDropped(c) <==> c in [' ', '\t', '\n', '\r']
    ensures IsDropped(c) ==> IsSpace(c)
  {
  }

  /** One insertion after another, each at a position of the text so far. */
  predicate Spaced(text: string, spaced: string, ats: seq<nat>, cs: string)
    decreases |ats|
  {
    && |ats| == |cs|
    && if ats == [] then spaced == text
       else ats[0] <= |text| && cs[0] in [' ', '\t', '\n', '\r'] && Spaced(Inserted(text, ats[0], cs[0]), spaced, ats[1..], cs[1..])
  }

  /** Any bytes, encoded under any variant, come back after any number of such insertions anywhere. */
  lemma {:induction false} SpacedKeyRoundTrip(v: Variant, bs: seq<Byte>, text: string, spaced: string, ats: seq<nat>, cs: string)
    requires KeyBytes(text) == Some(bs) || text == Encode(v, bs)
    requires Spaced(text, spaced, ats, cs)
    ensures KeyBytes(spaced) == Some(bs)
    decreases |ats|
  {
    hide KeyBytes, Encode;
    if text == Encode(v, bs) {
      SymbolsAreNotSpace(v, bs);
      NothingToDrop(text);
      KeyRoundTrip(v, bs, text);
    }
    if ats != [] {
      WhiteSpaceAnywhere(text, ats[0], cs[0]);
      SpacedKeyRoundTrip(v, bs, Inserted(text, ats[0], cs[0]), spaced, ats[1..], cs[1..]);
    }
  }

  /** Every other character stays, as often as it was. */
  lemma {:induction false} OthersStay(s: string, c: char)
    ensures multiset(Compact(s))[c] == if c in [' ', '\t', '\n', '\r'] then 0 else multiset(s)[c]
  {
    if s != "" {
      OthersStay(s[1..], c);
      DroppedIsSpace(s[0]);
      assert s == [s[0]] + s[1..];
      hide IsDropped;
    }
  }

  /** decodeKLESSKey inverts encodeClientSecret. */
  lemma ClientSecretRoundTrip(secret: seq<Byte>)
    ensures KeyBytes(EncodeClientSecret(secret)) == Some(secret)
  {
    SymbolsAreNotSpace(RAW_URL, secret);
    NothingToDrop(EncodeClientSecret(secret));
    KeyRoundTrip(RAW_URL, secret, EncodeClientSecret(secret));
  }

  lemma {:induction false} NothingToDrop(s: string)
    requires forall c <- s :: !IsSpace(c)
    ensures Compact(s) == s
  {
    if s != "" {
      assert s[0] in s;
      NothingToDrop(s[1..]);
    }
  }

  // ----- Length -----

  /**
   * An accepted key with k symbols has floor(6k/8) bytes, so the length checks are checks on k: at
   * least 32 bytes from 43 symbols on, a 32-byte public key at 43, a 64-byte private key at 86.
   */
  lemma KeyLength(text: string)
    requires KeyBytes(text).Some?
    ensures
      var k, n := BodyLength(KeyText(text)), |KeyBytes(text).value|;
      && n == 6 * k / 8
      && (n >= 32 <==> k >= 43) && (n == 32 <==> k == 43) && (n == 64 <==> k == 86)
  {
    var s := KeyText(text);
    FirstAcceptedIsUnion(ENCODINGS, s, KeyBytes(text).value);
    var v :| v in ENCODINGS && Decode(v, s) == KeyBytes(text);
    DecodeIffWellFormed(v, s);
    RegroupLength(Values(v, s[..BodyLength(s)]));
  }
}
