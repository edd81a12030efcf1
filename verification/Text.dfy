/** The few `strings` operations the node relies on, over sequences of Unicode characters. */
module Text {

  /** unicode.IsSpace: the white space removed by strings.TrimSpace. */
  predicate IsSpace(c: char) {
    var n := c as int;
    || 9 <= n <= 13 || n == 32 || n == 0x85 || n == 0xA0 || n == 0x1680
    || 0x2000 <= n <= 0x200A || n == 0x2028 || n == 0x2029 || n == 0x202F || n == 0x205F || n == 0x3000
  }

  /** Neither end of the text is white space. */
  predicate Trimmed(s: string) {
    s == "" || (!IsSpace(s[0]) && !IsSpace(s[|s| - 1]))
  }

  function TrimLeft(s: string): (r: string)
    ensures |r| <= |s|
  {
    if s != "" && IsSpace(s[0]) then TrimLeft(s[1..]) else s
  }

  function TrimRight(s: string): (r: string)
    ensures |r| <= |s|
  {
    if s != "" && IsSpace(s[|s| - 1]) then TrimRight(s[..|s| - 1]) else s
  }

  /** strings.TrimSpace. */
  function TrimSpace(s: string): (r: string)
    ensures |r| <= |s|
  {
    TrimRight(TrimLeft(s))
  }

  /** strings.TrimRight(s, "/"). */
  function TrimSlashes(s: string): (r: string)
    ensures |r| <= |s|
  {
    if s != "" && s[|s| - 1] == '/' then TrimSlashes(s[..|s| - 1]) else s
  }

  /** strings.ToLower, rune by rune. */
  function Lower(lower: char -> char, s: string): (r: string)
    ensures |r| == |s|
  {
    seq(|s|, i requires 0 <= i < |s| => lower(s[i]))
  }

  ghost predicate AllSpace(s: string) {
    forall i :: 0 <= i < |s| ==> IsSpace(s[i])
  }

  lemma {:induction false} TrimLeftSplits(s: string) returns (pre: string)
    ensures s == pre + TrimLeft(s) && AllSpace(pre)
    ensures TrimLeft(s) == "" || !IsSpace(TrimLeft(s)[0])
  {
    hide IsSpace;
    pre := "";
    if s != "" && IsSpace(s[0]) {
      var rest := TrimLeftSplits(s[1..]);
      pre := [s[0]] + rest;
    }
  }

  lemma {:induction false} TrimRightSplits(s: string) returns (post: string)
    ensures s == TrimRight(s) + post && AllSpace(post)
    ensures TrimRight(s) == "" || !IsSpace(TrimRight(s)[|TrimRight(s)| - 1])
  {
    hide IsSpace;
    post := "";
    if s != "" && IsSpace(s[|s| - 1]) {
      var rest := TrimRightSplits(s[..|s| - 1]);
      post := rest + [s[|s| - 1]];
    }
  }

  /** Trimming removes exactly the white space at the two ends. */
  lemma TrimSpaceSplits(s: string) returns (pre: string, post: string)
    ensures s == pre + TrimSpace(s) + post && AllSpace(pre) && AllSpace(post) && Trimmed(TrimSpace(s))
    ensures Trimmed(s) ==> TrimSpace(s) == s
  {
    hide IsSpace;
    pre := TrimLeftSplits(s);
    post := TrimRightSplits(TrimLeft(s));
  }

  lemma TrimSpaceTrims(s: string)
    ensures Trimmed(TrimSpace(s)) && (Trimmed(s) <==> TrimSpace(s) == s)
  {
    var _, _ := TrimSpaceSplits(s);
  }

  /** What unicode.IsSpace lists: the white space of Latin-1 and the space separators and line ends beyond it. */
  const WHITE_SPACE: set<int> := {
    0x09, 0x0A, 0x0B, 0x0C, 0x0D, 0x20, 0x85, 0xA0, 0x1680, 0x2000, 0x2001, 0x2002, 0x2003, 0x2004, 0x2005, 0x2006,
    0x2007, 0x2008, 0x2009, 0x200A, 0x2028, 0x2029, 0x202F, 0x205F, 0x3000 }

  lemma SpaceIsListed(c: char)
    ensures IsSpace(c) <==> c as int in WHITE_SPACE
  {
  }

  lemma {:induction false} TrimLeftDrops(pre: string, s: string)
    requires AllSpace(pre)
    ensures TrimLeft(pre + s) == TrimLeft(s)
  {
    hide IsSpace;
    if pre == "" {
      assert pre + s == s;
    } else {
      assert (pre + s)[1..] == pre[1..] + s;
      TrimLeftDrops(pre[1..], s);
    }
  }

  lemma {:induction false} TrimRightDrops(s: string, post: string)
    requires AllSpace(post)
    ensures TrimRight(s + post) == TrimRight(s)
  {
    hide IsSpace;
    if post == "" {
      assert s + post == s;
    } else {
      assert (s + post)[..|s + post| - 1] == s + post[..|post| - 1];
      TrimRightDrops(s, post[..|post| - 1]);
    }
  }

  /** Trimming is determined: what stands between white space, itself trimmed, is what it leaves. */
  lemma TrimSpaceIs(pre: string, mid: string, post: string)
    requires AllSpace(pre) && AllSpace(post) && Trimmed(mid)
    ensures TrimSpace(pre + mid + post) == mid
  {
    hide IsSpace;
    assert pre + mid + post == pre + (mid + post);
    TrimLeftDrops(pre, mid + post);
    if mid == "" {
      assert mid + post == post + "" && "" + post == post;
      TrimLeftDrops(post, "");
    } else {
      TrimRightDrops(mid, post);
    }
  }

  predicate HasPrefix(s: string, prefix: string) {
    prefix <= s
  }

  // ----- Case -----

  /** What strings.ToLower does to one character: idempotent, blind to white space, and on ASCII as usual. */
  ghost predicate IsLowering(f: char -> char) {
    && (forall c {:trigger f(f(c))} :: f(f(c)) == f(c))
    && (forall c {:trigger IsSpace(f(c))} :: IsSpace(f(c)) == IsSpace(c))
    && (forall c {:trigger f(c)} :: c < 128 as char ==> f(c) == AsciiLower(c))
  }

  function AsciiLower(c: char): char {
    if 'A' <= c <= 'Z' then (c as int + 32) as char else c
  }

  type Lowering = f: char -> char | IsLowering(f) ghost witness AsciiLower

  /** The usual folding of a name: strings.ToLower(strings.TrimSpace(s)). */
  function Folded(lower: Lowering, s: string): string {
    Lower(lower, TrimSpace(s))
  }

  predicate IsLowerAscii(s: string) {
    forall i :: 0 <= i < |s| ==> s[i] < 128 as char && !('A' <= s[i] <= 'Z') && !IsSpace(s[i])
  }

  /** Folding is idempotent, and leaves a lower-case ASCII word alone. */
  lemma FoldedAgain(lower: Lowering, s: string)
    ensures Trimmed(Folded(lower, s)) && Folded(lower, Folded(lower, s)) == Folded(lower, s)
    ensures IsLowerAscii(s) ==> Folded(lower, s) == s
  {
    hide IsSpace, TrimSpace, AsciiLower;
    TrimSpaceTrims(s);
    var t := TrimSpace(s);
    var w := Lower(lower, t);
    TrimSpaceTrims(w);
    assert Lower(lower, w) == w;
    if IsLowerAscii(s) {
      assert Trimmed(s);
      forall i | 0 <= i < |s| ensures lower(s[i]) == s[i] { LowerAsciiStays(lower, s[i]); }
    }
  }

  lemma LowerAsciiStays(lower: Lowering, c: char)
    requires c < 128 as char && !('A' <= c <= 'Z')
    ensures lower(c) == c
  {
  }

  // ----- Trimming slashes after space -----

  lemma {:induction false} TrimSlashesSplits(s: string)
    ensures TrimSlashes(s) <= s && (TrimSlashes(s) == "" || TrimSlashes(s)[|TrimSlashes(s)| - 1] != '/')
    ensures (s == "" || s[|s| - 1] != '/') <==> TrimSlashes(s) == s
  {
    if s != "" && s[|s| - 1] == '/' { TrimSlashesSplits(s[..|s| - 1]); }
  }
}
