/** The text that hmacSignature signs, and why a signature speaks for one request only. */
module Signing {

  datatype Request = Request(verb: string, path: string, rawQuery: string, nodeId: string, timestamp: string)

  /** strings.Join(parts, "\n") */
  function SignedText(r: Request): string {
    r.verb + "\n" + (r.path + "\n" + (r.rawQuery + "\n" + (r.nodeId + "\n" + r.timestamp)))
  }

  /** Verbs, escaped paths, raw queries of parsed URLs and decimal timestamps hold no line feed; a node id might. */
  predicate OneLineParts(r: Request) {
    '\n' !in r.verb && '\n' !in r.path && '\n' !in r.rawQuery && '\n' !in r.timestamp
  }

  function FirstFeed(s: string): (n: nat)
    ensures n <= |s| && '\n' !in s[..n] && (n < |s| ==> s[n] == '\n')
  {
    if s == "" || s[0] == '\n' then 0 else 1 + FirstFeed(s[1..])
  }

  function LastFeed(s: string): nat {
    if s == "" then 0 else if s[|s| - 1] == '\n' then |s| - 1 else LastFeed(s[..|s| - 1])
  }

  lemma {:induction false} FirstFeedAfter(a: string, x: string)
    requires '\n' !in a
    ensures FirstFeed(a + "\n" + x) == |a|
  {
    if a == "" {
      assert a + "\n" + x == "\n" + x;
    } else {
      assert (a + "\n" + x)[1..] == a[1..] + "\n" + x;
      FirstFeedAfter(a[1..], x);
    }
  }

  lemma {:induction false} LastFeedBefore(x: string, a: string)
    requires '\n' !in a
    ensures LastFeed(x + "\n" + a) == |x|
  {
    if a == "" {
      assert x + "\n" + a == x + "\n";
    } else {
      var s := x + "\n" + a;
      assert s[..|s| - 1] == x + "\n" + a[..|a| - 1];
      LastFeedBefore(x, a[..|a| - 1]);
    }
  }

  lemma SameSplit(a: string, x: string, b: string, y: string)
    requires |a| == |b| && a + "\n" + x == b + "\n" + y
    ensures a == b && x == y
  {
    var s, t := a + "\n" + x, b + "\n" + y;
    assert s[..|a|] == a && t[..|b|] == b && s[|a| + 1..] == x && t[|b| + 1..] == y;
  }

  lemma HeadIsDetermined(a: string, x: string, b: string, y: string)
    requires '\n' !in a && '\n' !in b && a + "\n" + x == b + "\n" + y
    ensures a == b && x == y
  {
    FirstFeedAfter(a, x);
    FirstFeedAfter(b, y);
    SameSplit(a, x, b, y);
  }

  lemma TailIsDetermined(x: string, a: string, y: string, b: string)
    requires '\n' !in a && '\n' !in b && x + "\n" + a == y + "\n" + b
    ensures x == y && a == b
  {
    LastFeedBefore(x, a);
    LastFeedBefore(y, b);
    SameSplit(x, a, y, b);
  }

  /** The lines of a text, told from where its line feeds are. */
  function Lines(s: string): seq<string> {
    if FirstFeed(s) == |s| then [s] else [s[..FirstFeed(s)]] + Lines(s[FirstFeed(s) + 1..])
  }

  lemma FirstLine(a: string, x: string)
    requires '\n' !in a
    ensures Lines(a + "\n" + x) == [a] + Lines(x)
  {
    FirstFeedAfter(a, x);
    var s := a + "\n" + x;
    assert s[..|a|] == a && s[|a| + 1..] == x;
  }

  /** The lines that are signed, in order: the verb, the path, the query, the node and the time. */
  lemma SignedLines(r: Request)
    requires OneLineParts(r) && '\n' !in r.nodeId
    ensures Lines(SignedText(r)) == [r.verb, r.path, r.rawQuery, r.nodeId, r.timestamp]
  {
    hide Lines;
    var fromNode := r.nodeId + "\n" + r.timestamp;
    var fromQuery := r.rawQuery + "\n" + fromNode;
    var fromPath := r.path + "\n" + fromQuery;
    LastLine(r.timestamp);
    FirstLine(r.nodeId, r.timestamp);
    FirstLine(r.rawQuery, fromNode);
    FirstLine(r.path, fromQuery);
    FirstLine(r.verb, fromPath);
  }

  lemma LastLine(a: string)
    requires '\n' !in a
    ensures Lines(a) == [a]
  {
  }

  /** Different requests sign different texts, even when a node id contains line feeds. */
  lemma SignedTextIdentifiesRequest(r: Request, q: Request)
    requires OneLineParts(r) && OneLineParts(q)
    ensures SignedText(r) == SignedText(q) <==> r == q
  {
    if SignedText(r) == SignedText(q) {
      var r2, q2 := r.nodeId + "\n" + r.timestamp, q.nodeId + "\n" + q.timestamp;
      var r1, q1 := r.rawQuery + "\n" + r2, q.rawQuery + "\n" + q2;
      HeadIsDetermined(r.verb, r.path + "\n" + r1, q.verb, q.path + "\n" + q1);
      HeadIsDetermined(r.path, r1, q.path, q1);
      HeadIsDetermined(r.rawQuery, r2, q.rawQuery, q2);
      TailIsDetermined(r.nodeId, r.timestamp, q.nodeId, q.timestamp);
    }
  }
}
