/** A tagging that identifies lists of users exists: the list itself, written out unambiguously. */
module ListTag {
  import opened UserSync

  /** A text that shows its own end. */
  function Code(s: string): string {
    if s == "" then "." else "x" + [s[0]] + Code(s[1..])
  }

  lemma {:induction false} CodeIsDetermined(a: string, x: string, b: string, y: string)
    requires Code(a) + x == Code(b) + y
    ensures a == b && x == y
  {
    var s, t := Code(a) + x, Code(b) + y;
    assert a == "" <==> s[0] == '.';
    assert b == "" <==> t[0] == '.';
    if a == "" {
      assert s[1..] == x && t[1..] == y;
    } else {
      assert s[1] == a[0] && t[1] == b[0];
      assert s[2..] == Code(a[1..]) + x && t[2..] == Code(b[1..]) + y;
      CodeIsDetermined(a[1..], x, b[1..], y);
      assert a == [a[0]] + a[1..] && b == [b[0]] + b[1..];
    }
  }

  /** A sign and as many strokes as the number counts. */
  function IntText(n: int): (r: string)
    ensures |r| == 1 + (if n < 0 then -n else n) && (r[0] == '-' <==> n < 0)
  {
    if n < 0 then "-" + seq(-n, i => '1') else "+" + seq(n, i => '1')
  }

  function UserText(u: KboardUser): string {
    Code(IntText(u.id)) + (Code(u.uuid) + (Code(u.token) + (Code(u.clientId) +
      (Code(u.klessClientId) + (Code(u.clientSecret) + Code(u.klessSecret))))))
  }

  lemma UserTextIsDetermined(u: KboardUser, x: string, v: KboardUser, y: string)
    requires UserText(u) + x == UserText(v) + y
    ensures u == v && x == y
  {
    hide Code, IntText;
    var u6, v6 := Code(u.klessSecret) + x, Code(v.klessSecret) + y;
    var u5, v5 := Code(u.clientSecret) + u6, Code(v.clientSecret) + v6;
    var u4, v4 := Code(u.klessClientId) + u5, Code(v.klessClientId) + v5;
    var u3, v3 := Code(u.clientId) + u4, Code(v.clientId) + v4;
    var u2, v2 := Code(u.token) + u3, Code(v.token) + v3;
    var u1, v1 := Code(u.uuid) + u2, Code(v.uuid) + v2;
    assert UserText(u) + x == Code(IntText(u.id)) + u1;
    assert UserText(v) + y == Code(IntText(v.id)) + v1;
    CodeIsDetermined(IntText(u.id), u1, IntText(v.id), v1);
    CodeIsDetermined(u.uuid, u2, v.uuid, v2);
    CodeIsDetermined(u.token, u3, v.token, v3);
    CodeIsDetermined(u.clientId, u4, v.clientId, v4);
    CodeIsDetermined(u.klessClientId, u5, v.klessClientId, v5);
    CodeIsDetermined(u.clientSecret, u6, v.clientSecret, v6);
    CodeIsDetermined(u.klessSecret, x, v.klessSecret, y);
  }

  function TagOf(users: seq<KboardUser>): (r: string)
    ensures r != "" && (r[0] == '.' <==> users == [])
  {
    if users == [] then "." else "u" + (UserText(users[0]) + TagOf(users[1..]))
  }

  lemma {:induction false} TagIsDetermined(a: seq<KboardUser>, b: seq<KboardUser>)
    requires TagOf(a) == TagOf(b)
    ensures a == b
  {
    hide UserText;
    if a != [] {
      assert TagOf(a)[1..] == UserText(a[0]) + TagOf(a[1..]);
      assert TagOf(b)[1..] == UserText(b[0]) + TagOf(b[1..]);
      UserTextIsDetermined(a[0], TagOf(a[1..]), b[0], TagOf(b[1..]));
      TagIsDetermined(a[1..], b[1..]);
      assert a == [a[0]] + a[1..] && b == [b[0]] + b[1..];
    }
  }

  /** So what is proved of identifying taggings is about something. */
  lemma IdentifyingTagExists()
    ensures Identifies(TagOf)
  {
    forall a, b: seq<KboardUser> | TagOf(a) == TagOf(b) ensures a == b { TagIsDetermined(a, b); }
  }
}
