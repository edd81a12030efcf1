/** What a synced user is owed: under which id, and with which secret, a connection finds the user. */
module SyncedUser {
  import opened Base64
  import opened ClientStore
  import opened Keys
  import opened Text
  import opened UserSync
  import opened Wrappers

  /** The number that digits spell. */
  function Number(s: string): int {
    if s == "" then 0 else 10 * Number(s[..|s| - 1]) + (s[|s| - 1] as int - '0' as int)
  }

  predicate AllDigits(s: string) {
    forall i :: 0 <= i < |s| ==> '0' <= s[i] <= '9'
  }

  /** Digits without a leading zero that read back to n. */
  predicate Spells(s: string, n: int) {
    s != "" && AllDigits(s) && s[0] != '0' && Number(s) == n
  }

  lemma {:induction false} DecimalSpells(n: nat)
    requires n > 0
    ensures Spells(Decimal(n), n)
  {
    if n >= 10 {
      DecimalSpells(n / 10);
      assert Decimal(n)[..|Decimal(n)| - 1] == Decimal(n / 10);
    }
  }

  lemma {:induction false} PrefixIsSmaller(s: string)
    requires s != "" && AllDigits(s) && s[0] != '0'
    ensures Number(s) > 0
  {
    if |s| > 1 { PrefixIsSmaller(s[..|s| - 1]); }
  }

  /** There is one such text. */
  lemma {:induction false} SpellsOnce(s: string, n: nat)
    requires Spells(s, n)
    ensures n > 0 && s == Decimal(n)
  {
    PrefixIsSmaller(s);
    var init := s[..|s| - 1];
    assert s == init + [s[|s| - 1]];
    if init != "" {
      PrefixIsSmaller(init);
      SpellsOnce(init, Number(init));
    }
  }

  /** The id a user goes by: the first that is given of four. */
  predicate GoesBy(u: KboardUser, id: string) {
    if u.klessClientId != "" then id == u.klessClientId
    else if u.clientId != "" then id == u.clientId
    else if u.uuid != "" then id == u.uuid
    else Spells(id, u.id)
  }

  predicate Nameless(u: KboardUser) {
    u.klessClientId == "" && u.clientId == "" && u.uuid == "" && u.id <= 0
  }

  /** The secret a user is owed: the KLESS secret if one is given, or the older field, or a derived one. */
  predicate Owed(env: SyncEnv, u: KboardUser, secret: seq<Byte>) {
    var newer, older := TrimSpace(u.klessSecret), TrimSpace(u.clientSecret);
    if newer != "" then KeyBytes(newer) == Some(secret) && |secret| >= 32
    else if older != "" then KeyBytes(older) == Some(secret) && |secret| >= 32
    else secret == env.sha256("Knode KLESS user secret v1\n" + TrimSpace(env.nodeSharedSecret) + "\n" + TrimSpace(u.uuid) + "\n" + TrimSpace(u.token))
  }

  /** A credential is exactly the user's id, the secret owed and the user's number. */
  lemma CredentialIs(env: SyncEnv, u: KboardUser, e: Entry)
    ensures UserCredential(env, u) == Some(e) <==> GoesBy(u, e.clientId) && Owed(env, u, e.secret) && e.userId == u.id
  {
    hide KeyBytes, TrimSpace, Number, AllDigits, Decimal;
    if u.id > 0 { DecimalSpells(u.id); }
    if u.klessClientId == "" && u.clientId == "" && u.uuid == "" && Spells(e.clientId, u.id) {
      NumberIsPositive(e.clientId);
      SpellsOnce(e.clientId, u.id);
    }
    assert "Knode KLESS user secret v1" + "\n" == "Knode KLESS user secret v1\n";
  }

  lemma NumberIsPositive(s: string)
    requires Spells(s, Number(s))
    ensures Number(s) > 0
  {
    PrefixIsSmaller(s);
  }

  /** There is none only for a user without any id, or with a secret text that is no key of 32 bytes. */
  lemma NoCredentialIff(env: SyncEnv, u: KboardUser)
    ensures
      UserCredential(env, u) == None <==>
      Nameless(u) ||
      var text := if TrimSpace(u.klessSecret) != "" then TrimSpace(u.klessSecret) else TrimSpace(u.clientSecret);
      text != "" && (KeyBytes(text) == None || |KeyBytes(text).value| < 32)
  {
    hide KeyBytes, TrimSpace, Decimal;
  }

  /**
   * After a sync of a list whose last user goes by an id and is owed a secret, a lookup of that id, trimmed
   * as the store trims it, finds exactly that secret, and the user's number if it is positive.
   */
  method LookupSynced(reporter: KboardReporter, etag: string, users: seq<KboardUser>, id: string, ghost owed: seq<Byte>)
    returns (secret: array<Byte>, ok: bool, userId: int)
    requires reporter.enabled && reporter.userStore.Valid() && users != []
    requires GoesBy(users[|users| - 1], id) && TrimSpace(id) != "" && Owed(reporter.env, users[|users| - 1], owed)
    modifies reporter, reporter.userStore
    ensures ok && secret[..] == owed
    ensures users[|users| - 1].id > 0 ==> userId == users[|users| - 1].id
  {
    hide GoesBy, Owed, TrimSpace, UserCredential, KeyBytes, Represents;
    var u := users[|users| - 1];
    ghost var e := Entry(id, owed, u.id);
    CredentialIs(reporter.env, u, e);
    CredentialsAreSound(reporter.env, users);
    reporter.SyncUsers(Users(etag, users));
    LastCredential(reporter.env, users, e);
    secret, ok := reporter.userStore.LookupClientSecret(TrimSpace(id));
    userId := reporter.userStore.UserID(TrimSpace(id));
  }

  lemma LastCredential(env: SyncEnv, users: seq<KboardUser>, e: Entry)
    requires users != [] && UserCredential(env, users[|users| - 1]) == Some(e) && |e.secret| > 0 && TrimSpace(e.clientId) != ""
    ensures LastUsable(Credentials(env, users), TrimSpace(e.clientId)) == Some(e)
  {
    hide UserCredential, TrimSpace;
    assert Credentials(env, users) == Credentials(env, users[..|users| - 1]) + [e];
  }
}
