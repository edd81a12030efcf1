/**
 * The users sync of the reporter: how a user becomes a credential, what one syncUsers call does, and
 * when conditional requests (RFC 9110 sections 8.8.3, 13.1.2 and 15.4.5) keep the dynamic layer equal
 * to the server's list.
 */
module UserSync {
  import opened Base64
  import opened ClientStore
  import opened Keys
  import opened Text
  import opened Wrappers

  datatype KboardUser = KboardUser(
    id: int, uuid: string, token: string, clientId: string, klessClientId: string,
    clientSecret: string, klessSecret: string)

  const DIGEST_SIZE: nat := 32

  type Digest = d: seq<Byte> | |d| == DIGEST_SIZE witness seq(DIGEST_SIZE, i => 0)

  /** SHA-256 is a parameter; only its size matters here. */
  datatype SyncEnv = SyncEnv(nodeSharedSecret: string, sha256: string -> Digest)

  function Digit(d: nat): char
    requires d < 10
  {
    (48 + d) as char
  }

  /** fmt.Sprintf("%d", n) for a positive n. */
  function Decimal(n: nat): (r: string)
    ensures r != ""
  {
    if n < 10 then [Digit(n)] else Decimal(n / 10) + [Digit(n % 10)]
  }

  function ClientIdForUser(u: KboardUser): string {
    if u.klessClientId != "" then u.klessClientId
    else if u.clientId != "" then u.clientId
    else if u.uuid != "" then u.uuid
    else if u.id > 0 then Decimal(u.id)
    else ""
  }

  function DeriveUserClientSecret(env: SyncEnv, uuid: string, token: string): Digest {
    env.sha256("Knode KLESS user secret v1" + "\n" + TrimSpace(env.nodeSharedSecret) + "\n" + TrimSpace(uuid) + "\n" + TrimSpace(token))
  }

  /** The secret text of a user: the KLESS one, or else the older field. */
  function SecretText(u: KboardUser): string {
    if TrimSpace(u.klessSecret) != "" then TrimSpace(u.klessSecret) else TrimSpace(u.clientSecret)
  }

  const MIN_SECRET: nat := 32

  function UserCredential(env: SyncEnv, u: KboardUser): Option<Entry> {
    var clientId := ClientIdForUser(u);
    if clientId == "" then None
    else if SecretText(u) == "" then Some(Entry(clientId, DeriveUserClientSecret(env, u.uuid, u.token), u.id))
    else
      match KeyBytes(SecretText(u))
      case None => None
      case Some(secret) => if |secret| < MIN_SECRET then None else Some(Entry(clientId, secret, u.id))
  }

  function Credentials(env: SyncEnv, users: seq<KboardUser>): seq<Entry> {
    if users == [] then []
    else
      var rest := Credentials(env, users[..|users| - 1]);
      match UserCredential(env, users[|users| - 1])
      case None => rest
      case Some(e) => rest + [e]
  }

  lemma CredentialsEmpty(env: SyncEnv)
    ensures Credentials(env, []) == []
  {
  }

  lemma CredentialsStep(env: SyncEnv, users: seq<KboardUser>, i: nat)
    requires i < |users|
    ensures
      Credentials(env, users[..i + 1]) ==
      Credentials(env, users[..i]) + if UserCredential(env, users[i]).Some? then [UserCredential(env, users[i]).value] else []
  {
    assert users[..i + 1][..i] == users[..i];
  }

  /** Every synced secret is long enough, and each credential carries the id of the user it came from. */
  lemma {:induction false} CredentialsAreSound(env: SyncEnv, users: seq<KboardUser>)
    ensures forall e <- Credentials(env, users) ::
              |e.secret| >= MIN_SECRET && exists u :: u in users && UserCredential(env, u) == Some(e) && e.userId == u.id
  {
    if users != [] {
      var last := users[|users| - 1];
      CredentialsAreSound(env, users[..|users| - 1]);
      forall e | e in Credentials(env, users)
        ensures |e.secret| >= MIN_SECRET && exists u :: u in users && UserCredential(env, u) == Some(e) && e.userId == u.id
      {
        if e !in Credentials(env, users[..|users| - 1]) {
          assert last in users && UserCredential(env, last) == Some(e);
        }
      }
    }
  }

  /** A user whose secret was written by encodeClientSecret gets exactly those bytes. */
  lemma EncodedSecretArrives(env: SyncEnv, u: KboardUser, secret: seq<Byte>)
    requires ClientIdForUser(u) != "" && |secret| >= MIN_SECRET && u.klessSecret == EncodeClientSecret(secret)
    ensures UserCredential(env, u) == Some(Entry(ClientIdForUser(u), secret, u.id))
  {
    ClientSecretRoundTrip(secret);
    SymbolsAreNotSpace(RAW_URL, secret);
    var text := EncodeClientSecret(secret);
    EncodeForm(RAW_URL, secret);
    RegroupUngroup(secret);
    assert text != "";
    assert text[0] in text && text[|text| - 1] in text;
    TrimSpaceTrims(text);
  }

  // ----- One sync -----

  /** The outcomes of getJSON: any failure, 304, or a decoded 200, the last two with the ETag header or "". */
  datatype Response =
    | Failed
    | NotModified(etag: string)
    | Users(etag: string, users: seq<KboardUser>)

  /** What the reporter remembers: the tag it will send, and the credentials in the dynamic layer. */
  datatype Client = Client(etag: string, entries: seq<Entry>)

  function NextTag(held: string, header: string): string { if header != "" then header else held }

  function Sync(env: SyncEnv, c: Client, r: Response): Client {
    match r
    case Failed => c
    case NotModified(etag) => Client(NextTag(c.etag, etag), c.entries)
    case Users(etag, users) => Client(NextTag(c.etag, etag), Credentials(env, users))
  }

  class KboardReporter {
    const env: SyncEnv
    const enabled: bool              // a users endpoint and a store are configured
    const userStore: DynamicClientStore
    var usersETag: string

    constructor (env: SyncEnv, enabled: bool, userStore: DynamicClientStore)
      ensures this.env == env && this.enabled == enabled && this.userStore == userStore && usersETag == ""
    {
      this.env, this.enabled, this.userStore := env, enabled, userStore;
      usersETag := "";
    }

    ghost function State(): Client
      reads this, userStore
    {
      Client(usersETag, userStore.dynamics)
    }

    /** syncUsers, given what the request came to. A failed fetch or decode changes neither tag nor store. */
    method SyncUsers(response: Response)
      requires userStore.Valid()
      modifies this, userStore
      ensures userStore.Valid() && userStore.statics == old(userStore.statics)
      ensures State() == if enabled then Sync(env, old(State()), response) else old(State())
      ensures fresh(userStore.Repr - old(userStore.Repr))
    {
      if !enabled || response.Failed? { return; }
      if response.etag != "" {
        usersETag := response.etag;
      }
      if response.NotModified? { return; }
      var credentials := BuildCredentials(response.users);
      userStore.ReplaceDynamic(credentials);
    }

    method BuildCredentials(users: seq<KboardUser>) returns (credentials: seq<ClientCredential>)
      ensures Views(credentials) == Credentials(env, users)
      ensures forall c <- credentials :: fresh(c.secret)
    {
      hide UserCredential, Credentials, Views, KeyBytes, TrimSpace;
      credentials := [];
      var i := 0;
      CredentialsEmpty(env);
      ViewsEmpty();
      assert users[..0] == [];
      while i < |users|
        invariant 0 <= i <= |users|
        invariant Views(credentials) == Credentials(env, users[..i])
        invariant forall c <- credentials :: fresh(c.secret)
      {
        CredentialsStep(env, users, i);
        var credential := UserCredential(env, users[i]);
        if credential.Some? {
          label before:
          var c := Filled(credential.value);
          ViewsKept@before(credentials);
          ViewsAppend(credentials, c);
          credentials := credentials + [c];
        }
        i := i + 1;
      }
      assert users[..i] == users;
    }
  }

  // ----- Conditional requests -----

  /** The tag a server gives a list. */
  type Tagging = seq<KboardUser> -> string

  /** A strong validator: never empty, and different for different lists. */
  ghost predicate Identifies(tagOf: Tagging) {
    && (forall users :: tagOf(users) != "")
    && (forall a, b {:trigger tagOf(a), tagOf(b)} :: tagOf(a) == tagOf(b) ==> a == b)
  }

  /**
   * What a server holding `users` may answer to a request with If-None-Match `sent`. A 304 needs the sent
   * tag to be the current one; its own ETag header, if present, agrees. A 200 carries the list, with its
   * tag or without.
   */
  predicate Honest(tagOf: Tagging, users: seq<KboardUser>, sent: string, r: Response) {
    match r
    case Failed => true
    case NotModified(etag) => sent != "" && sent == tagOf(users) && (etag == "" || etag == tagOf(users))
    case Users(etag, list) => list == users && (etag == "" || etag == tagOf(users))
  }

  /** The remembered tag, if any, names the list whose credentials are in the dynamic layer. */
  ghost predicate Coherent(env: SyncEnv, tagOf: Tagging, c: Client) {
    forall users :: c.etag != "" && tagOf(users) == c.etag ==> c.entries == Credentials(env, users)
  }

  /** One round: the list the server held, and what it answered. */
  datatype Round = Round(users: seq<KboardUser>, response: Response)

  function After(env: SyncEnv, c: Client, rounds: seq<Round>): Client {
    if rounds == [] then c else Sync(env, After(env, c, rounds[..|rounds| - 1]), rounds[|rounds| - 1].response)
  }

  /** Every answer is honest; from one 200 to the next the server may change its mind about tagging. */
  predicate HonestRun(env: SyncEnv, tagOf: Tagging, c: Client, rounds: seq<Round>) {
    rounds == [] ||
    var last := rounds[|rounds| - 1];
    && HonestRun(env, tagOf, c, rounds[..|rounds| - 1])
    && Honest(tagOf, last.users, After(env, c, rounds[..|rounds| - 1]).etag, last.response)
  }

  /** A server that tags every 200, or one that tags none. */
  predicate Uniform(tagged: bool, rounds: seq<Round>) {
    forall round <- rounds :: round.response.Users? ==> (round.response.etag != "" <==> tagged)
  }

  lemma SyncKeepsCoherent(env: SyncEnv, tagOf: Tagging, c: Client, users: seq<KboardUser>, r: Response)
    requires Identifies(tagOf) && Coherent(env, tagOf, c) && Honest(tagOf, users, c.etag, r)
    requires r.Users? ==> r.etag != ""
    ensures Coherent(env, tagOf, Sync(env, c, r))
    ensures !r.Failed? ==> Sync(env, c, r).entries == Credentials(env, users)
  {
    var next := Sync(env, c, r);
    forall list | next.etag != "" && tagOf(list) == next.etag ensures next.entries == Credentials(env, list) {
      if r.Users? { assert tagOf(list) == tagOf(users); }
    }
  }

  /**
   * Conditional sync refines unconditional fetch: against a server that tags every 200 with an
   * identifying tag, or none, the dynamic layer after every successful sync is the credentials of the
   * list the server held, whether it answered 200 or 304.
   */
  lemma {:induction false} ConditionalSyncIsFetch(env: SyncEnv, tagOf: Tagging, tagged: bool, start: seq<Entry>, rounds: seq<Round>)
    requires Identifies(tagOf) && HonestRun(env, tagOf, Client("", start), rounds) && Uniform(tagged, rounds)
    ensures
      var c := After(env, Client("", start), rounds);
      && Coherent(env, tagOf, c) && (!tagged ==> c.etag == "")
      && (rounds != [] && !rounds[|rounds| - 1].response.Failed? ==>
            c.entries == Credentials(env, rounds[|rounds| - 1].users))
  {
    if rounds != [] {
      var init, last := rounds[..|rounds| - 1], rounds[|rounds| - 1];
      assert last in rounds;
      ConditionalSyncIsFetch(env, tagOf, tagged, start, init);
      if tagged {
        SyncKeepsCoherent(env, tagOf, After(env, Client("", start), init), last.users, last.response);
      }
    }
  }

  /** The list of the last answer that carried one. */
  function Pulled(rounds: seq<Round>): seq<KboardUser> {
    if rounds == [] then []
    else
      var last := rounds[|rounds| - 1].response;
      if last.Users? then last.users else Pulled(rounds[..|rounds| - 1])
  }

  /** Whatever a server answers, honest or not, the dynamic layer is what the last list that arrived makes it. */
  lemma {:induction false} LayerIsPulled(env: SyncEnv, rounds: seq<Round>)
    ensures After(env, Client("", []), rounds).entries == Credentials(env, Pulled(rounds))
  {
    if rounds != [] { LayerIsPulled(env, rounds[..|rounds| - 1]); }
  }

  // ----- A server that tags only some answers -----

  /** The list of the last answer that carried one with a tag. */
  function LastTagged(rounds: seq<Round>): Option<seq<KboardUser>> {
    if rounds == [] then None
    else
      var last := rounds[|rounds| - 1].response;
      if last.Users? && last.etag != "" then Some(last.users) else LastTagged(rounds[..|rounds| - 1])
  }

  /** The last answer that carried a list carried a tag too; trivially so before the first list. */
  predicate LastListTagged(rounds: seq<Round>) {
    rounds == [] ||
    var last := rounds[|rounds| - 1].response;
    if last.Users? then last.etag != "" else LastListTagged(rounds[..|rounds| - 1])
  }

  lemma {:induction false} LastListTaggedIsPulled(rounds: seq<Round>)
    requires LastListTagged(rounds) && LastTagged(rounds).Some?
    ensures Pulled(rounds) == LastTagged(rounds).value
  {
    if rounds != [] && !rounds[|rounds| - 1].response.Users? { LastListTaggedIsPulled(rounds[..|rounds| - 1]); }
  }

  /** What the client will send: the tag of the last tagged list, untouched by the untagged lists after it. */
  lemma {:induction false} HeldTagIsLastTagged(env: SyncEnv, tagOf: Tagging, start: seq<Entry>, rounds: seq<Round>)
    requires Identifies(tagOf) && HonestRun(env, tagOf, Client("", start), rounds)
    ensures After(env, Client("", start), rounds).etag ==
            if LastTagged(rounds).Some? then tagOf(LastTagged(rounds).value) else ""
  {
    if rounds != [] { HeldTagIsLastTagged(env, tagOf, start, rounds[..|rounds| - 1]); }
  }

  /** The lists that arrived with and without a tag agree: what a client can tell from the answers it got. */
  predicate ListsAgree(env: SyncEnv, rounds: seq<Round>) {
    LastTagged(rounds).None? || Credentials(env, Pulled(rounds)) == Credentials(env, LastTagged(rounds).value)
  }

  /**
   * Any honest run, tagged or not from answer to answer. A 200 always leaves the server's list. A 304
   * speaks of the last tagged list, so it leaves the server's list if and only if the last list that
   * arrived, tagged or not, has the same credentials; in particular when the last list was tagged.
   */
  lemma RightAfterSuccessIff(env: SyncEnv, tagOf: Tagging, rounds: seq<Round>)
    requires Identifies(tagOf) && HonestRun(env, tagOf, Client("", []), rounds)
    requires rounds != [] && !rounds[|rounds| - 1].response.Failed?
    ensures
      var last := rounds[|rounds| - 1];
      var right := After(env, Client("", []), rounds).entries == Credentials(env, last.users);
      && (last.response.Users? ==> right)
      && (last.response.NotModified? ==> LastTagged(rounds) == Some(last.users) && (right <==> ListsAgree(env, rounds)))
      && (LastListTagged(rounds) ==> right)
  {
    hide Credentials;
    var init, last := rounds[..|rounds| - 1], rounds[|rounds| - 1];
    LayerIsPulled(env, rounds);
    HeldTagIsLastTagged(env, tagOf, [], init);
    if last.response.NotModified? {
      assert tagOf(LastTagged(init).value) == tagOf(last.users);
      if LastListTagged(rounds) { LastListTaggedIsPulled(rounds); }
    }
  }

  /**
   * Whether the next answer can be trusted is decided by the answers so far: after an honest run, every
   * honest answer that succeeds leaves the server's list if and only if the lists that arrived agree.
   */
  lemma NextAnswerRightIff(env: SyncEnv, tagOf: Tagging, rounds: seq<Round>)
    requires Identifies(tagOf) && HonestRun(env, tagOf, Client("", []), rounds)
    ensures
      var c := After(env, Client("", []), rounds);
      ListsAgree(env, rounds) <==>
      forall users, r :: Honest(tagOf, users, c.etag, r) && !r.Failed? ==> Sync(env, c, r).entries == Credentials(env, users)
  {
    hide Credentials, After, Pulled, LastTagged;
    var c := After(env, Client("", []), rounds);
    LayerIsPulled(env, rounds);
    HeldTagIsLastTagged(env, tagOf, [], rounds);
    SafeIffCoherent(env, tagOf, c);
    if LastTagged(rounds).Some? {
      var list := LastTagged(rounds).value;
      assert tagOf(list) == c.etag != "";
      assert forall users :: tagOf(users) == c.etag ==> users == list;
    }
  }

  /** Coherence is the weakest state in which every honest answer can be trusted. */
  lemma SafeIffCoherent(env: SyncEnv, tagOf: Tagging, c: Client)
    ensures
      Coherent(env, tagOf, c) <==>
      forall users, r :: Honest(tagOf, users, c.etag, r) && !r.Failed? ==> Sync(env, c, r).entries == Credentials(env, users)
  {
    if !Coherent(env, tagOf, c) {
      var users :| c.etag != "" && tagOf(users) == c.etag && c.entries != Credentials(env, users);
      assert Honest(tagOf, users, c.etag, NotModified(""));
      assert Sync(env, c, NotModified("")).entries != Credentials(env, users);
    }
  }

  /** An untagged 200 replaces the layer and keeps the old tag. */
  lemma UntaggedAnswerCoherentIff(env: SyncEnv, tagOf: Tagging, c: Client, users: seq<KboardUser>)
    ensures
      Coherent(env, tagOf, Sync(env, c, Users("", users))) <==>
      forall list :: c.etag != "" && tagOf(list) == c.etag ==> Credentials(env, users) == Credentials(env, list)
  {
    var next := Sync(env, c, Users("", users));
    assert next.etag == c.etag && next.entries == Credentials(env, users);
  }

  /**
   * The guard a client could apply to an untagged 200: for a coherent client whose tag, if any, is the
   * tag of some list, keeping the tag is safe if and only if there is none or the credentials stay the same.
   */
  lemma UntaggedAnswerSafeIff(env: SyncEnv, tagOf: Tagging, c: Client, users: seq<KboardUser>)
    requires Coherent(env, tagOf, c) && (c.etag == "" || exists list :: tagOf(list) == c.etag)
    ensures
      var next := Sync(env, c, Users("", users));
      (c.etag == "" || Credentials(env, users) == c.entries) <==>
      forall held, r :: Honest(tagOf, held, next.etag, r) && !r.Failed? ==> Sync(env, next, r).entries == Credentials(env, held)
  {
    hide Credentials;
    SafeIffCoherent(env, tagOf, Sync(env, c, Users("", users)));
    UntaggedAnswerCoherentIff(env, tagOf, c, users);
    if c.etag != "" {
      var list :| tagOf(list) == c.etag;
      assert c.entries == Credentials(env, list);
    }
  }

  function StaleRun(tagOf: Tagging, a: seq<KboardUser>, b: seq<KboardUser>): seq<Round> {
    [Round(a, Users(tagOf(a), a)), Round(b, Users("", b)), Round(a, NotModified(tagOf(a)))]
  }

  /**
   * A tagged list, an untagged one and the first one again with 304: an honest run, the client still
   * sending the first tag, after which the store holds the second list whenever their credentials differ,
   * as those of one user and of none do.
   */
  lemma MixedTaggingGoesStale(env: SyncEnv, tagOf: Tagging, a: seq<KboardUser>, b: seq<KboardUser>)
    requires Identifies(tagOf)
    ensures
      var run := StaleRun(tagOf, a, b);
      && HonestRun(env, tagOf, Client("", []), run)
      && After(env, Client("", []), run[..2]).etag == tagOf(a)
      && After(env, Client("", []), run).entries == Credentials(env, b)
    ensures Credentials(env, [KboardUser(1, "alice", "", "", "", "", "")]) != Credentials(env, [])
  {
    var run := StaleRun(tagOf, a, b);
    ThreeRounds(env, tagOf, a, b);
    assert run[..2] == [run[0], run[1]];
    var alice := KboardUser(1, "alice", "", "", "", "", "");
    assert [alice][..0] == [] && UserCredential(env, alice).Some?;
  }

  lemma ThreeRounds(env: SyncEnv, tagOf: Tagging, a: seq<KboardUser>, b: seq<KboardUser>)
    requires Identifies(tagOf)
    ensures
      var run, start := StaleRun(tagOf, a, b), Client("", []);
      && HonestRun(env, tagOf, start, run)
      && After(env, start, [run[0], run[1]]) == Client(tagOf(a), Credentials(env, b))
      && After(env, start, run) == Client(tagOf(a), Credentials(env, b))
  {
    hide Credentials;
    var run := StaleRun(tagOf, a, b);
    var one, two, start := [run[0]], [run[0], run[1]], Client("", []);
    assert one[..0] == [] && two[..1] == one && run[..2] == two;
    assert HonestRun(env, tagOf, start, one) && After(env, start, one) == Client(tagOf(a), Credentials(env, a));
    assert HonestRun(env, tagOf, start, two) && After(env, start, two) == Client(tagOf(a), Credentials(env, b));
  }
}
