/**
 * What a validated configuration guarantees to the code that runs on it: the settings handed to KLESS are
 * good although errors are dropped on the way, validating again is harmless or not, and credentials are coherent.
 */
module Guarantees {
  import opened Base64
  import opened Checks
  import opened ClientStore
  import opened Config
  import opened Keys
  import opened NodeSetup
  import opened Settings
  import opened Text
  import opened UserSync
  import opened Wrappers

  // ----- Dropped errors -----

  datatype ServerSide = ServerSide(
    signing: seq<Byte>, capabilities: Mask, maxFramePayload: int, paddingMin: int, paddingMax: int, maxHandshakeSkew: Duration, handshakeTimeout: Duration)

  /** A duration whose parse error is dropped: zero when it fails. */
  function DurationOrZero(d: Option<Duration>): Duration { if d.Some? then d.value else 0 }

  function DefaultInt(value: int, fallback: int): int { if value == 0 then fallback else value }

  /** serverConfig. Three errors are dropped on the way; for a validated server inbound all three are nil. */
  method ServerConfig(env: Env, relay: Relay, defaultPayload: nat) returns (c: ServerSide)
    requires defaultPayload > 0
    ensures c.signing == relay.signing && c.paddingMin == relay.cfg.paddingMin && c.paddingMax == relay.cfg.paddingMax
    ensures c.maxFramePayload == if relay.cfg.maxFramePayload == 0 then defaultPayload else relay.cfg.maxFramePayload
    ensures DurationOk(env, relay.cfg.maxHandshakeSkew) ==>
              Some(c.maxHandshakeSkew) == Meant(env, relay.cfg.maxHandshakeSkew, env.duration(env.skewText).value)
    ensures DurationOk(env, relay.cfg.handshakeTimeout) ==>
              Some(c.handshakeTimeout) == Meant(env, relay.cfg.handshakeTimeout, 10 * SECOND)
    ensures forall dynamic :: ServerOk(env, relay.cfg, dynamic) ==>
              && c.capabilities != 0 && ServerNamesKnown(env, relay.cfg.capabilities)
              && IsServerMask(env, relay.cfg.capabilities, c.capabilities)
              && c.maxFramePayload > 0 && PaddingOk(env, c.paddingMin, c.paddingMax)
              && c.maxHandshakeSkew > 0 && c.handshakeTimeout > 0
  {
    hide ServerNamesKnown, IsServerMask, KeyBytes, Matches, TrimSpace;
    var caps := CapabilityMaskForNames(env, relay.cfg.capabilities);
    var skew := ParseDuration(env, relay.cfg.maxHandshakeSkew, env.duration(env.skewText).value);
    var timeout := ParseDuration(env, relay.cfg.handshakeTimeout, 10 * SECOND);
    c := ServerSide(relay.signing, if caps.Some? then caps.value else 0, DefaultInt(relay.cfg.maxFramePayload, defaultPayload),
                    relay.cfg.paddingMin, relay.cfg.paddingMax, DurationOrZero(skew), DurationOrZero(timeout));
  }

  datatype ClientSide = ClientSide(
    clientId: string, secret: seq<Byte>, signingKey: seq<Byte>, capabilities: Mask, maxFramePayload: int,
    paddingMin: int, paddingMax: int, handshakeTimeout: Duration)

  /** ClientConfig: for a validated upstream it does not fail, so dialling fails at the handshake only in the handshake. */
  method ClientConfig(env: Env, k: Kless, transport: string, defaultPayload: nat) returns (c: Option<ClientSide>)
    requires defaultPayload > 0
    ensures KlessOk(env, k, transport) ==> c.Some?
    ensures c.Some? ==>
              && c.value.clientId == k.clientId && c.value.paddingMin == k.paddingMin && c.value.paddingMax == k.paddingMax
              && c.value.maxFramePayload == (if k.maxFramePayload == 0 then defaultPayload else k.maxFramePayload)
              && Some(c.value.handshakeTimeout) == Meant(env, k.handshakeTimeout, 10 * SECOND)
    ensures c.Some? ==>
              && KeyBytes(k.clientSecret) == Some(c.value.secret) && KeyBytes(k.serverSigningKey) == Some(c.value.signingKey)
              && NamesKnown(env, transport, k.capabilities) && IsMaskFor(env, transport, k.capabilities, c.value.capabilities)
              && c.value.capabilities != 0 && c.value.handshakeTimeout > 0
    ensures KlessOk(env, k, transport) ==>
              |c.value.secret| >= 32 && |c.value.signingKey| == PUBLIC_KEY_SIZE && c.value.secret != c.value.signingKey
              && c.value.maxFramePayload > 0 && PaddingOk(env, c.value.paddingMin, c.value.paddingMax) && c.value.clientId == k.clientId != ""
  {
    hide NamesKnown, IsMaskFor, KeyBytes, Matches, TrimSpace;
    var secret := DecodeKey(k.clientSecret);
    if secret.Err? { return None; }
    var signingKey := DecodeKey(k.serverSigningKey);
    if signingKey.Err? { return None; }
    var caps := CapabilityMask(env, transport, k.capabilities);
    if caps.None? { return None; }
    var timeout := ParseDuration(env, k.handshakeTimeout, 10 * SECOND);
    if timeout.None? { return None; }
    return Some(ClientSide(k.clientId, secret.value, signingKey.value, caps.value, DefaultInt(k.maxFramePayload, defaultPayload),
                           k.paddingMin, k.paddingMax, timeout.value));
  }

  // ----- Validating again -----

  /**
   * A validated configuration passes a second Validate if and only if its public URL, trimmed further, is
   * still there and still a request URI.
   */
  lemma SecondValidateSucceedsIff(env: Env, files: set<string>, s: Settings)
    requires Valid(env, files, Normalised(env, s))
    ensures
      var n := Normalised(env, s);
      Valid(env, files, Normalised(env, n)) <==>
      (n.kboard.Some? ==>
         var url := NormalUrl(NormalUrl(n.kboard.value.publicUrl));
         url != "" && env.isRequestUri(url))
  {
    hide Normalised, UpstreamsOk, InboundsOk, NormalUrl, DurationOk;
    NormalisedAgain(env, s);
  }

  /** A URL of slashes and spaces can pass once and be trimmed to nothing the second time. */
  lemma SlashesRunOut()
    ensures NormalUrl(NormalUrl("/ / /")) == "/ " && NormalUrl(NormalUrl("/ ")) == ""
  {
    hide NormalUrl;
    SlashIsNotSpace();
    assert "/ / /" == "/ / " + "/" && "/ / " == "/ " + "/ ";
    DropSlash("/ / ");
    DropSlash("/ ");
    SlashAndSpace();
  }

  lemma SlashAndSpace()
    ensures NormalUrl("/ ") == "" && NormalUrl("") == ""
  {
    hide NormalUrl, IsSpace, TrimSpace;
    SlashIsNotSpace();
    assert "/ " == "/" + " " && "/"[..0] == "" && TrimSlashes("/") == "";
    DropSpace("/");
    NormalUrlShrinks("");
  }

  /**
   * So there are configurations that pass once and fail the second time, as when a loaded configuration is
   * handed to New: any valid one with a control plane becomes such a one with this URL.
   */
  lemma ValidOnceOnly(env: Env, files: set<string>, s: Settings)
    requires s.kboard.Some? && Valid(env, files, Normalised(env, s)) && env.isRequestUri("/ ")
    ensures
      var spaced := WithUrl(s, "/ / /");
      Valid(env, files, Normalised(env, spaced)) && !Valid(env, files, Normalised(env, Normalised(env, spaced)))
  {
    hide UpstreamsOk, InboundsOk, NormalUrl, NormalEndpoint, TrimSpace, DurationOk, UpstreamsDefaults, InboundsDefaults, CheckedInbounds;
    var spaced := WithUrl(s, "/ / /");
    SlashesRunOut();
    var n, m := Normalised(env, s), Normalised(env, spaced);
    assert m == WithUrl(n, "/ ");
    SecondValidateSucceedsIff(env, files, spaced);
  }

  // ----- Credentials -----

  predicate SoundStatic(e: Entry) {
    |e.secret| >= 32 && e.userId == 0 && e.clientId != "" && Trimmed(e.clientId)
  }

  lemma ServerStaticsAreSound(env: Env, x: Inbound, dynamic: bool)
    requires x.mode == KLESS_SERVER && ServerOk(env, x.kless, dynamic)
    requires ServerDefaults(env, x.kless) == x.kless && (forall c <- x.kless.clients :: TrimClient(c) == c)
    ensures forall e <- StaticEntries(x.kless) :: SoundStatic(e)
  {
    hide KeyBytes, TrimSpace, Trimmed, ServerNamesKnown, DurationOk, Matches;
    var k := x.kless;
    TrimSpaceTrims(k.clientId);
    forall c | c in k.clients ensures SoundStatic(ClientEntry(c)) {
      assert ClientOk(TrimClient(c));
      TrimSpaceTrims(c.clientId);
    }
    EachFromClient(k.clients);
  }

  lemma {:induction false} EachFromClient(cs: seq<ServerClient>)
    ensures forall e <- ClientEntries(cs) :: exists c :: c in cs && e == ClientEntry(c)
  {
    if cs != [] {
      EachFromClient(cs[..|cs| - 1]);
      assert cs[|cs| - 1] in cs;
    }
  }

  lemma {:induction false} AllStaticsAre(xs: seq<Inbound>)
    requires forall x <- xs :: x.mode == KLESS_SERVER ==> forall e <- StaticEntries(x.kless) :: SoundStatic(e)
    ensures forall e <- AllStatics(xs) :: SoundStatic(e)
  {
    hide SoundStatic, StaticEntries;
    if xs != [] {
      assert xs[|xs| - 1] in xs;
      AllStaticsAre(xs[..|xs| - 1]);
    }
  }

  /** The static credentials of a validated configuration: long secrets, proper ids, no users. */
  lemma StaticsAreSound(env: Env, files: set<string>, s: Settings)
    requires Valid(env, files, Normalised(env, s))
    ensures forall e <- AllStatics(Normalised(env, s).inbounds) :: SoundStatic(e)
  {
    hide ServerOk, StaticEntries, AllStatics, SoundStatic, UpstreamsOk, Defaults, ServerDefaults;
    var n := Normalised(env, s);
    NodeAsPrepared(env, s);
    forall x | x in n.inbounds && x.mode == KLESS_SERVER ensures forall e <- StaticEntries(x.kless) :: SoundStatic(e) {
      var i :| 0 <= i < |n.inbounds| && n.inbounds[i] == x;
      var d := Prepared(env, s).inbounds[i];
      assert InboundOk(env, UpstreamNames(n.upstreams), Dynamic(n.kboard), x);
      ClientsAreTrimmed(d);
      CheckedKeepsDefaults(env, d);
      ServerStaticsAreSound(env, x, Dynamic(n.kboard));
    }
    AllStaticsAre(n.inbounds);
  }

  lemma CheckedKeepsDefaults(env: Env, d: Inbound)
    requires InboundDefaults(env, d) == d
    ensures ServerDefaults(env, Checked(d).kless) == Checked(d).kless
  {
    hide TrimSpace;
  }

  /**
   * In any state of the store of a node started from a valid configuration, after any run of syncs: a
   * secret that can be looked up has at least 32 bytes, and a positive user id for a client means that the
   * secret returned for it is the one of that very user of the last list that arrived.
   */
  lemma CredentialCoherence(env: Env, files: set<string>, s: Settings, sync: SyncEnv, rounds: seq<Round>, id: string)
    requires Valid(env, files, Normalised(env, s))
    ensures
      var statics, dynamics := AllStatics(Normalised(env, s).inbounds), After(sync, UserSync.Client("", []), rounds).entries;
      var found, userId := Found(statics, dynamics, id), UserIdOf(statics, dynamics, id);
      && (found.Some? ==> |found.value.secret| >= 32)
      && (userId > 0 ==>
            && found.Some? && TrimSpace(found.value.clientId) == id
            && exists u :: u in Pulled(rounds) && u.id == userId && UserCredential(sync, u) == found)
  {
    hide Normalised, Valid, AllStatics, Credentials, After, Pulled, UserCredential, TrimSpace, LastUsable, Trimmed;
    var users := Pulled(rounds);
    var statics, dynamics := AllStatics(Normalised(env, s).inbounds), Credentials(sync, users);
    LayerIsPulled(sync, rounds);
    StaticsAreSound(env, files, s);
    CredentialsAreSound(sync, users);
    if Found(statics, dynamics, id).Some? {
      RetrievableSecretsAreLong(statics, dynamics, id, 32);
    }
    if UserIdOf(statics, dynamics, id) > 0 {
      UserOwnsSecret(statics, dynamics, id);
      var e := Found(statics, dynamics, id).value;
      LastUsableIsMember(dynamics, id);
      LastUsableHasId(dynamics, id);
      var u :| u in users && UserCredential(sync, u) == Some(e) && e.userId == u.id;
    }
  }

  /** The rounds of a reporter, as far as they matter to the store. */
  function RoundsOf(responses: seq<Response>): (r: seq<Round>)
    ensures |r| == |responses|
  {
    seq(|responses|, i requires 0 <= i < |responses| => Round([], responses[i]))
  }

  predicate IsCredentialOf(sync: SyncEnv, u: KboardUser, id: string, secret: seq<Byte>) {
    match UserCredential(sync, u)
    case Some(e) => TrimSpace(e.clientId) == id && e.secret == secret
    case None => false
  }

  /**
   * A node at work: New, any answers to the reporter's syncs, then the two lookups of a connection on the
   * shared store. A secret that is found has at least 32 bytes; a positive user id comes with the secret of that
   * very user of the last list that arrived.
   */
  method LookupAfterSyncs(env: Env, cfg: Config, files: set<string>, filesLater: set<string>, sync: SyncEnv, responses: seq<Response>, id: string)
    returns (service: Service?, secret: array<Byte>, ok: bool, userId: int)
    modifies cfg.kboard
    ensures service == null ==> !ok && userId == 0
    ensures ok ==> secret.Length >= 32
    ensures userId > 0 ==>
              && ok
              && exists u :: u in Pulled(RoundsOf(responses)) && u.id == userId && IsCredentialOf(sync, u, id, secret[..])
  {
    hide Valid, Normalised, AllStatics, DialersFor, RelaysFor, Served, DurationsPositive, CapabilitiesKnown,
      Represents, Found, UserIdOf, Credentials, UserCredential, TrimSpace, CaFilesIn, Sync, Pulled;
    ghost var s := cfg.View();
    service := New(env, cfg, files, filesLater);
    if service == null {
      return null, new Byte[0], false, 0;
    }
    var users := service.cfg.Kboard();
    var enabled := users.Some? && users.value.usersEndpoint != "" && service.relays != map[];
    var reporter := new KboardReporter(sync, enabled, service.store);
    ghost var rounds: seq<Round> := [];
    var i := 0;
    while i < |responses|
      invariant 0 <= i <= |responses| && service.store.Valid()
      invariant service.store.statics == AllStatics(Normalised(env, s).inbounds)
      invariant rounds == if enabled then RoundsOf(responses[..i]) else []
      invariant reporter.State() == After(sync, UserSync.Client("", []), rounds)
    {
      reporter.SyncUsers(responses[i]);
      if enabled {
        RoundsGrow(responses, i);
        assert RoundsOf(responses[..i + 1])[..i] == rounds;
        rounds := RoundsOf(responses[..i + 1]);
      }
      i := i + 1;
    }
    assert responses[..i] == responses;
    secret, ok := service.store.LookupClientSecret(id);
    userId := service.store.UserID(id);
    CredentialCoherence(env, files, s, sync, rounds, id);
    NothingPulled();
  }

  lemma RoundsGrow(responses: seq<Response>, i: nat)
    requires i < |responses|
    ensures RoundsOf(responses[..i + 1]) == RoundsOf(responses[..i]) + [Round([], responses[i])]
  {
  }

  lemma NothingPulled()
    ensures Pulled([]) == []
  {
  }

  lemma {:induction false} LastUsableHasId(es: seq<Entry>, id: string)
    ensures LastUsable(es, id).Some? ==> TrimSpace(LastUsable(es, id).value.clientId) == id
  {
    if es != [] { LastUsableHasId(es[..|es| - 1], id); }
  }
}
