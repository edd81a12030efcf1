/**
 * New: from a configuration to a running node's tables, and what a validated configuration guarantees to
 * the code that runs on them.
 */
module NodeSetup {
  import opened Base64
  import opened Checks
  import opened ClientStore
  import opened Config
  import opened Keys
  import opened Settings
  import opened Text
  import opened Wrappers

  // ----- Static credentials -----

  /** The bytes of a key text that decodes. */
  function KeyOf(text: string): seq<Byte> {
    if KeyBytes(text).Some? then KeyBytes(text).value else []
  }

  predicate HasOwnClient(k: ServerKless) { k.clientId != "" && k.clientSecret != "" }

  predicate SecretsDecode(k: ServerKless) {
    (HasOwnClient(k) ==> KeyBytes(k.clientSecret).Some?) && forall c <- k.clients :: KeyBytes(c.clientSecret).Some?
  }

  function ClientEntries(cs: seq<ServerClient>): (r: seq<Entry>)
    ensures |r| == |cs|
  {
    if cs == [] then [] else ClientEntries(cs[..|cs| - 1]) + [ClientEntry(cs[|cs| - 1])]
  }

  function ClientEntry(c: ServerClient): Entry { Entry(c.clientId, KeyOf(c.clientSecret), 0) }

  function OwnEntries(k: ServerKless): seq<Entry> {
    if HasOwnClient(k) then [Entry(k.clientId, KeyOf(k.clientSecret), 0)] else []
  }

  /** The credentials of one server inbound: its own client first, then the listed ones; none has a user. */
  function StaticEntries(k: ServerKless): seq<Entry> {
    OwnEntries(k) + ClientEntries(k.clients)
  }

  /** The static credentials of all server inbounds, in order. */
  function AllStatics(xs: seq<Inbound>): seq<Entry> {
    if xs == [] then []
    else
      var last := xs[|xs| - 1];
      AllStatics(xs[..|xs| - 1]) + if last.mode == KLESS_SERVER then StaticEntries(last.kless) else []
  }

  lemma ClientEntriesStep(cs: seq<ServerClient>, i: nat)
    requires i < |cs|
    ensures ClientEntries(cs[..i + 1]) == ClientEntries(cs[..i]) + [ClientEntry(cs[i])]
  {
    assert cs[..i + 1][..i] == cs[..i];
  }

  /** staticClientCredentials. */
  method StaticClientCredentials(k: ServerKless) returns (ok: bool, credentials: seq<ClientCredential>)
    ensures ok <==> SecretsDecode(k)
    ensures ok ==> Views(credentials) == StaticEntries(k)
    ensures forall c <- credentials :: fresh(c.secret)
  {
    hide Views, ClientEntries, KeyBytes;
    credentials := [];
    ViewsEmpty();
    if HasOwnClient(k) {
      var secret := DecodeKey(k.clientSecret);
      if secret.Err? { return false, []; }
      var c := Filled(Entry(k.clientId, secret.value, 0));
      ViewsAppend(credentials, c);
      credentials := credentials + [c];
    }
    assert Views(credentials) == OwnEntries(k);
    var i := 0;
    NoEntries();
    assert k.clients[..0] == [];
    while i < |k.clients|
      invariant 0 <= i <= |k.clients|
      invariant Views(credentials) == OwnEntries(k) + ClientEntries(k.clients[..i])
      invariant forall c <- k.clients[..i] :: KeyBytes(c.clientSecret).Some?
      invariant forall c <- credentials :: fresh(c.secret)
    {
      ClientEntriesStep(k.clients, i);
      label before:
      var secret := DecodeKey(k.clients[i].clientSecret);
      if secret.Err? { return false, []; }
      var c := Filled(Entry(k.clients[i].clientId, secret.value, 0));
      ViewsKept@before(credentials);
      ViewsAppend(credentials, c);
      assert View(c) == ClientEntry(k.clients[i]);
      assert (OwnEntries(k) + ClientEntries(k.clients[..i])) + [View(c)] == OwnEntries(k) + (ClientEntries(k.clients[..i]) + [View(c)]);
      credentials := credentials + [c];
      i := i + 1;
    }
    assert k.clients[..i] == k.clients;
    return true, credentials;
  }

  lemma NoEntries()
    ensures ClientEntries([]) == []
  {
  }

  // ----- The node's tables -----

  datatype Relay = Relay(listenId: string, cfg: ServerKless, signing: seq<Byte>)

  /** newServerRelay. On failure the store is as it was. */
  method NewServerRelay(listenId: string, cfg: ServerKless, store: DynamicClientStore) returns (r: Option<Relay>)
    requires store.Valid()
    modifies store
    ensures store.Valid() && store.dynamics == old(store.dynamics) && fresh(store.Repr - old(store.Repr))
    ensures r.Some? <==> PrivateKeyOk(cfg.serverSigningPrivate) && SecretsDecode(cfg)
    ensures r.Some? ==> r.value == Relay(listenId, cfg, KeyOf(cfg.serverSigningPrivate))
    ensures store.statics == old(store.statics) + if r.Some? then StaticEntries(cfg) else []
  {
    hide Views, StaticEntries, KeyBytes, SecretsDecode, Represents;
    var private := DecodeKey(cfg.serverSigningPrivate);
    if private.Err? || |private.value| != PRIVATE_KEY_SIZE { return None; }
    var ok, credentials := StaticClientCredentials(cfg);
    if !ok { return None; }
    store.AddStatic(credentials);
    return Some(Relay(listenId, cfg, private.value));
  }

  predicate CaFilesIn(us: seq<Upstream>, files: set<string>) {
    forall u <- us :: u.caFile != "" ==> u.caFile in files
  }

  type Dialers = map<string, Upstream>

  type Relays = map<string, Relay>

  /** One dialer for each upstream, under its name. */
  predicate DialersFor(us: seq<Upstream>, dialers: Dialers) {
    dialers.Keys == UpstreamNames(us) && forall u <- us :: u.name in dialers && dialers[u.name] == u
  }

  function RelayNames(xs: seq<Inbound>): set<string> { set x | x in xs && x.mode == KLESS_SERVER :: x.name }

  /** One relay for each server inbound, under its name and with its settings and key. */
  predicate RelaysFor(xs: seq<Inbound>, relays: Relays) {
    && relays.Keys == RelayNames(xs)
    && forall x <- xs :: x.mode == KLESS_SERVER ==>
         x.name in relays && relays[x.name] == Relay(x.name, x.kless, KeyOf(x.kless.serverSigningPrivate))
  }

  /**
   * Every inbound is of one of the two modes that handleConnection knows; a tcp inbound finds the dialer
   * of the upstream it names, and a server inbound finds its own relay, never none.
   */
  predicate Served(s: Settings, dialers: Dialers, relays: Relays) {
    forall x <- s.inbounds ::
      && (x.mode == KLESS_SERVER <==> x.mode != TCP) && x.maxConnections >= 0
      && (x.mode == TCP ==> x.upstream in dialers && dialers[x.upstream] in s.upstreams && dialers[x.upstream].name == x.upstream)
      && (x.mode == KLESS_SERVER ==> x.name in relays && relays[x.name].listenId == x.name && relays[x.name].cfg == x.kless)
  }

  lemma EveryInboundIsServed(env: Env, files: set<string>, s: Settings, dialers: Dialers, relays: Relays)
    requires Valid(env, files, s) && DialersFor(s.upstreams, dialers) && RelaysFor(s.inbounds, relays)
    ensures Served(s, dialers, relays)
  {
    hide UpstreamOk, ServerOk, KlessOk, KeyOf;
    forall x | x in s.inbounds && x.mode == TCP
      ensures x.upstream in dialers && dialers[x.upstream] in s.upstreams && dialers[x.upstream].name == x.upstream
    {
      assert InboundOk(env, UpstreamNames(s.upstreams), Dynamic(s.kboard), x);
      var u :| u in s.upstreams && u.name == x.upstream;
    }
  }

  predicate Positive(d: Option<Duration>) { d.Some? && d.value > 0 }

  /** Every duration whose parse error is dropped later parses, and to something positive: no ticker or timer gets less. */
  predicate DurationsPositive(env: Env, s: Settings) {
    && Positive(ParseDuration(env, s.shutdownGrace, 10 * SECOND))
    && (s.kboard.Some? ==> Positive(ParseDuration(env, s.kboard.value.reportInterval, 30 * SECOND)))
    && (forall u <- s.upstreams ::
          && Positive(ParseDuration(env, u.dialTimeout, 10 * SECOND))
          && Positive(ParseDuration(env, u.kless.handshakeTimeout, 10 * SECOND)))
    && (forall x <- s.inbounds :: x.mode == KLESS_SERVER ==>
          && Positive(ParseDuration(env, x.kless.handshakeTimeout, 10 * SECOND))
          && Positive(ParseDuration(env, x.kless.maxHandshakeSkew, env.duration(env.skewText).value))
          && Positive(ParseDuration(env, x.kless.usersRefreshInterval, 300 * SECOND)))
  }

  lemma DroppedDurationErrorsAreNil(env: Env, files: set<string>, s: Settings)
    requires Valid(env, files, s)
    ensures DurationsPositive(env, s)
  {
    hide CapabilityOf, NamesKnown, ServerNamesKnown, KeyBytes, Matches, TrimSpace;
    forall x | x in s.inbounds && x.mode == KLESS_SERVER ensures ServerOk(env, x.kless, Dynamic(s.kboard)) {
      assert InboundOk(env, UpstreamNames(s.upstreams), Dynamic(s.kboard), x);
    }
    forall u | u in s.upstreams ensures UpstreamOk(env, files, u) {}
  }

  /** The capability names of every relay are known, so the mask that is computed from them with its error dropped is one. */
  predicate CapabilitiesKnown(env: Env, relays: Relays) {
    forall name <- relays :: ServerNamesKnown(env, relays[name].cfg.capabilities)
  }

  lemma DroppedCapabilityErrorsAreNil(env: Env, files: set<string>, s: Settings, relays: Relays)
    requires Valid(env, files, s) && RelaysFor(s.inbounds, relays)
    ensures CapabilitiesKnown(env, relays)
  {
    hide ServerNamesKnown, KeyBytes, KeyOf, Matches, TrimSpace, DurationOk;
    forall name | name in relays ensures ServerNamesKnown(env, relays[name].cfg.capabilities) {
      assert name in RelayNames(s.inbounds);
      var x :| x in s.inbounds && x.mode == KLESS_SERVER && x.name == name;
      assert InboundOk(env, UpstreamNames(s.upstreams), Dynamic(s.kboard), x);
    }
  }

  class Service {
    const cfg: Config
    const dialers: Dialers
    const relays: Relays
    const store: DynamicClientStore

    constructor (cfg: Config, dialers: Dialers, relays: Relays, store: DynamicClientStore)
      ensures this.cfg == cfg && this.dialers == dialers && this.relays == relays && this.store == store
    {
      this.cfg, this.dialers, this.relays, this.store := cfg, dialers, relays, store;
    }
  }

  /**
   * New validates its own copy of the configuration (the control plane's part is shared behind its
   * pointer) and builds the tables. It succeeds exactly when the configuration is valid and the CA files
   * are still there when the dialers are made: once validated, no later step has another way to fail. In
   * the node that was built every lookup that is not guarded later finds what it needs, and every duration
   * and every capability mask whose error is dropped later is good.
   */
  method New(env: Env, cfg: Config, files: set<string>, filesLater: set<string>) returns (service: Service?)
    modifies cfg.kboard
    ensures service != null <==>
            var n := Normalised(env, old(cfg.View()));
            Valid(env, files, n) && CaFilesIn(n.upstreams, filesLater)
    ensures service != null ==>
              var n := Normalised(env, old(cfg.View()));
              && fresh(service.store) && service.cfg.View() == n
              && DialersFor(n.upstreams, service.dialers) && RelaysFor(n.inbounds, service.relays)
              && service.store.Valid() && service.store.statics == AllStatics(n.inbounds) && service.store.dynamics == []
              && Served(service.cfg.View(), service.dialers, service.relays) && DurationsPositive(env, service.cfg.View())
              && CapabilitiesKnown(env, service.relays)
  {
    hide Views, Represents, Valid, LeftBy, FirstProblem, Normalised, UpstreamsOk, CaFilesIn, DialersFor, RelaysFor, PrivateKeyOk, SecretsDecode, Dynamic, UpstreamDefaults, Distinct, AllStatics, Served, DurationsPositive, CapabilitiesKnown;
    ghost var n := Normalised(env, cfg.View());
    var mine := new Config(cfg.nodeId, cfg.adminAddress, cfg.shutdownGrace, cfg.kboard, cfg.upstreams, cfg.inbounds);
    assert mine.View() == cfg.View();
    var problem := mine.Validate(env, files);
    if problem.Some? { return null; }
    ValidParts(env, files, old(cfg.View()));
    assert mine.View() == n && mine.upstreams == n.upstreams && mine.inbounds == n.inbounds;
    var dialers := NewDialers(env, files, filesLater, mine.upstreams);
    if dialers.None? { return null; }
    var store := new DynamicClientStore();
    var relays := NewRelays(mine.inbounds, store);
    EveryInboundIsServed(env, files, n, dialers.value, relays);
    DroppedDurationErrorsAreNil(env, files, n);
    DroppedCapabilityErrorsAreNil(env, files, n, relays);
    service := new Service(mine, dialers.value, relays, store);
  }

  /** What the loops of New rely on. */
  lemma ValidParts(env: Env, files: set<string>, s: Settings)
    requires Valid(env, files, Normalised(env, s))
    ensures
      var n := Normalised(env, s);
      && UpstreamsOk(env, files, n.upstreams, |n.upstreams|) && (forall u <- n.upstreams :: UpstreamDefaults(env, u) == u)
      && Distinct(n.inbounds)
      && forall x <- n.inbounds :: x.mode == KLESS_SERVER ==> PrivateKeyOk(x.kless.serverSigningPrivate) && SecretsDecode(x.kless)
  {
    hide Defaults, UpstreamDefaults, UpstreamOk, KeyBytes, TrimSpace, DurationOk, ServerNamesKnown, Matches;
    var n := Normalised(env, s);
    NodeAsPrepared(env, s);
    forall x | x in n.inbounds && x.mode == KLESS_SERVER ensures PrivateKeyOk(x.kless.serverSigningPrivate) && SecretsDecode(x.kless) {
      var i :| 0 <= i < |n.inbounds| && n.inbounds[i] == x;
      assert InboundOk(env, UpstreamNames(n.upstreams), Dynamic(n.kboard), x);
      ClientsAreTrimmed(Prepared(env, s).inbounds[i]);
      ServerSecretsDecode(env, x.kless, Dynamic(n.kboard));
    }
  }

  lemma ClientsAreTrimmed(x: Inbound)
    requires x.mode == KLESS_SERVER
    ensures forall c <- Checked(x).kless.clients :: TrimClient(c) == c
  {
    hide TrimSpace;
    TrimClientsAgain(x.kless.clients);
    var cs := Checked(x).kless.clients;
    forall c | c in cs ensures TrimClient(c) == c {
      var i :| 0 <= i < |cs| && cs[i] == c;
      assert TrimClients(cs, |cs|)[i] == TrimClient(cs[i]);
    }
  }

  lemma ServerSecretsDecode(env: Env, k: ServerKless, dynamic: bool)
    requires ServerOk(env, k, dynamic) && (forall c <- k.clients :: TrimClient(c) == c)
    ensures PrivateKeyOk(k.serverSigningPrivate) && SecretsDecode(k)
  {
    hide KeyBytes, TrimSpace, DurationOk, ServerNamesKnown, Matches;
  }

  predicate Distinct(xs: seq<Inbound>) {
    forall i :: 0 <= i < |xs| ==> xs[i].name !in InboundNames(xs[..i])
  }

  /** The loop over the upstreams: every dialer checks its upstream once more. */
  method NewDialers(env: Env, files: set<string>, filesLater: set<string>, us: seq<Upstream>) returns (r: Option<Dialers>)
    requires UpstreamsOk(env, files, us, |us|) && forall u <- us :: UpstreamDefaults(env, u) == u
    ensures r.Some? <==> CaFilesIn(us, filesLater)
    ensures r.Some? ==> DialersFor(us, r.value)
  {
    hide UpstreamDefaults, UpstreamOk, UpstreamsOk, DialersFor, UpstreamNames;
    NoDialers();
    assert us[..0] == [];
    var dialers: Dialers := map[];
    var i := 0;
    while i < |us|
      invariant 0 <= i <= |us|
      invariant DialersFor(us[..i], dialers) && CaFilesIn(us[..i], filesLater)
    {
      var ok, dialer := ValidateUpstream(env, filesLater, us[i]);
      assert us[i] in us;
      StillOkIff(env, files, filesLater, us, i);
      if !ok { return None; }
      assert us[..i + 1] == us[..i] + [us[i]];
      DialersGrow(us, dialers, i);
      dialers := dialers[us[i].name := dialer];
      i := i + 1;
    }
    assert us[..i] == us;
    return Some(dialers);
  }

  lemma NoDialers()
    ensures DialersFor([], map[])
  {
  }

  /** Checked again, an upstream can fail for its CA file only. */
  lemma StillOkIff(env: Env, files: set<string>, filesLater: set<string>, us: seq<Upstream>, i: nat)
    requires i < |us| && UpstreamsOk(env, files, us, |us|)
    ensures us[i].name !in UpstreamNames(us[..i])
    ensures UpstreamOk(env, filesLater, us[i]) <==> (us[i].caFile != "" ==> us[i].caFile in filesLater)
  {
    hide CapabilityOf, KlessOk, DurationOk;
  }

  lemma DialersGrow(us: seq<Upstream>, dialers: Dialers, i: nat)
    requires i < |us| && DialersFor(us[..i], dialers) && us[i].name !in UpstreamNames(us[..i])
    ensures DialersFor(us[..i + 1], dialers[us[i].name := us[i]])
  {
    assert us[..i + 1] == us[..i] + [us[i]];
  }

  /** The loop over the inbounds. Its two error branches are dead: a validated server inbound has a key and decodable secrets. */
  method NewRelays(xs: seq<Inbound>, store: DynamicClientStore) returns (relays: Relays)
    requires store.Valid() && Distinct(xs)
    requires forall x <- xs :: x.mode == KLESS_SERVER ==> PrivateKeyOk(x.kless.serverSigningPrivate) && SecretsDecode(x.kless)
    modifies store
    ensures store.Valid() && store.dynamics == old(store.dynamics)
    ensures store.statics == old(store.statics) + AllStatics(xs)
    ensures RelaysFor(xs, relays)
  {
    hide Represents, PrivateKeyOk, SecretsDecode, StaticEntries, AllStatics, RelaysFor, KeyOf;
    relays := map[];
    var i := 0;
    NoRelays();
    assert xs[..0] == [];
    while i < |xs|
      invariant 0 <= i <= |xs|
      invariant store.Valid() && store.dynamics == old(store.dynamics) && fresh(store.Repr - old(store.Repr))
      invariant store.statics == old(store.statics) + AllStatics(xs[..i])
      invariant RelaysFor(xs[..i], relays)
    {
      var x := xs[i];
      RelaysGrow(xs, relays, i);
      i := i + 1;
      if x.mode != KLESS_SERVER { continue; }
      if x.kless.serverSigningPrivate == "" {
        EmptyIsNoPrivateKey();
        assert false;
      }
      var relay := NewServerRelay(x.name, x.kless, store);
      if relay.None? { assert false; }
      relays := relays[x.name := relay.value];
    }
    assert xs[..i] == xs;
  }

  lemma EmptyIsNoPrivateKey()
    ensures !PrivateKeyOk("")
  {
    assert Decode(RAW_STD, "") == Some([]);
  }

  lemma NoRelays()
    ensures RelaysFor([], map[]) && AllStatics([]) == []
  {
  }

  lemma RelaysGrow(xs: seq<Inbound>, relays: Relays, i: nat)
    requires i < |xs| && RelaysFor(xs[..i], relays) && Distinct(xs)
    ensures
      var x := xs[i];
      if x.mode == KLESS_SERVER then
        && RelaysFor(xs[..i + 1], relays[x.name := Relay(x.name, x.kless, KeyOf(x.kless.serverSigningPrivate))])
        && AllStatics(xs[..i + 1]) == AllStatics(xs[..i]) + StaticEntries(x.kless)
      else
        RelaysFor(xs[..i + 1], relays) && AllStatics(xs[..i + 1]) == AllStatics(xs[..i])
  {
    hide StaticEntries, KeyOf;
    var x := xs[i];
    assert xs[..i + 1] == xs[..i] + [x] && xs[..i + 1][..i] == xs[..i];
    assert RelayNames(xs[..i + 1]) == RelayNames(xs[..i]) + if x.mode == KLESS_SERVER then {x.name} else {};
  }
}
