/**
 * The checks of the parts of a configuration, and what passing them is worth later: durations that parse
 * to something positive, capability masks that name what was asked for, keys of the right size.
 */
module Checks {
  import Base64
  import opened Keys
  import opened Settings
  import opened Text
  import opened Wrappers

  // ----- Durations -----

  /** parseDuration. */
  function ParseDuration(env: Env, text: string, fallback: Duration): Option<Duration> {
    if text == "" then Some(fallback)
    else if env.duration(text).Some? && env.duration(text).value > 0 then env.duration(text)
    else None
  }

  predicate DurationOk(env: Env, text: string) {
    text == "" || (env.duration(text).Some? && env.duration(text).value > 0)
  }

  /** A duration that passed its check is positive wherever it is read again, and the error dropped there is nil. */
  lemma DurationOkIff(env: Env, text: string, fallback: Duration)
    requires fallback > 0
    ensures DurationOk(env, text) <==> ParseDuration(env, text, fallback).Some?
    ensures DurationOk(env, text) ==> ParseDuration(env, text, fallback).value > 0
  {
  }

  // ----- Capability masks -----

  /** capabilityForTransport, up to the mask bits. */
  function CapabilityOf(transport: string): Option<Capability> {
    if transport == TCP then Some(Tcp)
    else if transport == "tls" then Some(Tls)
    else if transport == "httpupgrade" || transport == "httpupdate" then Some(HttpUpgrade)
    else if transport == "websocket" then Some(WebSocket)
    else if transport == "httpstream" then Some(HttpStream)
    else if transport == "grpc" then Some(Grpc)
    else if transport == "xhttp" then Some(Xhttp)
    else if transport == "http3" then Some(Http3)
    else None
  }

  /** Every name with its capability. */
  const CAPABILITIES: seq<(string, Capability)> := [
    ("tcp", Tcp), ("tls", Tls), ("httpupgrade", HttpUpgrade), ("httpupdate", HttpUpgrade), ("websocket", WebSocket),
    ("httpstream", HttpStream), ("grpc", Grpc), ("xhttp", Xhttp), ("http3", Http3)]

  lemma CapabilityIsListed(transport: string, c: Capability)
    ensures CapabilityOf(transport) == Some(c) <==> (transport, c) in CAPABILITIES
  {
    hide CapabilityOf;
    if (transport, c) in CAPABILITIES {
      var i :| 0 <= i < |CAPABILITIES| && CAPABILITIES[i] == (transport, c);
      ListedIsCapability(i);
    }
    if CapabilityOf(transport) == Some(c) { CapabilityListedAt(transport); }
  }

  lemma ListedIsCapability(i: nat)
    requires i < |CAPABILITIES|
    ensures CapabilityOf(CAPABILITIES[i].0) == Some(CAPABILITIES[i].1)
  {
    assert "httpupgrade"[5] != "httpupdate"[6];
  }

  lemma CapabilityListedAt(transport: string)
    requires CapabilityOf(transport).Some?
    ensures (transport, CapabilityOf(transport).value) in CAPABILITIES
  {
    var i :=
      if transport == TCP then 0 else if transport == "tls" then 1 else if transport == "httpupgrade" then 2
      else if transport == "httpupdate" then 3 else if transport == "websocket" then 4 else if transport == "httpstream" then 5
      else if transport == "grpc" then 6 else if transport == "xhttp" then 7 else 8;
    assert CAPABILITIES[i].0 == transport && CAPABILITIES[i].1 == CapabilityOf(transport).value;
  }

  /** Of the transports, TCP and TLS are dialled by address. */
  lemma AddressOrUrl(transport: string)
    requires CapabilityOf(transport).Some?
    ensures UsesAddress(transport) <==> CapabilityOf(transport) == Some(Tcp) || CapabilityOf(transport) == Some(Tls)
  {
  }

  /** What one configured name of an upstream stands for. */
  function NamedMask(env: Env, name: string): Option<Mask> {
    match CapabilityOf(Folded(env.lower, name))
    case Some(c) => Some(env.mask(c))
    case None => None
  }

  /** What one configured name of a server stands for; blank names are skipped. */
  function ServerNamedMask(env: Env, name: string): Option<Mask> {
    var n := Folded(env.lower, name);
    if n == "" then Some(0) else if n == "all" then Some(env.maskOfAll) else NamedMask(env, name)
  }

  function Or(m: Mask, p: Mask): Mask { m | p }

  function Without(m: Mask, p: Mask): Mask { m & !p }

  function And(m: Mask, bits: Mask): Mask { m & bits }

  predicate Meets(m: Mask, bits: Mask) { And(m, bits) != 0 }

  /** A mask holds exactly the bits of its parts: it meets some bits if and only if a part does. */
  ghost predicate IsUnion(m: Mask, parts: seq<Mask>) {
    forall bits :: Meets(m, bits) <==> exists p :: p in parts && Meets(p, bits)
  }

  lemma UnionOfNothing()
    ensures IsUnion(0, [])
  {
  }

  lemma UnionWithOneMore(m: Mask, parts: seq<Mask>, p: Mask)
    requires IsUnion(m, parts)
    ensures IsUnion(Or(m, p), parts + [p])
  {
    hide Or, Meets;
    var u := Or(m, p);
    forall bits ensures Meets(u, bits) <==> exists q :: q in parts + [p] && Meets(q, bits) {
      OrMeets(m, p, bits);
      assert p in parts + [p];
    }
  }

  lemma OrMeets(m: Mask, p: Mask, bits: Mask)
    ensures Meets(Or(m, p), bits) <==> Meets(m, bits) || Meets(p, bits)
  {
    hide Or, And;
    Distributes(m, p, bits);
    OrIsZero(And(m, bits), And(p, bits));
  }

  lemma Distributes(m: Mask, p: Mask, bits: Mask)
    ensures And(Or(m, p), bits) == Or(And(m, bits), And(p, bits))
  {
  }

  lemma OrIsZero(x: Mask, y: Mask)
    ensures Or(x, y) == 0 <==> x == 0 && y == 0
  {
  }

  lemma MeetsItself(m: Mask)
    ensures Meets(m, m) <==> m != 0
  {
    assert m & m == m;
  }

  /** There is only one such mask. */
  lemma UnionUnique(m: Mask, m': Mask, parts: seq<Mask>)
    requires IsUnion(m, parts) && IsUnion(m', parts)
    ensures m == m'
  {
    hide IsUnion, Without;
    NoDifference(m, m', parts);
    NoDifference(m', m, parts);
    SameIfNoDifference(m, m');
  }

  lemma NoDifference(m: Mask, m': Mask, parts: seq<Mask>)
    requires IsUnion(m, parts) && IsUnion(m', parts)
    ensures Without(m, m') == 0
  {
    hide Meets, Without;
    var d := Without(m, m');
    Difference(m, m');
    assert Meets(m, d) <==> Meets(m', d);
  }

  lemma Difference(m: Mask, m': Mask)
    ensures (Meets(m, Without(m, m')) <==> Without(m, m') != 0) && !Meets(m', Without(m, m'))
  {
    assert m & (m & !m') == m & !m';
    assert m' & (m & !m') == 0;
  }

  lemma SameIfNoDifference(m: Mask, m': Mask)
    requires Without(m, m') == 0 && Without(m', m) == 0
    ensures m == m'
  {
    Splits(m, m');
    Splits(m', m);
    Commutes(m, m');
  }

  lemma Splits(m: Mask, m': Mask)
    ensures m & !m' == 0 ==> m == m & m'
  {
  }

  lemma Commutes(m: Mask, m': Mask)
    ensures m & m' == m' & m
  {
  }

  /** A union is nonzero exactly when a part is. */
  lemma UnionNonzero(m: Mask, parts: seq<Mask>)
    requires IsUnion(m, parts)
    ensures m != 0 <==> exists p :: p in parts && p != 0
  {
    hide Meets;
    MeetsItself(m);
    forall p | p in parts && p != 0 ensures m != 0 {
      MeetsItself(p);
      assert Meets(m, p);
      NothingMeetsZero(p);
    }
    if m != 0 {
      var p :| p in parts && Meets(p, m);
      assert p != 0 by { NothingMeetsZero(m); }
    }
  }

  lemma NothingMeetsZero(bits: Mask)
    ensures !Meets(0, bits)
  {
  }

  /** What the upstream names come to: every one known, and the mask their union. Without names it is the transport's own. */
  predicate NamesKnown(env: Env, transport: string, names: seq<string>) {
    if names == [] then CapabilityOf(transport).Some? else forall n <- names :: NamedMask(env, n).Some?
  }

  function Parts(env: Env, names: seq<string>): seq<Mask>
    requires forall n <- names :: NamedMask(env, n).Some?
  {
    seq(|names|, i requires 0 <= i < |names| => NamedMask(env, names[i]).value)
  }

  ghost predicate IsMaskFor(env: Env, transport: string, names: seq<string>, m: Mask)
    requires NamesKnown(env, transport, names)
  {
    if names == [] then m == env.mask(CapabilityOf(transport).value) else IsUnion(m, Parts(env, names))
  }

  /** capabilityMask. */
  method CapabilityMask(env: Env, transport: string, names: seq<string>) returns (r: Option<Mask>)
    ensures r.Some? <==> NamesKnown(env, transport, names)
    ensures r.Some? ==> IsMaskFor(env, transport, names, r.value) && r.value != 0
  {
    hide CapabilityOf, IsUnion, NamedMask, Or;
    if names == [] {
      var c := CapabilityOf(transport);
      return if c.None? then None else Some(env.mask(c.value));
    }
    var caps: Mask := 0;
    var i := 0;
    UnionOfNothing();
    assert Parts(env, names[..0]) == [];
    while i < |names|
      invariant 0 <= i <= |names|
      invariant forall n <- names[..i] :: NamedMask(env, n).Some?
      invariant IsUnion(caps, Parts(env, names[..i]))
    {
      var capability := NamedMask(env, names[i]);
      if capability.None? { return None; }
      UnionWithOneMore(caps, Parts(env, names[..i]), capability.value);
      assert Parts(env, names[..i + 1]) == Parts(env, names[..i]) + [capability.value];
      caps := Or(caps, capability.value);
      i := i + 1;
    }
    assert names[..i] == names;
    UnionNonzero(caps, Parts(env, names));
    NamedMaskNonzero(env, names[0]);
    assert Parts(env, names)[0] in Parts(env, names);
    return Some(caps);
  }

  lemma NamedMaskNonzero(env: Env, name: string)
    ensures NamedMask(env, name).Some? ==> NamedMask(env, name).value != 0
  {
  }

  /** What the server names come to: every one known or blank, and not all of them blank. Without names it is everything. */
  predicate ServerNamesKnown(env: Env, names: seq<string>) {
    names == [] || ((forall n <- names :: ServerNamedMask(env, n).Some?) && exists n :: n in names && Folded(env.lower, n) != "")
  }

  function ServerParts(env: Env, names: seq<string>): seq<Mask>
    requires forall n <- names :: ServerNamedMask(env, n).Some?
  {
    seq(|names|, i requires 0 <= i < |names| => ServerNamedMask(env, names[i]).value)
  }

  ghost predicate IsServerMask(env: Env, names: seq<string>, m: Mask)
    requires ServerNamesKnown(env, names)
  {
    if names == [] then m == env.maskOfAll else IsUnion(m, ServerParts(env, names))
  }

  /** capabilityMaskForNames. */
  method CapabilityMaskForNames(env: Env, names: seq<string>) returns (r: Option<Mask>)
    ensures r.Some? <==> ServerNamesKnown(env, names)
    ensures r.Some? ==> IsServerMask(env, names, r.value) && r.value != 0
  {
    hide Folded, CapabilityOf, IsUnion, ServerNamedMask, Or;
    if names == [] { return Some(env.maskOfAll); }
    var caps: Mask := 0;
    var i := 0;
    UnionOfNothing();
    assert ServerParts(env, names[..0]) == [];
    while i < |names|
      invariant 0 <= i <= |names|
      invariant forall n <- names[..i] :: ServerNamedMask(env, n).Some?
      invariant IsUnion(caps, ServerParts(env, names[..i]))
    {
      var name := Folded(env.lower, names[i]);
      ServerNameStep(env, names, i, caps);
      i := i + 1;
      if name == "" {
        continue;
      }
      if name == "all" {
        caps := Or(caps, env.maskOfAll);
        continue;
      }
      var capability := CapabilityOf(name);
      if capability.None? { return None; }
      caps := Or(caps, env.mask(capability.value));
    }
    assert names[..i] == names;
    UnionNonzero(caps, ServerParts(env, names));
    ServerMaskNonzeroIff(env, names);
    if caps == 0 { return None; }
    return Some(caps);
  }

  /** The turn of the loop at one name. */
  lemma ServerNameStep(env: Env, names: seq<string>, i: nat, caps: Mask)
    requires i < |names| && (forall n <- names[..i] :: ServerNamedMask(env, n).Some?)
    requires IsUnion(caps, ServerParts(env, names[..i]))
    ensures
      var name := Folded(env.lower, names[i]);
      var p := if name == "" then Some(0) else if name == "all" then Some(env.maskOfAll)
               else if CapabilityOf(name).Some? then Some(env.mask(CapabilityOf(name).value)) else None;
      && (p.None? ==> ServerNamedMask(env, names[i]).None?)
      && (p.Some? ==>
            && (forall n <- names[..i + 1] :: ServerNamedMask(env, n).Some?)
            && IsUnion(Or(caps, p.value), ServerParts(env, names[..i + 1])) && (name == "" ==> Or(caps, p.value) == caps))
  {
    hide Folded, CapabilityOf, IsUnion, Or;
    var p := ServerNamedMask(env, names[i]);
    if p.Some? {
      UnionWithOneMore(caps, ServerParts(env, names[..i]), p.value);
      OrZero(caps);
      assert ServerParts(env, names[..i + 1]) == ServerParts(env, names[..i]) + [p.value];
    }
  }

  lemma OrZero(m: Mask)
    ensures Or(m, 0) == m
  {
  }

  lemma ServerMaskNonzeroIff(env: Env, names: seq<string>)
    requires forall n <- names :: ServerNamedMask(env, n).Some?
    ensures (exists p :: p in ServerParts(env, names) && p != 0) <==> exists n :: n in names && Folded(env.lower, n) != ""
  {
    hide Folded, CapabilityOf;
    var parts := ServerParts(env, names);
    forall n | n in names && Folded(env.lower, n) != "" ensures exists p :: p in parts && p != 0 {
      var i :| 0 <= i < |names| && names[i] == n;
      assert parts[i] in parts && parts[i] != 0;
    }
  }

  // ----- Keys -----

  predicate SecretOk(text: string) {
    KeyBytes(text).Some? && |KeyBytes(text).value| >= 32
  }

  predicate PublicKeyOk(text: string) {
    KeyBytes(text).Some? && |KeyBytes(text).value| == PUBLIC_KEY_SIZE
  }

  predicate PrivateKeyOk(text: string) {
    KeyBytes(text).Some? && |KeyBytes(text).value| == PRIVATE_KEY_SIZE
  }

  /** The sizes asked for, counted in symbols of the text. */
  lemma KeySizes(text: string)
    requires KeyBytes(text).Some?
    ensures
      var symbols := Base64.BodyLength(KeyText(text));
      && (SecretOk(text) <==> symbols >= 43) && (PublicKeyOk(text) <==> symbols == 43) && (PrivateKeyOk(text) <==> symbols == 86)
  {
    hide KeyBytes;
    KeyLength(text);
  }

  /** publicMatchesPrivate on key texts. */
  predicate Matches(env: Env, public: string, private: string) {
    && PublicKeyOk(public) && PrivateKeyOk(private)
    && KeyBytes(public).value == env.publicOf(KeyBytes(private).value)
  }

  predicate PaddingOk(env: Env, min: int, max: int) { 0 <= min <= max <= env.maxPadding }

  predicate SameNonEmptySecret(a: string, b: string) {
    TrimSpace(a) != "" && TrimSpace(b) != "" && TrimSpace(a) == TrimSpace(b)
  }

  /** Texts that are the same up to surrounding space are the same key, so comparing the bytes subsumes comparing the texts. */
  lemma SameSecretSameKey(a: string, b: string)
    requires SameNonEmptySecret(a, b)
    ensures KeyBytes(a) == KeyBytes(b)
  {
  }

  // ----- An upstream -----

  predicate KlessOk(env: Env, k: Kless, transport: string) {
    && k.clientId != ""
    && SecretOk(k.clientSecret) && PublicKeyOk(k.serverSigningKey)
    && KeyBytes(k.clientSecret) != KeyBytes(k.serverSigningKey)
    && (k.serverSigningPrivate != "" ==> Matches(env, k.serverSigningKey, k.serverSigningPrivate))
    && k.maxFramePayload >= 0 && PaddingOk(env, k.paddingMin, k.paddingMax)
    && DurationOk(env, k.handshakeTimeout) && NamesKnown(env, transport, k.capabilities)
  }

  predicate UsesAddress(transport: string) { transport == TCP || transport == "tls" }

  /** An upstream whose CA file, if it names one, is among the files that exist. */
  predicate UpstreamOk(env: Env, files: set<string>, u: Upstream) {
    && u.name != "" && CapabilityOf(u.transport).Some?
    && (if UsesAddress(u.transport) then u.address != "" else u.url != "" && env.isUrlWithHost(u.url))
    && DurationOk(env, u.dialTimeout) && KlessOk(env, u.kless, u.transport)
    && (u.caFile != "" ==> u.caFile in files)
  }

  /** KLESSConfig.Validate. */
  method ValidateKless(env: Env, k: Kless, transport: string) returns (ok: bool)
    ensures ok <==> KlessOk(env, k, transport)
  {
    hide KeyBytes, TrimSpace, NamesKnown, IsMaskFor;
    if k.clientId == "" { return false; }
    if SameNonEmptySecret(k.clientSecret, k.serverSigningKey) {
      SameSecretSameKey(k.clientSecret, k.serverSigningKey);
      return false;
    }
    var secret := DecodeKey(k.clientSecret);
    if secret.Err? || |secret.value| < 32 { return false; }
    var signingKey := DecodeKey(k.serverSigningKey);
    if signingKey.Err? || secret.value == signingKey.value || |signingKey.value| != PUBLIC_KEY_SIZE { return false; }
    if k.serverSigningPrivate != "" {
      var private := DecodeKey(k.serverSigningPrivate);
      if private.Err? || |private.value| != PRIVATE_KEY_SIZE || signingKey.value != env.publicOf(private.value) { return false; }
    }
    if k.maxFramePayload < 0 || k.paddingMin < 0 || k.paddingMax < 0 || k.paddingMin > k.paddingMax || k.paddingMax > env.maxPadding {
      return false;
    }
    if ParseDuration(env, k.handshakeTimeout, 10 * SECOND).None? { return false; }
    var mask := CapabilityMask(env, transport, k.capabilities);
    return mask.Some?;
  }

  /** UpstreamConfig.Validate: the record as its defaults leave it, whatever the outcome. */
  method ValidateUpstream(env: Env, files: set<string>, u: Upstream) returns (ok: bool, after: Upstream)
    ensures after == UpstreamDefaults(env, u)
    ensures ok <==> UpstreamOk(env, files, after)
  {
    hide UpstreamDefaults, KlessOk, CapabilityOf;
    after := UpstreamDefaults(env, u);
    if after.name == "" || CapabilityOf(after.transport).None? { return false, after; }
    if UsesAddress(after.transport) && after.address == "" { return false, after; }
    if !UsesAddress(after.transport) && (after.url == "" || !env.isUrlWithHost(after.url)) { return false, after; }
    if ParseDuration(env, after.dialTimeout, 10 * SECOND).None? { return false, after; }
    var klessOk := ValidateKless(env, after.kless, after.transport);
    if !klessOk { return false, after; }
    return after.caFile == "" || after.caFile in files, after;
  }

  // ----- An inbound -----

  predicate ClientOk(c: ServerClient) { c.clientId != "" && SecretOk(c.clientSecret) }

  /** The KLESS part of a server inbound, defaults filled in. `dynamic` says whether users come from the control plane. */
  predicate ServerOk(env: Env, k: ServerKless, dynamic: bool) {
    && PrivateKeyOk(k.serverSigningPrivate)
    && (k.serverSigningKey != "" ==> Matches(env, k.serverSigningKey, k.serverSigningPrivate))
    && (k.clientSecret != "" ==>
          && SecretOk(k.clientSecret)
          && (k.serverSigningKey != "" ==> KeyBytes(k.clientSecret) != KeyBytes(k.serverSigningKey))
          && (k.clientId != "" || dynamic))
    && (forall c <- k.clients :: ClientOk(TrimClient(c)))
    && ((k.clientId != "" && k.clientSecret != "") || k.clients != [] || dynamic)
    && k.maxFramePayload >= 0 && PaddingOk(env, k.paddingMin, k.paddingMax)
    && DurationOk(env, k.handshakeTimeout) && DurationOk(env, k.maxHandshakeSkew) && DurationOk(env, k.usersRefreshInterval)
    && ServerNamesKnown(env, k.capabilities)
  }

  /** An inbound, defaults filled in, beside upstreams of the given names. */
  predicate InboundOk(env: Env, names: set<string>, dynamic: bool, i: Inbound) {
    && i.name != "" && i.listen != "" && i.maxConnections >= 0
    && ((i.mode == TCP && i.upstream != "" && i.upstream in names) || (i.mode == KLESS_SERVER && ServerOk(env, i.kless, dynamic)))
  }

  /** The keys of ServerKLESSConfig.Validate: everything before the loop over the clients. */
  method ValidateServerKeys(env: Env, k: ServerKless, dynamic: bool) returns (ok: bool)
    requires k == ServerDefaults(env, k)
    ensures ok <==>
      && PrivateKeyOk(k.serverSigningPrivate)
      && (k.serverSigningKey != "" ==> Matches(env, k.serverSigningKey, k.serverSigningPrivate))
      && (k.clientSecret != "" ==>
            && SecretOk(k.clientSecret)
            && (k.serverSigningKey != "" ==> KeyBytes(k.clientSecret) != KeyBytes(k.serverSigningKey))
            && (k.clientId != "" || dynamic))
  {
    hide KeyBytes, TrimSpace;
    var private := DecodeKey(k.serverSigningPrivate);
    if private.Err? || |private.value| != PRIVATE_KEY_SIZE { return false; }
    if k.serverSigningKey != "" {
      var public := DecodeKey(k.serverSigningKey);
      if public.Err? || |public.value| != PUBLIC_KEY_SIZE || public.value != env.publicOf(private.value) { return false; }
    }
    if TrimSpace(k.clientSecret) != "" {
      if SameNonEmptySecret(k.clientSecret, k.serverSigningKey) {
        SameSecretSameKey(k.clientSecret, k.serverSigningKey);
        return false;
      }
      var secret := DecodeKey(k.clientSecret);
      if secret.Err? || |secret.value| < 32 { return false; }
      if k.serverSigningKey != "" {
        var signingKey := DecodeKey(k.serverSigningKey);
        if signingKey.Err? || |signingKey.value| != PUBLIC_KEY_SIZE || secret.value == signingKey.value { return false; }
      }
      if TrimSpace(k.clientId) == "" && !dynamic { return false; }
    }
    return true;
  }

  /** ServerKLESSConfig.Validate. The clients are trimmed one by one as they are checked; a failure may leave the rest untrimmed. */
  method ValidateServer(env: Env, k: ServerKless, dynamic: bool) returns (ok: bool, after: ServerKless)
    ensures ok <==> ServerOk(env, ServerDefaults(env, k), dynamic)
    ensures exists n: nat :: n <= |k.clients| && after == TrimmedUpTo(env, k, n) && (ok ==> n == |k.clients|)
  {
    hide TrimSpace, KeyBytes, DurationOk, ServerNamesKnown, IsServerMask, ServerDefaults, Matches;
    var d := ServerDefaults(env, k);
    ServerDefaultsAgain(env, k);
    ServerDefaultsFields(env, k);
    after := d;
    assert after == TrimmedUpTo(env, k, 0);
    var keysOk := ValidateServerKeys(env, after, dynamic);
    if !keysOk { return false, after; }
    var i := 0;
    while i < |k.clients|
      invariant 0 <= i <= |k.clients|
      invariant after == TrimmedUpTo(env, k, i)
      invariant forall j :: 0 <= j < i ==> ClientOk(TrimClient(k.clients[j]))
    {
      var client := TrimClient(after.clients[i]);
      after := after.(clients := after.clients[i := client]);
      assert after.clients == TrimClients(k.clients, i + 1);
      assert after == TrimmedUpTo(env, k, i + 1);
      i := i + 1;
      if client.clientId == "" { return false, after; }
      var secret := DecodeKey(client.clientSecret);
      if secret.Err? || |secret.value| < 32 { return false, after; }
    }
    assert forall c <- k.clients :: ClientOk(TrimClient(c));
    var rest := ValidateServerRest(env, after, dynamic);
    return rest, after;
  }

  /** Everything after the loop over the clients. */
  method ValidateServerRest(env: Env, k: ServerKless, dynamic: bool) returns (ok: bool)
    requires TrimSpace(k.clientId) == k.clientId && TrimSpace(k.clientSecret) == k.clientSecret
    ensures ok <==>
      && ((k.clientId != "" && k.clientSecret != "") || k.clients != [] || dynamic)
      && k.maxFramePayload >= 0 && PaddingOk(env, k.paddingMin, k.paddingMax)
      && DurationOk(env, k.handshakeTimeout) && DurationOk(env, k.maxHandshakeSkew) && DurationOk(env, k.usersRefreshInterval)
      && ServerNamesKnown(env, k.capabilities)
  {
    hide TrimSpace, ServerNamesKnown, IsServerMask;
    var hasStaticClient := TrimSpace(k.clientId) != "" && TrimSpace(k.clientSecret) != "";
    if !hasStaticClient && k.clients == [] && !dynamic { return false; }
    if k.maxFramePayload < 0 || k.paddingMin < 0 || k.paddingMax < 0 || k.paddingMin > k.paddingMax || k.paddingMax > env.maxPadding {
      return false;
    }
    if ParseDuration(env, k.handshakeTimeout, 10 * SECOND).None? || ParseDuration(env, k.maxHandshakeSkew, env.duration(env.skewText).value).None?
       || ParseDuration(env, k.usersRefreshInterval, 300 * SECOND).None? {
      return false;
    }
    var mask := CapabilityMaskForNames(env, k.capabilities);
    return mask.Some?;
  }

  function TrimmedUpTo(env: Env, k: ServerKless, n: nat): ServerKless
    requires n <= |k.clients|
  {
    ServerDefaults(env, k).(clients := TrimClients(k.clients, n))
  }

  lemma ServerDefaultsFields(env: Env, k: ServerKless)
    ensures
      var d := ServerDefaults(env, k);
      d.clients == k.clients && TrimSpace(d.clientId) == d.clientId && TrimSpace(d.clientSecret) == d.clientSecret
    ensures TrimmedUpTo(env, k, 0) == ServerDefaults(env, k)
  {
    hide TrimSpace;
    TrimSpaceTwice(k.clientId);
    TrimSpaceTwice(k.clientSecret);
    assert TrimClients(k.clients, 0) == k.clients;
  }

  /** InboundConfig.Validate. */
  method ValidateInbound(env: Env, names: set<string>, dynamic: bool, i: Inbound) returns (ok: bool, after: Inbound)
    ensures ok <==> InboundOk(env, names, dynamic, InboundDefaults(env, i))
    ensures PartlyChecked(InboundDefaults(env, i), after) && (ok ==> after == Checked(InboundDefaults(env, i)))
  {
    hide TrimSpace, NormalMode, ServerDefaults, ServerOk;
    after := InboundDefaults(env, i);
    InboundDefaultsAgain(env, i);
    ghost var d := after;
    NothingTrimmed(d);
    if after.name == "" || after.listen == "" { return false, after; }
    if after.mode == TCP {
      if names == {} || after.upstream == "" || after.upstream !in names { return false, after; }
    } else if after.mode == KLESS_SERVER {
      ServerDefaultsAgain(env, i.kless);
      var serverOk, kless := ValidateServer(env, after.kless, dynamic);
      after := after.(kless := kless);
      if !serverOk { return false, after; }
    } else {
      return false, after;
    }
    return after.maxConnections >= 0, after;
  }

  lemma NothingTrimmed(i: Inbound)
    ensures PartlyChecked(i, i)
  {
    assert TrimClients(i.kless.clients, 0) == i.kless.clients;
  }

  /** An inbound some of whose clients have been trimmed. */
  predicate PartlyChecked(i: Inbound, after: Inbound) {
    && |after.kless.clients| == |i.kless.clients|
    && after == i.(kless := i.kless.(clients := after.kless.clients))
    && exists n: nat :: n <= |i.kless.clients| && after.kless.clients == TrimClients(i.kless.clients, n)
  }
}
