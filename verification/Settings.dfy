/**
 * The configuration by value, and the defaults that are filled in before it is checked. A pass of
 * defaults is idempotent except for one field, the public URL of the control plane.
 */
module Settings {
  import opened Base64
  import opened Text
  import opened Wrappers

  const TCP := "tcp"
  const KLESS_SERVER := "kless-server"

  // ----- The world outside the configuration -----

  type Duration = int     // nanoseconds

  const SECOND: Duration := 1_000_000_000

  /** The capabilities of a transport. */
  datatype Capability = Tcp | Tls | HttpUpgrade | WebSocket | HttpStream | Grpc | Xhttp | Http3

  type Mask = bv32

  type Masks = f: Capability -> Mask | forall c :: f(c) != 0 ghost witness (c: Capability) => 1

  type NonzeroMask = m: Mask | m != 0 witness 1

  /** time.ParseDuration; on the texts that the defaults write it gives the defaults. */
  type Durations = f: string -> Option<Duration> |
      f("10s") == Some(10 * SECOND) && f("30s") == Some(30 * SECOND) && f("5m0s") == Some(300 * SECOND)
    ghost witness s => if s == "10s" then Some(10 * SECOND) else if s == "30s" then Some(30 * SECOND) else Some(300 * SECOND)

  const PUBLIC_KEY_SIZE: nat := 32
  const PRIVATE_KEY_SIZE: nat := 64

  type PublicKey = k: seq<Byte> | |k| == PUBLIC_KEY_SIZE witness seq(PUBLIC_KEY_SIZE, i => 0)

  /**
   * The libraries: character case, durations, URLs, Ed25519, and the constants of the KLESS package.
   * The default skew is written as `skewText`.
   */
  datatype Library = Library(
    lower: Lowering,
    duration: Durations,
    isRequestUri: string -> bool,
    isUrlWithHost: string -> bool,
    publicOf: seq<Byte> -> PublicKey,
    mask: Masks,
    maskOfAll: NonzeroMask,
    maxPadding: nat,
    skewText: string)

  /** The default skew is a positive duration whose text parses back. */
  predicate SkewOk(lib: Library) {
    lib.skewText != "" && lib.duration(lib.skewText).Some? && lib.duration(lib.skewText).value > 0
  }

  type Env = lib: Library | SkewOk(lib) ghost witness AnyLibrary()

  ghost function AnyLibrary(): (lib: Library)
    ensures SkewOk(lib)
  {
    Library(
      AsciiLower,
      s => if s == "10s" then Some(10 * SECOND) else if s == "30s" then Some(30 * SECOND) else Some(300 * SECOND),
      _ => true, _ => true, _ => seq(PUBLIC_KEY_SIZE, i => 0), _ => 1, 1, 0, "1m0s")
  }

  // ----- Values -----

  datatype Kboard = Kboard(
    publicUrl: string, nodeId: string, nodeSharedSecret: string, configEndpoint: string, usersEndpoint: string,
    trafficEndpoint: string, aliveEndpoint: string, accessLogsEndpoint: string, reportInterval: string)

  datatype Kless = Kless(
    clientId: string, clientSecret: string, serverSigningKey: string, serverSigningPrivate: string,
    capabilities: seq<string>, maxFramePayload: int, paddingMin: int, paddingMax: int, handshakeTimeout: string)

  datatype Upstream = Upstream(
    name: string, transport: string, address: string, url: string, serverName: string, caFile: string,
    dialTimeout: string, kless: Kless)

  datatype ServerClient = ServerClient(clientId: string, clientSecret: string)

  datatype ServerKless = ServerKless(
    clientId: string, clientSecret: string, serverSigningKey: string, serverSigningPrivate: string,
    clients: seq<ServerClient>, capabilities: seq<string>, maxFramePayload: int, paddingMin: int, paddingMax: int,
    handshakeTimeout: string, maxHandshakeSkew: string, usersRefreshInterval: string)

  datatype Inbound = Inbound(
    name: string, listen: string, mode: string, upstream: string, maxConnections: int, kless: ServerKless)

  datatype Settings = Settings(
    nodeId: string, adminAddress: string, shutdownGrace: string,
    kboard: Option<Kboard>, upstreams: seq<Upstream>, inbounds: seq<Inbound>)

  // ----- Defaults -----

  function OrDefault(text: string, fallback: string): string { if text == "" then fallback else text }

  function NormalUrl(url: string): (r: string)
    ensures |r| <= |url|
  {
    TrimSlashes(TrimSpace(url))
  }

  function NormalEndpoint(endpoint: string): string {
    var e := TrimSpace(endpoint);
    if e == "" || HasPrefix(e, "http://") || HasPrefix(e, "https://") || HasPrefix(e, "/") then e else "/" + e
  }

  function KboardDefaults(k: Kboard): Kboard {
    Kboard(NormalUrl(k.publicUrl), TrimSpace(k.nodeId), TrimSpace(k.nodeSharedSecret),
           NormalEndpoint(k.configEndpoint), NormalEndpoint(k.usersEndpoint), NormalEndpoint(k.trafficEndpoint),
           NormalEndpoint(k.aliveEndpoint), NormalEndpoint(k.accessLogsEndpoint), OrDefault(k.reportInterval, "30s"))
  }

  function UpstreamDefaults(env: Env, u: Upstream): Upstream {
    Upstream(TrimSpace(u.name), Folded(env.lower, u.transport), TrimSpace(u.address), TrimSpace(u.url),
             TrimSpace(u.serverName), TrimSpace(u.caFile), OrDefault(u.dialTimeout, "10s"),
             u.kless.(handshakeTimeout := OrDefault(u.kless.handshakeTimeout, "10s")))
  }

  function NormalMode(env: Env, mode: string): string {
    var m := Folded(env.lower, mode);
    if m == "" || m == TCP || m == "client" || m == "client-forward" || m == "forward" then TCP
    else if m == KLESS_SERVER || m == "kless_server" || m == "server" || m == "relay" || m == "server-relay" then KLESS_SERVER
    else m
  }

  function ServerDefaults(env: Env, k: ServerKless): ServerKless {
    k.(clientId := TrimSpace(k.clientId), clientSecret := TrimSpace(k.clientSecret),
       serverSigningKey := TrimSpace(k.serverSigningKey), serverSigningPrivate := TrimSpace(k.serverSigningPrivate),
       handshakeTimeout := OrDefault(k.handshakeTimeout, "10s"),
       maxHandshakeSkew := OrDefault(k.maxHandshakeSkew, env.skewText),
       usersRefreshInterval := OrDefault(k.usersRefreshInterval, "5m0s"))
  }

  function InboundDefaults(env: Env, i: Inbound): Inbound {
    Inbound(TrimSpace(i.name), TrimSpace(i.listen), NormalMode(env, i.mode), TrimSpace(i.upstream),
            i.maxConnections, ServerDefaults(env, i.kless))
  }

  function UpstreamsDefaults(env: Env, us: seq<Upstream>): (r: seq<Upstream>)
    ensures |r| == |us| && forall i :: 0 <= i < |us| ==> r[i] == UpstreamDefaults(env, us[i])
  {
    seq(|us|, i requires 0 <= i < |us| => UpstreamDefaults(env, us[i]))
  }

  function InboundsDefaults(env: Env, xs: seq<Inbound>): (r: seq<Inbound>)
    ensures |r| == |xs| && forall i :: 0 <= i < |xs| ==> r[i] == InboundDefaults(env, xs[i])
  {
    seq(|xs|, i requires 0 <= i < |xs| => InboundDefaults(env, xs[i]))
  }

  function KboardPart(k: Option<Kboard>): Option<Kboard> {
    if k.None? then None else Some(KboardDefaults(k.value))
  }

  function Defaults(env: Env, s: Settings): Settings {
    Settings(TrimSpace(s.nodeId), OrDefault(s.adminAddress, "127.0.0.1:8080"), OrDefault(s.shutdownGrace, "10s"),
             KboardPart(s.kboard), UpstreamsDefaults(env, s.upstreams), InboundsDefaults(env, s.inbounds))
  }

  // ----- What the checks rewrite besides -----

  function TrimClient(c: ServerClient): ServerClient { ServerClient(TrimSpace(c.clientId), TrimSpace(c.clientSecret)) }

  /** The first n clients trimmed. */
  function TrimClients(cs: seq<ServerClient>, n: nat): (r: seq<ServerClient>)
    requires n <= |cs|
    ensures |r| == |cs| && forall i :: 0 <= i < |cs| ==> r[i] == if i < n then TrimClient(cs[i]) else cs[i]
  {
    seq(|cs|, i requires 0 <= i < |cs| => if i < n then TrimClient(cs[i]) else cs[i])
  }

  function Checked(i: Inbound): Inbound {
    if i.mode == KLESS_SERVER then i.(kless := i.kless.(clients := TrimClients(i.kless.clients, |i.kless.clients|))) else i
  }

  function CheckedInbounds(xs: seq<Inbound>): (r: seq<Inbound>)
    ensures |r| == |xs| && forall i :: 0 <= i < |xs| ==> r[i] == Checked(xs[i])
  {
    seq(|xs|, i requires 0 <= i < |xs| => Checked(xs[i]))
  }

  /** The configuration that a successful Validate leaves. */
  function Normalised(env: Env, s: Settings): Settings {
    var d := Defaults(env, s);
    d.(kboard := KboardPart(d.kboard), inbounds := CheckedInbounds(d.inbounds))
  }

  // ----- What the defaults mean -----

  /** Which words name which mode; any other word is kept, folded. */
  lemma ModeIs(env: Env, mode: string)
    ensures
      var m := Folded(env.lower, mode);
      && (NormalMode(env, mode) == "tcp" <==> m in ["", "tcp", "client", "client-forward", "forward"])
      && (NormalMode(env, mode) == "kless-server" <==> m in ["kless-server", "kless_server", "server", "relay", "server-relay"])
      && (NormalMode(env, mode) == "tcp" || NormalMode(env, mode) == "kless-server" || NormalMode(env, mode) == m)
  {
    hide Folded;
  }

  /** An endpoint keeps its trimmed text; a relative one gets a slash in front of it. */
  lemma EndpointIs(endpoint: string)
    ensures
      var t := TrimSpace(endpoint);
      if t == "" then NormalEndpoint(endpoint) == ""
      else if "http://" <= t || "https://" <= t || t[0] == '/' then NormalEndpoint(endpoint) == t
      else NormalEndpoint(endpoint) == "/" + t
  {
    hide TrimSpace;
  }

  /** What a duration text stands for, with its default. */
  function Meant(env: Env, text: string, fallback: Duration): Option<Duration> {
    if text == "" then Some(fallback) else env.duration(text)
  }

  /** Writing a default out never changes what a duration field means. */
  lemma DefaultsKeepDurations(env: Env, s: Settings, u: Upstream, k: ServerKless, b: Kboard)
    ensures Meant(env, Defaults(env, s).shutdownGrace, 10 * SECOND) == Meant(env, s.shutdownGrace, 10 * SECOND)
    ensures Meant(env, KboardDefaults(b).reportInterval, 30 * SECOND) == Meant(env, b.reportInterval, 30 * SECOND)
    ensures
      var d := UpstreamDefaults(env, u);
      && Meant(env, d.dialTimeout, 10 * SECOND) == Meant(env, u.dialTimeout, 10 * SECOND)
      && Meant(env, d.kless.handshakeTimeout, 10 * SECOND) == Meant(env, u.kless.handshakeTimeout, 10 * SECOND)
    ensures
      var d, skew := ServerDefaults(env, k), env.duration(env.skewText).value;
      && Meant(env, d.handshakeTimeout, 10 * SECOND) == Meant(env, k.handshakeTimeout, 10 * SECOND)
      && Meant(env, d.maxHandshakeSkew, skew) == Meant(env, k.maxHandshakeSkew, skew)
      && Meant(env, d.usersRefreshInterval, 300 * SECOND) == Meant(env, k.usersRefreshInterval, 300 * SECOND)
  {
    hide TrimSpace, NormalMode, Folded, NormalUrl, NormalEndpoint;
  }

  // ----- Idempotence, field by field -----

  lemma NormalEndpointAgain(e: string)
    ensures NormalEndpoint(NormalEndpoint(e)) == NormalEndpoint(e)
  {
    hide IsSpace, TrimSpace;
    var t := TrimSpace(e);
    TrimSpaceTrims(e);
    TrimSpaceTrims(t);
    var r := NormalEndpoint(e);
    assert Trimmed(r) by {
      if r != t { SlashIsNotSpace(); }
    }
    TrimSpaceTrims(r);
    assert r == t || r[0] == '/';
  }

  lemma SlashIsNotSpace()
    ensures !IsSpace('/')
  {
  }

  lemma KboardDefaultsAgain(k: Kboard)
    ensures KboardDefaults(KboardDefaults(k)) == KboardDefaults(k).(publicUrl := NormalUrl(NormalUrl(k.publicUrl)))
  {
    hide TrimSpace, NormalEndpoint, NormalUrl;
    TrimSpaceTwice(k.nodeId);
    TrimSpaceTwice(k.nodeSharedSecret);
    NormalEndpointAgain(k.configEndpoint);
    NormalEndpointAgain(k.usersEndpoint);
    NormalEndpointAgain(k.trafficEndpoint);
    NormalEndpointAgain(k.aliveEndpoint);
    NormalEndpointAgain(k.accessLogsEndpoint);
  }

  lemma TrimSpaceTwice(s: string)
    ensures TrimSpace(TrimSpace(s)) == TrimSpace(s)
  {
    hide TrimSpace;
    TrimSpaceTrims(s);
    TrimSpaceTrims(TrimSpace(s));
  }

  lemma UpstreamDefaultsAgain(env: Env, u: Upstream)
    ensures UpstreamDefaults(env, UpstreamDefaults(env, u)) == UpstreamDefaults(env, u)
  {
    hide TrimSpace, Folded;
    TrimSpaceTwice(u.name);
    FoldedAgain(env.lower, u.transport);
    TrimSpaceTwice(u.address);
    TrimSpaceTwice(u.url);
    TrimSpaceTwice(u.serverName);
    TrimSpaceTwice(u.caFile);
  }

  lemma NormalModeAgain(env: Env, mode: string)
    ensures NormalMode(env, NormalMode(env, mode)) == NormalMode(env, mode)
  {
    hide Folded;
    FoldedAgain(env.lower, mode);
    FoldedAgain(env.lower, TCP);
    FoldedAgain(env.lower, KLESS_SERVER);
    assert IsLowerAscii(TCP) && IsLowerAscii(KLESS_SERVER);
  }

  lemma ServerDefaultsAgain(env: Env, k: ServerKless)
    ensures ServerDefaults(env, ServerDefaults(env, k)) == ServerDefaults(env, k)
  {
    hide TrimSpace;
    TrimSpaceTwice(k.clientId);
    TrimSpaceTwice(k.clientSecret);
    TrimSpaceTwice(k.serverSigningKey);
    TrimSpaceTwice(k.serverSigningPrivate);
  }

  lemma InboundDefaultsAgain(env: Env, i: Inbound)
    ensures InboundDefaults(env, InboundDefaults(env, i)) == InboundDefaults(env, i)
  {
    hide TrimSpace, NormalMode, ServerDefaults;
    TrimSpaceTwice(i.name);
    TrimSpaceTwice(i.listen);
    TrimSpaceTwice(i.upstream);
    NormalModeAgain(env, i.mode);
    ServerDefaultsAgain(env, i.kless);
  }

  lemma TrimClientsAgain(cs: seq<ServerClient>)
    ensures TrimClients(TrimClients(cs, |cs|), |cs|) == TrimClients(cs, |cs|)
  {
    hide TrimSpace;
    forall i | 0 <= i < |cs| ensures TrimClient(TrimClient(cs[i])) == TrimClient(cs[i]) {
      TrimSpaceTwice(cs[i].clientId);
      TrimSpaceTwice(cs[i].clientSecret);
    }
  }

  /** A checked inbound stays as it is under a further pass of defaults and checks. */
  lemma CheckedInboundAgain(env: Env, i: Inbound)
    ensures
      var c := Checked(InboundDefaults(env, i));
      InboundDefaults(env, c) == c && Checked(c) == c
  {
    hide TrimSpace, NormalMode;
    InboundDefaultsAgain(env, i);
    TrimClientsAgain(i.kless.clients);
  }

  // ----- Idempotence of the whole -----

  function WithUrl(s: Settings, url: string): Settings
    requires s.kboard.Some?
  {
    s.(kboard := Some(s.kboard.value.(publicUrl := url)))
  }

  /**
   * A second Validate repeats nothing but the trimming of the public URL: every other field of a
   * normalised configuration is left as it is.
   */
  lemma NormalisedAgain(env: Env, s: Settings)
    ensures
      var n := Normalised(env, s);
      Normalised(env, n) == if n.kboard.None? then n else WithUrl(n, NormalUrl(NormalUrl(n.kboard.value.publicUrl)))
  {
    hide TrimSpace, KboardDefaults, UpstreamDefaults, InboundDefaults, Checked;
    var n := Normalised(env, s);
    TrimSpaceTwice(s.nodeId);
    forall i | 0 <= i < |s.upstreams| ensures UpstreamDefaults(env, n.upstreams[i]) == n.upstreams[i] {
      UpstreamDefaultsAgain(env, s.upstreams[i]);
    }
    assert UpstreamsDefaults(env, n.upstreams) == n.upstreams;
    forall i | 0 <= i < |s.inbounds|
      ensures InboundDefaults(env, n.inbounds[i]) == n.inbounds[i] && Checked(n.inbounds[i]) == n.inbounds[i]
    {
      CheckedInboundAgain(env, s.inbounds[i]);
    }
    assert InboundsDefaults(env, n.inbounds) == n.inbounds;
    assert CheckedInbounds(n.inbounds) == n.inbounds;
    if n.kboard.Some? {
      KboardFourTimes(s.kboard.value);
    }
  }

  lemma KboardFourTimes(k: Kboard)
    ensures
      var n := KboardDefaults(KboardDefaults(k));
      KboardDefaults(KboardDefaults(n)) == n.(publicUrl := NormalUrl(NormalUrl(n.publicUrl)))
  {
    hide NormalUrl, NormalEndpoint, TrimSpace;
    KboardDefaultsAgain(k);
    KboardDefaultsAgain(KboardDefaults(k));
    KboardDefaultsAgain(KboardDefaults(KboardDefaults(k)));
  }

  // ----- The public URL -----

  predicate EndsInSpace(s: string) { s != "" && IsSpace(s[|s| - 1]) }

  /** One more trim leaves a trimmed URL alone exactly when no white space stood before its trailing slashes. */
  lemma NormalUrlAgainIff(url: string)
    ensures NormalUrl(NormalUrl(url)) == NormalUrl(url) <==> !EndsInSpace(NormalUrl(url))
  {
    hide IsSpace, TrimSpace, TrimSlashes;
    var t := TrimSpace(url);
    var n := NormalUrl(url);
    TrimSpaceTrims(url);
    TrimSlashesSplits(t);
    TrimSpaceTrims(n);
    TrimSlashesSplits(n);
    assert n != "" ==> n[0] == t[0];
    assert Trimmed(n) <==> !EndsInSpace(n);
    if !Trimmed(n) {
      assert |TrimSpace(n)| < |n| by { var pre, post := TrimSpaceSplits(n); }
    }
  }

  function Passes(url: string, n: nat): string
    decreases n
  {
    if n == 0 then url else Passes(NormalUrl(url), n - 1)
  }

  /** A URL that changes gets shorter. */
  lemma NormalUrlShrinks(url: string)
    ensures NormalUrl(url) == url || |NormalUrl(url)| < |url|
  {
    hide IsSpace, TrimSpace, TrimSlashes;
    var pre, post := TrimSpaceSplits(url);
    TrimSlashesSplits(TrimSpace(url));
    if |NormalUrl(url)| == |url| {
      assert |TrimSpace(url)| == |url| && pre == "" && post == "";
    }
  }

  lemma {:induction false} FixedStays(url: string, n: nat)
    requires NormalUrl(url) == url
    decreases n
    ensures Passes(url, n) == url
  {
    if n > 0 { FixedStays(url, n - 1); }
  }

  /** Repeated passes reach a fixed point, at the latest after as many passes as the text has characters. */
  lemma {:induction false} PassesReachFixedPoint(url: string, n: nat)
    requires n >= |url|
    decreases n
    ensures NormalUrl(Passes(url, n)) == Passes(url, n)
  {
    hide NormalUrl;
    NormalUrlShrinks(url);
    if NormalUrl(url) == url {
      FixedStays(url, n);
    } else {
      PassesReachFixedPoint(NormalUrl(url), n - 1);
    }
  }

  /** Two passes, as one Validate makes, change nothing exactly when one does. */
  lemma TwoPassesFixIff(url: string)
    ensures NormalUrl(NormalUrl(url)) == url <==> NormalUrl(url) == url
  {
    hide NormalUrl;
    NormalUrlShrinks(url);
    NormalUrlShrinks(NormalUrl(url));
  }

  /**
   * Validating twice gives the same configuration as validating once if and only if the public URL that
   * the first pass left does not end in white space.
   */
  lemma SecondPassChangesNothingIff(env: Env, s: Settings)
    ensures
      var n := Normalised(env, s);
      Normalised(env, n) == n <==> n.kboard.None? || !EndsInSpace(n.kboard.value.publicUrl)
  {
    hide NormalUrl, EndsInSpace, KboardDefaults;
    var n := Normalised(env, s);
    NormalisedAgain(env, s);
    if n.kboard.Some? {
      KboardDefaultsAgain(s.kboard.value);
      var once := NormalUrl(s.kboard.value.publicUrl);
      PublicUrlOfDefaults(s.kboard.value);
      PublicUrlOfDefaults(KboardDefaults(s.kboard.value));
      TwoPassesFixIff(n.kboard.value.publicUrl);
      NormalUrlAgainIff(once);
    }
  }

  lemma PublicUrlOfDefaults(k: Kboard)
    ensures KboardDefaults(k).publicUrl == NormalUrl(k.publicUrl)
  {
  }

  /** A slash at the end, or a slash and a space, comes off in one pass. */
  lemma DropSlash(t: string)
    requires t != "" && !IsSpace(t[0]) && t[|t| - 1] != '/'
    ensures NormalUrl(t + "/") == t && NormalUrl(t + "/ ") == t
  {
    var slashed := t + "/";
    assert IsSpace(' ') && !IsSpace('/');
    assert slashed[..|t|] == t && (t + "/ ")[..|t| + 1] == slashed;
    TrimSpaceTrims(slashed);
    assert TrimSpace(t + "/ ") == slashed;
    TrimSlashesSplits(t);
  }

  /**
   * It does happen: behind any proper URL text, three slashes with spaces before them outlast one Validate,
   * and the second one changes the URL again.
   */
  lemma SpacedSlashesOutlastValidate(h: string)
    requires h != "" && Trimmed(h) && h[|h| - 1] != '/'
    ensures NormalUrl(NormalUrl(h + " / / /")) == h + " / "
    ensures NormalUrl(NormalUrl(h + " / ")) == h
  {
    hide NormalUrl;
    assert h + " / / /" == (h + " / / ") + "/" && h + " / / " == (h + " / ") + "/ " && h + " / " == (h + " ") + "/ ";
    DropSlash(h + " / / ");
    DropSlash(h + " / ");
    DropSlash(h + " ");
    DropSpace(h);
  }

  lemma DropSpace(h: string)
    requires h != "" && Trimmed(h)
    ensures NormalUrl(h + " ") == TrimSlashes(h) && (h[|h| - 1] != '/' ==> TrimSlashes(h) == h)
  {
    assert IsSpace(' ') && (h + " ")[..|h|] == h;
    TrimSpaceTrims(h);
    TrimSlashesSplits(h);
  }
}
