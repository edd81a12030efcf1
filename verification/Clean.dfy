/**
 * The configurations that normalising leaves alone, described without it: trimmed, in lower case where
 * case is folded, with every default written out.
 */
module Clean {
  import opened Settings
  import opened Text

  predicate CleanUrl(url: string) {
    Trimmed(url) && (url == "" || url[|url| - 1] != '/')
  }

  predicate CleanEndpoint(e: string) {
    Trimmed(e) && (e == "" || HasPrefix(e, "http://") || HasPrefix(e, "https://") || HasPrefix(e, "/"))
  }

  ghost predicate CleanName(lower: Lowering, s: string) {
    Trimmed(s) && forall i :: 0 <= i < |s| ==> lower(s[i]) == s[i]
  }

  predicate IsAlias(mode: string) {
    || mode == "" || mode == "client" || mode == "client-forward" || mode == "forward"
    || mode == "kless_server" || mode == "server" || mode == "relay" || mode == "server-relay"
  }

  predicate CleanKboard(k: Kboard) {
    && CleanUrl(k.publicUrl) && Trimmed(k.nodeId) && Trimmed(k.nodeSharedSecret)
    && CleanEndpoint(k.configEndpoint) && CleanEndpoint(k.usersEndpoint) && CleanEndpoint(k.trafficEndpoint)
    && CleanEndpoint(k.aliveEndpoint) && CleanEndpoint(k.accessLogsEndpoint) && k.reportInterval != ""
  }

  ghost predicate CleanUpstream(env: Env, u: Upstream) {
    && Trimmed(u.name) && CleanName(env.lower, u.transport) && Trimmed(u.address) && Trimmed(u.url)
    && Trimmed(u.serverName) && Trimmed(u.caFile) && u.dialTimeout != "" && u.kless.handshakeTimeout != ""
  }

  predicate CleanServer(k: ServerKless) {
    && Trimmed(k.clientId) && Trimmed(k.clientSecret) && Trimmed(k.serverSigningKey) && Trimmed(k.serverSigningPrivate)
    && k.handshakeTimeout != "" && k.maxHandshakeSkew != "" && k.usersRefreshInterval != ""
  }

  predicate CleanClient(c: ServerClient) { Trimmed(c.clientId) && Trimmed(c.clientSecret) }

  ghost predicate CleanInbound(env: Env, x: Inbound) {
    && Trimmed(x.name) && Trimmed(x.listen) && Trimmed(x.upstream)
    && CleanName(env.lower, x.mode) && !IsAlias(x.mode)
    && CleanServer(x.kless) && (x.mode == KLESS_SERVER ==> forall c <- x.kless.clients :: CleanClient(c))
  }

  ghost predicate Clean(env: Env, s: Settings) {
    && Trimmed(s.nodeId) && s.adminAddress != "" && s.shutdownGrace != ""
    && (s.kboard.Some? ==> CleanKboard(s.kboard.value))
    && (forall u <- s.upstreams :: CleanUpstream(env, u))
    && (forall x <- s.inbounds :: CleanInbound(env, x))
  }

  // ----- Part by part -----

  lemma UrlFixedIff(url: string)
    ensures NormalUrl(url) == url <==> CleanUrl(url)
  {
    hide IsSpace, TrimSpace, TrimSlashes;
    var pre, post := TrimSpaceSplits(url);
    TrimSpaceTrims(url);
    TrimSlashesSplits(TrimSpace(url));
    if NormalUrl(url) == url { assert |TrimSpace(url)| == |url|; }
  }

  /** Trimming keeps a leading slash. */
  lemma LeadingSlashStays(e: string)
    requires HasPrefix(e, "/")
    ensures HasPrefix(TrimSpace(e), "/")
  {
    hide IsSpace, TrimSpace;
    var pre, post := TrimSpaceSplits(e);
    assert pre != "" ==> e[0] == pre[0];
    assert TrimSpace(e) == "" ==> e == pre + post;
    assert pre + post != "" ==> IsSpace((pre + post)[0]);
    SlashIsNotSpace();
  }

  lemma EndpointFixedIff(e: string)
    ensures NormalEndpoint(e) == e <==> CleanEndpoint(e)
  {
    hide IsSpace, TrimSpace;
    TrimSpaceTrims(e);
    if HasPrefix(e, "/") { LeadingSlashStays(e); }
  }

  lemma NameFixedIff(lower: Lowering, s: string)
    ensures Folded(lower, s) == s <==> CleanName(lower, s)
  {
    hide IsSpace, TrimSpace;
    var pre, post := TrimSpaceSplits(s);
    TrimSpaceTrims(s);
    if Folded(lower, s) == s {
      assert |TrimSpace(s)| == |s|;
      assert TrimSpace(s) == s;
      forall i | 0 <= i < |s| ensures lower(s[i]) == s[i] { assert Folded(lower, s)[i] == lower(s[i]); }
    }
  }

  lemma ModeFixedIff(env: Env, mode: string)
    ensures NormalMode(env, mode) == mode <==> CleanName(env.lower, mode) && !IsAlias(mode)
  {
    hide Folded, CleanName;
    NameFixedIff(env.lower, mode);
    if NormalMode(env, mode) == mode && Folded(env.lower, mode) != mode {
      assert mode == TCP || mode == KLESS_SERVER;
      assert IsLowerAscii(TCP) && IsLowerAscii(KLESS_SERVER);
      FoldedAgain(env.lower, mode);
    }
  }

  lemma KboardFixedIff(k: Kboard)
    ensures KboardDefaults(KboardDefaults(k)) == k <==> CleanKboard(k)
  {
    hide TrimSpace, NormalUrl, NormalEndpoint, CleanUrl, CleanEndpoint, Trimmed;
    KboardDefaultsAgain(k);
    TwoPassesFixIff(k.publicUrl);
    UrlFixedIff(k.publicUrl);
    TrimSpaceTrims(k.nodeId);
    TrimSpaceTrims(k.nodeSharedSecret);
    EndpointFixedIff(k.configEndpoint);
    EndpointFixedIff(k.usersEndpoint);
    EndpointFixedIff(k.trafficEndpoint);
    EndpointFixedIff(k.aliveEndpoint);
    EndpointFixedIff(k.accessLogsEndpoint);
  }

  lemma UpstreamFixedIff(env: Env, u: Upstream)
    ensures UpstreamDefaults(env, u) == u <==> CleanUpstream(env, u)
  {
    hide TrimSpace, Folded, CleanName, Trimmed;
    TrimSpaceTrims(u.name);
    NameFixedIff(env.lower, u.transport);
    TrimSpaceTrims(u.address);
    TrimSpaceTrims(u.url);
    TrimSpaceTrims(u.serverName);
    TrimSpaceTrims(u.caFile);
  }

  lemma ServerFixedIff(env: Env, k: ServerKless)
    ensures ServerDefaults(env, k) == k <==> CleanServer(k)
  {
    hide TrimSpace, Trimmed;
    TrimSpaceTrims(k.clientId);
    TrimSpaceTrims(k.clientSecret);
    TrimSpaceTrims(k.serverSigningKey);
    TrimSpaceTrims(k.serverSigningPrivate);
  }

  lemma ClientsFixedIff(cs: seq<ServerClient>)
    ensures TrimClients(cs, |cs|) == cs <==> forall c <- cs :: CleanClient(c)
  {
    hide TrimSpace, Trimmed;
    forall i | 0 <= i < |cs| ensures TrimClient(cs[i]) == cs[i] <==> CleanClient(cs[i]) {
      TrimSpaceTrims(cs[i].clientId);
      TrimSpaceTrims(cs[i].clientSecret);
    }
    if TrimClients(cs, |cs|) == cs {
      forall c | c in cs ensures CleanClient(c) {
        var i :| 0 <= i < |cs| && cs[i] == c;
        assert TrimClients(cs, |cs|)[i] == TrimClient(cs[i]);
      }
    }
  }

  lemma InboundFixedIff(env: Env, x: Inbound)
    ensures Checked(InboundDefaults(env, x)) == x <==> CleanInbound(env, x)
  {
    hide TrimSpace, Trimmed, NormalMode, CleanName, IsAlias, CleanClient, CleanServer, TrimClients;
    TrimSpaceTrims(x.name);
    TrimSpaceTrims(x.listen);
    TrimSpaceTrims(x.upstream);
    ModeFixedIff(env, x.mode);
    ServerFixedIff(env, x.kless);
    ClientsFixedIff(x.kless.clients);
  }

  // ----- The whole -----

  /** Normalising leaves exactly the clean configurations alone. */
  lemma UnchangedIffClean(env: Env, s: Settings)
    ensures Normalised(env, s) == s <==> Clean(env, s)
  {
    hide TrimSpace, Trimmed, KboardDefaults, CleanKboard, UpstreamDefaults, CleanUpstream, InboundDefaults, CleanInbound, Checked;
    var n := Normalised(env, s);
    TrimSpaceTrims(s.nodeId);
    if s.kboard.Some? { KboardFixedIff(s.kboard.value); }
    forall i | 0 <= i < |s.upstreams| ensures n.upstreams[i] == s.upstreams[i] <==> CleanUpstream(env, s.upstreams[i]) {
      UpstreamFixedIff(env, s.upstreams[i]);
    }
    forall i | 0 <= i < |s.inbounds| ensures n.inbounds[i] == s.inbounds[i] <==> CleanInbound(env, s.inbounds[i]) {
      InboundFixedIff(env, s.inbounds[i]);
    }
    SameIffEach(n.upstreams, s.upstreams);
    SameIffEach(n.inbounds, s.inbounds);
  }

  lemma SameIffEach<T>(a: seq<T>, b: seq<T>)
    requires |a| == |b|
    ensures a == b <==> forall i :: 0 <= i < |a| ==> a[i] == b[i]
  {
  }

  /** What Validate leaves is clean if and only if its public URL does not end in white space. */
  lemma NormalisedIsCleanIff(env: Env, s: Settings)
    ensures
      var n := Normalised(env, s);
      Clean(env, n) <==> n.kboard.None? || !EndsInSpace(n.kboard.value.publicUrl)
  {
    hide Clean, Normalised, EndsInSpace;
    UnchangedIffClean(env, Normalised(env, s));
    SecondPassChangesNothingIff(env, s);
  }
}
