/**
 * Config.Validate: the configuration on the heap, rewritten in place while it is checked, and what a
 * configuration that passed is.
 */
module Config {
  import opened Checks
  import opened Settings
  import opened Text
  import opened Wrappers

  // ----- A valid configuration -----

  predicate NodeOk(env: Env, s: Settings) {
    s.nodeId != "" && s.inbounds != [] && DurationOk(env, s.shutdownGrace)
  }

  predicate KboardOk(env: Env, k: Kboard) {
    && k.publicUrl != "" && k.nodeId != "" && k.nodeSharedSecret != "" && k.aliveEndpoint != ""
    && env.isRequestUri(k.publicUrl) && DurationOk(env, k.reportInterval)
  }

  predicate KboardPartOk(env: Env, k: Option<Kboard>) {
    k.Some? ==> KboardOk(env, k.value)
  }

  function UpstreamNames(us: seq<Upstream>): set<string> { set u | u in us :: u.name }

  function InboundNames(xs: seq<Inbound>): set<string> { set x | x in xs :: x.name }

  /** The first n upstreams are fine and no two of them share a name. */
  predicate UpstreamsOk(env: Env, files: set<string>, us: seq<Upstream>, n: nat)
    requires n <= |us|
  {
    forall i :: 0 <= i < n ==> UpstreamOk(env, files, us[i]) && us[i].name !in UpstreamNames(us[..i])
  }

  predicate InboundsOk(env: Env, names: set<string>, dynamic: bool, xs: seq<Inbound>, n: nat)
    requires n <= |xs|
  {
    forall i :: 0 <= i < n ==> InboundOk(env, names, dynamic, xs[i]) && xs[i].name !in InboundNames(xs[..i])
  }

  /** Users may come from the control plane. */
  predicate Dynamic(k: Option<Kboard>) { k.Some? && k.value.usersEndpoint != "" }

  predicate Valid(env: Env, files: set<string>, s: Settings) {
    && NodeOk(env, s) && KboardPartOk(env, s.kboard)
    && UpstreamsOk(env, files, s.upstreams, |s.upstreams|)
    && InboundsOk(env, UpstreamNames(s.upstreams), Dynamic(s.kboard), s.inbounds, |s.inbounds|)
  }

  // ----- How far a failed Validate came -----

  datatype Problem = NodePart | ControlPlane | UpstreamPart(i: nat) | InboundPart(i: nat)

  /** Everything before the problem is fine, and the problem is one. */
  predicate FirstProblem(env: Env, files: set<string>, s: Settings, p: Problem) {
    match p
    case NodePart => !NodeOk(env, s)
    case ControlPlane => NodeOk(env, s) && !KboardPartOk(env, s.kboard)
    case UpstreamPart(i) =>
      && NodeOk(env, s) && KboardPartOk(env, s.kboard) && i < |s.upstreams|
      && UpstreamsOk(env, files, s.upstreams, i) && !UpstreamsOk(env, files, s.upstreams, i + 1)
    case InboundPart(i) =>
      && NodeOk(env, s) && KboardPartOk(env, s.kboard) && i < |s.inbounds|
      && UpstreamsOk(env, files, s.upstreams, |s.upstreams|)
      && InboundsOk(env, UpstreamNames(s.upstreams), Dynamic(s.kboard), s.inbounds, i)
      && !InboundsOk(env, UpstreamNames(s.upstreams), Dynamic(s.kboard), s.inbounds, i + 1)
  }

  /** Defaults for everything, twice for the control plane: what the inbounds are checked in. */
  function Prepared(env: Env, s: Settings): Settings {
    var d := Defaults(env, s);
    d.(kboard := KboardPart(d.kboard))
  }

  /** The first i inbounds checked, inbound i perhaps in part, the rest as the defaults left them. */
  predicate CheckedUpTo(ds: seq<Inbound>, xs: seq<Inbound>, i: nat) {
    && |xs| == |ds| && i < |ds|
    && (forall j :: 0 <= j < i ==> xs[j] == Checked(ds[j]))
    && PartlyChecked(ds[i], xs[i])
    && (forall j :: i < j < |ds| ==> xs[j] == ds[j])
  }

  /** The state in which a problem leaves the configuration. */
  predicate LeftBy(env: Env, s: Settings, p: Problem, after: Settings) {
    match p
    case NodePart => after == Defaults(env, s)
    case ControlPlane => after == Prepared(env, s)
    case UpstreamPart(_) => after == Prepared(env, s)
    case InboundPart(i) =>
      after == Prepared(env, s).(inbounds := after.inbounds) && CheckedUpTo(Prepared(env, s).inbounds, after.inbounds, i)
  }

  // ----- On the heap -----

  /** *KboardConfig: a record behind a pointer. */
  class KboardConfig {
    var settings: Kboard

    constructor (settings: Kboard)
      ensures this.settings == settings
    {
      this.settings := settings;
    }

    method ApplyDefaults()
      modifies this
      ensures settings == KboardDefaults(old(settings))
    {
      settings := KboardDefaults(settings);
    }

    method Validate(env: Env) returns (ok: bool)
      modifies this
      ensures settings == KboardDefaults(old(settings)) && (ok <==> KboardOk(env, settings))
    {
      hide KboardDefaults;
      ApplyDefaults();
      if settings.publicUrl == "" || settings.nodeId == "" || settings.nodeSharedSecret == "" || settings.aliveEndpoint == "" {
        return false;
      }
      if !env.isRequestUri(settings.publicUrl) { return false; }
      return ParseDuration(env, settings.reportInterval, 30 * SECOND).Some?;
    }
  }

  class Config {
    var nodeId: string
    var adminAddress: string
    var shutdownGrace: string
    var kboard: KboardConfig?
    var upstreams: seq<Upstream>
    var inbounds: seq<Inbound>

    constructor (nodeId: string, adminAddress: string, shutdownGrace: string, kboard: KboardConfig?, upstreams: seq<Upstream>, inbounds: seq<Inbound>)
      ensures
        && this.nodeId == nodeId && this.adminAddress == adminAddress && this.shutdownGrace == shutdownGrace
        && this.kboard == kboard && this.upstreams == upstreams && this.inbounds == inbounds
    {
      this.nodeId, this.adminAddress, this.shutdownGrace := nodeId, adminAddress, shutdownGrace;
      this.kboard, this.upstreams, this.inbounds := kboard, upstreams, inbounds;
    }

    function Kboard(): Option<Kboard>
      reads this, kboard
    {
      if kboard == null then None else Some(kboard.settings)
    }

    function View(): Settings
      reads this, kboard
    {
      Settings(nodeId, adminAddress, shutdownGrace, Kboard(), upstreams, inbounds)
    }

    method ApplyDefaults(env: Env)
      modifies this, kboard
      ensures kboard == old(kboard) && View() == Defaults(env, old(View()))
    {
      hide TrimSpace, UpstreamDefaults, InboundDefaults, KboardDefaults, Defaults;
      ghost var s := View();
      nodeId := TrimSpace(nodeId);
      if adminAddress == "" { adminAddress := "127.0.0.1:8080"; }
      if shutdownGrace == "" { shutdownGrace := "10s"; }
      var i := 0;
      while i < |upstreams|
        invariant 0 <= i <= |upstreams| == |old(upstreams)|
        invariant forall j :: 0 <= j < |upstreams| ==> upstreams[j] == if j < i then UpstreamDefaults(env, old(upstreams)[j]) else old(upstreams)[j]
        modifies this`upstreams
      {
        upstreams := upstreams[i := UpstreamDefaults(env, upstreams[i])];
        i := i + 1;
      }
      i := 0;
      while i < |inbounds|
        invariant 0 <= i <= |inbounds| == |old(inbounds)|
        invariant forall j :: 0 <= j < |inbounds| ==> inbounds[j] == if j < i then InboundDefaults(env, old(inbounds)[j]) else old(inbounds)[j]
        modifies this`inbounds
      {
        inbounds := inbounds[i := InboundDefaults(env, inbounds[i])];
        i := i + 1;
      }
      assert upstreams == UpstreamsDefaults(env, old(upstreams));
      assert inbounds == InboundsDefaults(env, old(inbounds));
      if kboard != null { kboard.ApplyDefaults(); }
      assert Kboard() == KboardPart(s.kboard);
      DefaultsByField(env, s, View());
    }

    /**
     * Validate succeeds exactly on the configurations whose normal form is valid, and leaves the normal
     * form; otherwise it reports the first problem and leaves the configuration as far as it came.
     */
    method Validate(env: Env, files: set<string>) returns (problem: Option<Problem>)
      modifies this, kboard
      ensures kboard == old(kboard)
      ensures problem.None? <==> Valid(env, files, Normalised(env, old(View())))
      ensures problem.None? ==> View() == Normalised(env, old(View()))
      ensures problem.Some? ==> FirstProblem(env, files, Prepared(env, old(View())), problem.value)
      ensures problem.Some? ==> LeftBy(env, old(View()), problem.value, View())
    {
      hide Defaults, Normalised, Prepared, Valid, FirstProblem, LeftBy, DurationOk;
      ghost var s := View();
      ApplyDefaults(env);
      NodeAsPrepared(env, s);
      DurationOkIff(env, shutdownGrace, 10 * SECOND);
      if TrimSpace(nodeId) == "" || inbounds == [] || ParseDuration(env, shutdownGrace, 10 * SECOND).None? {
        NodeVerdict(env, files, s);
        return Some(NodePart);
      }
      problem := ValidateParts(env, files, s);
    }

    /** Everything behind the node's own fields: the control plane, the upstreams and the inbounds, in this order. */
    method ValidateParts(env: Env, files: set<string>, ghost s: Settings) returns (problem: Option<Problem>)
      requires View() == Defaults(env, s) && NodeOk(env, Prepared(env, s)) && Settled(env, Prepared(env, s))
      modifies this, kboard
      ensures kboard == old(kboard)
      ensures problem.None? <==> Valid(env, files, Normalised(env, s))
      ensures problem.None? ==> View() == Normalised(env, s)
      ensures problem.Some? ==> FirstProblem(env, files, Prepared(env, s), problem.value)
      ensures problem.Some? ==> LeftBy(env, s, problem.value, View())
    {
      hide Defaults, Normalised, NodeOk, KboardOk, InboundsOk, UpstreamsOk, Valid, FirstProblem, LeftBy, CheckedUpTo, UpstreamNames,
        UpstreamDefaults, InboundDefaults, KboardDefaults, CheckedInbounds;
      ghost var p := Prepared(env, s);
      if kboard != null {
        var kboardOk := kboard.Validate(env);
        if !kboardOk {
          KboardFails(env, files, s);
          Verdict(env, files, s, Some(ControlPlane), p);
          return Some(ControlPlane);
        }
      }
      assert View() == p;
      var i := ValidateUpstreams(env, files);
      if i < |upstreams| {
        UpstreamFails(env, files, s, i);
        Verdict(env, files, s, Some(UpstreamPart(i)), p);
        return Some(UpstreamPart(i));
      }
      var dynamic := kboard != null && kboard.settings.usersEndpoint != "";
      var k := ValidateInbounds(env, UpstreamNames(upstreams), dynamic);
      if k < |inbounds| {
        InboundFails(env, files, s, k, inbounds);
        Verdict(env, files, s, Some(InboundPart(k)), View());
        return Some(InboundPart(k));
      }
      Verdict(env, files, s, None, View());
      return None;
    }

    /** The loop over the upstreams: the index of the first that fails, or their number. */
    method ValidateUpstreams(env: Env, files: set<string>) returns (i: nat)
      requires forall u <- upstreams :: UpstreamDefaults(env, u) == u
      modifies this`upstreams
      ensures upstreams == old(upstreams) && i <= |upstreams| && UpstreamsOk(env, files, upstreams, i)
      ensures i < |upstreams| ==> !UpstreamsOk(env, files, upstreams, i + 1)
    {
      hide UpstreamDefaults, UpstreamOk;
      var names: set<string> := {};
      i := 0;
      while i < |upstreams|
        invariant upstreams == old(upstreams) && i <= |upstreams|
        invariant UpstreamsOk(env, files, upstreams, i)
        invariant names == UpstreamNames(upstreams[..i])
      {
        var ok, u := ValidateUpstream(env, files, upstreams[i]);
        upstreams := upstreams[i := u];
        if !ok { return; }
        if u.name in names { return; }
        assert upstreams[..i + 1] == upstreams[..i] + [u];
        names := names + {u.name};
        i := i + 1;
      }
    }

    /** The loop over the inbounds. */
    method ValidateInbounds(env: Env, upstreamNames: set<string>, dynamic: bool) returns (i: nat)
      requires forall x <- inbounds :: InboundDefaults(env, x) == x
      modifies this`inbounds
      ensures |inbounds| == |old(inbounds)| && i <= |inbounds|
      ensures InboundsOk(env, upstreamNames, dynamic, old(inbounds), i)
      ensures i < |inbounds| ==>
                !InboundsOk(env, upstreamNames, dynamic, old(inbounds), i + 1) && CheckedUpTo(old(inbounds), inbounds, i)
      ensures i == |inbounds| ==> inbounds == CheckedInbounds(old(inbounds))
    {
      hide InboundDefaults, InboundOk, PartlyChecked, Checked, InboundsOk, InboundNames;
      InboundsFrom(env, upstreamNames, dynamic, inbounds);
      var names: set<string> := {};
      i := 0;
      while i < |inbounds|
        invariant |inbounds| == |old(inbounds)| && i <= |inbounds|
        invariant forall j :: 0 <= j < |inbounds| ==> inbounds[j] == if j < i then Checked(old(inbounds)[j]) else old(inbounds)[j]
        invariant InboundsOk(env, upstreamNames, dynamic, old(inbounds), i)
        invariant names == InboundNames(old(inbounds)[..i])
      {
        var ok, x := ValidateInbound(env, upstreamNames, dynamic, inbounds[i]);
        assert old(inbounds)[i] in old(inbounds);
        inbounds := inbounds[i := x];
        InboundsStep(env, upstreamNames, dynamic, old(inbounds), i);
        if !ok { return; }
        if x.name in names { return; }
        names := names + {x.name};
        i := i + 1;
      }
    }
  }

  // ----- Steps of the proof -----

  lemma DefaultsByField(env: Env, s: Settings, d: Settings)
    requires d.nodeId == TrimSpace(s.nodeId) && d.adminAddress == OrDefault(s.adminAddress, "127.0.0.1:8080")
    requires d.shutdownGrace == OrDefault(s.shutdownGrace, "10s") && d.kboard == KboardPart(s.kboard)
    requires d.upstreams == UpstreamsDefaults(env, s.upstreams) && d.inbounds == InboundsDefaults(env, s.inbounds)
    ensures d == Defaults(env, s)
  {
  }

  /** Upstreams and inbounds already have their defaults. */
  predicate Settled(env: Env, s: Settings) {
    (forall u <- s.upstreams :: UpstreamDefaults(env, u) == u) && (forall x <- s.inbounds :: InboundDefaults(env, x) == x)
  }

  lemma NodeAsPrepared(env: Env, s: Settings)
    ensures
      var d, p := Defaults(env, s), Prepared(env, s);
      && TrimSpace(d.nodeId) == d.nodeId && (NodeOk(env, p) <==> NodeOk(env, d)) && Settled(env, p)
  {
    hide TrimSpace, UpstreamDefaults, InboundDefaults, KboardDefaults;
    TrimSpaceTwice(s.nodeId);
    forall u | u in s.upstreams ensures UpstreamDefaults(env, UpstreamDefaults(env, u)) == UpstreamDefaults(env, u) {
      UpstreamDefaultsAgain(env, u);
    }
    forall x | x in s.inbounds ensures InboundDefaults(env, InboundDefaults(env, x)) == InboundDefaults(env, x) {
      InboundDefaultsAgain(env, x);
    }
  }

  lemma InboundsFrom(env: Env, names: set<string>, dynamic: bool, xs: seq<Inbound>)
    ensures InboundsOk(env, names, dynamic, xs, 0) && InboundNames(xs[..0]) == {}
  {
  }

  lemma InboundsStep(env: Env, names: set<string>, dynamic: bool, xs: seq<Inbound>, i: nat)
    requires i < |xs|
    ensures InboundNames(xs[..i + 1]) == InboundNames(xs[..i]) + {xs[i].name} && Checked(xs[i]).name == xs[i].name
    ensures
      InboundsOk(env, names, dynamic, xs, i + 1) <==>
      InboundsOk(env, names, dynamic, xs, i) && InboundOk(env, names, dynamic, xs[i]) && xs[i].name !in InboundNames(xs[..i])
  {
    hide InboundOk;
    assert xs[..i + 1] == xs[..i] + [xs[i]];
  }

  /** Trimming its clients does not change whether an inbound passes. */
  lemma CheckedIsOkIff(env: Env, names: set<string>, dynamic: bool, x: Inbound)
    ensures InboundOk(env, names, dynamic, Checked(x)) <==> InboundOk(env, names, dynamic, x)
  {
    hide TrimSpace, DurationOk, ServerNamesKnown, Matches, SecretOk, PrivateKeyOk, PaddingOk;
    var cs := x.kless.clients;
    var ts := TrimClients(cs, |cs|);
    assert TrimClients(ts, |ts|) == ts by { TrimClientsAgain(cs); }
    forall i | 0 <= i < |cs| ensures TrimClient(ts[i]) == TrimClient(cs[i]) && ts[i] in ts && cs[i] in cs {
      assert TrimClients(ts, |ts|)[i] == ts[i];
    }
  }

  lemma InboundsOkAsChecked(env: Env, names: set<string>, dynamic: bool, xs: seq<Inbound>)
    ensures InboundsOk(env, names, dynamic, CheckedInbounds(xs), |xs|) <==> InboundsOk(env, names, dynamic, xs, |xs|)
  {
    hide InboundOk, Checked, InboundNames;
    var cs := CheckedInbounds(xs);
    forall i | 0 <= i < |xs|
      ensures InboundNames(cs[..i]) == InboundNames(xs[..i]) && cs[i].name == xs[i].name
      ensures InboundOk(env, names, dynamic, cs[i]) <==> InboundOk(env, names, dynamic, xs[i])
    {
      NamesOfChecked(xs, i);
      CheckedIsOkIff(env, names, dynamic, xs[i]);
    }
  }

  lemma ValidAsPrepared(env: Env, files: set<string>, s: Settings)
    ensures Valid(env, files, Normalised(env, s)) <==> Valid(env, files, Prepared(env, s))
  {
    hide Defaults, InboundsOk, UpstreamsOk, CheckedInbounds, DurationOk, KboardPartOk, KboardPart, Dynamic, UpstreamNames;
    var p := Prepared(env, s);
    assert Normalised(env, s) == p.(inbounds := CheckedInbounds(p.inbounds));
    InboundsOkAsChecked(env, UpstreamNames(p.upstreams), Dynamic(p.kboard), p.inbounds);
  }

  /** What a run of the checks found, `after` being the configuration it left. */
  predicate Finds(env: Env, files: set<string>, s: Settings, problem: Option<Problem>, after: Settings) {
    var p := Prepared(env, s);
    match problem
    case Some(first) => FirstProblem(env, files, p, first) && LeftBy(env, s, first, after)
    case None =>
      && NodeOk(env, p) && KboardPartOk(env, p.kboard) && UpstreamsOk(env, files, p.upstreams, |p.upstreams|)
      && InboundsOk(env, UpstreamNames(p.upstreams), Dynamic(p.kboard), p.inbounds, |p.inbounds|)
      && after == p.(inbounds := CheckedInbounds(p.inbounds))
  }

  /** No problem means valid and normalised, and a first problem means not valid. */
  lemma Verdict(env: Env, files: set<string>, s: Settings, problem: Option<Problem>, after: Settings)
    requires Finds(env, files, s, problem, after)
    ensures problem.None? <==> Valid(env, files, Normalised(env, s))
    ensures problem.None? ==> after == Normalised(env, s)
    ensures problem.Some? ==> FirstProblem(env, files, Prepared(env, s), problem.value) && LeftBy(env, s, problem.value, after)
  {
    hide LeftBy;
    ValidIff(env, files, s, problem, after);
  }

  lemma KboardFails(env: Env, files: set<string>, s: Settings)
    requires var p := Prepared(env, s); NodeOk(env, p) && !KboardPartOk(env, p.kboard)
    ensures Finds(env, files, s, Some(ControlPlane), Prepared(env, s))
  {
    hide Prepared, NodeOk, KboardPartOk;
  }

  lemma UpstreamFails(env: Env, files: set<string>, s: Settings, i: nat)
    requires
      var p := Prepared(env, s);
      && NodeOk(env, p) && KboardPartOk(env, p.kboard) && i < |p.upstreams|
      && UpstreamsOk(env, files, p.upstreams, i) && !UpstreamsOk(env, files, p.upstreams, i + 1)
    ensures Finds(env, files, s, Some(UpstreamPart(i)), Prepared(env, s))
  {
    hide Prepared, NodeOk, KboardPartOk, UpstreamsOk;
  }

  lemma InboundFails(env: Env, files: set<string>, s: Settings, i: nat, xs: seq<Inbound>)
    requires
      var p := Prepared(env, s);
      var names, dynamic := UpstreamNames(p.upstreams), Dynamic(p.kboard);
      && NodeOk(env, p) && KboardPartOk(env, p.kboard) && UpstreamsOk(env, files, p.upstreams, |p.upstreams|)
      && i < |p.inbounds| && InboundsOk(env, names, dynamic, p.inbounds, i) && !InboundsOk(env, names, dynamic, p.inbounds, i + 1)
      && CheckedUpTo(p.inbounds, xs, i)
    ensures Finds(env, files, s, Some(InboundPart(i)), Prepared(env, s).(inbounds := xs))
  {
    hide Prepared, NodeOk, KboardPartOk, UpstreamsOk, InboundsOk, CheckedUpTo, UpstreamNames, Dynamic;
  }

  lemma ValidIff(env: Env, files: set<string>, s: Settings, problem: Option<Problem>, after: Settings)
    requires Finds(env, files, s, problem, after)
    ensures problem.None? <==> Valid(env, files, Normalised(env, s))
  {
    hide Prepared, Normalised, NodeOk, KboardPartOk, InboundOk, UpstreamOk, Dynamic, UpstreamNames, InboundNames, CheckedInbounds, LeftBy;
    ValidAsPrepared(env, files, s);
  }

  lemma NodeVerdict(env: Env, files: set<string>, s: Settings)
    requires !NodeOk(env, Prepared(env, s))
    ensures !Valid(env, files, Normalised(env, s)) && FirstProblem(env, files, Prepared(env, s), NodePart)
    ensures LeftBy(env, s, NodePart, Defaults(env, s))
  {
    hide Normalised, Prepared, NodeOk;
    ValidAsPrepared(env, files, s);
  }

  lemma NamesOfChecked(xs: seq<Inbound>, i: nat)
    requires i < |xs|
    ensures CheckedInbounds(xs)[i].name == xs[i].name && InboundNames(CheckedInbounds(xs)[..i]) == InboundNames(xs[..i])
  {
    var cs := CheckedInbounds(xs);
    forall x | x in InboundNames(xs[..i]) ensures x in InboundNames(cs[..i]) {
      var j :| 0 <= j < i && xs[j].name == x;
      assert cs[j] in cs[..i];
    }
    forall x | x in InboundNames(cs[..i]) ensures x in InboundNames(xs[..i]) {
      var j :| 0 <= j < i && cs[j].name == x;
      assert xs[j] in xs[..i];
    }
  }
}
