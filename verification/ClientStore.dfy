/**
 * dynamicClientStore: credentials from the configuration (static) under credentials from the control
 * plane (dynamic). Secrets are byte slices on the heap, copied on the way in and on the way out.
 */
module ClientStore {
  import opened Base64
  import opened Text
  import opened Wrappers

  // ----- What the store means -----

  /** A credential by value. */
  datatype Entry = Entry(clientId: string, secret: seq<Byte>, userId: int)

  predicate Usable(e: Entry) {
    TrimSpace(e.clientId) != "" && e.secret != []
  }

  /** The last usable entry for an id: the reference for what a list of credentials means. */
  function LastUsable(es: seq<Entry>, id: string): Option<Entry> {
    if es == [] then None
    else
      var last := es[|es| - 1];
      if Usable(last) && TrimSpace(last.clientId) == id then Some(last) else LastUsable(es[..|es| - 1], id)
  }

  /** The map a list of credentials builds, entry after entry. */
  function Layer(es: seq<Entry>): map<string, Entry> {
    if es == [] then map[]
    else
      var init, last := Layer(es[..|es| - 1]), es[|es| - 1];
      if Usable(last) then init[TrimSpace(last.clientId) := last] else init
  }

  lemma {:induction false} LayerIsLastUsable(es: seq<Entry>, id: string)
    ensures if id in Layer(es) then LastUsable(es, id) == Some(Layer(es)[id]) else LastUsable(es, id) == None
  {
    if es != [] { LayerIsLastUsable(es[..|es| - 1], id); }
  }

  /** Every key of a layer is a trimmed, nonempty id and belongs to a usable entry of the list. */
  lemma {:induction false} LayerKeys(es: seq<Entry>)
    ensures forall id <- Layer(es) ::
              id != "" && Trimmed(id) && Layer(es)[id] in es && Usable(Layer(es)[id]) && TrimSpace(Layer(es)[id].clientId) == id
  {
    if es != [] {
      LayerKeys(es[..|es| - 1]);
      TrimSpaceTrims(es[|es| - 1].clientId);
    }
  }

  /** Adding lists one after the other is adding their concatenation. */
  lemma {:induction false} LayerConcat(a: seq<Entry>, b: seq<Entry>)
    ensures Layer(a + b) == Layer(a) + Layer(b)
  {
    if b == [] {
      assert a + b == a;
    } else {
      assert (a + b)[..|a + b| - 1] == a + b[..|b| - 1];
      LayerConcat(a, b[..|b| - 1]);
    }
  }

  /** What a lookup finds: the dynamic layer first, then the static one. */
  function Found(statics: seq<Entry>, dynamics: seq<Entry>, id: string): Option<Entry> {
    if LastUsable(dynamics, id).Some? then LastUsable(dynamics, id) else LastUsable(statics, id)
  }

  function UserOf(es: seq<Entry>, id: string): int {
    if LastUsable(es, id).Some? then LastUsable(es, id).value.userId else 0
  }

  /** UserID: a positive dynamic user, otherwise the static one. */
  function UserIdOf(statics: seq<Entry>, dynamics: seq<Entry>, id: string): int {
    if UserOf(dynamics, id) > 0 then UserOf(dynamics, id) else UserOf(statics, id)
  }

  /**
   * A reported user owns the secret that a lookup returns, except in one case: a dynamic entry without a
   * user hides a static entry that has one.
   */
  lemma UserOwnsSecretIff(statics: seq<Entry>, dynamics: seq<Entry>, id: string)
    ensures
      var user := UserIdOf(statics, dynamics, id);
      (user > 0 ==> Found(statics, dynamics, id).Some? && Found(statics, dynamics, id).value.userId == user)
      <==> !(LastUsable(dynamics, id).Some? && UserOf(dynamics, id) <= 0 < UserOf(statics, id))
  {
  }

  /** With static entries as the configuration builds them, a positive user is the dynamic owner of the secret. */
  lemma UserOwnsSecret(statics: seq<Entry>, dynamics: seq<Entry>, id: string)
    requires forall e <- statics :: e.userId == 0
    requires UserIdOf(statics, dynamics, id) > 0
    ensures LastUsable(dynamics, id).Some? && Found(statics, dynamics, id) == LastUsable(dynamics, id)
    ensures Found(statics, dynamics, id).value.userId == UserIdOf(statics, dynamics, id)
  {
    LastUsableIsMember(statics, id);
  }

  lemma {:induction false} LastUsableIsMember(es: seq<Entry>, id: string)
    ensures LastUsable(es, id).Some? ==> LastUsable(es, id).value in es && Usable(LastUsable(es, id).value)
  {
    if es != [] { LastUsableIsMember(es[..|es| - 1], id); }
  }

  /** Every secret that can be retrieved is at least as long as the shortest one put in. */
  lemma RetrievableSecretsAreLong(statics: seq<Entry>, dynamics: seq<Entry>, id: string, n: nat)
    requires forall e <- statics + dynamics :: |e.secret| >= n
    requires Found(statics, dynamics, id).Some?
    ensures |Found(statics, dynamics, id).value.secret| >= n
  {
    LastUsableIsMember(statics, id);
    LastUsableIsMember(dynamics, id);
  }

  // ----- The store on the heap -----

  /** A credential as callers pass it: the secret is their slice. */
  datatype ClientCredential = ClientCredential(clientId: string, secret: array<Byte>, userId: int)

  ghost function View(c: ClientCredential): Entry
    reads c.secret
  {
    Entry(c.clientId, c.secret[..], c.userId)
  }

  ghost function Arrays(cs: seq<ClientCredential>): set<array<Byte>> {
    set c | c in cs :: c.secret
  }

  ghost function Views(cs: seq<ClientCredential>): (r: seq<Entry>)
    reads Arrays(cs)
    ensures |r| == |cs|
  {
    if cs == [] then []
    else
      assert cs[|cs| - 1] in cs;
      Views(cs[..|cs| - 1]) + [View(cs[|cs| - 1])]
  }

  twostate lemma {:induction false} ViewsKept(cs: seq<ClientCredential>)
    requires forall c <- cs :: unchanged(c.secret)
    ensures Views(cs) == old(Views(cs))
  {
    if cs != [] {
      assert cs[|cs| - 1] in cs;
      ViewsKept(cs[..|cs| - 1]);
    }
  }

  lemma ViewsEmpty()
    ensures Views([]) == []
  {
  }

  lemma ViewsAppend(cs: seq<ClientCredential>, c: ClientCredential)
    ensures Views(cs + [c]) == Views(cs) + [View(c)]
  {
    assert (cs + [c])[..|cs|] == cs;
  }

  /** A credential whose secret is a fresh slice holding the given bytes. */
  method Filled(e: Entry) returns (c: ClientCredential)
    ensures fresh(c.secret) && View(c) == e
  {
    var secret := new Byte[|e.secret|](k requires 0 <= k < |e.secret| => e.secret[k]);
    c := ClientCredential(e.clientId, secret, e.userId);
    assert secret[..] == e.secret;
  }

  type Secrets = map<string, array<Byte>>
  type Users = map<string, int>

  /** The two maps hold exactly the entries of a list, under the same keys, in arrays of `owned`. */
  ghost predicate Represents(secrets: Secrets, users: Users, es: seq<Entry>, owned: set<array<Byte>>)
    reads owned
  {
    && secrets.Keys == users.Keys == Layer(es).Keys
    && (forall id <- secrets :: secrets[id] in owned && secrets[id][..] == Layer(es)[id].secret && users[id] == Layer(es)[id].userId)
  }

  method CopyBytes(src: array<Byte>) returns (dst: array<Byte>)
    ensures fresh(dst) && dst[..] == src[..]
  {
    dst := new Byte[src.Length];
    var i := 0;
    while i < src.Length
      invariant 0 <= i <= src.Length
      invariant dst[..i] == src[..i]
    {
      dst[i] := src[i];
      i := i + 1;
    }
  }

  lemma {:induction false} ViewsAt(cs: seq<ClientCredential>, i: nat)
    requires i < |cs|
    ensures Views(cs)[i] == View(cs[i])
  {
    if i < |cs| - 1 { ViewsAt(cs[..|cs| - 1], i); }
  }

  /** More storage, the same meaning. */
  lemma RepresentsIn(secrets: Secrets, users: Users, es: seq<Entry>, owned: set<array<Byte>>, more: set<array<Byte>>)
    requires Represents(secrets, users, es, owned) && owned <= more
    ensures Represents(secrets, users, es, more)
  {
  }

  /** One more usable entry. */
  lemma RepresentsMore(secrets: Secrets, users: Users, es: seq<Entry>, owned: set<array<Byte>>, e: Entry, copy: array<Byte>)
    requires Represents(secrets, users, es, owned) && Usable(e) && copy[..] == e.secret
    ensures Represents(secrets[TrimSpace(e.clientId) := copy], users[TrimSpace(e.clientId) := e.userId], es + [e], owned + {copy})
  {
    hide Layer, Usable, TrimSpace;
    LayerGrows(es, e);
  }

  /** New entries assigned over old ones. */
  lemma RepresentsMerge(secrets: Secrets, users: Users, es: seq<Entry>, secrets': Secrets, users': Users, es': seq<Entry>, owned: set<array<Byte>>)
    requires Represents(secrets, users, es, owned) && Represents(secrets', users', es', owned)
    ensures Represents(secrets + secrets', users + users', es + es', owned)
  {
    hide Layer;
    LayerConcat(es, es');
  }

  lemma LayerGrows(es: seq<Entry>, e: Entry)
    ensures Layer(es + [e]) == if Usable(e) then Layer(es)[TrimSpace(e.clientId) := e] else Layer(es)
  {
    assert (es + [e])[..|es|] == es;
  }

  /** credentialMaps: the last usable entry of an id wins; secrets are copied into fresh arrays. */
  method CredentialMaps(entries: seq<ClientCredential>) returns (secrets: Secrets, users: Users, ghost owned: set<array<Byte>>)
    ensures Represents(secrets, users, old(Views(entries)), owned) && fresh(owned)
  {
    hide Layer, Usable, Represents, TrimSpace;
    secrets, users, owned := map[], map[], {};
    ghost var views := Views(entries);
    var i := 0;
    NothingRepresented();
    forall k | 0 <= k < |entries| ensures views[k] == View(entries[k]) { ViewsAt(entries, k); }
    while i < |entries|
      invariant 0 <= i <= |entries|
      invariant forall k :: 0 <= k < |entries| ==> views[k] == View(entries[k])
      invariant Represents(secrets, users, views[..i], owned) && fresh(owned)
    {
      ghost var before := views[..i];
      var entry := entries[i];
      assert views[..i + 1] == before + [View(entry)];
      UsableView(entry);
      i := i + 1;
      var clientId := TrimSpace(entry.clientId);
      if clientId == "" || entry.secret.Length == 0 {
        RepresentsLess(secrets, users, before, owned, View(entry));
        continue;
      }
      var secret := CopyBytes(entry.secret);
      RepresentsMore(secrets, users, before, owned, View(entry), secret);
      secrets := secrets[clientId := secret];
      users := users[clientId := entry.userId];
      owned := owned + {secret};
    }
    assert views[..i] == views;
  }

  lemma NothingRepresented()
    ensures Represents(map[], map[], [], {})
  {
    assert Layer([]) == map[];
  }

  /** An unusable entry changes nothing. */
  lemma RepresentsLess(secrets: Secrets, users: Users, es: seq<Entry>, owned: set<array<Byte>>, e: Entry)
    requires Represents(secrets, users, es, owned) && !Usable(e)
    ensures Represents(secrets, users, es + [e], owned)
  {
    LayerGrows(es, e);
  }

  lemma UsableView(c: ClientCredential)
    ensures Usable(View(c)) <==> TrimSpace(c.clientId) != "" && c.secret.Length > 0
  {
  }

  class DynamicClientStore {
    var staticSecrets: Secrets
    var staticUsers: Users
    var dynamicSecrets: Secrets
    var dynamicUsers: Users
    ghost var Repr: set<array<Byte>>     // the secrets' storage, never handed out
    ghost var statics: seq<Entry>        // all static entries since the last SetStatic
    ghost var dynamics: seq<Entry>       // the latest dynamic list

    ghost predicate Valid()
      reads this, Repr
    {
      && Represents(staticSecrets, staticUsers, statics, Repr)
      && Represents(dynamicSecrets, dynamicUsers, dynamics, Repr)
    }

    constructor ()
      ensures Valid() && statics == [] && dynamics == [] && Repr == {}
    {
      staticSecrets, staticUsers := map[], map[];
      dynamicSecrets, dynamicUsers := map[], map[];
      Repr, statics, dynamics := {}, [], [];
    }

    /** The secret is copied out: the caller gets fresh storage. */
    method LookupClientSecret(clientId: string) returns (secret: array<Byte>, ok: bool)
      requires Valid()
      ensures fresh(secret)
      ensures ok <==> Found(statics, dynamics, clientId).Some?
      ensures ok ==> secret[..] == Found(statics, dynamics, clientId).value.secret
    {
      LayerIsLastUsable(dynamics, clientId);
      LayerIsLastUsable(statics, clientId);
      ok := true;
      if clientId in dynamicSecrets {
        secret := CopyBytes(dynamicSecrets[clientId]);
      } else if clientId in staticSecrets {
        secret := CopyBytes(staticSecrets[clientId]);
      } else {
        secret, ok := new Byte[0], false;
      }
    }

    method UserID(clientId: string) returns (userId: int)
      requires Valid()
      ensures userId == UserIdOf(statics, dynamics, clientId)
    {
      LayerIsLastUsable(dynamics, clientId);
      LayerIsLastUsable(statics, clientId);
      userId := if clientId in dynamicUsers then dynamicUsers[clientId] else 0;
      if userId > 0 { return; }
      userId := if clientId in staticUsers then staticUsers[clientId] else 0;
    }

    method SetStatic(entries: seq<ClientCredential>)
      requires Valid()
      modifies this
      ensures Valid() && fresh(Repr - old(Repr))
      ensures statics == old(Views(entries)) && dynamics == old(dynamics)
    {
      hide Represents, Views;
      ghost var views := Views(entries);
      var secrets, users, owned := CredentialMaps(entries);
      RepresentsIn(secrets, users, views, owned, Repr + owned);
      RepresentsIn(dynamicSecrets, dynamicUsers, dynamics, Repr, Repr + owned);
      staticSecrets, staticUsers := secrets, users;
      Repr, statics := Repr + owned, views;
    }

    /** The two range loops assign every new key over the old maps. */
    method AddStatic(entries: seq<ClientCredential>)
      requires Valid()
      modifies this
      ensures Valid() && fresh(Repr - old(Repr))
      ensures statics == old(statics) + old(Views(entries)) && dynamics == old(dynamics)
    {
      hide Represents, Views;
      ghost var views := Views(entries);
      var secrets, users, owned := CredentialMaps(entries);
      RepresentsIn(secrets, users, views, owned, Repr + owned);
      RepresentsIn(staticSecrets, staticUsers, statics, Repr, Repr + owned);
      RepresentsIn(dynamicSecrets, dynamicUsers, dynamics, Repr, Repr + owned);
      RepresentsMerge(staticSecrets, staticUsers, statics, secrets, users, views, Repr + owned);
      staticSecrets := staticSecrets + secrets;
      staticUsers := staticUsers + users;
      Repr, statics := Repr + owned, statics + views;
    }

    method ReplaceDynamic(entries: seq<ClientCredential>)
      requires Valid()
      modifies this
      ensures Valid() && fresh(Repr - old(Repr))
      ensures dynamics == old(Views(entries)) && statics == old(statics)
    {
      hide Represents, Views;
      ghost var views := Views(entries);
      var secrets, users, owned := CredentialMaps(entries);
      RepresentsIn(secrets, users, views, owned, Repr + owned);
      RepresentsIn(staticSecrets, staticUsers, statics, Repr, Repr + owned);
      dynamicSecrets, dynamicUsers := secrets, users;
      Repr, dynamics := Repr + owned, views;
    }
  }

  datatype Setter = SetStatic | AddStatic | ReplaceDynamic

  function StaticsAfter(setter: Setter, statics: seq<Entry>, es: seq<Entry>): seq<Entry> {
    match setter
    case SetStatic => es
    case AddStatic => statics + es
    case ReplaceDynamic => statics
  }

  function DynamicsAfter(setter: Setter, dynamics: seq<Entry>, es: seq<Entry>): seq<Entry> {
    if setter == ReplaceDynamic then es else dynamics
  }

  /** Somebody writes whatever they like into their own slices. */
  method Scribble(targets: seq<array<Byte>>, garbage: (nat, nat) -> Byte)
    modifies set a | a in targets
  {
    for k := 0 to |targets| {
      var target := targets[k];
      for i := 0 to target.Length {
        target[i] := garbage(k, i);
      }
    }
  }

  /**
   * Secrets are copied in and out. Whatever list is put in through whichever setter, and whatever is then
   * written into the slices that were passed in, into any other slice of a caller and into the slice that
   * a lookup returned, the next lookup answers from the bytes as they were when they were put in.
   */
  method MutationsStayOutside(
      store: DynamicClientStore, setter: Setter, entries: seq<ClientCredential>,
      others: seq<array<Byte>>, garbage: (nat, nat) -> Byte, id: string) returns (secret: array<Byte>, ok: bool)
    requires store.Valid()
    requires (forall c <- entries :: c.secret !in store.Repr) && (forall a <- others :: a !in store.Repr)
    modifies store, Arrays(entries), set a | a in others
    ensures store.Valid()
    ensures
      var es := old(Views(entries));
      var found := Found(StaticsAfter(setter, old(store.statics), es), DynamicsAfter(setter, old(store.dynamics), es), id);
      (ok <==> found.Some?) && (ok ==> secret[..] == found.value.secret)
  {
    hide TrimSpace, Represents, Views, Found;
    match setter {
      case SetStatic => store.SetStatic(entries);
      case AddStatic => store.AddStatic(entries);
      case ReplaceDynamic => store.ReplaceDynamic(entries);
    }
    var passedIn := seq(|entries|, i requires 0 <= i < |entries| => entries[i].secret);
    Scribble(passedIn + others, garbage);
    var first, _ := store.LookupClientSecret(id);
    Scribble([first], garbage);
    secret, ok := store.LookupClientSecret(id);
  }
}
