/** Every client that the configuration lists can be looked up in the node that is built from it. */
module StaticClients {
  import opened Base64
  import opened ClientStore
  import opened Config
  import Guarantees
  import opened Keys
  import opened NodeSetup
  import opened Settings
  import opened Text
  import opened Wrappers

  /** The clients a server inbound lists, its own one first, as the configuration writes them. */
  function Listed(x: Inbound): seq<ServerClient> {
    if x.mode != KLESS_SERVER then []
    else (if x.kless.clientId != "" && x.kless.clientSecret != "" then [ServerClient(x.kless.clientId, x.kless.clientSecret)] else []) + x.kless.clients
  }

  /** All listed clients of a configuration, in its order. */
  function AllListed(xs: seq<Inbound>): seq<ServerClient> {
    if xs == [] then [] else AllListed(xs[..|xs| - 1]) + Listed(xs[|xs| - 1])
  }

  lemma {:induction false} ClientEntriesConcat(a: seq<ServerClient>, b: seq<ServerClient>)
    ensures ClientEntries(a + b) == ClientEntries(a) + ClientEntries(b)
  {
    if b == [] {
      assert a + b == a;
    } else {
      assert (a + b)[..|a + b| - 1] == a + b[..|b| - 1];
      ClientEntriesConcat(a, b[..|b| - 1]);
    }
  }

  /** The static entries are exactly the listed clients, none left out, in order. */
  lemma {:induction false} StaticsAreListed(xs: seq<Inbound>)
    ensures AllStatics(xs) == ClientEntries(AllListed(xs))
  {
    hide ClientEntry;
    if xs != [] {
      var init, last := xs[..|xs| - 1], xs[|xs| - 1];
      StaticsAreListed(init);
      ClientEntriesConcat(AllListed(init), Listed(last));
      ListedEntries(last);
    }
  }

  lemma ListedEntries(x: Inbound)
    ensures ClientEntries(Listed(x)) == if x.mode == KLESS_SERVER then StaticEntries(x.kless) else []
  {
    hide KeyOf;
    if x.mode == KLESS_SERVER && HasOwnClient(x.kless) {
      var own := ServerClient(x.kless.clientId, x.kless.clientSecret);
      ClientEntriesConcat([own], x.kless.clients);
      assert [own][..0] == [];
    } else if x.mode == KLESS_SERVER {
      assert [] + x.kless.clients == x.kless.clients;
    }
  }

  /** A listed client is found under its id unless a later one is listed under the same id. */
  lemma {:induction false} LastListedFound(cs: seq<ServerClient>, i: nat)
    requires i < |cs| && Usable(ClientEntry(cs[i])) && Trimmed(cs[i].clientId)
    requires forall j :: i < j < |cs| ==> TrimSpace(cs[j].clientId) != cs[i].clientId
    ensures LastUsable(ClientEntries(cs), cs[i].clientId) == Some(ClientEntry(cs[i]))
  {
    hide TrimSpace, KeyOf, Trimmed;
    var n := |cs| - 1;
    TrimSpaceTrims(cs[i].clientId);
    assert ClientEntries(cs) == ClientEntries(cs[..n]) + [ClientEntry(cs[n])];
    assert ClientEntries(cs)[..n] == ClientEntries(cs[..n]);
    if i < n { LastListedFound(cs[..n], i); }
  }

  /**
   * A node at its start: New, then a lookup of a listed client. It finds the secret that the configuration
   * lists for it, and no user, unless a client listed later has the same id.
   */
  method LookupListed(env: Env, cfg: Config, files: set<string>, filesLater: set<string>, ghost i: nat, id: string)
    returns (service: Service?, secret: array<Byte>, ok: bool, userId: int)
    requires
      var cs := AllListed(Normalised(env, cfg.View()).inbounds);
      && i < |cs| && cs[i].clientId == id
      && (forall j :: i < j < |cs| ==> TrimSpace(cs[j].clientId) != id)
    modifies cfg.kboard
    ensures service != null ==>
              && ok && KeyBytes(AllListed(Normalised(env, old(cfg.View())).inbounds)[i].clientSecret) == Some(secret[..])
              && userId == 0
  {
    hide Valid, Normalised, AllListed, AllStatics, DialersFor, RelaysFor, Served, DurationsPositive, CapabilitiesKnown,
      Represents, TrimSpace, CaFilesIn, LastUsable, KeyOf;
    ghost var s := cfg.View();
    service := New(env, cfg, files, filesLater);
    if service == null {
      return null, new Byte[0], false, 0;
    }
    ghost var xs := Normalised(env, s).inbounds;
    ListedIsUsable(env, files, s, i);
    StaticsAreListed(xs);
    LastListedFound(AllListed(xs), i);
    NothingDynamic(id);
    secret, ok := service.store.LookupClientSecret(id);
    userId := service.store.UserID(id);
  }

  lemma NothingDynamic(id: string)
    ensures LastUsable([], id) == None
  {
  }

  /** In a valid configuration every listed client has a trimmed id and a secret that decodes to at least 32 bytes. */
  lemma ListedIsUsable(env: Env, files: set<string>, s: Settings, i: nat)
    requires Valid(env, files, Normalised(env, s))
    requires i < |AllListed(Normalised(env, s).inbounds)|
    ensures
      var c := AllListed(Normalised(env, s).inbounds)[i];
      Trimmed(c.clientId) && Usable(ClientEntry(c)) && KeyBytes(c.clientSecret) == Some(KeyOf(c.clientSecret))
  {
    hide Valid, Normalised, AllListed, AllStatics, KeyBytes, TrimSpace, Trimmed;
    var cs := AllListed(Normalised(env, s).inbounds);
    Guarantees.StaticsAreSound(env, files, s);
    StaticsAreListed(Normalised(env, s).inbounds);
    EntryAt(cs, i);
    assert ClientEntries(cs)[i] in ClientEntries(cs);
    TrimSpaceTrims(cs[i].clientId);
  }

  lemma {:induction false} EntryAt(cs: seq<ServerClient>, i: nat)
    requires i < |cs|
    ensures ClientEntries(cs)[i] == ClientEntry(cs[i])
  {
    if i < |cs| - 1 { EntryAt(cs[..|cs| - 1], i); }
  }
}
