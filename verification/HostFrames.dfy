/**
 What the edits of a configuration file (internal/config/config.go) change of
 it and what they leave, when a login is refused, and which addresses a stored
 host answers to.
 */
module HostFrames {
  import opened Options
  import opened Strings
  import opened Hosts
  import HostFile

  // ----- What an edit leaves

  /** The same in both maps, but for one key. */
  predicate SameBut<V(==)>(a: map<Url, V>, b: map<Url, V>, key: Url) {
    && (forall other :: other in a && other != key ==> other in b && b[other] == a[other])
    && (forall other :: other in b && other != key ==> other in a)
  }

  /** The profile is that of a login: its URL and user, and its certificates or else those the host had. */
  predicate IsLogin(profile: Profile, input: Input, had: Option<Profile>) {
    var cert, certKey := Trim(input.cert), Trim(input.certKey);
    && Some(profile.url) == input.host && (profile.auth.ByToken? <==> Trim(input.token) != "")
    && profile.username == Trim(if Trim(input.token) != "" then input.tokenOwner else input.username)
    && profile.cert == (if cert != "" then cert else if had.Some? then had.value.cert else "")
    && profile.certKey == (if certKey != "" then certKey else if had.Some? then had.value.certKey else "")
  }

  /**
   A login stores its own host and touches no other: not its profile, not its
   plaintext, and the default only when asked to or when there was none.
   */
  lemma LoginTouchesOneHost(before: Store, input: Input, plaintext: bool, after: Store)
    requires HostFile.Steps(before, HostFile.Login(input, plaintext), after)
    ensures var key := HostKey(input.host.value);
      && SameBut(before.hosts, after.hosts, key) && SameBut(before.insecure, after.insecure, key)
      && key in after.hosts
      && IsLogin(after.hosts[key], input, if key in before.hosts then Some(before.hosts[key]) else None)
      && (key in after.insecure <==> plaintext)
      && after.default == if input.setDefault || before.default == None then Some(key) else before.default
  {
  }

  /** Every other host of the file has the credential after a login that it had before. */
  lemma LoginKeepsOtherHosts(
    before: Store, input: Input, plaintext: bool, after: Store, keyring: Keyring, path: string, other: Url,
    readable: bool)
    requires HostFile.Valid(before) && HostFile.Steps(before, HostFile.Login(input, plaintext), after)
    requires other in before.hosts && other != HostKey(input.host.value)
    ensures other in after.hosts
    ensures CredentialOf(after, Keyring(readable, EntriesAfterLogin(keyring, path, input)), path, other)
      == CredentialOf(before, Keyring(readable, keyring.entries), path, other)
  {
    LoginTouchesOneHost(before, input, plaintext, after);
    LookupsStay(keyring, path, input, before.hosts[other].url, other, readable);
  }

  lemma LookupsStay(keyring: Keyring, path: string, input: Input, url: Url, filed: Url, readable: bool)
    requires input.host.Some? && HostKey(url) != HostKey(input.host.value)
    ensures StoredSecrets(Keyring(readable, EntriesAfterLogin(keyring, path, input)), path, url, filed)
      == StoredSecrets(Keyring(readable, keyring.entries), path, url, filed)
  {
    var later := EntriesAfterLogin(keyring, path, input);
    HostFile.PairUnchanged(later, keyring.entries, readable, Scoped(HostKey(url), path));
    HostFile.PairUnchanged(later, keyring.entries, readable, HostOnly(HostKey(url)));
    HostFile.PairUnchanged(later, keyring.entries, readable, HostOnly(filed));
  }

  /** The host an edit of aliases is of. */
  function Edited(step: HostFile.Step): Url
    requires step.SetAliases? || step.AddAliases? || step.RemoveAlias?
  {
    HostKey(step.host)
  }

  /** The aliases an edit names, in normal form. */
  ghost predicate Named(addresses: seq<Address>, endpoint: Endpoint) {
    exists i :: 0 <= i < |addresses| && NormalAlias(addresses[i]) == Some(endpoint)
  }

  /** Whether an edit leaves its host with an alias, by what it had. */
  ghost predicate LeftWith(step: HostFile.Step, had: seq<Endpoint>, endpoint: Endpoint) {
    match step
    case SetAliases(_, addresses) => Named(addresses, endpoint)
    case AddAliases(_, addresses) => endpoint in had || Named(addresses, endpoint)
    case RemoveAlias(_, alias) => endpoint in had && endpoint != alias
    case _ => endpoint in had
  }

  /**
   Editing the aliases of a host changes those alone, to exactly those set,
   those had and added, or those had without the one removed.
   */
  lemma AliasEditTouchesAliases(before: Store, step: HostFile.Step, after: Store)
    requires HostFile.Steps(before, step, after) && (step.SetAliases? || step.AddAliases? || step.RemoveAlias?)
    ensures var key := Edited(step);
      && key in before.hosts && key in after.hosts && SameBut(before.hosts, after.hosts, key)
      && after.hosts[key] == before.hosts[key].(aliases := after.hosts[key].aliases)
      && after.insecure == before.insecure && after.default == before.default
      && forall endpoint :: endpoint in after.hosts[key].aliases
           <==> LeftWith(step, StoredAliases(before.hosts[key]), endpoint)
  {
    var had := StoredAliases(before.hosts[Edited(step)]);
    match step
    case SetAliases(_, addresses) => NamesAll(addresses);
    case AddAliases(_, addresses) =>
      NamesAll(addresses);
      HostFile.Merges(had, NormalAliases(addresses).value);
    case RemoveAlias(_, alias) => HostFile.WithoutIsRest(had, alias);
    case _ =>
  }

  lemma NamesAll(addresses: seq<Address>)
    requires NormalAliases(addresses).Some?
    ensures forall endpoint :: endpoint in NormalAliases(addresses).value <==> Named(addresses, endpoint)
  {
    var all := NormalAll(addresses).value;
    HostFile.AllNormal(addresses);
    HostFile.Merges([], all);
    forall endpoint ensures endpoint in all <==> Named(addresses, endpoint) {
      if endpoint in all {
        var i :| 0 <= i < |all| && all[i] == endpoint;
        assert NormalAlias(addresses[i]) == Some(endpoint);
      }
      if Named(addresses, endpoint) {
        var i :| 0 <= i < |addresses| && NormalAlias(addresses[i]) == Some(endpoint);
        assert all[i] == endpoint;
      }
    }
  }

  /** What an edit of aliases is refused for: no host, an invalid alias, a host not stored, an alias taken, the disk. */
  lemma AliasEditIsRefused(
    store: Store, host: Option<Url>, valid: bool, aliases: seq<Endpoint>, writes: bool)
    ensures var error := HostFile.AliasError(store, host, valid, aliases, writes);
      if host == None then error == Some(HostRequired)
      else if !valid then error == Some(InvalidAlias)
      else
        var key := HostKey(host.value);
        && (error == Some(NotStored) <==> key !in store.hosts)
        && (error == Some(AliasTaken) <==> key in store.hosts && !AliasesFree(store, key, aliases))
        && (error == Some(NotSaved) <==> key in store.hosts && AliasesFree(store, key, aliases) && !writes)
        && (error == None <==> key in store.hosts && AliasesFree(store, key, aliases) && writes)
  {
  }

  /** Choosing the default host, and logging out, leave every other host as it is. */
  lemma OthersStay(before: Store, step: HostFile.Step, after: Store)
    requires HostFile.Steps(before, step, after)
    ensures step.SetDefault? ==>
      && after.hosts == before.hosts && after.insecure == before.insecure
      && after.default == Some(HostKey(step.host)) && HostKey(step.host) in before.hosts
    ensures step.Logout? ==>
      && SameBut(before.hosts, after.hosts, step.key) && SameBut(before.insecure, after.insecure, step.key)
      && step.key !in after.hosts && step.key !in after.insecure
      && (before.default != Some(step.key) ==> after.default == before.default)
  {
  }

  // ----- When a login is refused

  /** Exactly one whole credential is given: a token, or a user name and a password. */
  predicate OneCredential(input: Input) {
    if Trim(input.token) != "" then Trim(input.username) == "" && Trim(input.password) == ""
    else Trim(input.username) != "" && Trim(input.password) != ""
  }

  /** No other host has an alias the host would have. */
  ghost predicate NoOtherHas(store: Store, key: Url, addresses: seq<Address>) {
    forall other, endpoint :: other in store.hosts && other != key && endpoint in StoredAliases(store.hosts[other]) ==>
      !Named(addresses, endpoint) && endpoint !in StoredAliases(ProfileOf(store, key))
  }

  /**
   A login is stored exactly when it names a host that is permitted, valid
   aliases no other host has and one whole credential; and its secret can be kept: in
   the keyring, or in plaintext where that was allowed and nothing requires the keyring.
   */
  lemma LoginIsStoredExactly(store: Store, input: Input, policy: Policy, keyringWorks: bool)
    ensures Refusal(store, input, policy, keyringWorks) == None
      <==> && input.host.Some? && policy.permits
           && (forall i :: 0 <= i < |input.aliases| ==> NormalAlias(input.aliases[i]).Some?)
           && OneCredential(input)
           && NoOtherHas(store, HostKey(input.host.value), input.aliases)
           && (policy.environment == Malformed ==> policy.mandatesKeyring)
           && (keyringWorks || (input.allowInsecure && !input.requireKeyring && !policy.mandatesKeyring
                                && policy.environment in {Unset, Is(false)}))
  {
    ValidAliases(input.aliases);
    if input.host.Some? && NormalAliases(input.aliases).Some? {
      AliasesAreFree(store, HostKey(input.host.value), input);
    }
  }

  lemma {:induction false} ValidAliases(addresses: seq<Address>)
    ensures NormalAll(addresses).Some? <==> forall i :: 0 <= i < |addresses| ==> NormalAlias(addresses[i]).Some?
    decreases |addresses|
  {
    if addresses != [] {
      var init := addresses[..|addresses| - 1];
      ValidAliases(init);
      assert forall i :: 0 <= i < |init| ==> init[i] == addresses[i];
    }
  }

  lemma AliasesAreFree(store: Store, key: Url, input: Input)
    requires input.host.Some? && key == HostKey(input.host.value) && NormalAliases(input.aliases).Some?
    ensures AliasesFree(store, key, AliasesAfter(store, input)) <==> NoOtherHas(store, key, input.aliases)
  {
    var had, after := StoredAliases(ProfileOf(store, key)), AliasesAfter(store, input);
    NamesAll(input.aliases);
    HostFile.Merges(had, NormalAliases(input.aliases).value);
    assert HadOrNamed(store, key, input.aliases, after);
    if NoOtherHas(store, key, input.aliases) {
      NoneIsOwned(store, key, input.aliases, after);
    }
    if AliasesFree(store, key, after) {
      OthersHaveNone(store, key, input.aliases, after);
    }
  }

  /** The aliases are those the host had and those named. */
  ghost predicate HadOrNamed(store: Store, key: Url, addresses: seq<Address>, aliases: seq<Endpoint>) {
    forall endpoint :: endpoint in aliases
      <==> endpoint in StoredAliases(ProfileOf(store, key)) || Named(addresses, endpoint)
  }

  lemma NoneIsOwned(store: Store, key: Url, addresses: seq<Address>, aliases: seq<Endpoint>)
    requires HadOrNamed(store, key, addresses, aliases) && NoOtherHas(store, key, addresses)
    ensures AliasesFree(store, key, aliases)
  {
    forall other, i | other != key && 0 <= i < |aliases| ensures !Owns(store, other, aliases[i]) {
      assert aliases[i] in aliases;
    }
  }

  lemma OthersHaveNone(store: Store, key: Url, addresses: seq<Address>, aliases: seq<Endpoint>)
    requires HadOrNamed(store, key, addresses, aliases) && AliasesFree(store, key, aliases)
    ensures NoOtherHas(store, key, addresses)
  {
    forall other, endpoint | other in store.hosts && other != key && endpoint in StoredAliases(store.hosts[other])
      ensures !Named(addresses, endpoint) && endpoint !in StoredAliases(ProfileOf(store, key))
    {
      assert Owns(store, other, endpoint);
      assert forall i :: 0 <= i < |aliases| ==> aliases[i] != endpoint;
    }
  }

  // ----- Addresses

  /** Two URLs are of one host when scheme, name and port are, whatever their case and path. */
  lemma SameHost(a: Url, b: Url)
    ensures HostKey(a) == HostKey(b)
      <==> Lower(a.scheme) == Lower(b.scheme) && Lower(a.name) == Lower(b.name) && a.port == b.port
  {
  }

  /** A remote is an alias by its host and its port, or the one its scheme has. */
  lemma AliasNames(url: Url, name: string)
    ensures name != "" ==> NormalAlias(ScpLike(name)) == Some(Endpoint(Lower(name), "22"))
    ensures url.name == "" ==> NormalAlias(Web(url)) == None
    ensures url.name != "" && url.port != "" ==> NormalAlias(Web(url)) == Some(Endpoint(Lower(url.name), url.port))
    ensures url.name != "" && url.port == "" ==>
      NormalAlias(Web(url)) == Some(Endpoint(Lower(url.name),
        if Lower(url.scheme) == "http" then "80" else if Lower(url.scheme) == "ssh" then "22" else "443"))
  {
  }

  /** No stored host has the address as its own or as an alias. */
  ghost predicate Unknown(store: Store, url: Url) {
    && HostKey(url) !in store.hosts
    && forall key, endpoint :: NormalAlias(Web(url)) == Some(endpoint) ==> !Owns(store, key, endpoint)
  }

  /**
   A host that was stored over http is found over https, when the https address
   is neither stored nor an alias; one stored over https is never found over http.
   */
  lemma FoundOverTls(store: Store, url: Url)
    requires Unknown(store, url) && (url.name != "" || url.port != "")
    ensures var plain := HostKey(url.(scheme := "http"));
      Match(store, Web(url)) == if Lower(url.scheme) == "https" && plain in store.hosts then Some(plain) else None
  {
    assert IsAscii('h') && IsAscii('t') && IsAscii('p');
    assert Lower("http") == "http";
  }

  // ----- The order of aliases

  /** Additions that are new and differ follow in their order. */
  lemma {:induction false} AdditionsFollow(existing: seq<Endpoint>, additions: seq<Endpoint>)
    requires HostFile.Distinct(additions) && forall i :: 0 <= i < |additions| ==> additions[i] !in existing
    ensures Merge(existing, additions) == existing + additions
    decreases |additions|
  {
    if additions == [] {
      assert existing + additions == existing;
    } else {
      var init, last := additions[..|additions| - 1], additions[|additions| - 1];
      AdditionsFollow(existing, init);
      assert last !in init;
      assert existing + additions == existing + init + [last];
    }
  }

  /** What is left without an alias stays in its order. */
  lemma {:induction false} RestStays(a: seq<Endpoint>, alias: Endpoint, b: seq<Endpoint>)
    requires alias !in a && alias !in b
    ensures Without(a + [alias] + b, alias) == a + b
    decreases |b|
  {
    var all := a + [alias] + b;
    if b == [] {
      assert all[..|all| - 1] == a && a + b == a;
      NothingToTake(a, alias);
    } else {
      var init, last := b[..|b| - 1], b[|b| - 1];
      assert all[..|all| - 1] == a + [alias] + init;
      RestStays(a, alias, init);
      assert a + b == a + init + [last];
    }
  }

  lemma {:induction false} NothingToTake(aliases: seq<Endpoint>, alias: Endpoint)
    requires alias !in aliases
    ensures Without(aliases, alias) == aliases
    decreases |aliases|
  {
    if aliases != [] {
      NothingToTake(aliases[..|aliases| - 1], alias);
      assert aliases == aliases[..|aliases| - 1] + [aliases[|aliases| - 1]];
    }
  }
}
