/**
 Every run of the edits of a configuration file (internal/config/config.go):
 what they keep true of it, and what credential a login leaves to be found.
 */
module HostFile {
  import opened Options
  import opened Strings
  import opened Hosts

  // ----- Edits

  datatype Step =
    | Login(input: Input, plaintext: bool)
    | Logout(key: Url)
    | SetAliases(host: Url, addresses: seq<Address>)
    | AddAliases(host: Url, addresses: seq<Address>)
    | RemoveAlias(host: Url, alias: Endpoint)
    | SetDefault(host: Url)

  /** One successful edit. */
  ghost predicate Steps(before: Store, step: Step, after: Store) {
    match step
    case Login(input, plaintext) =>
      && input.host.Some? && NormalAliases(input.aliases).Some?
      && AliasesFree(before, HostKey(input.host.value), AliasesAfter(before, input))
      && after == LoggedIn(before, input, plaintext)
    case Logout(key) => LoggedOut(before, after, key)
    case SetAliases(host, addresses) =>
      var key := HostKey(host);
      && key in before.hosts && NormalAliases(addresses).Some?
      && AliasesFree(before, key, NormalAliases(addresses).value)
      && after == WithAliases(before, key, NormalAliases(addresses).value)
    case AddAliases(host, addresses) =>
      var key := HostKey(host);
      && key in before.hosts && NormalAliases(addresses).Some?
      && AliasesFree(before, key, MoreAliases(before, key, addresses))
      && after == WithAliases(before, key, MoreAliases(before, key, addresses))
    case RemoveAlias(host, alias) =>
      var key := HostKey(host);
      && key in before.hosts && alias in StoredAliases(before.hosts[key])
      && after == WithAliases(before, key, Without(StoredAliases(before.hosts[key]), alias))
    case SetDefault(host) => HostKey(host) in before.hosts && after == before.(default := Some(HostKey(host)))
  }

  function MoreAliases(store: Store, key: Url, addresses: seq<Address>): seq<Endpoint>
    requires key in store.hosts && NormalAliases(addresses).Some?
  {
    Merge(StoredAliases(store.hosts[key]), NormalAliases(addresses).value)
  }

  /** Edits made one after another, from an empty file on. */
  ghost predicate Run(stores: seq<Store>, steps: seq<Step>) {
    && |stores| == |steps| + 1 && stores[0] == EMPTY
    && forall i :: 0 <= i < |steps| ==> Steps(stores[i], steps[i], stores[i + 1])
  }

  // ----- What every edit keeps

  predicate NormalEndpoint(endpoint: Endpoint) {
    Lower(endpoint.name) == endpoint.name && endpoint.name != "" && endpoint.port != ""
  }

  predicate Distinct(aliases: seq<Endpoint>) {
    forall i, j :: 0 <= i < j < |aliases| ==> aliases[i] != aliases[j]
  }

  /** Aliases as they are kept: each normal and none twice. */
  predicate Kept(aliases: seq<Endpoint>) {
    (forall i :: 0 <= i < |aliases| ==> NormalEndpoint(aliases[i])) && Distinct(aliases)
  }

  ghost predicate Valid(store: Store) {
    && FiledByUrl(store)
    && NoAliasTwice(store)
    && store.insecure.Keys <= store.hosts.Keys
    && HasDefault(store)
  }

  /** Each profile is filed under the key of its URL, and keeps its aliases normal. */
  ghost predicate FiledByUrl(store: Store) {
    forall key :: key in store.hosts ==> HostKey(store.hosts[key].url) == key && Kept(store.hosts[key].aliases)
  }

  /** No two hosts have an alias in common. */
  ghost predicate NoAliasTwice(store: Store) {
    forall a, b, endpoint :: Owns(store, a, endpoint) && Owns(store, b, endpoint) ==> a == b
  }

  /** The default host is a stored one, and there is one as long as any host is stored. */
  ghost predicate HasDefault(store: Store) {
    && (store.default.Some? ==> store.default.value in store.hosts)
    && (store.default.None? ==> store.hosts == map[])
  }

  lemma KeyIsKey(url: Url)
    ensures HostKey(HostKey(url)) == HostKey(url)
  {
    LowerIsLower(url.scheme);
    LowerIsLower(url.name);
  }

  lemma {:induction false} Merges(existing: seq<Endpoint>, additions: seq<Endpoint>)
    ensures existing <= Merge(existing, additions)
    ensures forall e :: e in Merge(existing, additions) <==> e in existing || e in additions
    ensures Distinct(existing) ==> Distinct(Merge(existing, additions))
    decreases |additions|
  {
    if additions != [] {
      var init, last := additions[..|additions| - 1], additions[|additions| - 1];
      Merges(existing, init);
      assert additions == init + [last];
    }
  }

  lemma KeepsMerged(existing: seq<Endpoint>, additions: seq<Endpoint>)
    requires Kept(existing) && forall i :: 0 <= i < |additions| ==> NormalEndpoint(additions[i])
    ensures Kept(Merge(existing, additions))
  {
    Merges(existing, additions);
    var merged := Merge(existing, additions);
    forall i | 0 <= i < |merged| ensures NormalEndpoint(merged[i]) {
      assert merged[i] in merged;
    }
  }

  lemma {:induction false} MergesDistinct(aliases: seq<Endpoint>)
    requires Distinct(aliases)
    ensures Merge([], aliases) == aliases
    decreases |aliases|
  {
    if aliases != [] {
      var init, last := aliases[..|aliases| - 1], aliases[|aliases| - 1];
      MergesDistinct(init);
      assert aliases == init + [last];
    }
  }

  lemma {:induction false} AllNormal(addresses: seq<Address>)
    requires NormalAll(addresses).Some?
    ensures |NormalAll(addresses).value| == |addresses|
    ensures forall i :: 0 <= i < |addresses| ==>
      NormalAlias(addresses[i]) == Some(NormalAll(addresses).value[i]) && NormalEndpoint(NormalAll(addresses).value[i])
    decreases |addresses|
  {
    if addresses != [] {
      AllNormal(addresses[..|addresses| - 1]);
      AliasIsNormal(addresses[|addresses| - 1]);
    }
  }

  lemma AliasIsNormal(address: Address)
    ensures NormalAlias(address).Some? ==> NormalEndpoint(NormalAlias(address).value)
  {
    match address
    case Web(url) => LowerIsLower(url.name);
    case ScpLike(name) => LowerIsLower(name);
  }

  lemma NormalAliasesAreKept(addresses: seq<Address>)
    requires NormalAliases(addresses).Some?
    ensures Kept(NormalAliases(addresses).value)
  {
    AllNormal(addresses);
    KeepsMerged([], NormalAll(addresses).value);
  }

  /** Kept aliases are read back as they are. */
  lemma StoredAsKept(profile: Profile)
    requires Kept(profile.aliases)
    ensures StoredAliases(profile) == profile.aliases
  {
    AddressesAreNormal(profile.aliases);
    MergesDistinct(profile.aliases);
  }

  lemma {:induction false} AddressesAreNormal(aliases: seq<Endpoint>)
    requires forall i :: 0 <= i < |aliases| ==> NormalEndpoint(aliases[i])
    ensures NormalAll(Addresses(aliases)) == Some(aliases)
    decreases |aliases|
  {
    if aliases != [] {
      var init := aliases[..|aliases| - 1];
      AddressesAreNormal(init);
      assert Addresses(aliases)[..|aliases| - 1] == Addresses(init);
      assert aliases == init + [aliases[|aliases| - 1]];
    }
  }

  /** What a stored profile is read as having is kept, whatever the file holds. */
  lemma StoredAliasesAreKept(profile: Profile)
    ensures Kept(StoredAliases(profile))
  {
    if NormalAliases(Addresses(profile.aliases)).Some? {
      NormalAliasesAreKept(Addresses(profile.aliases));
    }
  }

  lemma {:induction false} WithoutIsRest(aliases: seq<Endpoint>, alias: Endpoint)
    ensures forall e :: e in Without(aliases, alias) <==> e in aliases && e != alias
    ensures Distinct(aliases) ==> Distinct(Without(aliases, alias))
    decreases |aliases|
  {
    if aliases != [] {
      var init, last := aliases[..|aliases| - 1], aliases[|aliases| - 1];
      WithoutIsRest(init, alias);
      assert aliases == init + [last];
      if Distinct(aliases) {
        assert Distinct(init);
        assert forall i :: 0 <= i < |init| ==> init[i] == aliases[i] != last;
        assert last !in Without(init, alias);
      }
    }
  }

  lemma WithoutIsKept(aliases: seq<Endpoint>, alias: Endpoint)
    requires Kept(aliases)
    ensures Kept(Without(aliases, alias))
  {
    WithoutIsRest(aliases, alias);
    var rest := Without(aliases, alias);
    forall i | 0 <= i < |rest| ensures NormalEndpoint(rest[i]) {
      assert rest[i] in rest && rest[i] in aliases;
    }
  }

  /** Giving a host aliases no other has keeps each alias with one host. */
  lemma FreeAliasesStayApart(before: Store, after: Store, owner: Url, aliases: seq<Endpoint>)
    requires NoAliasTwice(before) && AliasesFree(before, owner, aliases)
    requires owner in after.hosts && StoredAliases(after.hosts[owner]) == aliases
    requires forall key :: key in after.hosts && key != owner ==>
      key in before.hosts && after.hosts[key] == before.hosts[key]
    ensures NoAliasTwice(after)
  {
    forall a, b, endpoint | Owns(after, a, endpoint) && Owns(after, b, endpoint) ensures a == b {
      if a == owner || b == owner {
        var i :| 0 <= i < |aliases| && aliases[i] == endpoint;
        assert a != owner ==> !Owns(before, a, aliases[i]);
        assert b != owner ==> !Owns(before, b, aliases[i]);
        assert a != owner ==> Owns(before, a, endpoint);
        assert b != owner ==> Owns(before, b, endpoint);
      } else {
        assert Owns(before, a, endpoint) && Owns(before, b, endpoint);
      }
    }
  }

  lemma LoginKeepsValid(before: Store, input: Input, plaintext: bool, after: Store)
    requires Valid(before) && Steps(before, Login(input, plaintext), after)
    ensures Valid(after)
  {
    var key, aliases := HostKey(input.host.value), AliasesAfter(before, input);
    StoredAliasesAreKept(ProfileOf(before, key));
    NormalAliasesAreKept(input.aliases);
    KeepsMerged(StoredAliases(ProfileOf(before, key)), NormalAliases(input.aliases).value);
    StoredAsKept(after.hosts[key]);
    FreeAliasesStayApart(before, after, key, aliases);
  }

  /** Logging in again drops no alias of the host, and adds the ones it is given. */
  lemma LoginKeepsAliases(before: Store, input: Input, plaintext: bool)
    requires input.host.Some? && NormalAliases(input.aliases).Some?
    ensures var key := HostKey(input.host.value);
      var aliases := LoggedIn(before, input, plaintext).hosts[key].aliases;
      && StoredAliases(ProfileOf(before, key)) <= aliases
      && forall e :: e in aliases <==>
           e in StoredAliases(ProfileOf(before, key)) || e in NormalAliases(input.aliases).value
  {
    Merges(StoredAliases(ProfileOf(before, HostKey(input.host.value))), NormalAliases(input.aliases).value);
  }

  lemma AliasesKeepValid(before: Store, key: Url, aliases: seq<Endpoint>)
    requires Valid(before) && key in before.hosts && Kept(aliases) && AliasesFree(before, key, aliases)
    ensures Valid(WithAliases(before, key, aliases))
  {
    var after := WithAliases(before, key, aliases);
    StoredAsKept(after.hosts[key]);
    FreeAliasesStayApart(before, after, key, aliases);
  }

  lemma LogoutKeepsValid(before: Store, after: Store, key: Url)
    requires Valid(before) && LoggedOut(before, after, key)
    ensures Valid(after)
  {
    forall a, b, endpoint | Owns(after, a, endpoint) && Owns(after, b, endpoint) ensures a == b {
      assert Owns(before, a, endpoint) && Owns(before, b, endpoint);
    }
  }

  lemma DefaultKeepsValid(before: Store, key: Url)
    requires Valid(before) && key in before.hosts
    ensures Valid(before.(default := Some(key)))
  {
    var after := before.(default := Some(key));
    forall a, b, endpoint | Owns(after, a, endpoint) && Owns(after, b, endpoint) ensures a == b {
      assert Owns(before, a, endpoint) && Owns(before, b, endpoint);
    }
  }

  /** The aliases a host already has are free for it. */
  lemma OwnAliasesAreFree(store: Store, key: Url, aliases: seq<Endpoint>)
    requires NoAliasTwice(store) && key in store.hosts
    requires forall e :: e in aliases ==> e in StoredAliases(store.hosts[key])
    ensures AliasesFree(store, key, aliases)
  {
    forall other, i | other != key && 0 <= i < |aliases| ensures !Owns(store, other, aliases[i]) {
      assert aliases[i] in aliases && Owns(store, key, aliases[i]);
    }
  }

  lemma StepsKeepValid(before: Store, step: Step, after: Store)
    requires Valid(before) && Steps(before, step, after)
    ensures Valid(after)
  {
    match step
    case Login(input, plaintext) => LoginKeepsValid(before, input, plaintext, after);
    case Logout(key) => LogoutKeepsValid(before, after, key);
    case SetAliases(host, addresses) =>
      NormalAliasesAreKept(addresses);
      AliasesKeepValid(before, HostKey(host), NormalAliases(addresses).value);
    case AddAliases(host, addresses) =>
      NormalAliasesAreKept(addresses);
      StoredAliasesAreKept(before.hosts[HostKey(host)]);
      KeepsMerged(StoredAliases(before.hosts[HostKey(host)]), NormalAliases(addresses).value);
      AliasesKeepValid(before, HostKey(host), MoreAliases(before, HostKey(host), addresses));
    case RemoveAlias(host, alias) =>
      var aliases := StoredAliases(before.hosts[HostKey(host)]);
      StoredAliasesAreKept(before.hosts[HostKey(host)]);
      WithoutIsKept(aliases, alias);
      WithoutIsRest(aliases, alias);
      OwnAliasesAreFree(before, HostKey(host), Without(aliases, alias));
      AliasesKeepValid(before, HostKey(host), Without(aliases, alias));
    case SetDefault(host) => DefaultKeepsValid(before, HostKey(host));
  }

  /**
   However the file is edited from empty on, no alias belongs to two hosts,
   each profile is filed under the key of its URL, plaintext is kept for
   stored hosts alone, and the default host is a stored one.
   */
  lemma {:induction false} RunsKeepValid(stores: seq<Store>, steps: seq<Step>, i: nat)
    requires Run(stores, steps) && i < |stores|
    ensures Valid(stores[i])
  {
    if i > 0 {
      RunsKeepValid(stores, steps, i - 1);
      StepsKeepValid(stores[i - 1], steps[i - 1], stores[i]);
    }
  }

  // ----- Finding a host by an address

  /** What resolving an address as an alias can give, in whatever order the map is read. */
  ghost predicate MayAlias(store: Store, address: Address, key: Option<Url>) {
    match NormalAlias(address)
    case None => key.None?
    case Some(endpoint) =>
      if key.None? then forall owner :: !Owns(store, owner, endpoint)
      else exists owner :: Owns(store, owner, endpoint) && key.value == HostKey(store.hosts[owner].url)
  }

  ghost predicate MayMatch(store: Store, address: Address, key: Option<Url>) {
    if address.Web? && HostKey(address.url) in store.hosts then key == Some(HostKey(address.url))
    else exists byAlias :: MayAlias(store, address, byAlias) && key == AfterAlias(store, address, byAlias)
  }

  /** The stored host an alias led to, or the one the address was filed under before TLS. */
  function AfterAlias(store: Store, address: Address, byAlias: Option<Url>): Option<Url> {
    if byAlias.Some? && byAlias.value in store.hosts then byAlias
    else if address.Web? && HostKeyOverHttp(address.url).Some? && HostKeyOverHttp(address.url).value in store.hosts
    then HostKeyOverHttp(address.url)
    else None
  }

  method ResolveStoredHostAlias(store: Store, address: Address) returns (key: Option<Url>)
    ensures MayAlias(store, address, key)
  {
    var normal := NormalAlias(address);
    if normal.None? {
      return None;
    }
    var keys := store.hosts.Keys;
    while keys != {}
      invariant keys <= store.hosts.Keys
      invariant forall owner :: owner in store.hosts && owner !in keys ==> !Owns(store, owner, normal.value)
      decreases |keys|
    {
      var owner :| owner in keys;
      if normal.value in StoredAliases(store.hosts[owner]) {
        assert Owns(store, owner, normal.value);
        return Some(HostKey(store.hosts[owner].url));
      }
      keys := keys - {owner};
    }
    return None;
  }

  method MatchStoredHost(store: Store, address: Address) returns (key: Option<Url>)
    ensures MayMatch(store, address, key)
  {
    if address.Web? && HostKey(address.url) in store.hosts {
      return Some(HostKey(address.url));
    }
    var byAlias := ResolveStoredHostAlias(store, address);
    return AfterAlias(store, address, byAlias);
  }

  /** Whichever owner of an alias is found first, it is the only one. */
  lemma OneAliasKey(store: Store, address: Address, byAlias: Option<Url>)
    requires Valid(store) && MayAlias(store, address, byAlias)
    ensures byAlias == AliasKey(store, address)
  {
    if NormalAlias(address).Some? && byAlias.Some? {
      var endpoint := NormalAlias(address).value;
      var owner :| Owns(store, owner, endpoint) && byAlias.value == HostKey(store.hosts[owner].url);
      assert AliasOwner(store, endpoint) == Some(owner);
    }
  }

  /** Whatever order the map is read in, an address is found to be for the same host. */
  lemma MatchIgnoresOrder(store: Store, address: Address, key: Option<Url>)
    requires Valid(store) && MayMatch(store, address, key)
    ensures key == Match(store, address)
  {
    if !(address.Web? && HostKey(address.url) in store.hosts) {
      var byAlias :| MayAlias(store, address, byAlias) && key == AfterAlias(store, address, byAlias);
      OneAliasKey(store, address, byAlias);
    }
  }

  /** An alias finds the host it was given to, unless a host of its own is stored under that address. */
  lemma AliasFindsItsHost(store: Store, key: Url, address: Address)
    requires Valid(store) && key in store.hosts
    requires NormalAlias(address).Some? && NormalAlias(address).value in store.hosts[key].aliases
    ensures Match(store, address) == Some(key)
      <==> !(address.Web? && HostKey(address.url) in store.hosts && HostKey(address.url) != key)
  {
    var endpoint := NormalAlias(address).value;
    StoredAsKept(store.hosts[key]);
    assert Owns(store, key, endpoint);
    assert AliasOwner(store, endpoint) == Some(key);
  }

  // ----- The credential a login leaves

  /**
   The credential a login is given: the token under its owner's name, or the
   user name and password, with the certificate given or else the one the host
   had, flagged when it went to plaintext.
   */
  function Given(store: Store, input: Input, plaintext: bool): Credential
    requires input.host.Some?
  {
    var had := ProfileOf(store, HostKey(input.host.value));
    var cert, certKey := Or(Trim(input.cert), had.cert), Or(Trim(input.certKey), had.certKey);
    if Trim(input.token) != "" then
      Credential(input.host.value, Trim(input.tokenOwner), Trim(input.token), "", cert, certKey, plaintext)
    else Credential(input.host.value, Trim(input.username), "", Trim(input.password), cert, certKey, plaintext)
  }

  /**
   After a login the host resolves to exactly the credential given, whatever
   entries for the host alone there are, if and only if the keyring is there
   to be read when it was there to be written, and where it was not, holds
   nothing that answers for the host.
   */
  lemma LoginIsFoundAgain(store: Store, keyring: Keyring, path: string, input: Input, policy: Policy, readable: bool)
    requires Refusal(store, input, policy, keyring.works).None?
    ensures var url := input.host.value;
      var after, later := LoggedIn(store, input, !keyring.works),
        Keyring(readable, EntriesAfterLogin(keyring, path, input));
      Strict(after, later, path, Web(url)) == Some(Given(store, input, !keyring.works))
      <==> if keyring.works then readable
           else StoredSecrets(Keyring(readable, keyring.entries), path, url, HostKey(url)) == NOTHING
  {
    var url, later := input.host.value, Keyring(readable, EntriesAfterLogin(keyring, path, input));
    var after := LoggedIn(store, input, !keyring.works);
    TrimTrims(input.token);
    TrimTrims(input.password);
    assert Match(after, Web(url)) == Some(HostKey(url));
    LoginIsKept(keyring, path, input, readable, HostKey(url));
  }

  /** What the keyring answers after a login: the secret given, if it was written and is read. */
  lemma LoginIsKept(keyring: Keyring, path: string, input: Input, readable: bool, filed: Url)
    requires input.host.Some? && (HasToken(input) || Trim(input.password) != "")
    ensures var later := Keyring(readable, EntriesAfterLogin(keyring, path, input));
      StoredSecrets(later, path, input.host.value, filed)
      == if !readable then NOTHING
         else if keyring.works then LoginSecret(input)
         else StoredSecrets(Keyring(readable, keyring.entries), path, input.host.value, filed)
  {
    TrimTrims(input.token);
    TrimTrims(input.password);
    if keyring.works && readable {
      var later := Keyring(readable, EntriesAfterLogin(keyring, path, input));
      assert Pair(later, Scoped(HostKey(input.host.value), path)) == LoginSecret(input);
    }
  }

  /**
   A token left in the keyring by an earlier login answers again after a login
   that went to plaintext while the keyring was away, once it is back.
   */
  lemma StaleEntryAnswers(url: Url, path: string)
    ensures var input := Input(Some(url), [], "", "", "n", "", "", "", false, true, false);
      var away := Keyring(false, map[TokenOf(Scoped(HostKey(url), path)) := "o"]);
      var back := Keyring(true, EntriesAfterLogin(away, path, input));
      var found := Strict(LoggedIn(EMPTY, input, true), back, path, Web(url));
      && Refusal(EMPTY, input, Policy(true, false, Unset), away.works) == None
      && Given(EMPTY, input, true).token == "n"
      && found.Some? && found.value.token == "o"
  {
    var input := Input(Some(url), [], "", "", "n", "", "", "", false, true, false);
    assert Trim("n") == "n" && Trim("o") == "o" && Trim("") == "";
    assert NormalAliases([]) == Some([]);
    assert StoredAliases(ProfileOf(EMPTY, HostKey(url))) == [];
  }

  // ----- Other configuration files

  /** Logging in under one file changes what no other file reads from the keyring. */
  lemma LoginLeavesOtherFiles(
    keyring: Keyring, path: string, input: Input, other: string, url: Url, filed: Url, readable: bool)
    requires input.host.Some? && other != path
    ensures StoredSecrets(Keyring(readable, EntriesAfterLogin(keyring, path, input)), other, url, filed)
      == StoredSecrets(Keyring(readable, keyring.entries), other, url, filed)
  {
    var later, before := EntriesAfterLogin(keyring, path, input), keyring.entries;
    PairUnchanged(later, before, readable, Scoped(HostKey(url), other));
    PairUnchanged(later, before, readable, HostOnly(HostKey(url)));
    PairUnchanged(later, before, readable, HostOnly(filed));
  }

  lemma PairUnchanged(later: map<Entry, string>, before: map<Entry, string>, readable: bool, scope: Scope)
    requires TokenOf(scope) in later <==> TokenOf(scope) in before
    requires PasswordOf(scope) in later <==> PasswordOf(scope) in before
    requires TokenOf(scope) in before ==> later[TokenOf(scope)] == before[TokenOf(scope)]
    requires PasswordOf(scope) in before ==> later[PasswordOf(scope)] == before[PasswordOf(scope)]
    ensures Pair(Keyring(readable, later), scope) == Pair(Keyring(readable, before), scope)
  {
  }

  /** What a logout deletes: the file's own entries for the host, and from a file with none those for the host alone. */
  predicate Takes(keyring: Keyring, path: string, key: Url, scope: Scope) {
    && keyring.works
    && (scope == Scoped(key, path) || (scope == HostOnly(key) && Pair(keyring, Scoped(key, path)) == NOTHING))
  }

  /** Every entry is gone after a logout that takes it, and otherwise as it was. */
  lemma LogoutTakes(keyring: Keyring, path: string, key: Url, scope: Scope, readable: bool)
    ensures Pair(Keyring(readable, EntriesAfterLogout(keyring, path, key)), scope)
      == if Takes(keyring, path, key, scope) then NOTHING else Pair(Keyring(readable, keyring.entries), scope)
  {
    var later := EntriesAfterLogout(keyring, path, key);
    if Takes(keyring, path, key, scope) {
      assert TokenOf(scope) !in later && PasswordOf(scope) !in later;
    } else {
      PairUnchanged(later, keyring.entries, readable, scope);
    }
  }

  /**
   Logging out under one file changes what another reads for a host exactly
   when the two share an entry for that host alone: neither has any of its
   own, and there is one.
   */
  lemma LogoutLeavesOtherFiles(keyring: Keyring, path: string, key: Url, other: string, url: Url)
    requires keyring.works && other != path
    ensures var later := keyring.(entries := EntriesAfterLogout(keyring, path, key));
      StoredSecrets(later, other, url, HostKey(url)) != StoredSecrets(keyring, other, url, HostKey(url))
      <==> && HostKey(url) == key
           && Pair(keyring, Scoped(key, path)) == NOTHING
           && Pair(keyring, Scoped(key, other)) == NOTHING
           && Pair(keyring, HostOnly(key)) != NOTHING
  {
    LogoutTakes(keyring, path, key, Scoped(HostKey(url), other), true);
    LogoutTakes(keyring, path, key, HostOnly(HostKey(url)), true);
  }

  /**
   A logout leaves the file no entry of its own for the host. What the host
   alone has is left exactly when the file had entries of its own; whether a
   profile that looks it up is still found is another question.
   */
  lemma LogoutForgets(keyring: Keyring, path: string, url: Url)
    requires keyring.works
    ensures var key := HostKey(url);
      var later := keyring.(entries := EntriesAfterLogout(keyring, path, key));
      && Pair(later, Scoped(key, path)) == NOTHING
      && StoredSecrets(later, path, key, key)
         == if Pair(keyring, Scoped(key, path)) == NOTHING then NOTHING else Pair(keyring, HostOnly(key))
  {
    var key := HostKey(url);
    KeyIsKey(url);
    LogoutTakes(keyring, path, key, Scoped(key, path), true);
    LogoutTakes(keyring, path, key, HostOnly(key), true);
  }

  datatype Use = LoginUnder(path: string, input: Input) | LogoutUnder(path: string, key: Url)

  ghost predicate Uses(before: Keyring, use: Use, after: Keyring) {
    match use
    case LoginUnder(path, input) => input.host.Some? && after.entries == EntriesAfterLogin(before, path, input)
    case LogoutUnder(path, key) => after.entries == EntriesAfterLogout(before, path, key)
  }

  /**
   A file with entries of its own for a host keeps resolving the host to
   them, through any number of logins and logouts under other files, with the
   keyring coming and going in between.
   */
  lemma {:induction false} OwnEntriesStay(
    rings: seq<Keyring>, uses: seq<Use>, i: nat, path: string, url: Url, filed: Url)
    requires |rings| == |uses| + 1 && i < |rings| && rings[0].works && rings[i].works
    requires forall j :: 0 <= j < |uses| ==> Uses(rings[j], uses[j], rings[j + 1]) && uses[j].path != path
    requires Pair(rings[0], Scoped(HostKey(url), path)) != NOTHING
    ensures StoredSecrets(rings[i], path, url, filed) == StoredSecrets(rings[0], path, url, filed)
  {
    SameEntries(rings, uses, i, path, HostKey(url));
  }

  lemma {:induction false} SameEntries(rings: seq<Keyring>, uses: seq<Use>, i: nat, path: string, key: Url)
    requires |rings| == |uses| + 1 && i < |rings|
    requires forall j :: 0 <= j < |uses| ==> Uses(rings[j], uses[j], rings[j + 1]) && uses[j].path != path
    ensures Pair(Keyring(true, rings[i].entries), Scoped(key, path))
      == Pair(Keyring(true, rings[0].entries), Scoped(key, path))
  {
    if i > 0 {
      SameEntries(rings, uses, i - 1, path, key);
      UseLeavesOthers(rings[i - 1], uses[i - 1], rings[i], path, key);
    }
  }

  lemma UseLeavesOthers(before: Keyring, use: Use, after: Keyring, path: string, key: Url)
    requires Uses(before, use, after) && use.path != path
    ensures Pair(Keyring(true, after.entries), Scoped(key, path))
      == Pair(Keyring(true, before.entries), Scoped(key, path))
  {
  }

  // ----- The file

  /** A configuration file and the machine whose keyring it shares with others. */
  class ConfigFile {
    const path: string
    const machine: Machine
    var stored: Store

    constructor (path: string, machine: Machine)
      ensures this.path == path && this.machine == machine && stored == EMPTY
    {
      this.path, this.machine, stored := path, machine, EMPTY;
    }

    /** Stores a login. A file that cannot be written keeps what it held, though the keyring has changed by then. */
    method SaveLogin(input: Input, policy: Policy, writes: bool) returns (error: Option<Error>, plaintext: bool)
      modifies this, machine
      ensures var refusal := Refusal(old(stored), input, policy, old(machine.keyring.works));
        if refusal.Some? then error == refusal && stored == old(stored) && machine.keyring == old(machine.keyring)
        else
          && plaintext == !old(machine.keyring.works)
          && machine.keyring == old(machine.keyring).(entries := EntriesAfterLogin(old(machine.keyring), path, input))
          && if writes then error == None && Steps(old(stored), Login(input, plaintext), stored)
             else error == Some(NotSaved) && stored == old(stored)
    {
      plaintext := false;
      if input.host.None? { return Some(HostRequired), false; }
      if !policy.permits { return Some(NotPermitted), false; }
      var additions := NormalizeAliases(input.aliases);
      if additions.None? { return Some(InvalidAlias), false; }
      if HasToken(input) == HasBasic(input) { return Some(NoCredential), false; }
      if HasBasic(input) && (Trim(input.username) == "" || Trim(input.password) == "") {
        return Some(HalfCredential), false;
      }
      var key := HostKey(input.host.value);
      var existing := ProfileOf(stored, key);
      var aliases := MergeAliases(StoredAliases(existing), additions.value);
      var free := EnsureAliasOwnership(stored, key, aliases);
      if !free { return Some(AliasTaken), false; }
      var profile := Profile(input.host.value, aliases, if HasToken(input) then ByToken else Basic,
                             Trim(if HasToken(input) then input.tokenOwner else input.username),
                             existing.cert, existing.certKey);
      if Trim(input.cert) != "" { profile := profile.(cert := Trim(input.cert)); }
      if Trim(input.certKey) != "" { profile := profile.(certKey := Trim(input.certKey)); }
      var required := RequiresKeyring(input, policy);
      if required.None? { return Some(BadSwitch), false; }
      var scope := Scoped(key, path);
      var refused: Option<Error>;
      if HasToken(input) {
        refused, plaintext := Keep(TokenOf(scope), Trim(input.token), PasswordOf(scope),
                                   required.value, input.allowInsecure);
      } else {
        refused, plaintext := Keep(PasswordOf(scope), Trim(input.password), TokenOf(scope),
                                   required.value, input.allowInsecure);
      }
      if refused.Some? { return refused, false; }
      if !writes { return Some(NotSaved), plaintext; }
      var insecure := if plaintext then stored.insecure[key := LoginSecret(input)] else stored.insecure - {key};
      var default := if input.setDefault || stored.default.None? then Some(key) else stored.default;
      stored := Store(stored.hosts[key := profile], insecure, default);
      return None, plaintext;
    }

    /** Puts the secret in the keyring and takes the other kind out, or says whether it may be kept in plaintext. */
    method Keep(entry: Entry, secret: string, other: Entry, required: bool, allowInsecure: bool)
      returns (refused: Option<Error>, plaintext: bool)
      requires entry != other
      modifies machine
      ensures plaintext == !old(machine.keyring.works)
      ensures refused ==
        if !plaintext then None
        else if required then Some(KeyringRequired)
        else if !allowInsecure then Some(PlaintextRefused) else None
      ensures machine.keyring == old(machine.keyring).(entries :=
        if plaintext then old(machine.keyring.entries) else old(machine.keyring.entries)[entry := secret] - {other})
    {
      refused := None;
      var kept := machine.Set(entry, secret);
      plaintext := !kept;
      if !kept {
        if required { return Some(KeyringRequired), true; }
        if !allowInsecure { return Some(PlaintextRefused), true; }
      }
      machine.Delete(other);
    }

    /** Forgets a host, the default one when none is named. */
    method LogOut(host: Option<Url>, writes: bool) returns (error: Option<Error>)
      modifies this, machine
      ensures if host.None? && old(stored.default).None?
        then error == Some(NotStored) && stored == old(stored) && machine.keyring == old(machine.keyring)
        else
          var key := HostKey(if host.Some? then host.value else old(stored.default).value);
          && machine.keyring == old(machine.keyring).(entries := EntriesAfterLogout(old(machine.keyring), path, key))
          && if writes then error == None && Steps(old(stored), Logout(key), stored)
             else error == Some(NotSaved) && stored == old(stored)
    {
      if host.None? && stored.default.None? { return Some(NotStored); }
      var key := HostKey(if host.Some? then host.value else stored.default.value);
      var scope := Scoped(key, path);
      var ownsHostOnly := Pair(machine.keyring, scope) == NOTHING;
      machine.Delete(TokenOf(scope));
      machine.Delete(PasswordOf(scope));
      if ownsHostOnly {
        machine.Delete(TokenOf(HostOnly(key)));
        machine.Delete(PasswordOf(HostOnly(key)));
      }
      if !writes { return Some(NotSaved); }
      var hosts := stored.hosts - {key};
      var default := stored.default;
      if default == Some(key) {
        default := None;
        if hosts.Keys != {} {
          var next :| next in hosts.Keys;
          default := Some(next);
        }
      }
      stored := Store(hosts, stored.insecure - {key}, default);
      return None;
    }

    method SetHostAliases(host: Option<Url>, addresses: seq<Address>, writes: bool) returns (error: Option<Error>)
      modifies this
      ensures var additions := NormalAliases(addresses);
        error == AliasError(old(stored), host, additions.Some?, if additions.Some? then additions.value else [], writes)
      ensures if error.None? then Steps(old(stored), SetAliases(host.value, addresses), stored)
              else stored == old(stored)
    {
      if host.None? { return Some(HostRequired); }
      var aliases := NormalizeAliases(addresses);
      if aliases.None? { return Some(InvalidAlias); }
      var key := HostKey(host.value);
      if key !in stored.hosts { return Some(NotStored); }
      var free := EnsureAliasOwnership(stored, key, aliases.value);
      if !free { return Some(AliasTaken); }
      if !writes { return Some(NotSaved); }
      stored := WithAliases(stored, key, aliases.value);
      return None;
    }

    method AddHostAliases(host: Option<Url>, addresses: seq<Address>, writes: bool) returns (error: Option<Error>)
      modifies this
      ensures var additions := NormalAliases(addresses);
        error == AliasError(old(stored), host, additions.Some?,
                            if additions.Some? && host.Some?
                            then Merge(StoredAliases(ProfileOf(old(stored), HostKey(host.value))), additions.value)
                            else [], writes)
      ensures if error.None? then Steps(old(stored), AddAliases(host.value, addresses), stored)
              else stored == old(stored)
    {
      if host.None? { return Some(HostRequired); }
      var additions := NormalizeAliases(addresses);
      if additions.None? { return Some(InvalidAlias); }
      var key := HostKey(host.value);
      if key !in stored.hosts { return Some(NotStored); }
      var merged := MergeAliases(StoredAliases(stored.hosts[key]), additions.value);
      var free := EnsureAliasOwnership(stored, key, merged);
      if !free { return Some(AliasTaken); }
      if !writes { return Some(NotSaved); }
      stored := WithAliases(stored, key, merged);
      return None;
    }

    method RemoveHostAlias(host: Option<Url>, address: Address, writes: bool) returns (error: Option<Error>)
      modifies this
      ensures error ==
        if host.None? then Some(HostRequired)
        else if NormalAlias(address).None? then Some(InvalidAlias)
        else if HostKey(host.value) !in old(stored.hosts) then Some(NotStored)
        else if NormalAlias(address).value !in StoredAliases(old(stored.hosts)[HostKey(host.value)])
          then Some(AliasMissing)
        else if writes then None else Some(NotSaved)
      ensures if error.None? then Steps(old(stored), RemoveAlias(host.value, NormalAlias(address).value), stored)
              else stored == old(stored)
    {
      if host.None? { return Some(HostRequired); }
      var alias := NormalAlias(address);
      if alias.None? { return Some(InvalidAlias); }
      var key := HostKey(host.value);
      if key !in stored.hosts { return Some(NotStored); }
      var updated, removed := RemoveFrom(StoredAliases(stored.hosts[key]), alias.value);
      if !removed { return Some(AliasMissing); }
      if !writes { return Some(NotSaved); }
      stored := WithAliases(stored, key, updated);
      return None;
    }

    method SetDefaultHost(host: Option<Url>, writes: bool) returns (error: Option<Error>)
      modifies this
      ensures error ==
        if host.None? then Some(HostRequired) else if HostKey(host.value) !in old(stored.hosts) then Some(NotStored)
        else if writes then None else Some(NotSaved)
      ensures if error.None? then Steps(old(stored), SetDefault(host.value), stored) else stored == old(stored)
    {
      if host.None? { return Some(HostRequired); }
      var key := HostKey(host.value);
      if key !in stored.hosts { return Some(NotStored); }
      if !writes { return Some(NotSaved); }
      stored := stored.(default := Some(key));
      return None;
    }
  }

  /** What an edit of a host's aliases is refused for, given the aliases it would leave the host with. */
  ghost function AliasError(
    store: Store, host: Option<Url>, valid: bool, aliases: seq<Endpoint>, writes: bool): Option<Error> {
    if host.None? then Some(HostRequired)
    else if !valid then Some(InvalidAlias)
    else if HostKey(host.value) !in store.hosts then Some(NotStored)
    else if !AliasesFree(store, HostKey(host.value), aliases) then Some(AliasTaken)
    else if writes then None else Some(NotSaved)
  }
}
