/**
 What the loader (internal/config/config.go) still has for a host once a
 configuration file has been logged out of it.
 */
module Logouts {
  import opened Options
  import opened Strings
  import opened Hosts
  import opened Doctor
  import HostFile

  /** A loader's world after a logout under its file, with a keyring that is there to be read or not. */
  function After(world: World, key: Url, stored: Store, readable: bool): World {
    world.(stored := stored, keyring := Keyring(readable, EntriesAfterLogout(world.keyring, world.path, key)))
  }

  /** The keyring as it was before the logout, read when it is read after it. */
  function Before(world: World, readable: bool): Keyring { Keyring(readable, world.keyring.entries) }

  /** The file's hosts but the one that is logged out of. */
  function Others(store: Store, key: Url): Store { Store(store.hosts - {key}, store.insecure - {key}, None) }

  predicate HasSecret(token: string, password: string) { token != "" || password != "" }

  /** A secret of a stored host that is kept in plaintext. */
  predicate HasPlain(store: Store, key: Url) {
    key in store.insecure && (Trim(store.insecure[key].token) != "" || Trim(store.insecure[key].password) != "")
  }

  /** Where the secrets of a profile are looked up. */
  function Lookups(path: string, url: Url, filed: Url): set<Scope> {
    {Scoped(HostKey(url), path), HostOnly(HostKey(url)), HostOnly(filed)}
  }

  /** An entry the profile is looked up under is there, and the logout does not delete it. */
  predicate IsLeft(world: World, key: Url, readable: bool, url: Url, filed: Url) {
    exists scope :: scope in Lookups(world.path, url, filed)
      && !HostFile.Takes(world.keyring, world.path, key, scope) && Pair(Before(world, readable), scope) != NOTHING
  }

  /**
   Before the logout: another host of the file is stored with a secret for the
   address, or, where neither the file nor the workspace has one for it, the
   system's file stores it with a secret in plaintext or with an entry that is
   left.
   */
  ghost predicate StillAnswers(world: World, key: Url, host: Url, readable: bool) {
    && world.readsStored
    && match Match(Others(world.stored, key), Web(host))
       case Some(other) =>
         var credential := CredentialOf(world.stored, Before(world, readable), world.path, other);
         HasSecret(credential.token, credential.password)
       case None =>
         && Match(OfWorkspace(world.workspace), Web(host)).None?
         && match Match(world.system.store, Web(host))
            case None => false
            case Some(filed) =>
              || HasPlain(world.system.store, filed)
              || IsLeft(world, key, readable, world.system.store.hosts[filed].url, filed)
  }

  /** A file that has no alias twice finds a host by what hosts it stores alone. */
  lemma SameHostsSameMatch(a: Store, b: Store, address: Address)
    requires HostFile.NoAliasTwice(a) && a.hosts == b.hosts
    ensures Match(a, address) == Match(b, address)
  {
    if NormalAlias(address).Some? {
      var endpoint := NormalAlias(address).value;
      assert forall key :: Owns(a, key, endpoint) <==> Owns(b, key, endpoint);
    }
  }

  /** A profile has a secret when it has one in plaintext, or an entry under one of its lookups. */
  lemma WhenSecret(store: Store, keyring: Keyring, path: string, key: Url)
    requires key in store.hosts
    ensures var credential := CredentialOf(store, keyring, path, key);
      HasSecret(credential.token, credential.password)
      <==> || HasPlain(store, key)
           || exists scope :: scope in Lookups(path, store.hosts[key].url, key) && Pair(keyring, scope) != NOTHING
  {
    LookupFinds(keyring, path, store.hosts[key].url, key);
  }

  lemma LookupFinds(keyring: Keyring, path: string, url: Url, filed: Url)
    ensures StoredSecrets(keyring, path, url, filed) != NOTHING
      <==> exists scope :: scope in Lookups(path, url, filed) && Pair(keyring, scope) != NOTHING
  {
    assert Scoped(HostKey(url), path) in Lookups(path, url, filed);
    assert HostOnly(HostKey(url)) in Lookups(path, url, filed);
    assert HostOnly(filed) in Lookups(path, url, filed);
  }

  /** A logout leaves every other host of the file the credential it had. */
  lemma OtherHostsStay(
    before: Store, after: Store, keyring: Keyring, path: string, key: Url, other: Url, readable: bool)
    requires HostFile.Valid(before) && LoggedOut(before, after, key) && other in after.hosts
    ensures other in before.hosts
    ensures CredentialOf(after, Keyring(readable, EntriesAfterLogout(keyring, path, key)), path, other)
      == CredentialOf(before, Keyring(readable, keyring.entries), path, other)
  {
    SecretsStay(keyring, path, key, before.hosts[other].url, other, readable);
  }

  lemma SecretsStay(keyring: Keyring, path: string, key: Url, url: Url, filed: Url, readable: bool)
    requires HostKey(url) != key && filed != key
    ensures StoredSecrets(Keyring(readable, EntriesAfterLogout(keyring, path, key)), path, url, filed)
      == StoredSecrets(Keyring(readable, keyring.entries), path, url, filed)
  {
    HostFile.LogoutTakes(keyring, path, key, Scoped(HostKey(url), path), readable);
    HostFile.LogoutTakes(keyring, path, key, HostOnly(HostKey(url)), readable);
    HostFile.LogoutTakes(keyring, path, key, HostOnly(filed), readable);
  }

  /**
   After a logout the loader has a secret from a file for an address if and only
   if another host of the file answers for it with one, or the system's file
   does with one that the logout does not delete.
   */
  lemma ResolvesAfterLogout(world: World, key: Url, stored: Store, host: Url, readable: bool)
    requires HostFile.Valid(world.stored) && LoggedOut(world.stored, stored, key)
    ensures var later := LoadsProfile(After(world, key, stored, readable), host);
      later.Some? && HasSecret(later.value.token, later.value.password)
      <==> StillAnswers(world, key, host, readable)
  {
    var later := After(world, key, stored, readable);
    HostFile.LogoutKeepsValid(world.stored, stored, key);
    SameHostsSameMatch(stored, Others(world.stored, key), Web(host));
    match Match(stored, Web(host))
    case Some(other) =>
      OtherHostsStay(world.stored, stored, world.keyring, world.path, key, other, readable);
    case None =>
      if Match(world.system.store, Web(host)).Some? {
        SystemAfterLogout(world, key, Match(world.system.store, Web(host)).value, readable);
      }
  }

  lemma SystemAfterLogout(world: World, key: Url, filed: Url, readable: bool)
    requires filed in world.system.store.hosts
    ensures var store, keyring :=
        world.system.store, Keyring(readable, EntriesAfterLogout(world.keyring, world.path, key));
      var credential := CredentialOf(store, keyring, world.path, filed);
      HasSecret(credential.token, credential.password)
      <==> HasPlain(store, filed) || IsLeft(world, key, readable, store.hosts[filed].url, filed)
  {
    var store, keyring := world.system.store, Keyring(readable, EntriesAfterLogout(world.keyring, world.path, key));
    WhenSecret(store, keyring, world.path, filed);
    forall scope ensures Pair(keyring, scope) != NOTHING
      <==> !HostFile.Takes(world.keyring, world.path, key, scope) && Pair(Before(world, readable), scope) != NOTHING
    {
      HostFile.LogoutTakes(world.keyring, world.path, key, scope, readable);
    }
  }

  /**
   A host that the file and the system's file both store, with a token of the
   file's and one from before entries named the file.
   */
  function StoredTwice(host: Url): World {
    var key := HostKey(host);
    var store := Store(map[key := Profile(host, [], ByToken, "", "", "")], map[], Some(key));
    World(NO_FLAGS, map[], None, true, store, map[], SystemFile(NO_POLICY, None, None, store), NO_POLICY,
          Keyring(true, map[TokenOf(Scoped(key, "")) := "n", TokenOf(HostOnly(key)) := "o"]), "")
  }

  /** There the loader has the file's token before a logout, and the old one after it. */
  lemma OldEntryAnswers(host: Url)
    ensures var world, key := StoredTwice(host), HostKey(host);
      var later := LoadsProfile(After(world, key, EMPTY, true), host);
      && HostFile.Valid(world.stored) && LoggedOut(world.stored, EMPTY, key)
      && LoadsProfile(world, host).Some? && LoadsProfile(world, host).value.token == "n"
      && later.Some? && later.value.token == "o"
  {
    var world, key := StoredTwice(host), HostKey(host);
    OldEntryIsLeft(key);
    assert NormalAliases([]) == Some([]);
    assert HostFile.Valid(world.stored);
    assert Match(world.stored, Web(host)) == Some(key) && Match(EMPTY, Web(host)) == None;
  }

  lemma OldEntryIsLeft(key: Url)
    ensures var keyring := Keyring(true, map[TokenOf(Scoped(key, "")) := "n", TokenOf(HostOnly(key)) := "o"]);
      && Pair(keyring, Scoped(key, "")) == Secret("n", "")
      && Pair(Keyring(true, EntriesAfterLogout(keyring, "", key)), Scoped(key, "")) == NOTHING
      && Pair(Keyring(true, EntriesAfterLogout(keyring, "", key)), HostOnly(key)) == Secret("o", "")
  {
    var keyring := Keyring(true, map[TokenOf(Scoped(key, "")) := "n", TokenOf(HostOnly(key)) := "o"]);
    assert Trim("n") == "n" && Trim("o") == "o";
    HostFile.LogoutTakes(keyring, "", key, Scoped(key, ""), true);
    HostFile.LogoutTakes(keyring, "", key, HostOnly(key), true);
  }
}
