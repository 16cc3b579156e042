/**
 What the loader of a configuration (internal/config/config.go) takes from
 where: which place wins over which, and where secrets may come from at all.
 The diagnosis shows the same, by its agreement with the loader.
 */
module LoaderLaws {
  import opened Options
  import opened Strings
  import opened Hosts
  import opened Doctor

  // ----- The host

  /** A flag wins over the environment, that over the stored file's default host, and that over the system file's. */
  lemma HostIsChosen(world: World)
    ensures world.flags.host.Some? ==> LoadsHost(world) == world.flags.host
    ensures world.flags.host == None && world.host.Some? ==> LoadsHost(world) == world.host
    ensures world.flags.host == None && world.host == None ==>
      var stored, system := StoredFile(world), world.system.store;
      && (stored.default.Some? && stored.default.value in stored.hosts ==>
            LoadsHost(world) == Some(stored.hosts[stored.default.value].url))
      && (stored.default.Some? && stored.default.value !in stored.hosts && stored.default.value in system.hosts ==>
            LoadsHost(world) == Some(system.hosts[stored.default.value].url))
      && (stored.default == None && system.default.Some? && system.default.value in system.hosts ==>
            LoadsHost(world) == Some(system.hosts[system.default.value].url))
      && (stored.default.Some? && stored.default.value !in stored.hosts && stored.default.value !in system.hosts ==>
            LoadsHost(world)
            == if stored.default.value.scheme in {"http", "https"} then stored.default else None)
      && (stored.default == None && system.default == None ==> LoadsHost(world) == None)
  {
  }

  /** A file that is not to be read chooses nothing, and neither it nor any other file gives a profile. */
  lemma UnreadFileIsIgnored(world: World, other: Store, host: Url)
    requires !world.readsStored
    ensures LoadsHost(world) == LoadsHost(world.(stored := other))
    ensures LoadsProfile(world, host) == None
  {
  }

  // ----- Credentials

  /** The first text that is not blank. */
  function First(texts: seq<string>): string
    decreases |texts|
  {
    if |texts| == 0 then "" else if texts[0] != "" then texts[0] else First(texts[1..])
  }

  /** A variable without the spaces around it, nothing when it is not set. */
  function Given(world: World, name: Name): string {
    if name in world.environment then Trim(world.environment[name]) else ""
  }

  /**
   What is given for one invocation wins over the environment, and that over the file; a
   user named by flags, with a password, is not given the variable's token.
   */
  lemma CredentialIsChosen(world: World, host: Url)
    ensures var loaded, adopted, flags := Loads(world, host), Adopts(world, host), world.flags;
      var byFlags := Trim(flags.username) != "" && Trim(flags.password) != "";
      && loaded.token
         == First([Trim(flags.token), if byFlags then "" else Given(world, BITBUCKET_TOKEN), adopted.token])
      && loaded.username == First([Trim(flags.username), Given(world, BITBUCKET_USERNAME), Given(world, BITBUCKET_USER),
                                   Given(world, ADMIN_USER), adopted.username])
      && loaded.password == First([Trim(flags.password), Given(world, BITBUCKET_PASSWORD), Given(world, ADMIN_PASSWORD),
                                   adopted.password])
  {
    FirstOfThree(Trim(world.flags.token), SuppliedVariable(world), Adopts(world, host).token);
    FirstOfFive(Trim(world.flags.username), Given(world, BITBUCKET_USERNAME), Given(world, BITBUCKET_USER),
                Given(world, ADMIN_USER), Adopts(world, host).username);
    FirstOfFour(Trim(world.flags.password), Given(world, BITBUCKET_PASSWORD), Given(world, ADMIN_PASSWORD),
                Adopts(world, host).password);
  }

  /** What is chosen between a flag and a variable: the flag, even an empty one, once it was passed. */
  function Passed(world: World, name: Name, flag: Option<string>): string {
    if flag.Some? then Trim(flag.value) else Given(world, name)
  }

  /** The client's files come from the flags, or the variables, or the file; and a plaintext secret in use is told. */
  lemma ClientFilesAreChosen(world: World, host: Url)
    ensures var loaded, adopted, flags := Loads(world, host), Adopts(world, host), world.flags;
      && loaded.cert == Either(Passed(world, BB_CLIENT_CERT, flags.clientCert), adopted.cert)
      && loaded.certKey == Either(Passed(world, BB_CLIENT_KEY, flags.clientKey), adopted.certKey)
      && (loaded.insecure <==>
            && adopted.insecure
            && ((loaded.token != "" && SuppliedToken(world) == "")
                || (loaded.password != "" && SuppliedPassword(world) == "")))
  {
  }

  function SuppliedVariable(world: World): string {
    if Trim(world.flags.username) != "" && Trim(world.flags.password) != "" then "" else Given(world, BITBUCKET_TOKEN)
  }

  lemma FirstOfThree(a: string, b: string, c: string)
    ensures First([a, b, c]) == Either(Either(a, b), c)
  {
    assert [a, b, c][1..] == [b, c] && [b, c][1..] == [c] && [c][1..] == [];
    assert First([c]) == c && First([b, c]) == Either(b, c);
  }

  lemma FirstOfFour(a: string, b: string, c: string, d: string)
    ensures First([a, b, c, d]) == Either(Either(a, Either(b, c)), d)
  {
    assert [a, b, c, d][1..] == [b, c, d];
    FirstOfThree(b, c, d);
  }

  lemma FirstOfFive(a: string, b: string, c: string, d: string, e: string)
    ensures First([a, b, c, d, e]) == Either(Either(a, Either(b, Either(c, d))), e)
  {
    assert [a, b, c, d, e][1..] == [b, c, d, e];
    FirstOfFour(b, c, d, e);
  }

  /**
   A profile comes from the stored file, or else the workspace's, or else the system's. One in the
   workspace, whose author may be anyone, gives a user name and nothing that acts as the user.
   */
  lemma ProfileComesFrom(world: World, host: Url)
    requires world.readsStored
    ensures var stored, workspace, system :=
        Match(world.stored, Web(host)), Match(OfWorkspace(world.workspace), Web(host)),
        Match(world.system.store, Web(host));
      var adopted := Adopts(world, host);
      && (stored.Some? ==> IsCredential(adopted, CredentialOf(world.stored, world.keyring, world.path, stored.value)))
      && (stored == None && workspace.Some? ==>
            && adopted.username == world.workspace[workspace.value].username
            && adopted.token == "" && adopted.password == "" && adopted.cert == "" && adopted.certKey == "")
      && (stored == None && workspace == None && system.Some? ==>
            IsCredential(adopted, CredentialOf(world.system.store, world.keyring, world.path, system.value)))
      && (stored == None && workspace == None && system == None ==> LoadsProfile(world, host) == None)
  {
  }

  predicate IsCredential(adopted: Adopted, credential: Credential) {
    && adopted.username == credential.username
    && adopted.token == credential.token && adopted.password == credential.password
    && adopted.cert == credential.cert && adopted.certKey == credential.certKey
    && adopted.insecure == credential.insecure
  }

  /** The keyring wins over plaintext, secret by secret; blank plaintext is none, and it is told when any is taken. */
  lemma KeyringBeforePlaintext(store: Store, keyring: Keyring, path: string, key: Url)
    requires key in store.hosts
    ensures var credential, profile := CredentialOf(store, keyring, path, key), store.hosts[key];
      var kept := StoredSecrets(keyring, path, profile.url, key);
      var plain := if key in store.insecure then store.insecure[key] else Secret("", "");
      && credential.token == (if kept.token != "" || Trim(plain.token) == "" then kept.token else plain.token)
      && credential.password
         == (if kept.password != "" || Trim(plain.password) == "" then kept.password else plain.password)
      && (credential.insecure <==> credential.token != kept.token || credential.password != kept.password)
      && credential.url == profile.url && credential.username == profile.username
      && credential.cert == profile.cert && credential.certKey == profile.certKey
  {
    if key in store.insecure {
      BlankIsBlank(store.insecure[key].token);
      BlankIsBlank(store.insecure[key].password);
    }
  }

  lemma BlankIsBlank(text: string)
    ensures Trim(text) != "" ==> text != ""
  {
    assert Trim("") == "";
  }

  /** An entry is read as it was written, unless it is not there, is blank, or the keyring is away. */
  lemma EntryIsRead(keyring: Keyring, entry: Entry)
    ensures !keyring.works || entry !in keyring.entries ==> Value(keyring, entry) == ""
    ensures entry in keyring.entries && Trim(keyring.entries[entry]) == "" ==> Value(keyring, entry) == ""
    ensures keyring.works && entry in keyring.entries && Trim(keyring.entries[entry]) != "" ==>
      Value(keyring, entry) == keyring.entries[entry]
  {
  }

  /** A file's own entries win over those for the host alone, and these over those of the key it is filed under. */
  lemma OwnEntriesFirst(keyring: Keyring, path: string, url: Url, filed: Url)
    ensures var own, host := Pair(keyring, Scoped(HostKey(url), path)), Pair(keyring, HostOnly(HostKey(url)));
      var key := Pair(keyring, HostOnly(filed));
      StoredSecrets(keyring, path, url, filed)
      == if own != Secret("", "") then own else if host != Secret("", "") then host else key
    ensures !keyring.works ==> StoredSecrets(keyring, path, url, filed) == Secret("", "")
  {
  }

  // ----- Policy

  function SwitchIn(policy: Option<PolicyConfig>, key: Key): Option<bool> {
    if policy.Some? && key in policy.value.switches then Some(policy.value.switches[key]) else None
  }

  /** A switch is set by the registry, or else the policy block, or else the policies block, or else the top level. */
  lemma PolicySwitch(system: SystemFile, platform: PolicyConfig, key: Key)
    ensures var effective := Effective(system, platform);
      SwitchIn(Some(effective), key)
      == OrElse(SwitchIn(Some(platform), key),
                OrElse(SwitchIn(system.policy, key),
                       OrElse(SwitchIn(system.policies, key), SwitchIn(Some(system.top), key))))
  {
  }

  /** A text that a stronger place sets, and not to blanks alone, replaces what a weaker one does. */
  lemma PolicyText(system: SystemFile, platform: PolicyConfig, key: Key)
    ensures Trim(TextOf(platform, key)) != "" ==>
      TextOf(Effective(system, platform), key) == Trim(TextOf(platform, key))
    ensures Trim(TextOf(platform, key)) == "" && system.policy.Some? && Trim(TextOf(system.policy.value, key)) != "" ==>
      TextOf(Effective(system, platform), key) == Trim(TextOf(system.policy.value, key))
    ensures Trim(TextOf(platform, key)) == "" && system.policy == None && system.policies == None ==>
      TextOf(Effective(system, platform), key) == TextOf(system.top, key)
  {
    assert Trim("") == "";
  }

  /** Policy that requires the keyring cannot be switched off; otherwise the variable decides, if it can be read. */
  lemma KeyringIsRequired(world: World)
    ensures var mandate := SwitchIn(Some(Effective(world.system, world.platform)), RequireKeyring);
      var variable := Given(world, BB_REQUIRE_KEYRING);
      && (mandate == Some(true) ==> LoadsRequireKeyring(world) == Some(true))
      && (mandate != Some(true) ==>
            LoadsRequireKeyring(world)
            == if variable in {"1", "t", "T", "TRUE", "true", "True"} then Some(true)
               else if variable in {"", "0", "f", "F", "FALSE", "false", "False"} then Some(false) else None)
  {
  }

  /** Under a mandated CA file another is refused, and one that is not given, or is the same path, is not. */
  lemma MandatedCaFile(world: World, clean: string -> string)
    ensures var mandate := TextOf(Effective(world.system, world.platform), CaFile);
      var chosen := if world.flags.caFile.Some? then Trim(world.flags.caFile.value) else Given(world, BB_CA_FILE);
      && (mandate == "" || chosen == "" || clean(chosen) == clean(mandate) ==> !RefusesCaFile(world, clean))
      && (mandate != "" && chosen != "" && clean(chosen) != clean(mandate) ==> RefusesCaFile(world, clean))
  {
  }

  // ----- What is shadowed

  /** Of the candidates for a setting every one but the winner is shown as shadowed, in the order they were listed. */
  lemma ShadowedInOrder<T>(fallback: T, candidates: seq<Candidate<T>>, winner: nat)
    requires winner < |candidates| && !candidates[winner].ineligible
    requires forall i :: 0 <= i < winner ==> candidates[i].ineligible
    ensures var setting := Resolved(fallback, candidates);
      && setting.configured && setting.value == candidates[winner].value && setting.source == candidates[winner].source
      && |setting.shadowed| == |candidates| - 1
      && forall k :: 0 <= k < |setting.shadowed| ==>
           setting.shadowed[k] == candidates[if k < winner then k else k + 1].source
  {
    assert Winner(candidates) == winner;
  }

  /** A policy that says true is listed before the variable and the policies it replaces after it; others after it. */
  lemma MandatesAreListed(policy: seq<Candidate<string>>, variable: seq<Candidate<string>>)
    ensures Sources(MandateOver(policy, variable))
      == if policy != [] && policy[0].value == "true"
         then [policy[0].source] + Sources(variable) + Sources(policy[1..])
         else Sources(variable) + Sources(policy)
  {
  }
}
