/**
 The hosts a configuration file stores and the credentials kept for them in
 the operating system's keyring (internal/config/config.go): logging in and
 out, editing aliases, choosing the default host, and finding the credential
 of a host again.
 */
module Hosts {
  import opened Options
  import opened Strings

  // ----- Addresses

  /** A URL that parses: its scheme, host name, port ("" when it names none) and path. */
  datatype Url = Url(scheme: string, name: string, port: string, path: string)

  /** A Git remote: a URL, or git@host:path. */
  datatype Address = Web(url: Url) | ScpLike(name: string)

  /** What an alias is kept as: a host name in lower case, and a port. */
  datatype Endpoint = Endpoint(name: string, port: string)

  /** What a host is filed under: scheme and host in lower case, without the path. */
  function HostKey(url: Url): Url {
    Url(Lower(url.scheme), Lower(url.name), url.port, "")
  }

  /** The key a host that now has TLS was filed under before. */
  function HostKeyOverHttp(url: Url): Option<Url> {
    if Lower(url.scheme) == "https" && (url.name != "" || url.port != "")
    then Some(Url("http", Lower(url.name), url.port, "")) else None
  }

  function DefaultPort(scheme: string): string {
    if scheme == "http" then "80" else if scheme == "ssh" then "22" else "443"
  }

  function NormalAlias(address: Address): Option<Endpoint> {
    match address
    case ScpLike(name) => if name == "" then None else Some(Endpoint(Lower(name), "22"))
    case Web(url) =>
      if url.name == "" then None
      else Some(Endpoint(Lower(url.name), if url.port == "" then DefaultPort(Lower(url.scheme)) else url.port))
  }

  /** The additions that are not there yet, after what is there. */
  function Merge(existing: seq<Endpoint>, additions: seq<Endpoint>): seq<Endpoint> {
    if additions == [] then existing
    else
      var merged, last := Merge(existing, additions[..|additions| - 1]), additions[|additions| - 1];
      if last in merged then merged else merged + [last]
  }

  function NormalAll(addresses: seq<Address>): Option<seq<Endpoint>> {
    if addresses == [] then Some([])
    else
      match (NormalAll(addresses[..|addresses| - 1]), NormalAlias(addresses[|addresses| - 1]))
      case (Some(rest), Some(last)) => Some(rest + [last])
      case _ => None
  }

  /** Every alias normal and none twice, or none at all when one is invalid. */
  function NormalAliases(addresses: seq<Address>): Option<seq<Endpoint>> {
    match NormalAll(addresses)
    case None => None
    case Some(endpoints) => Some(Merge([], endpoints))
  }

  /** How a stored alias is read: its name and port as an https URL. */
  function Addresses(aliases: seq<Endpoint>): (addresses: seq<Address>)
    ensures |addresses| == |aliases|
  {
    seq(|aliases|, i requires 0 <= i < |aliases| => Web(Url("https", aliases[i].name, aliases[i].port, "")))
  }

  function StoredAliases(profile: Profile): seq<Endpoint> {
    match NormalAliases(Addresses(profile.aliases)) case None => [] case Some(aliases) => aliases
  }

  // ----- The stored file and the keyring

  datatype Auth = ByToken | Basic

  datatype Profile = Profile(
    url: Url, aliases: seq<Endpoint>, auth: Auth, username: string, cert: string, certKey: string)

  datatype Secret = Secret(token: string, password: string)

  datatype Store = Store(hosts: map<Url, Profile>, insecure: map<Url, Secret>, default: Option<Url>)

  const EMPTY := Store(map[], map[], None)

  /**
   A keyring entry is for a host alone, as it was before entries named the
   configuration file, or for a host in one file. The digest of the file's
   path is taken to tell files apart.
   */
  datatype Scope = HostOnly(key: Url) | Scoped(key: Url, path: string)

  datatype Entry = TokenOf(scope: Scope) | PasswordOf(scope: Scope)

  /** The keyring either works or is wholly unavailable. */
  datatype Keyring = Keyring(works: bool, entries: map<Entry, string>)

  function Value(keyring: Keyring, entry: Entry): string {
    if keyring.works && entry in keyring.entries && Trim(keyring.entries[entry]) != ""
    then keyring.entries[entry] else ""
  }

  function Pair(keyring: Keyring, scope: Scope): Secret {
    Secret(Value(keyring, TokenOf(scope)), Value(keyring, PasswordOf(scope)))
  }

  const NOTHING := Secret("", "")

  /** The secrets of a host: the file's own entries, or else those for the host alone. */
  function StoredSecrets(keyring: Keyring, path: string, url: Url, filed: Url): Secret {
    var own := Pair(keyring, Scoped(HostKey(url), path));
    if own != NOTHING then own
    else if Pair(keyring, HostOnly(HostKey(url))) != NOTHING then Pair(keyring, HostOnly(HostKey(url)))
    else Pair(keyring, HostOnly(filed))
  }

  // ----- Finding a host

  ghost predicate Owns(store: Store, key: Url, endpoint: Endpoint) {
    key in store.hosts && endpoint in StoredAliases(store.hosts[key])
  }

  /** The host that has the alias, whichever the map's order gives first. */
  ghost function AliasOwner(store: Store, endpoint: Endpoint): (owner: Option<Url>)
    ensures owner.Some? ==> Owns(store, owner.value, endpoint)
    ensures owner.None? ==> forall key :: !Owns(store, key, endpoint)
  {
    if key :| Owns(store, key, endpoint) then Some(key) else None
  }

  /** The stored host an address is for: by its own key, by an alias, or as the host it was before TLS. */
  ghost function Match(store: Store, address: Address): (key: Option<Url>)
    ensures key.Some? ==> key.value in store.hosts
  {
    if address.Web? && HostKey(address.url) in store.hosts then Some(HostKey(address.url))
    else
      var byAlias := AliasKey(store, address);
      if byAlias.Some? && byAlias.value in store.hosts then byAlias
      else if address.Web? && HostKeyOverHttp(address.url).Some? && HostKeyOverHttp(address.url).value in store.hosts
      then HostKeyOverHttp(address.url)
      else None
  }

  ghost function AliasKey(store: Store, address: Address): Option<Url> {
    match NormalAlias(address)
    case None => None
    case Some(endpoint) =>
      match AliasOwner(store, endpoint)
      case None => None
      case Some(owner) => Some(HostKey(store.hosts[owner].url))
  }

  datatype Credential = Credential(
    url: Url, username: string, token: string, password: string, cert: string, certKey: string, insecure: bool)

  /** The credential of a stored host: what the keyring holds, and plaintext for what it does not. */
  function CredentialOf(store: Store, keyring: Keyring, path: string, key: Url): Credential
    requires key in store.hosts
  {
    var profile := store.hosts[key];
    var kept := StoredSecrets(keyring, path, profile.url, key);
    var plain := if key in store.insecure then store.insecure[key] else NOTHING;
    var takesToken := kept.token == "" && Trim(plain.token) != "";
    var takesPassword := kept.password == "" && Trim(plain.password) != "";
    Credential(profile.url, profile.username,
               if takesToken then plain.token else kept.token,
               if takesPassword then plain.password else kept.password,
               profile.cert, profile.certKey, takesToken || takesPassword)
  }

  ghost function Strict(store: Store, keyring: Keyring, path: string, address: Address): Option<Credential> {
    match Match(store, address)
    case None => None
    case Some(key) => Some(CredentialOf(store, keyring, path, key))
  }

  // ----- Logging in

  datatype Input = Input(
    host: Option<Url>, aliases: seq<Address>, username: string, password: string, token: string, tokenOwner: string,
    cert: string, certKey: string, setDefault: bool, allowInsecure: bool, requireKeyring: bool)

  datatype Switch = Unset | Malformed | Is(on: bool)

  /**
   What administrators and the environment say: whether the host is permitted,
   and whether the keyring is required.
   */
  datatype Policy = Policy(permits: bool, mandatesKeyring: bool, environment: Switch)

  datatype Error =
    | HostRequired | NotPermitted | InvalidAlias | NoCredential | HalfCredential | AliasTaken | BadSwitch
    | KeyringRequired | PlaintextRefused | NotStored | AliasMissing | NotSaved

  predicate HasToken(input: Input) { Trim(input.token) != "" }

  predicate HasBasic(input: Input) { Trim(input.username) != "" || Trim(input.password) != "" }

  /** A mandate outranks the environment, which is read before the flag counts. */
  function RequiresKeyring(input: Input, policy: Policy): Option<bool> {
    if policy.mandatesKeyring then Some(true)
    else match policy.environment
         case Malformed => None
         case Unset => Some(input.requireKeyring)
         case Is(on) => Some(input.requireKeyring || on)
  }

  ghost predicate AliasesFree(store: Store, owner: Url, aliases: seq<Endpoint>) {
    forall key, i :: key != owner && 0 <= i < |aliases| ==> !Owns(store, key, aliases[i])
  }

  function ProfileOf(store: Store, key: Url): Profile {
    if key in store.hosts then store.hosts[key] else Profile(Url("", "", "", ""), [], ByToken, "", "", "")
  }

  /** The aliases after a login: those the host had, and the new ones. */
  function AliasesAfter(store: Store, input: Input): seq<Endpoint>
    requires input.host.Some? && NormalAliases(input.aliases).Some?
  {
    Merge(StoredAliases(ProfileOf(store, HostKey(input.host.value))), NormalAliases(input.aliases).value)
  }

  /** What a login is refused for, in the order it is found out. */
  ghost function Refusal(store: Store, input: Input, policy: Policy, keyringWorks: bool): Option<Error> {
    if input.host.None? then Some(HostRequired)
    else if !policy.permits then Some(NotPermitted)
    else if NormalAliases(input.aliases).None? then Some(InvalidAlias)
    else if HasToken(input) == HasBasic(input) then Some(NoCredential)
    else if HasBasic(input) && (Trim(input.username) == "" || Trim(input.password) == "") then Some(HalfCredential)
    else if !AliasesFree(store, HostKey(input.host.value), AliasesAfter(store, input)) then Some(AliasTaken)
    else
      match RequiresKeyring(input, policy)
      case None => Some(BadSwitch)
      case Some(required) =>
        if keyringWorks then None
        else if required then Some(KeyringRequired)
        else if !input.allowInsecure then Some(PlaintextRefused)
        else None
  }

  function Or(trimmed: string, otherwise: string): string {
    if trimmed != "" then trimmed else otherwise
  }

  /** The profile a login stores. Certificates stay unless new ones are given. */
  function LoginProfile(store: Store, input: Input): Profile
    requires input.host.Some? && NormalAliases(input.aliases).Some?
  {
    var existing := ProfileOf(store, HostKey(input.host.value));
    Profile(input.host.value, AliasesAfter(store, input), if HasToken(input) then ByToken else Basic,
            Trim(if HasToken(input) then input.tokenOwner else input.username),
            Or(Trim(input.cert), existing.cert), Or(Trim(input.certKey), existing.certKey))
  }

  function LoginSecret(input: Input): Secret {
    if HasToken(input) then Secret(Trim(input.token), "") else Secret("", Trim(input.password))
  }

  /** The stored file after a login. */
  function LoggedIn(store: Store, input: Input, plaintext: bool): Store
    requires input.host.Some? && NormalAliases(input.aliases).Some?
  {
    var key := HostKey(input.host.value);
    Store(store.hosts[key := LoginProfile(store, input)],
          if plaintext then store.insecure[key := LoginSecret(input)] else store.insecure - {key},
          if input.setDefault || store.default.None? then Some(key) else store.default)
  }

  /** The keyring after a login: the secret in its entry, and the host's other entry in this file gone. */
  function EntriesAfterLogin(keyring: Keyring, path: string, input: Input): map<Entry, string>
    requires input.host.Some?
  {
    var scope := Scoped(HostKey(input.host.value), path);
    if !keyring.works then keyring.entries
    else if HasToken(input) then keyring.entries[TokenOf(scope) := Trim(input.token)] - {PasswordOf(scope)}
    else keyring.entries[PasswordOf(scope) := Trim(input.password)] - {TokenOf(scope)}
  }

  // ----- Logging out, and the other edits

  /** The keyring after a logout: entries for the host alone go only from a file with none of its own. */
  function EntriesAfterLogout(keyring: Keyring, path: string, key: Url): map<Entry, string> {
    var scope := Scoped(key, path);
    if !keyring.works then keyring.entries
    else
      keyring.entries - {TokenOf(scope), PasswordOf(scope)}
      - (if Pair(keyring, scope) == NOTHING then {TokenOf(HostOnly(key)), PasswordOf(HostOnly(key))} else {})
  }

  /** The host is gone, and any other may have become the default in its place. */
  ghost predicate LoggedOut(before: Store, after: Store, key: Url) {
    && after.hosts == before.hosts - {key}
    && after.insecure == before.insecure - {key}
    && if before.default != Some(key) then after.default == before.default
       else if after.hosts == map[] then after.default == None
       else after.default.Some? && after.default.value in after.hosts
  }

  function WithAliases(store: Store, key: Url, aliases: seq<Endpoint>): Store
    requires key in store.hosts
  {
    store.(hosts := store.hosts[key := store.hosts[key].(aliases := aliases)])
  }

  function Without(aliases: seq<Endpoint>, alias: Endpoint): seq<Endpoint> {
    if aliases == [] then []
    else
      var rest, last := Without(aliases[..|aliases| - 1], alias), aliases[|aliases| - 1];
      if last == alias then rest else rest + [last]
  }

  // ----- The machine

  /** What the configuration files of one user share. */
  class Machine {
    var keyring: Keyring

    constructor (keyring: Keyring)
      ensures this.keyring == keyring
    {
      this.keyring := keyring;
    }

    /** Keeps a secret, if the keyring works. */
    method Set(entry: Entry, secret: string) returns (ok: bool)
      modifies this
      ensures ok == old(keyring.works)
      ensures keyring
        == if ok then old(keyring).(entries := old(keyring.entries)[entry := secret]) else old(keyring)
    {
      ok := keyring.works;
      if ok { keyring := keyring.(entries := keyring.entries[entry := secret]); }
    }

    method Delete(entry: Entry)
      modifies this
      ensures keyring
        == if old(keyring.works) then old(keyring).(entries := old(keyring.entries) - {entry}) else old(keyring)
    {
      if keyring.works { keyring := keyring.(entries := keyring.entries - {entry}); }
    }
  }

  method NormalizeAliases(addresses: seq<Address>) returns (aliases: Option<seq<Endpoint>>)
    ensures aliases == NormalAliases(addresses)
  {
    var endpoints: seq<Endpoint> := [];
    var result: seq<Endpoint> := [];
    var index := 0;
    while index < |addresses|
      invariant 0 <= index <= |addresses|
      invariant NormalAll(addresses[..index]) == Some(endpoints)
      invariant result == Merge([], endpoints)
    {
      assert addresses[..index + 1][..index] == addresses[..index];
      var normal := NormalAlias(addresses[index]);
      if normal.None? {
        InvalidPrefix(addresses, index + 1);
        return None;
      }
      assert (endpoints + [normal.value])[..|endpoints|] == endpoints;
      endpoints := endpoints + [normal.value];
      if normal.value !in result {
        result := result + [normal.value];
      }
      index := index + 1;
    }
    assert addresses[..index] == addresses;
    return Some(result);
  }

  lemma {:induction false} InvalidPrefix(addresses: seq<Address>, n: nat)
    requires n <= |addresses| && NormalAll(addresses[..n]).None?
    ensures NormalAll(addresses).None?
    decreases |addresses|
  {
    if n < |addresses| {
      var init := addresses[..|addresses| - 1];
      assert init[..n] == addresses[..n];
      InvalidPrefix(init, n);
    } else {
      assert addresses[..n] == addresses;
    }
  }

  method MergeAliases(existing: seq<Endpoint>, additions: seq<Endpoint>) returns (merged: seq<Endpoint>)
    ensures merged == Merge(existing, additions)
  {
    merged := existing;
    var index := 0;
    while index < |additions|
      invariant 0 <= index <= |additions|
      invariant merged == Merge(existing, additions[..index])
    {
      assert additions[..index + 1][..index] == additions[..index];
      if additions[index] !in merged {
        merged := merged + [additions[index]];
      }
      index := index + 1;
    }
    assert additions[..index] == additions;
  }

  /** Whether no other host has one of the aliases, looking through the map in whatever order it gives. */
  method EnsureAliasOwnership(store: Store, owner: Url, aliases: seq<Endpoint>) returns (free: bool)
    ensures free <==> AliasesFree(store, owner, aliases)
  {
    var keys := store.hosts.Keys;
    while keys != {}
      invariant keys <= store.hosts.Keys
      invariant forall key, i :: key in store.hosts && key !in keys && key != owner && 0 <= i < |aliases|
                                 ==> !Owns(store, key, aliases[i])
      decreases |keys|
    {
      var key :| key in keys;
      if key != owner {
        var existing := StoredAliases(store.hosts[key]);
        var index := 0;
        while index < |aliases|
          invariant 0 <= index <= |aliases|
          invariant forall i :: 0 <= i < index ==> !Owns(store, key, aliases[i])
        {
          if aliases[index] in existing {
            assert Owns(store, key, aliases[index]);
            return false;
          }
          index := index + 1;
        }
      }
      keys := keys - {key};
    }
    return true;
  }

  method RemoveFrom(aliases: seq<Endpoint>, alias: Endpoint) returns (updated: seq<Endpoint>, removed: bool)
    ensures updated == Without(aliases, alias) && (removed <==> alias in aliases)
  {
    updated, removed := [], false;
    var index := 0;
    while index < |aliases|
      invariant 0 <= index <= |aliases|
      invariant updated == Without(aliases[..index], alias)
      invariant removed <==> alias in aliases[..index]
    {
      assert aliases[..index + 1] == aliases[..index] + [aliases[index]];
      assert aliases[..index + 1][..index] == aliases[..index];
      if aliases[index] == alias {
        removed := true;
      } else {
        updated := updated + [aliases[index]];
      }
      index := index + 1;
    }
    assert aliases[..index] == aliases;
  }
}
