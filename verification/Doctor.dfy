/**
 The diagnosis of a configuration (internal/config/doctor.go), which works
 out once more what the loader (internal/config/config.go) decides, and has to
 decide the same.
 */
module Doctor {
  import opened Options
  import opened Strings
  import opened Hosts

  // ----- Settings and where they come from

  datatype Tier = Stored | Workspace | System

  datatype Name =
    | BITBUCKET_URL | BITBUCKET_USERNAME | BITBUCKET_USER | ADMIN_USER
    | BITBUCKET_TOKEN | BITBUCKET_PASSWORD | ADMIN_PASSWORD
    | BB_CA_FILE | BB_CLIENT_CERT | BB_CLIENT_KEY | BB_REQUIRE_KEYRING

  datatype Source =
    | FromFlag | FromEnvironment(name: Name) | FromOverride | FromFile(tier: Tier)
    | FromKeyring | FromRegistry | FromDefault

  /** One place that sets a setting. An ineligible one is reported and never wins. */
  datatype Candidate<T> = Candidate(source: Source, value: T, ineligible: bool)

  datatype Setting<T> = Setting(value: T, source: Source, configured: bool, shadowed: seq<Source>)

  function Sources<T>(candidates: seq<Candidate<T>>): (sources: seq<Source>)
    ensures |sources| == |candidates|
  {
    seq(|candidates|, i requires 0 <= i < |candidates| => candidates[i].source)
  }

  /** The first eligible candidate, or -1. */
  function Winner<T>(candidates: seq<Candidate<T>>): (i: int)
    ensures -1 <= i < |candidates|
    ensures i >= 0 ==> !candidates[i].ineligible
    ensures forall j :: 0 <= j < |candidates| && (i < 0 || j < i) ==> candidates[j].ineligible
  {
    if candidates == [] then -1
    else if !candidates[0].ineligible then 0
    else var rest := Winner(candidates[1..]); if rest < 0 then -1 else rest + 1
  }

  /** The winner's value and source, and every other source as shadowed. */
  function Resolved<T>(fallback: T, candidates: seq<Candidate<T>>): Setting<T> {
    var i := Winner(candidates);
    if i < 0 then Setting(fallback, FromDefault, false, Sources(candidates))
    else Setting(candidates[i].value, candidates[i].source, true,
      Sources(candidates[..i]) + Sources(candidates[i + 1..]))
  }

  /** The candidate that wins. */
  function Leading<T>(candidates: seq<Candidate<T>>): Option<Candidate<T>> {
    if Winner(candidates) < 0 then None else Some(candidates[Winner(candidates)])
  }

  function OrElse<T>(first: Option<T>, second: Option<T>): Option<T> {
    if first.Some? then first else second
  }

  /** The winner, when one list of candidates follows another. */
  lemma {:induction false} WinnerOfTwo<T>(a: seq<Candidate<T>>, b: seq<Candidate<T>>)
    ensures Winner(a + b) == if Winner(a) >= 0 then Winner(a) else if Winner(b) >= 0 then |a| + Winner(b) else -1
    decreases |a|
  {
    if a == [] {
      assert a + b == b;
    } else {
      assert (a + b)[1..] == a[1..] + b;
      WinnerOfTwo(a[1..], b);
    }
  }

  lemma LeadingOfTwo<T>(a: seq<Candidate<T>>, b: seq<Candidate<T>>)
    ensures Leading(a + b) == OrElse(Leading(a), Leading(b))
  {
    WinnerOfTwo(a, b);
  }

  lemma NoneLeads<T>(marked: seq<Candidate<T>>)
    requires forall i :: 0 <= i < |marked| ==> marked[i].ineligible
    ensures Leading(marked) == None
  {
  }

  lemma SourcesOfTwo<T>(a: seq<Candidate<T>>, b: seq<Candidate<T>>)
    ensures Sources(a + b) == Sources(a) + Sources(b)
  {
  }

  lemma LeadingOfThree<T>(a: seq<Candidate<T>>, b: seq<Candidate<T>>, c: seq<Candidate<T>>)
    ensures Leading(a + b + c) == OrElse(OrElse(Leading(a), Leading(b)), Leading(c))
  {
    LeadingOfTwo(a + b, c);
    LeadingOfTwo(a, b);
  }

  lemma LeadingOfFour<T>(a: seq<Candidate<T>>, b: seq<Candidate<T>>, c: seq<Candidate<T>>, d: seq<Candidate<T>>)
    ensures Leading(a + b + c + d) == OrElse(OrElse(OrElse(Leading(a), Leading(b)), Leading(c)), Leading(d))
  {
    LeadingOfTwo(a + b + c, d);
    LeadingOfThree(a, b, c);
  }

  lemma ResolvedLeads<T>(fallback: T, candidates: seq<Candidate<T>>)
    ensures var setting := Resolved(fallback, candidates);
      match Leading(candidates)
      case None => setting.value == fallback && setting.source == FromDefault && !setting.configured
      case Some(winner) => setting.value == winner.value && setting.source == winner.source && setting.configured
  {
  }

  method ResolveSetting<T>(fallback: T, candidates: seq<Candidate<T>>) returns (setting: Setting<T>)
    ensures setting == Resolved(fallback, candidates)
  {
    setting := Setting(fallback, FromDefault, false, []);
    var won, index := false, 0;
    ghost var winner := Winner(candidates);
    while index < |candidates|
      invariant 0 <= index <= |candidates|
      invariant won <==> 0 <= winner < index
      invariant !won ==> setting == Setting(fallback, FromDefault, false, Sources(candidates[..index]))
      invariant won ==> setting == Setting(candidates[winner].value, candidates[winner].source, true,
                                           Sources(candidates[..winner]) + Sources(candidates[winner + 1..index]))
    {
      var candidate := candidates[index];
      if !won && !candidate.ineligible {
        setting := setting.(value := candidate.value, source := candidate.source, configured := true);
        won := true;
        assert Sources(candidates[winner + 1..index + 1]) == [];
      } else {
        setting := setting.(shadowed := setting.shadowed + [candidate.source]);
        if won {
          assert Sources(candidates[winner + 1..index + 1])
            == Sources(candidates[winner + 1..index]) + [candidate.source];
        } else {
          assert Sources(candidates[..index + 1]) == Sources(candidates[..index]) + [candidate.source];
        }
      }
      index := index + 1;
    }
    assert candidates[..index] == candidates;
  }

  function Ineligible<T>(candidates: seq<Candidate<T>>): (marked: seq<Candidate<T>>)
    ensures |marked| == |candidates|
    ensures forall i :: 0 <= i < |marked| ==> marked[i] == candidates[i].(ineligible := true)
  {
    seq(|candidates|, i requires 0 <= i < |candidates| => candidates[i].(ineligible := true))
  }

  method MarkIneligible<T>(candidates: seq<Candidate<T>>) returns (marked: seq<Candidate<T>>)
    ensures marked == Ineligible(candidates)
  {
    marked := candidates;
    var index := 0;
    while index < |marked|
      invariant 0 <= index <= |marked| == |candidates|
      invariant forall i :: 0 <= i < |marked| ==>
        marked[i] == if i < index then candidates[i].(ineligible := true) else candidates[i]
    {
      marked := marked[index := marked[index].(ineligible := true)];
      index := index + 1;
    }
  }

  /** A flag that was passed, even empty, keeps the variable from counting. */
  function FlagOver<T>(passed: bool, flag: seq<Candidate<T>>, variable: seq<Candidate<T>>): seq<Candidate<T>> {
    if passed then flag + Ineligible(variable) else variable
  }

  /**
   Nothing from a variable wins once the flag was passed, even when the flag
   itself sets nothing; where a value comes from is reported all the same.
   */
  method PutFlagOver<T>(passed: bool, flag: seq<Candidate<T>>, variable: seq<Candidate<T>>)
    returns (ordered: seq<Candidate<T>>)
    ensures ordered == FlagOver(passed, flag, variable)
    ensures Leading(ordered) == Leading(if passed then flag else variable)
    ensures Sources(ordered) == Sources(if passed then flag + variable else variable)
  {
    if !passed {
      return variable;
    }
    var marked := MarkIneligible(variable);
    LeadingOfTwo(flag, marked);
    NoneLeads(marked);
    return flag + marked;
  }

  predicate Mandates(policy: seq<Candidate<string>>) { policy != [] && policy[0].value == "true" }

  /** A policy that mandates goes ahead of the variable, and the variable ahead of one that does not. */
  function MandateOver(policy: seq<Candidate<string>>, variable: seq<Candidate<string>>): seq<Candidate<string>> {
    if Mandates(policy) then [policy[0]] + Ineligible(variable) + policy[1..] else variable + policy
  }

  lemma MandateLeads(policy: seq<Candidate<string>>, variable: seq<Candidate<string>>)
    ensures Leading(MandateOver(policy, variable))
      == if Mandates(policy) then Leading(policy) else OrElse(Leading(variable), Leading(policy))
  {
    if Mandates(policy) {
      LeadingOfThree([policy[0]], Ineligible(variable), policy[1..]);
      LeadingOfTwo([policy[0]], policy[1..]);
      NoneLeads(Ineligible(variable));
      assert [policy[0]] + policy[1..] == policy;
    } else {
      LeadingOfTwo(variable, policy);
    }
  }

  /** A policy that says true goes ahead of everything; any other gives way to the variable. */
  method PutMandateOver(policy: seq<Candidate<string>>, variable: seq<Candidate<string>>)
    returns (ordered: seq<Candidate<string>>)
    ensures ordered == MandateOver(policy, variable)
    ensures Leading(ordered)
      == if Mandates(policy) then Leading(policy) else OrElse(Leading(variable), Leading(policy))
    ensures multiset(Sources(ordered)) == multiset(Sources(policy)) + multiset(Sources(variable))
  {
    MandateLeads(policy, variable);
    if policy == [] || policy[0].value != "true" {
      SourcesOfTwo(variable, policy);
      return variable + policy;
    }
    var marked := MarkIneligible(variable);
    ordered := [policy[0]];
    ordered := ordered + marked;
    ordered := ordered + policy[1..];
    SourcesOfTwo([policy[0]] + marked, policy[1..]);
    SourcesOfTwo([policy[0]], marked);
    SourcesOfTwo([policy[0]], policy[1..]);
    assert [policy[0]] + policy[1..] == policy;
    assert Sources(marked) == Sources(variable);
  }

  // ----- Administrative policy

  datatype Key =
    | RequireKeyring | AllowInsecureSkipVerify | DisableUpdate | AllowHttpUpdate | AllowUnverifiedUpdate | DisableBb
    | DisableMcpServer | ReadOnly | ElicitationOptIn | AiDisclosure
    | CaFile | UpdateBaseUrl | McpAuditFile
    | UpdateTrustedRoot | UpdateTufUrl | UpdateSignatureIdentity | UpdateSignatureIssuer

  predicate IsText(key: Key) {
    key in {CaFile, UpdateBaseUrl, McpAuditFile,
            UpdateTrustedRoot, UpdateTufUrl, UpdateSignatureIdentity, UpdateSignatureIssuer}
  }

  /** The policy one place sets: the switches it sets, and its texts. */
  datatype PolicyConfig = PolicyConfig(switches: map<Key, bool>, texts: map<Key, string>)

  datatype SystemFile = SystemFile(
    top: PolicyConfig, policies: Option<PolicyConfig>, policy: Option<PolicyConfig>, store: Store)

  function TextOf(policy: PolicyConfig, key: Key): string {
    if key in policy.texts then policy.texts[key] else ""
  }

  /** What the source sets replaces what the target had; a blank text sets nothing. */
  function Merged(target: PolicyConfig, source: PolicyConfig): PolicyConfig {
    PolicyConfig(target.switches + source.switches,
                 target.texts + map key | key in source.texts && Trim(source.texts[key]) != "" ::
                                  Trim(source.texts[key]))
  }

  function Over(policy: PolicyConfig, source: Option<PolicyConfig>): PolicyConfig {
    match source case None => policy case Some(more) => Merged(policy, more)
  }

  /**
   The system file's top level, its policies block, its policy block, and the
   registry, each replacing what came before.
   */
  function Effective(system: SystemFile, platform: PolicyConfig): PolicyConfig {
    Merged(Over(Over(system.top, system.policies), system.policy), platform)
  }

  function Format(on: bool): string { if on then "true" else "false" }

  /** A policy's value for a key as the diagnosis shows it; blank when it sets none. */
  function Shown(policy: PolicyConfig, key: Key): string {
    if IsText(key) then Trim(TextOf(policy, key))
    else if key in policy.switches then Format(policy.switches[key]) else ""
  }

  function Shows(source: Source, value: string): seq<Candidate<string>> {
    if value == "" then [] else [Candidate(source, value, false)]
  }

  function ShownBy(source: Source, policy: Option<PolicyConfig>, key: Key): seq<Candidate<string>> {
    match policy case None => [] case Some(policy) => Shows(source, Shown(policy, key))
  }

  /** Where a policy key is set, strongest first. */
  function PolicyCandidates(system: SystemFile, platform: PolicyConfig, key: Key): seq<Candidate<string>> {
    Shows(FromRegistry, Shown(platform, key))
    + ShownBy(FromFile(System), system.policy, key)
    + ShownBy(FromFile(System), system.policies, key)
    + Shows(FromFile(System), Shown(system.top, key))
  }

  /** What merging one more policy in shows. */
  lemma MergeShows(target: PolicyConfig, source: PolicyConfig, key: Key)
    ensures Shown(Merged(target, source), key)
      == if Shown(source, key) != "" then Shown(source, key) else Shown(target, key)
  {
    TrimTrims(TextOf(source, key));
    assert key in source.texts || TextOf(source, key) == "";
  }

  lemma OverShows(policy: PolicyConfig, source: Option<PolicyConfig>, key: Key)
    ensures Shown(Over(policy, source), key)
      == if source.Some? && Shown(source.value, key) != "" then Shown(source.value, key) else Shown(policy, key)
  {
    if source.Some? {
      MergeShows(policy, source.value, key);
    }
  }

  /**
   The first candidate the diagnosis lists for a switch or a text is what the
   loader's merge has, up to the spaces around a text; it lists none exactly
   when the merge shows none.
   */
  lemma FirstCandidateIsEffective(system: SystemFile, platform: PolicyConfig, key: Key)
    ensures var candidates := PolicyCandidates(system, platform, key);
      && (candidates == [] <==> Shown(Effective(system, platform), key) == "")
      && (candidates != [] ==>
            candidates[0].value == Shown(Effective(system, platform), key) && !candidates[0].ineligible)
  {
    var merged := Over(Over(system.top, system.policies), system.policy);
    OverShows(system.top, system.policies, key);
    OverShows(Over(system.top, system.policies), system.policy, key);
    MergeShows(merged, platform, key);
  }

  // ----- What an invocation has to go on

  datatype Flags = Flags(
    host: Option<Url>, username: string, password: string, token: string,
    caFile: Option<string>, clientCert: Option<string>, clientKey: Option<string>)

  datatype World = World(
    flags: Flags, environment: map<Name, string>, host: Option<Url>, readsStored: bool,
    stored: Store, workspace: map<Url, Profile>, system: SystemFile, platform: PolicyConfig,
    keyring: Keyring, path: string)

  /** A variable, trimmed; blank when it is unset. */
  function Env(world: World, name: Name): string {
    if name in world.environment then Trim(world.environment[name]) else ""
  }

  function Variable(world: World, name: Name): seq<Candidate<string>> {
    Shows(FromEnvironment(name), Env(world, name))
  }

  function Overriding(value: string): seq<Candidate<string>> {
    Shows(FromOverride, Trim(value))
  }

  function InFile(tier: Tier, value: string): seq<Candidate<string>> {
    if Trim(value) == "" then [] else [Candidate(FromFile(tier), value, false)]
  }

  function Flagged(world: World, name: Name, flag: Option<string>): seq<Candidate<string>> {
    FlagOver(flag.Some?, if flag.Some? then Shows(FromFlag, Trim(flag.value)) else [], Variable(world, name))
  }

  // ----- The CA file

  /** The loader's resolveString: a flag that was passed replaces the variable. */
  function Text(world: World, name: Name, flag: Option<string>): string {
    if flag.Some? then Trim(flag.value) else Env(world, name)
  }

  /** The loader refuses a CA file other than the one policy mandates, paths compared cleaned. */
  predicate RefusesCaFile(world: World, clean: string -> string) {
    var mandated, chosen := TextOf(Effective(world.system, world.platform), CaFile),
      Text(world, BB_CA_FILE, world.flags.caFile);
    mandated != "" && chosen != "" && clean(chosen) != clean(mandated)
  }

  predicate SameKind(a: Source, b: Source) {
    || (a.FromFlag? && b.FromFlag?) || (a.FromEnvironment? && b.FromEnvironment?)
    || (a.FromOverride? && b.FromOverride?)
    || (a.FromFile? && b.FromFile? && a.tier == b.tier) || (a.FromKeyring? && b.FromKeyring?)
    || (a.FromRegistry? && b.FromRegistry?) || (a.FromDefault? && b.FromDefault?)
  }

  /** The diagnosis reports that commands refuse to run. */
  predicate ReportsCaFile(world: World, clean: string -> string) {
    var mandated := PolicyCandidates(world.system, world.platform, CaFile);
    var setting := Resolved("", Flagged(world, BB_CA_FILE, world.flags.caFile) + mandated);
    mandated != [] && !SameKind(setting.source, mandated[0].source)
    && clean(setting.value) != clean(TextOf(Effective(world.system, world.platform), CaFile))
  }

  lemma FlaggedLeads(world: World, name: Name, flag: Option<string>)
    ensures var candidates := Flagged(world, name, flag);
      match Leading(candidates)
      case None => Text(world, name, flag) == ""
      case Some(winner) =>
        && winner.value == Text(world, name, flag) != ""
        && (winner.source.FromFlag? || winner.source.FromEnvironment?)
  {
    if flag.Some? {
      LeadingOfTwo(Shows(FromFlag, Trim(flag.value)), Ineligible(Variable(world, name)));
    }
  }

  /**
   The diagnosis reports a CA file problem exactly when the loader refuses,
   but for a mandate that is blank without being empty, which the loader
   takes for a mandate and the diagnosis for none.
   */
  lemma CaFileAgrees(world: World, clean: string -> string)
    ensures var mandated := TextOf(Effective(world.system, world.platform), CaFile);
      ReportsCaFile(world, clean) <==> RefusesCaFile(world, clean) && Trim(mandated) != ""
  {
    FirstCandidateIsEffective(world.system, world.platform, CaFile);
    CaFileShows(world);
  }

  /** The diagnosis shows the file chosen, and otherwise the one mandated first. */
  lemma CaFileShows(world: World)
    ensures var chosen := Text(world, BB_CA_FILE, world.flags.caFile);
      var mandated := PolicyCandidates(world.system, world.platform, CaFile);
      var setting := Resolved("", Flagged(world, BB_CA_FILE, world.flags.caFile) + mandated);
      && (chosen != "" ==> setting.value == chosen)
      && (mandated != [] ==> (SameKind(setting.source, mandated[0].source) <==> chosen == ""))
  {
    var user := Flagged(world, BB_CA_FILE, world.flags.caFile);
    var mandated := PolicyCandidates(world.system, world.platform, CaFile);
    FlaggedLeads(world, BB_CA_FILE, world.flags.caFile);
    LeadingOfTwo(user, mandated);
    ResolvedLeads("", user + mandated);
    MandatesAreFiled(world.system, world.platform, CaFile);
  }

  lemma MandatesAreFiled(system: SystemFile, platform: PolicyConfig, key: Key)
    ensures var candidates := PolicyCandidates(system, platform, key);
      forall i :: 0 <= i < |candidates| ==>
        !candidates[i].ineligible && (candidates[i].source.FromRegistry? || candidates[i].source.FromFile?)
  {
  }

  const NO_FLAGS := Flags(None, "", "", "", None, None, None)

  const NO_POLICY := PolicyConfig(map[], map[])

  function Same(path: string): string { path }

  /** A CA file of one space in the system file's top level, and another passed as a flag. */
  function BlankMandate(): World {
    World(NO_FLAGS.(caFile := Some("a")), map[], None, true, EMPTY, map[],
          SystemFile(PolicyConfig(map[], map[CaFile := " "]), None, None, EMPTY), NO_POLICY, Keyring(true, map[]), "")
  }

  /** There the loader refuses and the diagnosis is silent. */
  lemma BlankMandateIsNotReported()
    ensures RefusesCaFile(BlankMandate(), Same) && !ReportsCaFile(BlankMandate(), Same)
  {
    var mandated := TextOf(Effective(BlankMandate().system, BlankMandate().platform), CaFile);
    assert mandated == " " && TrimLeft(mandated) == TrimLeft(mandated[1..]);
    assert Trim("a") == "a";
    CaFileAgrees(BlankMandate(), Same);
  }

  // ----- Requiring the keyring

  /** As strconv.ParseBool reads. */
  function ParseBool(text: string): Option<bool> {
    if text in {"1", "t", "T", "TRUE", "true", "True"} then Some(true)
    else if text in {"0", "f", "F", "FALSE", "false", "False"} then Some(false)
    else None
  }

  /** Whether the loader requires the keyring, or None for a variable it refuses. */
  function LoadsRequireKeyring(world: World): Option<bool> {
    var policy := Effective(world.system, world.platform);
    if RequireKeyring in policy.switches && policy.switches[RequireKeyring] then Some(true)
    else if Env(world, BB_REQUIRE_KEYRING) == "" then Some(false)
    else ParseBool(Env(world, BB_REQUIRE_KEYRING))
  }

  /** What the diagnosis shows for it, or None for a problem with the variable. */
  function ShowsRequireKeyring(world: World): Option<string> {
    var policy := PolicyCandidates(world.system, world.platform, RequireKeyring);
    var setting := Resolved("false", MandateOver(policy, Variable(world, BB_REQUIRE_KEYRING)));
    if !setting.source.FromEnvironment? then Some(setting.value)
    else match ParseBool(setting.value) case None => None case Some(on) => Some(Format(on))
  }

  lemma RequireKeyringAgrees(world: World)
    ensures ShowsRequireKeyring(world)
      == match LoadsRequireKeyring(world) case None => None case Some(required) => Some(Format(required))
  {
    var policy, variable := PolicyCandidates(world.system, world.platform, RequireKeyring),
      Variable(world, BB_REQUIRE_KEYRING);
    FirstCandidateIsEffective(world.system, world.platform, RequireKeyring);
    MandateLeads(policy, variable);
    ResolvedLeads("false", MandateOver(policy, variable));
    Spelled();
  }

  lemma Spelled()
    ensures Format(true) != Format(false)
    ensures ParseBool(Format(true)) == Some(true) && ParseBool(Format(false)) == Some(false)
  {
  }

  // ----- The host

  predicate IsHttp(url: Url) { url.scheme == "http" || url.scheme == "https" }

  /** What a default host stands for: a stored host's URL, or the URL it is itself. */
  function DefaultUrl(default: Url, first: map<Url, Profile>, second: map<Url, Profile>): Option<Url> {
    if default in first then Some(first[default].url)
    else if default in second then Some(second[default].url)
    else if IsHttp(default) then Some(default) else None
  }

  /** What the stored file holds, nothing when it is not to be read. */
  function StoredFile(world: World): Store { if world.readsStored then world.stored else EMPTY }

  /** The host the loader goes to: a flag's, the environment's, or the first default host there is. */
  function LoadsHost(world: World): Option<Url> {
    var named := if world.flags.host.Some? then world.flags.host else world.host;
    var stored, system := StoredFile(world), world.system.store;
    if named.Some? then named
    else if stored.default.Some? then DefaultUrl(stored.default.value, stored.hosts, system.hosts)
    else if system.default.Some? then DefaultUrl(system.default.value, system.hosts, stored.hosts)
    else None
  }

  function HostCandidate(source: Source, url: Option<Url>): seq<Candidate<Option<Url>>> {
    if url.None? then [] else [Candidate(source, url, false)]
  }

  function DefaultCandidate(tier: Tier, default: Option<Url>, first: map<Url, Profile>, second: map<Url, Profile>)
    : seq<Candidate<Option<Url>>>
  {
    match default
    case None => []
    case Some(default) => [Candidate(FromFile(tier), DefaultUrl(default, first, second), false)]
  }

  function ShowsHost(world: World): Setting<Option<Url>> {
    var stored, system := StoredFile(world), world.system.store;
    Resolved(None, HostCandidate(FromOverride, world.flags.host)
                   + HostCandidate(FromEnvironment(BITBUCKET_URL), world.host)
                   + DefaultCandidate(Stored, stored.default, stored.hosts, system.hosts)
                   + DefaultCandidate(System, system.default, system.hosts, stored.hosts))
  }

  /** The diagnosis shows the host the loader goes to. A default that stands for nothing still wins. */
  lemma HostAgrees(world: World)
    ensures ShowsHost(world).value == LoadsHost(world)
  {
    var a, b := HostCandidate(FromOverride, world.flags.host),
      HostCandidate(FromEnvironment(BITBUCKET_URL), world.host);
    var stored, system := StoredFile(world), world.system.store;
    var c := DefaultCandidate(Stored, stored.default, stored.hosts, system.hosts);
    var d := DefaultCandidate(System, system.default, system.hosts, stored.hosts);
    LeadingOfFour(a, b, c, d);
    ResolvedLeads(None, a + b + c + d);
  }

  // ----- The stored profile

  /** What a file gives a host: a username, secrets, and client files. */
  datatype Adopted = Adopted(
    username: string, token: string, password: string, cert: string, certKey: string, insecure: bool)

  function OfCredential(credential: Credential): Adopted {
    Adopted(credential.username, credential.token, credential.password,
            credential.cert, credential.certKey, credential.insecure)
  }

  function OfWorkspace(hosts: map<Url, Profile>): Store { Store(hosts, map[], None) }

  /** What the loader adopts: from the stored file, or the workspace's, or the system's. */
  ghost function LoadsProfile(world: World, host: Url): Option<Adopted> {
    if !world.readsStored then None
    else
      var strict := Strict(world.stored, world.keyring, world.path, Web(host));
      if strict.Some? then Some(OfCredential(strict.value))
      else
        var matched := Match(OfWorkspace(world.workspace), Web(host));
        if matched.Some? then Some(Adopted(world.workspace[matched.value].username, "", "", "", "", false))
        else
          var system := Strict(world.system.store, world.keyring, world.path, Web(host));
          if system.Some? then Some(OfCredential(system.value)) else None
  }

  /** The profile the diagnosis finds: its tier and key, and what it names. */
  datatype Found = NotFound | Found(tier: Tier, key: Url, profile: Profile, insecure: map<Url, Secret>)

  ghost function FindsIn(tier: Tier, store: Store, host: Url): Found {
    match Match(store, Web(host))
    case None => NotFound
    case Some(key) =>
      var profile := store.hosts[key];
      var named := if tier.Workspace? then Profile(profile.url, [], ByToken, profile.username, "", "") else profile;
      Found(tier, key, named, store.insecure)
  }

  ghost function StoredProfile(world: World, host: Option<Url>): Found {
    if host.None? || !world.readsStored then NotFound
    else if FindsIn(Stored, world.stored, host.value).Found? then FindsIn(Stored, world.stored, host.value)
    else if FindsIn(Workspace, OfWorkspace(world.workspace), host.value).Found?
    then FindsIn(Workspace, OfWorkspace(world.workspace), host.value)
    else FindsIn(System, world.system.store, host.value)
  }

  /** The secrets the keyring has for a found profile. A workspace file's profile releases none. */
  ghost function Kept(world: World, found: Found): Secret {
    if found.NotFound? || found.tier.Workspace? then NOTHING
    else StoredSecrets(world.keyring, world.path, found.profile.url, found.key)
  }

  ghost function Plain(found: Found): Secret {
    if found.Found? && found.key in found.insecure then found.insecure[found.key] else NOTHING
  }

  /** Spaces alone, which the loader takes and the diagnosis does not. */
  predicate BlankNotEmpty(text: string) { text != "" && Trim(text) == "" }

  function Nonblank(text: string): string { if Trim(text) == "" then "" else text }

  function Either(first: string, second: string): string { if first != "" then first else second }

  /** What the loader would adopt from a found profile. */
  ghost function AdoptedOf(world: World, found: Found): Adopted
    requires found.Found?
  {
    var kept, plain := Kept(world, found), Plain(found);
    Adopted(found.profile.username,
            Either(kept.token, Nonblank(plain.token)), Either(kept.password, Nonblank(plain.password)),
            found.profile.cert, found.profile.certKey,
            (kept.token == "" && Trim(plain.token) != "") || (kept.password == "" && Trim(plain.password) != ""))
  }

  /** The profile the diagnosis finds is the one the loader adopts from. */
  lemma ProfileAgrees(world: World, host: Url)
    ensures var found := StoredProfile(world, Some(host));
      LoadsProfile(world, host) == if found.NotFound? then None else Some(AdoptedOf(world, found))
  {
    FoundInTier(world, Stored, world.stored, host);
    FoundInTier(world, System, world.system.store, host);
  }

  lemma FoundInTier(world: World, tier: Tier, store: Store, host: Url)
    requires !tier.Workspace?
    ensures var found, strict := FindsIn(tier, store, host), Strict(store, world.keyring, world.path, Web(host));
      && (found.Found? <==> strict.Some?)
      && (found.Found? ==> OfCredential(strict.value) == AdoptedOf(world, found))
  {
  }

  // ----- Credentials

  /** The loader takes what was supplied, and from a file only what was not. */
  function Adopt(supplied: string, adopted: string): string { Either(supplied, adopted) }

  function SuppliedUsername(world: World): string {
    Either(Trim(world.flags.username),
           Either(Env(world, BITBUCKET_USERNAME), Either(Env(world, BITBUCKET_USER), Env(world, ADMIN_USER))))
  }

  predicate NamedUser(world: World) { Trim(world.flags.username) != "" && Trim(world.flags.password) != "" }

  function SuppliedToken(world: World): string {
    Either(Trim(world.flags.token), if NamedUser(world) then "" else Env(world, BITBUCKET_TOKEN))
  }

  function SuppliedPassword(world: World): string {
    Either(Trim(world.flags.password), Either(Env(world, BITBUCKET_PASSWORD), Env(world, ADMIN_PASSWORD)))
  }

  const NO_ADOPTED := Adopted("", "", "", "", "", false)

  ghost function Adopts(world: World, host: Url): Adopted {
    match LoadsProfile(world, host) case None => NO_ADOPTED case Some(adopted) => adopted
  }

  /** What the loader ends up with for a host. */
  datatype Loaded = Loaded(
    username: string, token: string, password: string, cert: string, certKey: string, insecure: bool)

  ghost function Loads(world: World, host: Url): Loaded {
    var adopted := Adopts(world, host);
    var adoptsSecret := (SuppliedToken(world) == "" && adopted.token != "")
      || (SuppliedPassword(world) == "" && adopted.password != "");
    Loaded(Adopt(SuppliedUsername(world), adopted.username), Adopt(SuppliedToken(world), adopted.token),
           Adopt(SuppliedPassword(world), adopted.password),
           Adopt(Text(world, BB_CLIENT_CERT, world.flags.clientCert), adopted.cert),
           Adopt(Text(world, BB_CLIENT_KEY, world.flags.clientKey), adopted.certKey),
           adoptsSecret && adopted.insecure)
  }

  /** The diagnosis never carries a secret's value. */
  function Erased(candidates: seq<Candidate<string>>): (erased: seq<Candidate<string>>)
    ensures |erased| == |candidates|
    ensures forall i :: 0 <= i < |erased| ==> erased[i] == candidates[i].(value := "")
  {
    seq(|candidates|, i requires 0 <= i < |candidates| => candidates[i].(value := ""))
  }

  /** Where a stored secret is: the keyring, or else the file's plaintext. */
  function StoredSecret(found: Found, kept: string, plaintext: string): seq<Candidate<string>> {
    if found.NotFound? then []
    else if kept != "" then [Candidate(FromKeyring, "", false)]
    else if Trim(plaintext) != "" then [Candidate(FromFile(found.tier), "", false)]
    else []
  }

  function ShowsUsername(world: World, found: Found): Setting<string> {
    Resolved("", Overriding(world.flags.username) + Variable(world, BITBUCKET_USERNAME)
                 + Variable(world, BITBUCKET_USER) + Variable(world, ADMIN_USER)
                 + if found.Found? then InFile(found.tier, found.profile.username) else [])
  }

  ghost function TokenCandidates(world: World, found: Found): seq<Candidate<string>> {
    Erased(Overriding(world.flags.token)) + VariableToken(world)
    + StoredSecret(found, Kept(world, found).token, Plain(found).token)
  }

  /** Naming a user by flags keeps the variable's token from counting. */
  function VariableToken(world: World): seq<Candidate<string>> {
    var variable := Erased(Variable(world, BITBUCKET_TOKEN));
    if NamedUser(world) then Ineligible(variable) else variable
  }

  ghost function ShowsToken(world: World, found: Found): Setting<string> {
    Resolved("", TokenCandidates(world, found))
  }

  ghost function PasswordCandidates(world: World, found: Found): seq<Candidate<string>> {
    Erased(Overriding(world.flags.password))
    + Erased(Variable(world, BITBUCKET_PASSWORD)) + Erased(Variable(world, ADMIN_PASSWORD))
    + StoredSecret(found, Kept(world, found).password, Plain(found).password)
  }

  ghost function ShowsPassword(world: World, found: Found): Setting<string> {
    Resolved("", PasswordCandidates(world, found))
  }

  function ShowsFile(world: World, found: Found, name: Name, flag: Option<string>, stored: string): Setting<string> {
    Resolved("", Flagged(world, name, flag) + if found.Found? then InFile(found.tier, stored) else [])
  }

  /** What is at the place a secret is reported to come from. */
  ghost function SecretAt(world: World, source: Source, flag: string, kept: string, plaintext: string): string {
    match source
    case FromOverride => Trim(flag)
    case FromEnvironment(name) => Env(world, name)
    case FromKeyring => kept
    case FromFile(_) => plaintext
    case _ => ""
  }

  lemma ShowsLeads(source: Source, value: string)
    ensures Leading(Shows(source, value)) == if value == "" then None else Some(Candidate(source, value, false))
    ensures Leading(Erased(Shows(source, value))) == if value == "" then None else Some(Candidate(source, "", false))
    ensures Leading(Ineligible(Erased(Shows(source, value)))) == None
  {
  }

  /** The user name the diagnosis shows is the loader's, but for a stored one that is blank. */
  lemma UsernameAgrees(world: World, host: Url)
    ensures ShowsUsername(world, StoredProfile(world, Some(host))).value
      == Either(SuppliedUsername(world), Nonblank(Adopts(world, host).username))
    ensures ShowsUsername(world, StoredProfile(world, Some(host))).value == Loads(world, host).username
      <==> SuppliedUsername(world) != "" || !BlankNotEmpty(Adopts(world, host).username)
  {
    var found := StoredProfile(world, Some(host));
    ProfileAgrees(world, host);
    UsernameLeads(world, found);
  }

  lemma UsernameLeads(world: World, found: Found)
    ensures ShowsUsername(world, found).value
      == Either(SuppliedUsername(world), if found.Found? then Nonblank(found.profile.username) else "")
  {
    var a, b := Overriding(world.flags.username), Variable(world, BITBUCKET_USERNAME);
    var c, d := Variable(world, BITBUCKET_USER), Variable(world, ADMIN_USER);
    var e := if found.Found? then InFile(found.tier, found.profile.username) else [];
    LeadingOfTwo(a + b + c + d, e);
    LeadingOfFour(a, b, c, d);
    ResolvedLeads("", a + b + c + d + e);
  }

  /** What is at the place the diagnosis names for the token is the token the loader uses. */
  lemma TokenAgrees(world: World, host: Url)
    ensures var found := StoredProfile(world, Some(host));
      SecretAt(world, ShowsToken(world, found).source, world.flags.token, Kept(world, found).token, Plain(found).token)
      == Loads(world, host).token
  {
    var found := StoredProfile(world, Some(host));
    ProfileAgrees(world, host);
    TokenLeads(world, found);
  }

  /** The token of a found profile: the keyring's, or else the file's unless it is blank. */
  ghost function StoredToken(world: World, found: Found): string {
    Either(Kept(world, found).token, Nonblank(Plain(found).token))
  }

  predicate BlankToken(secret: Secret) { Trim(secret.token) == "" }

  predicate BlankPassword(secret: Secret) { Trim(secret.password) == "" }

  /** The token comes from the file's plaintext. */
  ghost predicate TakesPlainToken(world: World, found: Found) {
    && SuppliedToken(world) == "" && found.Found?
    && Kept(world, found).token == "" && !BlankToken(Plain(found))
  }

  ghost predicate TakesPlainPassword(world: World, found: Found) {
    && SuppliedPassword(world) == "" && found.Found?
    && Kept(world, found).password == "" && !BlankPassword(Plain(found))
  }

  lemma TokenLeads(world: World, found: Found)
    ensures SecretAt(world, ShowsToken(world, found).source, world.flags.token,
                     Kept(world, found).token, Plain(found).token)
      == Either(SuppliedToken(world), if found.Found? then StoredToken(world, found) else "")
    ensures ShowsToken(world, found).source.FromFile?
      <==> TakesPlainToken(world, found)
  {
    var leader := Leading(TokenCandidates(world, found));
    TokenLeader(world, found);
    ResolvedLeads("", TokenCandidates(world, found));
    TokenAt(world, found, leader, SourceOf(leader));
  }

  function SourceOf(leader: Option<Candidate<string>>): Source {
    match leader case None => FromDefault case Some(candidate) => candidate.source
  }

  lemma TokenAt(world: World, found: Found, leader: Option<Candidate<string>>, source: Source)
    requires leader == TokenLeading(world, found) && source == SourceOf(leader)
    ensures SecretAt(world, source, world.flags.token, Kept(world, found).token, Plain(found).token)
      == Either(SuppliedToken(world), if found.Found? then StoredToken(world, found) else "")
    ensures source.FromFile?
      <==> TakesPlainToken(world, found)
  {
  }

  ghost function TokenLeading(world: World, found: Found): Option<Candidate<string>> {
    if Trim(world.flags.token) != "" then Some(Candidate(FromOverride, "", false))
    else if !NamedUser(world) && Env(world, BITBUCKET_TOKEN) != ""
    then Some(Candidate(FromEnvironment(BITBUCKET_TOKEN), "", false))
    else StoredLeading(found, Kept(world, found).token, Plain(found).token)
  }

  function StoredLeading(found: Found, kept: string, plaintext: string): Option<Candidate<string>> {
    if found.NotFound? then None
    else if kept != "" then Some(Candidate(FromKeyring, "", false))
    else if Trim(plaintext) != "" then Some(Candidate(FromFile(found.tier), "", false))
    else None
  }

  lemma TokenLeader(world: World, found: Found)
    ensures Leading(TokenCandidates(world, found)) == TokenLeading(world, found)
  {
    ShowsLeads(FromOverride, Trim(world.flags.token));
    ShowsLeads(FromEnvironment(BITBUCKET_TOKEN), Env(world, BITBUCKET_TOKEN));
    LeadingOfThree(Erased(Overriding(world.flags.token)), VariableToken(world),
                   StoredSecret(found, Kept(world, found).token, Plain(found).token));
  }

  /** What is at the place the diagnosis names for the password is the password the loader uses. */
  lemma PasswordAgrees(world: World, host: Url)
    ensures var found := StoredProfile(world, Some(host));
      SecretAt(world, ShowsPassword(world, found).source, world.flags.password,
               Kept(world, found).password, Plain(found).password)
      == Loads(world, host).password
  {
    var found := StoredProfile(world, Some(host));
    ProfileAgrees(world, host);
    PasswordLeads(world, found);
  }

  ghost function StoredPassword(world: World, found: Found): string {
    Either(Kept(world, found).password, Nonblank(Plain(found).password))
  }

  lemma PasswordLeads(world: World, found: Found)
    ensures SecretAt(world, ShowsPassword(world, found).source, world.flags.password,
                     Kept(world, found).password, Plain(found).password)
      == Either(SuppliedPassword(world), if found.Found? then StoredPassword(world, found) else "")
    ensures ShowsPassword(world, found).source.FromFile?
      <==> TakesPlainPassword(world, found)
  {
    var leader := Leading(PasswordCandidates(world, found));
    PasswordLeader(world, found);
    ResolvedLeads("", PasswordCandidates(world, found));
    PasswordAt(world, found, leader, SourceOf(leader));
  }

  lemma PasswordAt(world: World, found: Found, leader: Option<Candidate<string>>, source: Source)
    requires leader == PasswordLeading(world, found) && source == SourceOf(leader)
    ensures SecretAt(world, source, world.flags.password, Kept(world, found).password, Plain(found).password)
      == Either(SuppliedPassword(world), if found.Found? then StoredPassword(world, found) else "")
    ensures source.FromFile?
      <==> TakesPlainPassword(world, found)
  {
  }

  ghost function PasswordLeading(world: World, found: Found): Option<Candidate<string>> {
    if Trim(world.flags.password) != "" then Some(Candidate(FromOverride, "", false))
    else if Env(world, BITBUCKET_PASSWORD) != "" then Some(Candidate(FromEnvironment(BITBUCKET_PASSWORD), "", false))
    else if Env(world, ADMIN_PASSWORD) != "" then Some(Candidate(FromEnvironment(ADMIN_PASSWORD), "", false))
    else StoredLeading(found, Kept(world, found).password, Plain(found).password)
  }

  lemma PasswordLeader(world: World, found: Found)
    ensures Leading(PasswordCandidates(world, found)) == PasswordLeading(world, found)
  {
    ShowsLeads(FromOverride, Trim(world.flags.password));
    ShowsLeads(FromEnvironment(BITBUCKET_PASSWORD), Env(world, BITBUCKET_PASSWORD));
    ShowsLeads(FromEnvironment(ADMIN_PASSWORD), Env(world, ADMIN_PASSWORD));
    LeadingOfFour(Erased(Overriding(world.flags.password)), Erased(Variable(world, BITBUCKET_PASSWORD)),
                  Erased(Variable(world, ADMIN_PASSWORD)),
                  StoredSecret(found, Kept(world, found).password, Plain(found).password));
  }

  /** The client files the diagnosis shows are the loader's, but for a stored one that is blank. */
  lemma ClientFilesAgree(world: World, host: Url)
    ensures var found := StoredProfile(world, Some(host));
      var supplied := Text(world, BB_CLIENT_CERT, world.flags.clientCert);
      var stored := if found.Found? then found.profile.cert else "";
      ShowsFile(world, found, BB_CLIENT_CERT, world.flags.clientCert, stored).value == Loads(world, host).cert
      <==> supplied != "" || !BlankNotEmpty(Adopts(world, host).cert)
    ensures var found := StoredProfile(world, Some(host));
      var supplied := Text(world, BB_CLIENT_KEY, world.flags.clientKey);
      var stored := if found.Found? then found.profile.certKey else "";
      ShowsFile(world, found, BB_CLIENT_KEY, world.flags.clientKey, stored).value == Loads(world, host).certKey
      <==> supplied != "" || !BlankNotEmpty(Adopts(world, host).certKey)
  {
    var found := StoredProfile(world, Some(host));
    ProfileAgrees(world, host);
    FileLeads(world, found, BB_CLIENT_CERT, world.flags.clientCert, if found.Found? then found.profile.cert else "");
    FileLeads(world, found, BB_CLIENT_KEY, world.flags.clientKey, if found.Found? then found.profile.certKey else "");
  }

  lemma FileLeads(world: World, found: Found, name: Name, flag: Option<string>, stored: string)
    ensures ShowsFile(world, found, name, flag, stored).value
      == Either(Text(world, name, flag), if found.Found? then Nonblank(stored) else "")
  {
    var flagged, inFile := Flagged(world, name, flag), if found.Found? then InFile(found.tier, stored) else [];
    FlaggedLeads(world, name, flag);
    LeadingOfTwo(flagged, inFile);
    ResolvedLeads("", flagged + inFile);
  }

  // ----- Plaintext under a required keyring

  /** The diagnosis says of the token or the password that commands refuse to use it. */
  ghost predicate ReportsPlaintext(world: World, found: Found) {
    ShowsToken(world, found).source.FromFile? || ShowsPassword(world, found).source.FromFile?
  }

  /** A secret from the keyring is in use, and plaintext beside it that is not. */
  ghost predicate PlaintextUnused(world: World, found: Found) {
    && found.Found? && !ReportsPlaintext(world, found)
    && var kept, plain := Kept(world, found), Plain(found);
    && ((SuppliedToken(world) == "" && kept.token != "" && kept.password == "" && !BlankPassword(plain))
        || (SuppliedPassword(world) == "" && kept.password != "" && kept.token == "" && !BlankToken(plain)))
  }

  /**
   Where the keyring is required, the loader refuses every plaintext secret
   the diagnosis reports; it refuses without a report only when it takes a
   secret from the keyring beside plaintext that it does not take.
   */
  lemma PlaintextAgrees(world: World, host: Url)
    ensures var found := StoredProfile(world, Some(host));
      Loads(world, host).insecure <==> ReportsPlaintext(world, found) || PlaintextUnused(world, found)
  {
    var found := StoredProfile(world, Some(host));
    ProfileAgrees(world, host);
    TokenLeads(world, found);
    PasswordLeads(world, found);
  }

  /** A host with a token in the keyring and a plaintext password left in the file, and a password passed as a flag. */
  function PlaintextLeft(host: Url): World {
    var key := HostKey(host);
    World(NO_FLAGS.(host := Some(host), password := "q"), map[], None, true,
          Store(map[key := Profile(host, [], ByToken, "", "", "")], map[key := Secret("", "p")], Some(key)), map[],
          SystemFile(NO_POLICY, None, None, EMPTY), NO_POLICY, Keyring(true, map[TokenOf(Scoped(key, "")) := "t"]), "")
  }

  /** There the loader refuses, and the diagnosis says nothing of the token or the password. */
  lemma PlaintextLeftIsNotReported(host: Url)
    ensures var world := PlaintextLeft(host);
      Loads(world, host).insecure && !ReportsPlaintext(world, StoredProfile(world, Some(host)))
  {
    var world := PlaintextLeft(host);
    var found := StoredProfile(world, Some(host));
    assert Trim("p") == "p" && Trim("q") == "q" && Trim("t") == "t" && Trim("") == "";
    assert Kept(world, found) == Secret("t", "") && Plain(found) == Secret("", "p");
    PlaintextAgrees(world, host);
    TokenLeads(world, found);
    PasswordLeads(world, found);
  }
}
