/** Servers a tab can be bound to (tabs.rs, `Server`). */
module Servers {
  import opened Wrappers
  import Origin

  datatype Mode = Local | Remote

  datatype Server = Server(mode: Mode, origin: string)

  const LOCAL := Server(Local, "")

  function RemoteServer(origin: string): Server {
    Server(Remote, origin)
  }

  /** Credentials are kept per account; all local children share one. */
  function KeychainKey(server: Server): string {
    match server.mode
    case Local => "local"
    case Remote => server.origin
  }

  /** The servers the binding commands build: the local one, and normal forms. */
  predicate WellFormed(server: Server) {
    match server.mode
    case Local => server == LOCAL
    case Remote => Origin.Normalize(server.origin) == Some(server.origin)
  }

  /** Tabs never share a credential: distinct servers have distinct accounts. */
  lemma KeysDistinct(a: Server, b: Server)
    ensures WellFormed(a) && WellFormed(b) ==> (KeychainKey(a) == KeychainKey(b) <==> a == b)
  {
    hide Origin.Normalize;
    if a.mode == Remote {
      Origin.NormalizeIdempotent(a.origin);
    }
    if b.mode == Remote {
      Origin.NormalizeIdempotent(b.origin);
    }
  }
}

/** Enterprise policy (policy.rs): two registry hives merged value by value into
    the policy that gates every binding and every restored tab. */
module Policies {
  import opened Wrappers
  import opened Servers
  import Origin
  import Text

  /** One hive: each of the four values may be absent. */
  datatype RawPolicy = RawPolicy(
    defaultServerUrl: Option<string>,
    lockServerUrl: Option<bool>,
    disableLocalMode: Option<bool>,
    disableAutoUpdate: Option<bool>)

  const NOTHING_SET := RawPolicy(None, None, None, None)

  function Or<T>(upper: Option<T>, lower: Option<T>): Option<T> {
    if upper.Some? then upper else lower
  }

  /** Each value is taken from `upper` where it is there, else from `lower`. */
  function Over(upper: RawPolicy, lower: RawPolicy): RawPolicy {
    RawPolicy(
      Or(upper.defaultServerUrl, lower.defaultServerUrl),
      Or(upper.lockServerUrl, lower.lockServerUrl),
      Or(upper.disableLocalMode, lower.disableLocalMode),
      Or(upper.disableAutoUpdate, lower.disableAutoUpdate))
  }

  datatype Policy = Policy(
    defaultServerUrl: Option<string>,
    serverUrlLocked: bool,
    localModeAllowed: bool,
    autoUpdateDisabled: bool)

  function FromRaw(raw: RawPolicy): Policy {
    var url := match raw.defaultServerUrl
      case None => None
      case Some(text) => Origin.Normalize(text);
    var locked := raw.lockServerUrl == Some(true) && url.Some?;
    Policy(url, locked, raw.disableLocalMode != Some(true) && !locked, raw.disableAutoUpdate == Some(true))
  }

  datatype Refusal = ServerLocked | LocalModeDisabled

  /** Compares literally, so it is meant for normal forms. */
  function CheckRemote(p: Policy, origin: string): Option<Refusal> {
    if p.defaultServerUrl.Some? && p.serverUrlLocked && p.defaultServerUrl.value != origin then Some(ServerLocked)
    else None
  }

  function CheckLocal(p: Policy): Option<Refusal> {
    if p.localModeAllowed then None
    else if p.serverUrlLocked then Some(ServerLocked)
    else Some(LocalModeDisabled)
  }

  function Check(p: Policy, server: Server): Option<Refusal> {
    match server.mode
    case Local => CheckLocal(p)
    case Remote => CheckRemote(p, server.origin)
  }

  predicate Allows(p: Policy, server: Server) {
    Check(p, server).None?
  }

  // ---------- algebra ----------

  /** Merging hives is associative and an empty hive changes nothing. */
  lemma OverIsMonoid(a: RawPolicy, b: RawPolicy, c: RawPolicy)
    ensures Over(Over(a, b), c) == Over(a, Over(b, c))
    ensures Over(a, NOTHING_SET) == a == Over(NOTHING_SET, a)
  {
  }

  /** What an administrator fixes in the machine hive no user hive can loosen:
      with a locking machine hive the allowed servers do not depend on the user. */
  lemma MachineLockIsFinal(machine: RawPolicy, user: RawPolicy, server: Server)
    ensures FromRaw(machine).serverUrlLocked ==>
              (Allows(FromRaw(Over(machine, user)), server) <==> Allows(FromRaw(machine), server))
  {
    hide Origin.Normalize;
  }

  lemma MachineLocalBanIsFinal(machine: RawPolicy, user: RawPolicy)
    requires machine.disableLocalMode == Some(true)
    ensures !Allows(FromRaw(Over(machine, user)), LOCAL)
  {
    hide Origin.Normalize;
  }

  /** The policy in effect, value by value: a value the machine hive has counts, also
      against the user's; one it lacks is the user's; one neither has restricts nothing. */
  lemma MachineWins(machine: RawPolicy, user: RawPolicy)
    ensures var p := FromRaw(Over(machine, user));
            && (p.autoUpdateDisabled <==>
                  machine.disableAutoUpdate == Some(true)
                  || (machine.disableAutoUpdate == None && user.disableAutoUpdate == Some(true)))
            && (p.localModeAllowed <==>
                  && !p.serverUrlLocked
                  && machine.disableLocalMode != Some(true)
                  && (machine.disableLocalMode == None ==> user.disableLocalMode != Some(true)))
            && (p.serverUrlLocked <==>
                  && p.defaultServerUrl != None
                  && (|| machine.lockServerUrl == Some(true)
                      || (machine.lockServerUrl == None && user.lockServerUrl == Some(true))))
            && p.defaultServerUrl ==
                 match machine.defaultServerUrl
                 case Some(url) => Origin.Normalize(url)
                 case None =>
                   match user.defaultServerUrl case Some(url) => Origin.Normalize(url) case None => None
  {
    hide Origin.Normalize;
  }

  /** Every configuration leaves at least one server to use. */
  lemma SomeServerAllowed(raw: RawPolicy) returns (server: Server)
    ensures WellFormed(server) && Allows(FromRaw(raw), server)
  {
    hide Origin.Normalize;
    if FromRaw(raw).serverUrlLocked {
      Origin.NormalizeIdempotent(raw.defaultServerUrl.value);
      server := RemoteServer(FromRaw(raw).defaultServerUrl.value);
    } else {
      server := SomeRemote();
    }
  }

  lemma SomeRemote() returns (server: Server)
    ensures server.mode == Remote && WellFormed(server)
  {
    var other;
    server, other := TwoRemotes();
  }

  lemma OriginIsUsable(o: Origin.Origin)
    requires Origin.IsOrigin(o)
    ensures WellFormed(RemoteServer(Origin.Print(o)))
  {
    Origin.ParsePrint(o);
    hide Origin.Parse;
    hide Origin.Print;
  }

  lemma OneLetterHost(letter: char)
    requires 'a' <= letter <= 'z'
    ensures Origin.IsOrigin(Origin.Origin(Origin.Https, [letter], 443))
  {
    var host := [letter];
    assert Text.Split(host, '.') == [host] by {
      assert host[..1] == host;
      Text.FindIs(host, '.', 1);
    }
  }

  lemma PrintsDiffer(o: Origin.Origin, other: Origin.Origin)
    requires Origin.IsOrigin(o) && Origin.IsOrigin(other) && o != other
    ensures Origin.Print(o) != Origin.Print(other)
  {
    hide Origin.IsOrigin;
    Origin.ParsePrint(o);
    Origin.ParsePrint(other);
    hide Origin.Parse;
    hide Origin.Print;
  }

  /** https://a and https://b */
  lemma TwoRemotes() returns (a: Server, b: Server)
    ensures a.mode == b.mode == Remote && WellFormed(a) && WellFormed(b) && a != b
  {
    hide Origin.IsOrigin;
    hide Origin.Print;
    hide WellFormed;
    var first, second := Origin.Origin(Origin.Https, "a", 443), Origin.Origin(Origin.Https, "b", 443);
    OneLetterHost('a');
    OneLetterHost('b');
    OriginIsUsable(first);
    OriginIsUsable(second);
    PrintsDiffer(first, second);
    a, b := RemoteServer(Origin.Print(first)), RemoteServer(Origin.Print(second));
  }

  /** A lock is in force only together with a usable address, and then means one
      server: the normalised default address and nothing else. */
  lemma LockedAllowsExactlyOne(raw: RawPolicy, server: Server)
    ensures FromRaw(raw).serverUrlLocked <==>
            raw.lockServerUrl == Some(true) && raw.defaultServerUrl.Some?
            && Origin.Normalize(raw.defaultServerUrl.value).Some?
    ensures FromRaw(raw).serverUrlLocked ==>
              (Allows(FromRaw(raw), server) <==>
               server == RemoteServer(Origin.Normalize(raw.defaultServerUrl.value).value))
    ensures !FromRaw(raw).serverUrlLocked ==>
              (Allows(FromRaw(raw), server) <==>
               server.mode == Remote || raw.disableLocalMode != Some(true))
  {
    hide Origin.Normalize;
  }

  /** Which refusal a user sees: the lock is named whenever one is in force. */
  lemma RefusalReasons(raw: RawPolicy, server: Server)
    ensures var p := FromRaw(raw);
            && (Check(p, server) == Some(ServerLocked) <==> p.serverUrlLocked && !Allows(p, server))
            && (Check(p, server) == Some(LocalModeDisabled) <==>
                  !p.serverUrlLocked && server.mode == Local && raw.disableLocalMode == Some(true))
  {
    hide Origin.Normalize;
  }

  /** Same address, and every restriction of `raw` is also switched on in `strict`. */
  predicate Tightens(strict: RawPolicy, raw: RawPolicy) {
    && strict.defaultServerUrl == raw.defaultServerUrl
    && (raw.lockServerUrl == Some(true) ==> strict.lockServerUrl == Some(true))
    && (raw.disableLocalMode == Some(true) ==> strict.disableLocalMode == Some(true))
  }

  /** Switching on restrictions never enlarges the set of allowed servers. */
  lemma TighteningShrinks(raw: RawPolicy, strict: RawPolicy, server: Server)
    requires Tightens(strict, raw)
    ensures Allows(FromRaw(strict), server) ==> Allows(FromRaw(raw), server)
  {
    hide Origin.Normalize;
    LockedAllowsExactlyOne(raw, server);
    LockedAllowsExactlyOne(strict, server);
  }
}
