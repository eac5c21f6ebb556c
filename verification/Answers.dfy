/** What the session commands answer (session.rs), said once as the methods compute
    it and once in terms of the tab's server, the child and the reply. */
module Answers {
  import opened Wrappers
  import opened Servers
  import opened Policies
  import opened Tabs
  import opened Sidecars
  import opened Shell
  import opened TokenHistory
  import Origin

  datatype ServerInfo = ServerInfo(mode: Mode, origin: string)

  /** What a webview gets to see of a session: never the refresh token. */
  datatype Credentials = Credentials(accessToken: string, sessionId: string)

  function Shared(r: Result<Refreshed, SessionError>): Result<Credentials, SessionError> {
    match r
    case Success(refreshed) => Success(Credentials(refreshed.accessToken, refreshed.sessionId))
    case Failure(e) => Failure(e)
  }

  function SetRemoteOutcome(p: Policy, s: Inner, id: nat, raw: string): Result<ServerInfo, SessionError> {
    match Origin.Normalize(raw)
    case None => Failure(InvalidOrigin)
    case Some(origin) =>
      match Check(p, RemoteServer(origin))
      case Some(refusal) => Failure(ByPolicy(refusal))
      case None =>
        match Tabs.Bind(s, id, RemoteServer(origin))
        case Failure(e) => Failure(FromTabs(e))
        case Success(_) => Success(ServerInfo(Remote, origin))
  }

  function SetLocalOutcome(p: Policy, w: World, id: nat, spawn: Spawn): Result<ServerInfo, SessionError> {
    match Check(p, LOCAL)
    case Some(refusal) => Failure(ByPolicy(refusal))
    case None =>
      match Tabs.Bind(w.inner, id, LOCAL)
      case Failure(e) => Failure(FromTabs(e))
      case Success(_) =>
        match AfterEnsure(w.sidecar, spawn).1
        case Failure(e) => Failure(FromSidecar(e))
        case Success(origin) => Success(ServerInfo(Local, origin))
  }

  function GetServerOutcome(p: Policy, w: World, id: nat, spawn: Spawn): Result<Option<ServerInfo>, SessionError> {
    match ServerOf(w.inner, id)
    case None => Success(None)
    case Some(server) =>
      match Resolve(p, w, server, spawn)
      case Failure(e) => Failure(e)
      case Success(origin) => Success(Some(ServerInfo(server.mode, origin)))
  }

  // ---------- the child and the grant ----------

  /** The origin of the local server, or why it does not run. */
  predicate AnswersOrigin(sc: Sidecar, spawn: Spawn, r: Result<string, SidecarError>) {
    if sc.running.Some? then r == Success(sc.running.value.origin)
    else match spawn
      case NoChild => r == Failure(SpawnFailed)
      case NotReady => r == Failure(NeverReady)
      case Ready(origin, _) => r == Success(origin)
  }

  predicate HasGrant(sc: Sidecar) {
    sc.running.Some? && sc.running.value.grant.Some?
  }

  // ---------- origins ----------

  predicate RefusedBy<T>(p: Policy, server: Server, r: Result<T, SessionError>) {
    r.Failure? && r.error.ByPolicy? && Check(p, server) == Some(r.error.refusal)
  }

  /** The origin requests for this server go to, or why there is none. */
  predicate AnswersResolve(p: Policy, sc: Sidecar, server: Server, spawn: Spawn, r: Result<string, SessionError>) {
    if !Allows(p, server) then RefusedBy(p, server, r)
    else match server.mode
      case Remote => r == Success(server.origin)
      case Local =>
        match r
        case Success(origin) => AnswersOrigin(sc, spawn, Success(origin))
        case Failure(e) => e.FromSidecar? && AnswersOrigin(sc, spawn, Failure(e.cause))
  }

  /** Remote servers answer for themselves; the local one through its child. */
  lemma ResolveAnswers(p: Policy, w: World, server: Server, spawn: Spawn)
    ensures AnswersResolve(p, w.sidecar, server, spawn, Resolve(p, w, server, spawn))
  {
    EnsureIs(w.sidecar, spawn);
    hide AfterEnsure;
  }

  predicate AnswersGetServer(p: Policy, w: World, id: nat, spawn: Spawn, r: Result<Option<ServerInfo>, SessionError>) {
    match ServerOf(w.inner, id)
    case None => r == Success(None)
    case Some(server) =>
      match r
      case Failure(e) => AnswersResolve(p, w.sidecar, server, spawn, Failure(e))
      case Success(info) =>
        && info.Some? && info.value.mode == server.mode
        && AnswersResolve(p, w.sidecar, server, spawn, Success(info.value.origin))
  }

  lemma GetServerAnswers(p: Policy, w: World, id: nat, spawn: Spawn)
    ensures AnswersGetServer(p, w, id, spawn, GetServerOutcome(p, w, id, spawn))
  {
    hide Resolve;
    hide AnswersResolve;
    if ServerOf(w.inner, id).Some? {
      ResolveAnswers(p, w, ServerOf(w.inner, id).value, spawn);
    }
  }

  // ---------- bindings ----------

  /** Why a tab is not bound to a server that policy allows, in the order of the checks. */
  predicate AnswersBind(s: Inner, id: nat, server: Server, r: Option<TabsError>) {
    if ShownElsewhere(s, id, server) then r == Some(OpenElsewhere)
    else if !HasTab(s, id) then r == Some(UnknownTab)
    else if ServerOf(s, id) !in {None, Some(server)} then r == Some(AlreadyBound)
    else r == None
  }

  predicate AnswersSetRemote(p: Policy, s: Inner, id: nat, raw: string, r: Result<ServerInfo, SessionError>) {
    match Origin.Normalize(raw)
    case None => r == Failure(InvalidOrigin)
    case Some(origin) =>
      var server := Server(Remote, origin);
      if !Allows(p, server) then RefusedBy(p, server, r)
      else match r
        case Success(info) => AnswersBind(s, id, server, None) && info == ServerInfo(Remote, origin)
        case Failure(e) => e.FromTabs? && AnswersBind(s, id, server, Some(e.error))
  }

  lemma BindAnswers(p: Policy, s: Inner, id: nat, server: Server)
    requires TabsOk(p, s)
    ensures AnswersBind(s, id, server,
                        match Tabs.Bind(s, id, server) case Success(_) => None case Failure(e) => Some(e))
  {
    hide TabsOk;
    TabsAreDistinct(p, s);
    BindRefusals(s, id, server);
    hide Tabs.Bind;
    hide ShownElsewhere;
    hide ServerOf;
    hide HasTab;
  }

  lemma TabsAreDistinct(p: Policy, s: Inner)
    requires TabsOk(p, s)
    ensures DistinctIds(s.tabs) && DistinctServers(s.tabs)
  {
  }

  /** Binding a remote server succeeds exactly for an address, an allowed server, and a
      tab that is unbound or shows it already, when no other tab shows it. */
  lemma SetRemoteAnswers(p: Policy, s: Inner, id: nat, raw: string)
    requires TabsOk(p, s)
    ensures AnswersSetRemote(p, s, id, raw, SetRemoteOutcome(p, s, id, raw))
  {
    hide Origin.Normalize;
    hide AnswersBind;
    hide TabsOk;
    hide Tabs.Bind;
    match Origin.Normalize(raw)
    case None =>
    case Some(origin) => BindAnswers(p, s, id, RemoteServer(origin));
  }

  /** A bound tab whose child does not start is a failure, but of the sidecar only. */
  predicate AnswersSetLocal(p: Policy, w: World, id: nat, spawn: Spawn, r: Result<ServerInfo, SessionError>) {
    if !Allows(p, LOCAL) then RefusedBy(p, LOCAL, r)
    else match r
      case Success(info) =>
        && AnswersBind(w.inner, id, LOCAL, None)
        && info.mode == Local && AnswersOrigin(w.sidecar, spawn, Success(info.origin))
      case Failure(e) =>
        || (e.FromTabs? && AnswersBind(w.inner, id, LOCAL, Some(e.error)))
        || (&& e.FromSidecar? && AnswersBind(w.inner, id, LOCAL, None)
            && AnswersOrigin(w.sidecar, spawn, Failure(e.cause)))
  }

  lemma SetLocalAnswers(p: Policy, w: World, id: nat, spawn: Spawn)
    requires TabsOk(p, w.inner)
    ensures AnswersSetLocal(p, w, id, spawn, SetLocalOutcome(p, w, id, spawn))
  {
    hide AnswersBind;
    hide TabsOk;
    hide Tabs.Bind;
    BindAnswers(p, w.inner, id, LOCAL);
    EnsureIs(w.sidecar, spawn);
    hide AfterEnsure;
  }

  // ---------- sessions ----------

  /** What a webview learns from a reply that was waited for. */
  predicate AnswersReply(reply: Reply, r: Result<Credentials, SessionError>) {
    if !Readable(reply) then r == Failure(Network)
    else if EndsSession(reply) then r == Failure(NoSession)
    else if !IsSession(reply) then r == Failure(Http(reply.status))
    else r == Success(Credentials(reply.data.value.accessToken, reply.data.value.sessionId))
  }

  lemma ReplyAnswers(reply: Reply)
    ensures AnswersReply(reply, Shared(PostSession(reply)))
  {
    HowRepliesAreRead(reply);
    hide PostSession;
    hide Readable;
    hide Rotates;
    hide EndsSession;
    hide IsSession;
    hide IsUnauthorized;
    ReplyKinds(reply);
  }

  lemma ReplyKinds(reply: Reply)
    ensures EndsSession(reply) ==> IsSession(reply)
    ensures IsSession(reply) ==> Readable(reply)
  {
  }

  /** A refresh answers with its reply, when there was a request to reply to. */
  predicate AnswersRefresh(
    p: Policy, w: World, id: nat, spawn: Spawn, reply: Reply, r: Result<Credentials, SessionError>)
  {
    match ServerOf(w.inner, id)
    case None => r == Failure(NoServer)
    case Some(server) =>
      if KeychainKey(server) !in w.keychain then r == Failure(NoSession)
      else if !Allows(p, server) then RefusedBy(p, server, r)
      else if server.mode == Local && w.sidecar.running.None? && spawn.NoChild? then
        r == Failure(FromSidecar(SpawnFailed))
      else if server.mode == Local && w.sidecar.running.None? && spawn.NotReady? then
        r == Failure(FromSidecar(NeverReady))
      else AnswersReply(reply, r)
  }

  lemma RefreshAnswers(p: Policy, w: World, id: nat, spawn: Spawn, reply: Reply)
    ensures AnswersRefresh(p, w, id, spawn, reply, Shared(RefreshOutcome(p, w, id, spawn, reply)))
  {
    hide AnswersReply;
    hide PostSession;
    hide ServerOf;
    hide Resolve;
    ReplyAnswers(reply);
    if ServerOf(w.inner, id).Some? {
      ResolveAnswers(p, w, ServerOf(w.inner, id).value, spawn);
    }
  }

  /** The reply to an exchange must bring a token to store. */
  predicate BringsNoToken(reply: Reply) {
    && IsSession(reply) && !EndsSession(reply)
    && (reply.data.value.refreshToken == None || reply.data.value.refreshToken == Some(""))
  }

  predicate AnswersExchange(granted: bool, spawn: Spawn, reply: Reply, r: Result<Credentials, SessionError>) {
    if !granted && spawn.NoChild? then r == Failure(FromSidecar(SpawnFailed))
    else if !granted && spawn.NotReady? then r == Failure(FromSidecar(NeverReady))
    else if BringsNoToken(reply) then r == Failure(NoRefreshToken)
    else AnswersReply(reply, r)
  }

  lemma NoTokenRotates(reply: Reply)
    ensures IsSession(reply) && !EndsSession(reply) ==>
              (BringsNoToken(reply) <==> forall token :: !Rotates(reply, token))
    ensures BringsNoToken(reply) ==> IsSession(reply) && !EndsSession(reply)
  {
    if IsSession(reply) && !EndsSession(reply) && !BringsNoToken(reply) {
      assert Rotates(reply, reply.data.value.refreshToken.value);
    }
  }

  lemma RotatedIs(reply: Reply)
    requires PostSession(reply).Success?
    ensures BringsNoToken(reply) <==> PostSession(reply).value.rotated.None?
  {
    HowRepliesAreRead(reply);
    NoTokenRotates(reply);
    hide PostSession;
    hide Rotates;
    hide BringsNoToken;
    hide IsSession;
    hide EndsSession;
    var rotated := PostSession(reply).value.rotated;
    if rotated.Some? {
      assert Rotates(reply, rotated.value);
    }
  }

  lemma ExchangeAnswers(sc: Sidecar, spawn: Spawn, reply: Reply)
    ensures AnswersExchange(HasGrant(sc), spawn, reply, Shared(ExchangeOutcome(sc, spawn, reply)))
  {
    TakeIs(sc, spawn);
    ReplyAnswers(reply);
    HowRepliesAreRead(reply);
    NoTokenRotates(reply);
    hide AfterTake;
    hide AnswersReply;
    hide PostSession;
    hide BringsNoToken;
    hide IsSession;
    hide EndsSession;
    hide Rotates;
    if PostSession(reply).Success? {
      RotatedIs(reply);
    }
  }

  /** After the refresh of a sign-in: the child's grant is still there to be taken. */
  predicate KeepsGrant(sc: Sidecar, exits: seq<nat>) {
    if sc.running.Some? then sc.running.value.grant.Some? && sc.running.value.child !in exits
    else sc.spawned !in exits
  }

  lemma {:induction false} ExitsEmptyTheSlot(sc: Sidecar, exits: seq<nat>)
    requires sc.running.Some? ==> sc.running.value.child < sc.spawned
    ensures AfterExits(sc, exits).running ==
            if sc.running.Some? && sc.running.value.child in exits then None else sc.running
    decreases |exits|
  {
    if exits != [] {
      ExitsEmptyTheSlot(Sidecars.Step(sc, ChildExit(exits[0])), exits[1..]);
    }
  }

  lemma GrantAfterRefresh(sc: Sidecar, first: Spawn, exits: seq<nat>)
    requires SidecarOk(sc) && AfterEnsure(sc, first).1.Success?
    ensures HasGrant(AfterExits(AfterEnsure(sc, first).0, exits)) <==> KeepsGrant(sc, exits)
  {
    EnsureIs(sc, first);
    hide AfterEnsure;
    hide AfterExits;
    ExitsEmptyTheSlot(AfterEnsure(sc, first).0, exits);
  }

  /** A local sign-in answers with the refresh of the stored token, or, when there is
      none or it was rejected, with the exchange of a grant. */
  predicate AnswersSignIn(p: Policy, w: World, id: nat, env: SignInWorld, r: Result<Credentials, SessionError>) {
    match ServerOf(w.inner, id)
    case None => r == Failure(NoServer)
    case Some(server) =>
      if server.mode != Local then r == Failure(NotLocal)
      else if !Allows(p, server) then RefusedBy(p, server, r)
      else if "local" !in w.keychain then AnswersExchange(HasGrant(w.sidecar), env.second, env.exchange, r)
      else if w.sidecar.running.None? && env.first.NoChild? then r == Failure(FromSidecar(SpawnFailed))
      else if w.sidecar.running.None? && env.first.NotReady? then r == Failure(FromSidecar(NeverReady))
      else if IsUnauthorized(env.refresh) then
        AnswersExchange(KeepsGrant(w.sidecar, env.exits), env.second, env.exchange, r)
      else AnswersReply(env.refresh, r)
  }

  lemma SignInAnswers(p: Policy, w: World, id: nat, env: SignInWorld)
    requires SidecarOk(w.sidecar)
    ensures AnswersSignIn(p, w, id, env, Shared(SignInOutcome(p, w, id, env)))
  {
    hide AnswersReply;
    hide AnswersExchange;
    hide ExchangeOutcome;
    hide PostSession;
    hide ServerOf;
    hide IsUnauthorized;
    hide SidecarOk;
    hide AfterExits;
    hide HasGrant;
    hide KeepsGrant;
    ReplyAnswers(env.refresh);
    HowRepliesAreRead(env.refresh);
    EnsureIs(w.sidecar, env.first);
    ExchangeAnswers(w.sidecar, env.second, env.exchange);
    hide AfterEnsure;
    hide Rotates;
    hide IsSession;
    hide EndsSession;
    hide Readable;
    if AfterEnsure(w.sidecar, env.first).1.Success? {
      GrantAfterRefresh(w.sidecar, env.first, env.exits);
      ExchangeAnswers(AfterExits(AfterEnsure(w.sidecar, env.first).0, env.exits), env.second, env.exchange);
    }
  }

  /** The credentials are those of this reply: nothing is mixed up on the way. */
  predicate Carries(reply: Reply, credentials: Credentials) {
    && reply.Response? && reply.data.Some?
    && credentials.accessToken == reply.data.value.accessToken
    && credentials.sessionId == reply.data.value.sessionId
  }

  lemma AnsweredCarries(reply: Reply, r: Result<Credentials, SessionError>)
    requires AnswersReply(reply, r) && r.Success?
    ensures Carries(reply, r.value) && r.value.accessToken != ""
  {
  }

  /** Whoever gets credentials gets those of the reply that ended the command. */
  lemma CarriedInRefresh(
    p: Policy, w: World, id: nat, spawn: Spawn, reply: Reply, r: Result<Credentials, SessionError>)
    requires AnswersRefresh(p, w, id, spawn, reply, r) && r.Success?
    ensures Carries(reply, r.value)
  {
  }

  lemma CarriedInExchange(granted: bool, spawn: Spawn, reply: Reply, r: Result<Credentials, SessionError>)
    requires AnswersExchange(granted, spawn, reply, r) && r.Success?
    ensures Carries(reply, r.value)
  {
  }

  lemma CarriedInSignIn(p: Policy, w: World, id: nat, env: SignInWorld, r: Result<Credentials, SessionError>)
    requires AnswersSignIn(p, w, id, env, r) && r.Success?
    ensures var exchanged := "local" !in w.keychain || IsUnauthorized(env.refresh);
            Carries(if exchanged then env.exchange else env.refresh, r.value)
  {
    hide IsUnauthorized;
    hide AnswersReply;
    hide Carries;
    hide BringsNoToken;
    forall reply, answer | AnswersReply(reply, answer) && answer.Success? ensures Carries(reply, answer.value) {
      AnsweredCarries(reply, answer);
    }
  }
}
