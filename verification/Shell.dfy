/** The desktop shell as one state machine (tabs.rs, session.rs, sidecar.rs).
    Every command is a sequence of small operations: a lock section on the tab
    list, a change to the webviews, a keychain or file operation, a sidecar
    command. The sequence is fixed by the state the command starts in and by what
    the outside world answers. */
module Shell {
  import opened Wrappers
  import opened Text
  import opened Servers
  import opened Policies
  import opened Tabs
  import opened Restore
  import opened Sidecars
  import Origin

  /** webviews: the content webviews, by tab id, and whether each is shown.
      tmp: what the file next to tabs.json holds. */
  datatype World = World(
    inner: Inner,
    webviews: map<nat, bool>,
    disk: DiskFile,
    tmp: Option<TabsFile>,
    keychain: map<string, string>,
    sidecar: Sidecar)

  // ---------- operations ----------

  datatype Op =
    | Locked(section: Section)
    | ShowOnly(id: nat)
    | CloseWebviews(ids: set<nat>)
    | WriteTmp
    | RenameTmp
    | PutToken(key: string, token: string)
    | DropToken(key: string)
    | Child(act: Act)

  function OnlyShown(webviews: map<nat, bool>, id: nat): map<nat, bool> {
    map l | l in webviews.Keys + {id} :: l == id
  }

  function Apply(w: World, op: Op): World {
    match op
    case Locked(section) => w.(inner := Tabs.Step(w.inner, section))
    case ShowOnly(id) => w.(webviews := OnlyShown(w.webviews, id))
    case CloseWebviews(ids) => w.(webviews := w.webviews - ids)
    case WriteTmp => w.(tmp := Some(ToFile(w.inner)))
    case RenameTmp => if w.tmp.Some? then w.(disk := Saved(w.tmp.value), tmp := None) else w
    case PutToken(key, token) => w.(keychain := w.keychain[key := token])
    case DropToken(key) => w.(keychain := w.keychain - {key})
    case Child(act) => w.(sidecar := Sidecars.Step(w.sidecar, act))
  }

  function Exec(ops: seq<Op>, w: World): World
    decreases |ops|
  {
    if ops == [] then w else Exec(ops[1..], Apply(w, ops[0]))
  }

  /** The states after each operation. */
  function Trace(ops: seq<Op>, w: World): (trace: seq<World>)
    ensures |trace| == |ops|
    decreases |ops|
  {
    if ops == [] then [] else [Apply(w, ops[0])] + Trace(ops[1..], Apply(w, ops[0]))
  }

  lemma {:induction false} ExecAppend(a: seq<Op>, b: seq<Op>, w: World)
    ensures Exec(a + b, w) == Exec(b, Exec(a, w))
    ensures Trace(a + b, w) == Trace(a, w) + Trace(b, Exec(a, w))
    decreases |a|
  {
    if a == [] {
      assert a + b == b;
    } else {
      assert (a + b)[1..] == a[1..] + b;
      ExecAppend(a[1..], b, Apply(w, a[0]));
    }
  }

  lemma ExecOne(op: Op, w: World)
    ensures Exec([op], w) == Apply(w, op) && Trace([op], w) == [Apply(w, op)]
  {
    hide Apply;
    assert [op][1..] == [];
  }

  // ---------- tab commands ----------

  const PERSIST := [WriteTmp, RenameTmp]

  lemma PersistIs(w: World)
    ensures Exec(PERSIST, w) == w.(disk := Saved(ToFile(w.inner)), tmp := None)
  {
    hide ToFile;
    assert PERSIST[1..] == [RenameTmp] && [RenameTmp][1..] == [];
  }

  function ActivateScript(w: World, id: nat, now: Time): seq<Op> {
    if HasTab(w.inner, id) then [Locked(ActivateTab(id, now)), ShowOnly(id)] + PERSIST else []
  }

  /** Never inserts a second tab for a server. */
  function OpenScript(w: World, server: Option<Server>, now: Time): seq<Op> {
    if server.Some? && IsBound(w.inner, server.value) then
      ActivateScript(w, w.inner.tabs[FindServer(w.inner.tabs, server.value)].id, now)
    else
      var insert := Locked(InsertTab(server, now));
      [insert] + ActivateScript(Apply(w, insert), w.inner.nextId + 1, now)
  }

  function BindScript(w: World, id: nat, server: Server): seq<Op> {
    if Tabs.Bind(w.inner, id, server).Success? then [Locked(BindTab(id, server))] + PERSIST else []
  }

  /** Nothing while a tab shows the server; the child matters to the local one only. */
  function ForgetScript(inner: Inner, server: Server): seq<Op> {
    if IsBound(inner, server) then []
    else [DropToken(KeychainKey(server))] + (if server.mode == Local then [Child(StopAct)] else [])
  }

  function ForgetTaken(inner: Inner, taken: Option<Server>): seq<Op> {
    if taken.Some? then ForgetScript(inner, taken.value) else []
  }

  function UnbindScript(w: World, id: nat): seq<Op> {
    if !HasTab(w.inner, id) then []
    else
      var take := TakeServer(id);
      [Locked(take)] + ForgetTaken(Tabs.Step(w.inner, take), ServerOf(w.inner, id)) + PERSIST
  }

  /** Removing the tab, its webview and its server. */
  function DetachScript(w: World, id: nat): seq<Op> {
    var remove := RemoveTab(id);
    [Locked(remove), CloseWebviews({id})] + ForgetTaken(Tabs.Step(w.inner, remove), ServerOf(w.inner, id))
  }

  /** Detaching, then showing a neighbour or a new empty tab. */
  function CloseScript(w: World, id: nat, now: Time): seq<Op> {
    if !HasTab(w.inner, id) then []
    else
      var detach := DetachScript(w, id);
      var detached := Exec(detach, w);
      detach + match NextActive(w.inner, id)
               case Some(next) => ActivateScript(detached, next, now)
               case None => OpenScript(detached, None, now)
  }

  function MoveScript(w: World, id: nat, index: nat): seq<Op> {
    if HasTab(w.inner, id) then [Locked(MoveTab(id, index))] + PERSIST else []
  }

  /** 30 minutes, in nanoseconds. */
  const DISCARD_AFTER: nat := 30 * 60 * 1_000_000_000

  predicate IsStale(s: Inner, tab: Tab, now: Time) {
    && s.active != Some(tab.id)
    && tab.hiddenSince.Some? && now - tab.hiddenSince.value >= DISCARD_AFTER
  }

  function StaleIds(s: Inner, now: Time): (ids: set<nat>)
    ensures forall id :: id in ids <==>
              exists i :: 0 <= i < |s.tabs| && s.tabs[i].id == id && IsStale(s, s.tabs[i], now)
  {
    set i | 0 <= i < |s.tabs| && IsStale(s, s.tabs[i], now) :: s.tabs[i].id
  }

  function SweepScript(w: World, now: Time): seq<Op> {
    [CloseWebviews(StaleIds(w.inner, now))]
  }

  // ---------- server answers ----------

  datatype RefreshData = RefreshData(accessToken: string, sessionId: string, refreshToken: Option<string>)

  /** What a POST to a session endpoint brings: nothing, or a response with its
      status, body size and the decoded `data`, if the body had one. */
  datatype Reply = NoReply | Response(status: nat, size: nat, data: Option<RefreshData>)

  datatype Refreshed = Refreshed(accessToken: string, sessionId: string, rotated: Option<string>)

  datatype SessionError =
    | NoServer | NoSession | NotLocal | InvalidOrigin | ByPolicy(refusal: Refusal)
    | FromTabs(error: TabsError) | FromSidecar(cause: SidecarError)
    | Network | Http(status: nat) | NoRefreshToken

  const MAX_BODY_BYTES: nat := 256 * 1024

  /** How a reply is classified. */
  function PostSession(reply: Reply): Result<Refreshed, SessionError> {
    match reply
    case NoReply => Failure(Network)
    case Response(status, size, data) =>
      if size > MAX_BODY_BYTES then Failure(Network)
      else if data.None? || !(200 <= status < 300) then Failure(Http(status))
      else if data.value.accessToken == "" then Failure(NoSession)
      else
        var token := data.value.refreshToken;
        Success(Refreshed(data.value.accessToken, data.value.sessionId,
                          if token.Some? && token.value != "" then token else None))
  }

  // ---------- session commands ----------

  function SetRemoteScript(p: Policy, w: World, id: nat, raw: string): seq<Op> {
    match Origin.Normalize(raw)
    case None => []
    case Some(origin) =>
      if Allows(p, RemoteServer(origin)) then BindScript(w, id, RemoteServer(origin)) else []
  }

  function SetLocalScript(p: Policy, w: World, id: nat, spawn: Spawn): seq<Op> {
    if Allows(p, LOCAL) && Tabs.Bind(w.inner, id, LOCAL).Success?
    then BindScript(w, id, LOCAL) + [Child(Ensure(spawn))]
    else []
  }

  /** Only an allowed local server needs an operation. */
  function ResolveScript(p: Policy, server: Server, spawn: Spawn): seq<Op> {
    if Allows(p, server) && server.mode == Local then [Child(Ensure(spawn))] else []
  }

  function Resolve(p: Policy, w: World, server: Server, spawn: Spawn): Result<string, SessionError> {
    match Check(p, server)
    case Some(refusal) => Failure(ByPolicy(refusal))
    case None =>
      match server.mode
      case Remote => Success(server.origin)
      case Local =>
        match AfterEnsure(w.sidecar, spawn).1
        case Success(origin) => Success(origin)
        case Failure(e) => Failure(FromSidecar(e))
  }

  function GetServerScript(p: Policy, w: World, id: nat, spawn: Spawn): seq<Op> {
    match ServerOf(w.inner, id)
    case None => []
    case Some(server) => ResolveScript(p, server, spawn)
  }

  function StoreScript(w: World, id: nat, token: string): seq<Op> {
    match ServerOf(w.inner, id)
    case None => []
    case Some(server) =>
      var trimmed := Trim(token, IsWhiteSpace);
      if trimmed == "" then [DropToken(KeychainKey(server))]
      else [PutToken(KeychainKey(server), trimmed)]
  }

  function ClearScript(w: World, id: nat): seq<Op> {
    match ServerOf(w.inner, id)
    case None => []
    case Some(server) => [DropToken(KeychainKey(server))]
  }

  function PutRotated(key: string, rotated: Option<string>): seq<Op> {
    if rotated.Some? then [PutToken(key, rotated.value)] else []
  }

  function RefreshEffect(key: string, reply: Reply): seq<Op> {
    match PostSession(reply)
    case Success(refreshed) => PutRotated(key, refreshed.rotated)
    case Failure(e) => if e == Http(401) || e == NoSession then [DropToken(key)] else []
  }

  function RefreshScript(p: Policy, w: World, id: nat, spawn: Spawn, reply: Reply): seq<Op> {
    match ServerOf(w.inner, id)
    case None => []
    case Some(server) =>
      if KeychainKey(server) !in w.keychain then []
      else ResolveScript(p, server, spawn)
           + (if Resolve(p, w, server, spawn).Success? then RefreshEffect(KeychainKey(server), reply) else [])
  }

  function RefreshOutcome(p: Policy, w: World, id: nat, spawn: Spawn, reply: Reply): Result<Refreshed, SessionError> {
    match ServerOf(w.inner, id)
    case None => Failure(NoServer)
    case Some(server) =>
      if KeychainKey(server) !in w.keychain then Failure(NoSession)
      else
        match Resolve(p, w, server, spawn)
        case Failure(e) => Failure(e)
        case Success(_) => PostSession(reply)
  }

  /** Redeeming the sidecar's grant for a session. */
  function ExchangeScript(sc: Sidecar, spawn: Spawn, reply: Reply): seq<Op> {
    [Child(Take(spawn))]
    + (if AfterTake(sc, spawn).1.Success? then
         match PostSession(reply)
         case Success(refreshed) => PutRotated("local", refreshed.rotated)
         case Failure(_) => []
       else [])
  }

  function ExchangeOutcome(sc: Sidecar, spawn: Spawn, reply: Reply): Result<Refreshed, SessionError> {
    match AfterTake(sc, spawn).1
    case Failure(e) => Failure(FromSidecar(e))
    case Success(_) =>
      match PostSession(reply)
      case Failure(e) => Failure(e)
      case Success(refreshed) => if refreshed.rotated.None? then Failure(NoRefreshToken) else Success(refreshed)
  }

  /** Exits of these children, one after the other. */
  function Exits(children: seq<nat>): seq<Op> {
    if children == [] then [] else [Child(ChildExit(children[0]))] + Exits(children[1..])
  }

  function AfterExits(sc: Sidecar, children: seq<nat>): Sidecar
    decreases |children|
  {
    if children == [] then sc else AfterExits(Sidecars.Step(sc, ChildExit(children[0])), children[1..])
  }

  lemma {:induction false} ExitsAre(children: seq<nat>, w: World)
    ensures Exec(Exits(children), w) == w.(sidecar := AfterExits(w.sidecar, children))
    decreases |children|
  {
    hide Sidecars.Step;
    if children != [] {
      ExitsAre(children[1..], Apply(w, Child(ChildExit(children[0]))));
    }
  }

  lemma {:induction false} OnlyExits(children: seq<nat>)
    ensures forall i :: 0 <= i < |Exits(children)| ==> Exits(children)[i].Child? && Exits(children)[i].act.ChildExit?
  {
    if children != [] {
      OnlyExits(children[1..]);
    }
  }

  /** What the outside answers to a local sign-in: the child for the refresh, the
      children that exit while it is under way and its reply, then the child for
      the grant and the reply to the exchange. */
  datatype SignInWorld = SignInWorld(first: Spawn, exits: seq<nat>, refresh: Reply, second: Spawn, exchange: Reply)

  /** A stored token is refreshed first; only a rejected one is replaced through
      a grant. */
  function SignInScript(p: Policy, w: World, id: nat, env: SignInWorld): seq<Op> {
    match ServerOf(w.inner, id)
    case None => []
    case Some(server) =>
      if server.mode != Local || !Allows(p, server) then []
      else if "local" !in w.keychain then ExchangeScript(w.sidecar, env.second, env.exchange)
      else
        var (sidecar, origin) := AfterEnsure(w.sidecar, env.first);
        [Child(Ensure(env.first))]
        + (if origin.Failure? then []
           else
             Exits(env.exits)
             + match PostSession(env.refresh)
               case Success(refreshed) => PutRotated("local", refreshed.rotated)
               case Failure(e) =>
                 if e == Http(401) then
                   [DropToken("local")] + ExchangeScript(AfterExits(sidecar, env.exits), env.second, env.exchange)
                 else [])
  }

  function SignInOutcome(p: Policy, w: World, id: nat, env: SignInWorld): Result<Refreshed, SessionError> {
    match ServerOf(w.inner, id)
    case None => Failure(NoServer)
    case Some(server) =>
      if server.mode != Local then Failure(NotLocal)
      else
        match Check(p, server)
        case Some(refusal) => Failure(ByPolicy(refusal))
        case None =>
          if "local" !in w.keychain then ExchangeOutcome(w.sidecar, env.second, env.exchange)
          else
            match AfterEnsure(w.sidecar, env.first)
            case (_, Failure(e)) => Failure(FromSidecar(e))
            case (sidecar, Success(_)) =>
              match PostSession(env.refresh)
              case Success(refreshed) => Success(refreshed)
              case Failure(e) =>
                if e == Http(401) then ExchangeOutcome(AfterExits(sidecar, env.exits), env.second, env.exchange)
                else Failure(e)
  }

  // ---------- commands and sessions ----------

  datatype Command =
    | OpenTab(server: Option<Server>, now: Time)
    | ActivateId(id: nat, now: Time)
    | CloseTab(id: nat, now: Time)
    | MoveId(id: nat, index: nat)
    | Sweep(now: Time)
    | SetRemote(id: nat, raw: string)
    | SetLocal(id: nat, spawn: Spawn)
    | Leave(id: nat)
    | GetServer(id: nat, spawn: Spawn)
    | Store(id: nat, token: string)
    | Clear(id: nat)
    | Refresh(id: nat, spawn: Spawn, reply: Reply)
    | SignIn(id: nat, env: SignInWorld)
    | ChildGone(child: nat)

  function Script(p: Policy, w: World, c: Command): seq<Op> {
    match c
    case OpenTab(server, now) => OpenScript(w, server, now)
    case ActivateId(id, now) => ActivateScript(w, id, now)
    case CloseTab(id, now) => CloseScript(w, id, now)
    case MoveId(id, index) => MoveScript(w, id, index)
    case Sweep(now) => SweepScript(w, now)
    case SetRemote(id, raw) => SetRemoteScript(p, w, id, raw)
    case SetLocal(id, spawn) => SetLocalScript(p, w, id, spawn)
    case Leave(id) => UnbindScript(w, id)
    case GetServer(id, spawn) => GetServerScript(p, w, id, spawn)
    case Store(id, token) => StoreScript(w, id, token)
    case Clear(id) => ClearScript(w, id)
    case Refresh(id, spawn, reply) => RefreshScript(p, w, id, spawn, reply)
    case SignIn(id, env) => SignInScript(p, w, id, env)
    case ChildGone(child) => [Child(ChildExit(child))]
  }

  function Do(p: Policy, w: World, c: Command): World {
    Exec(Script(p, w, c), w)
  }

  /** A new process over what the last one left on disk and in the keychain. */
  function Booted(w: World): World {
    World(EMPTY, map[], w.disk, w.tmp, w.keychain, IDLE)
  }

  function DropAll(servers: seq<Server>): seq<Op> {
    if servers == [] then [] else [DropToken(KeychainKey(servers[0]))] + DropAll(servers[1..])
  }

  function InsertEach(servers: seq<Server>, now: Time): seq<Op> {
    if servers == [] then [] else [Locked(InsertTab(Some(servers[0]), now))] + InsertEach(servers[1..], now)
  }

  /** Start-up: forget what policy blocks, restore the rest, activate one tab. */
  function InitScript(p: Policy, w: World, now: Time): seq<Op> {
    var file := ReadFile(p, w.disk);
    var forget := DropAll(Forgotten(p, w.disk));
    var forgotten := Exec(forget, w);
    if file.servers == [] then forget + OpenScript(forgotten, None, now)
    else
      var restore := forget + InsertEach(file.servers, now);
      restore + ActivateScript(Exec(restore, w), Min(file.active, |file.servers| - 1) + 1, now)
  }

  /** A command as it really runs: after each of its operations the event loops of
      some children may report their exits. */
  datatype Turn = Turn(command: Command, gaps: seq<seq<nat>>)

  function Weave(script: seq<Op>, gaps: seq<seq<nat>>): seq<Op>
    decreases |script|
  {
    if script == [] || gaps == [] then script
    else [script[0]] + Exits(gaps[0]) + Weave(script[1..], gaps[1..])
  }

  function TurnOps(p: Policy, w: World, t: Turn): seq<Op> {
    Weave(Script(p, w, t.command), t.gaps)
  }

  function AfterTurn(p: Policy, w: World, t: Turn): World {
    Exec(TurnOps(p, w, t), w)
  }

  function RunOps(p: Policy, w: World, turns: seq<Turn>): seq<Op>
    decreases |turns|
  {
    if turns == [] then [] else TurnOps(p, w, turns[0]) + RunOps(p, AfterTurn(p, w, turns[0]), turns[1..])
  }

  function AfterTurns(p: Policy, w: World, turns: seq<Turn>): World
    decreases |turns|
  {
    if turns == [] then w else AfterTurns(p, AfterTurn(p, w, turns[0]), turns[1..])
  }

  function Launched(p: Policy, w: World, now: Time): World {
    Exec(InitScript(p, Booted(w), now), Booted(w))
  }

  /** Everything one process does: start-up, then its commands. */
  function SessionOps(p: Policy, w: World, now: Time, turns: seq<Turn>): seq<Op> {
    InitScript(p, Booted(w), now) + RunOps(p, Launched(p, w, now), turns)
  }
}
