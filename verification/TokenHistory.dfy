/** The keychain as a record of what the servers answered (session.rs): the token
    stored for a server is the last one accepted for it and not dropped since. */
module TokenHistory {
  import opened Wrappers
  import opened Text
  import opened Servers
  import opened Policies
  import opened Tabs
  import opened Sidecars
  import opened Shell
  import opened Invariants
  import opened Commands
  import opened Turns
  import Origin

  // ---------- what happened, and what it means for a credential ----------

  /** What an onlooker sees of a credential: a token handed over at login, a
      sign-out, a server left for good, a reply to a request. */
  datatype Event =
    | LoggedIn(server: Server, token: string)
    | SignedOut(server: Server)
    | Left(server: Server)
    | Refused(server: Server)
    | RefreshReply(server: Server, reply: Reply)
    | SignInRefreshReply(reply: Reply)
    | ExchangeReply(reply: Reply)

  function Account(event: Event): string {
    if event.SignInRefreshReply? || event.ExchangeReply? then KeychainKey(LOCAL) else KeychainKey(event.server)
  }

  /** A body of at most 256 KiB. */
  predicate Readable(reply: Reply) {
    reply.Response? && reply.size <= 262_144
  }

  /** A 2xx answer with data. */
  predicate IsSession(reply: Reply) {
    Readable(reply) && 200 <= reply.status <= 299 && reply.data.Some?
  }

  /** The replacement token of a usable session. */
  predicate Rotates(reply: Reply, token: string) {
    && IsSession(reply) && reply.data.value.accessToken != ""
    && reply.data.value.refreshToken == Some(token) && token != ""
  }

  predicate IsUnauthorized(reply: Reply) {
    Readable(reply) && reply.status == 401
  }

  predicate EndsSession(reply: Reply) {
    IsSession(reply) && reply.data.value.accessToken == ""
  }

  predicate IsBlankToken(token: string) {
    forall i :: 0 <= i < |token| ==> IsWhiteSpace(token[i])
  }

  /** The event makes this the stored token of the account. */
  predicate Accepts(event: Event, key: string, token: string) {
    && Account(event) == key
    && match event
       case LoggedIn(_, handed) => !IsBlankToken(handed) && token == Trim(handed, IsWhiteSpace)
       case RefreshReply(_, reply) => Rotates(reply, token)
       case SignInRefreshReply(reply) => Rotates(reply, token)
       case ExchangeReply(reply) => Rotates(reply, token)
       case _ => false
  }

  /** The event ends the stored credential of the account. */
  predicate Drops(event: Event, key: string) {
    && Account(event) == key
    && match event
       case LoggedIn(_, handed) => IsBlankToken(handed)
       case RefreshReply(_, reply) => IsUnauthorized(reply) || EndsSession(reply)
       case SignInRefreshReply(reply) => IsUnauthorized(reply)
       case ExchangeReply(_) => false
       case _ => true
  }

  ghost predicate Keeps(event: Event, key: string) {
    !Drops(event, key) && forall token :: !Accepts(event, key, token)
  }

  /** The last token accepted since `start` and not dropped after. */
  ghost predicate Stands(events: seq<Event>, key: string, start: Option<string>, token: string) {
    || (start == Some(token) && forall j :: 0 <= j < |events| ==> Keeps(events[j], key))
    || (exists i :: LastAccepted(events, key, token, i))
  }

  ghost predicate LastAccepted(events: seq<Event>, key: string, token: string, i: nat) {
    i < |events| && Accepts(events[i], key, token) && forall j :: i < j < |events| ==> Keeps(events[j], key)
  }

  // ---------- what each command lets an onlooker see ----------

  function ExchangeEvents(sc: Sidecar, spawn: Spawn, reply: Reply): seq<Event> {
    if AfterTake(sc, spawn).1.Success? then [ExchangeReply(reply)] else []
  }

  /** A request is sent only with a stored token, an allowed server and, in local
      mode, a running child. */
  function RefreshEvents(p: Policy, w: World, server: Server, spawn: Spawn, reply: Reply): seq<Event> {
    if KeychainKey(server) in w.keychain && Resolve(p, w, server, spawn).Success?
    then [RefreshReply(server, reply)] else []
  }

  function SignInEvents(p: Policy, w: World, server: Server, env: SignInWorld): seq<Event> {
    if server.mode != Local || !Allows(p, server) then []
    else if "local" !in w.keychain then ExchangeEvents(w.sidecar, env.second, env.exchange)
    else
      var (sidecar, origin) := AfterEnsure(w.sidecar, env.first);
      if origin.Failure? then []
      else [SignInRefreshReply(env.refresh)]
           + if IsUnauthorized(env.refresh) then
               ExchangeEvents(AfterExits(sidecar, env.exits), env.second, env.exchange)
             else []
  }

  function TabOf(c: Command): Option<nat> {
    if c.OpenTab? || c.Sweep? || c.ChildGone? then None else Some(c.id)
  }

  /** Only the calling tab's server can be concerned. */
  function Observed(p: Policy, w: World, c: Command): seq<Event> {
    if TabOf(c).None? || ServerOf(w.inner, TabOf(c).value).None? then []
    else
      var server := ServerOf(w.inner, TabOf(c).value).value;
      match c
      case CloseTab(_, _) => [Left(server)]
      case Leave(_) => [Left(server)]
      case Store(_, token) => [LoggedIn(server, token)]
      case Clear(_) => [SignedOut(server)]
      case Refresh(_, spawn, reply) => RefreshEvents(p, w, server, spawn, reply)
      case SignIn(_, env) => SignInEvents(p, w, server, env)
      case _ => []
  }

  function History(p: Policy, w: World, turns: seq<Turn>): seq<Event>
    decreases |turns|
  {
    if turns == [] then []
    else Observed(p, w, turns[0].command) + History(p, AfterTurn(p, w, turns[0]), turns[1..])
  }

  function TokenOf(w: World, key: string): Option<string> {
    if key in w.keychain then Some(w.keychain[key]) else None
  }

  // ---------- composing histories ----------

  ghost predicate Agrees(events: seq<Event>, key: string, before: Option<string>, after: Option<string>) {
    forall token :: after == Some(token) <==> Stands(events, key, before, token)
  }

  lemma NothingHappened(key: string, value: Option<string>)
    ensures Agrees([], key, value, value)
  {
  }

  lemma OneEvent(event: Event, key: string, before: Option<string>, after: Option<string>)
    requires forall token :: Accepts(event, key, token) ==> after == Some(token)
    requires Drops(event, key) ==> after == None
    requires Keeps(event, key) ==> after == before
    ensures Agrees([event], key, before, after)
  {
    hide Accepts;
    hide Drops;
    forall token ensures after == Some(token) <==> Stands([event], key, before, token) {
      if Accepts(event, key, token) {
        assert LastAccepted([event], key, token, 0);
      }
      AcceptedIsNotDropped(event, key);
      if !Keeps(event, key) && !Drops(event, key) {
        var other :| Accepts(event, key, other);
      }
    }
  }

  lemma AcceptedIsNotDropped(event: Event, key: string)
    ensures Drops(event, key) ==> forall token :: !Accepts(event, key, token)
  {
  }

  lemma LaterStands(a: seq<Event>, b: seq<Event>, key: string,
                    start: Option<string>, middle: Option<string>, token: string)
    requires Agrees(a, key, start, middle)
    ensures Stands(a + b, key, start, token) <==> Stands(b, key, middle, token)
  {
    hide Keeps;
    hide Accepts;
    var all := a + b;
    assert forall j :: 0 <= j < |b| ==> all[|a| + j] == b[j];
    assert forall j :: 0 <= j < |a| ==> all[j] == a[j];
    if i: nat :| LastAccepted(b, key, token, i) {
      assert LastAccepted(all, key, token, |a| + i);
    }
    if middle == Some(token) && forall j :: 0 <= j < |b| ==> Keeps(b[j], key) {
      assert Stands(a, key, start, token);
      if i: nat :| LastAccepted(a, key, token, i) {
        assert LastAccepted(all, key, token, i);
      }
    }
    if i: nat :| LastAccepted(all, key, token, i) {
      if i < |a| {
        assert LastAccepted(a, key, token, i);
      } else {
        assert LastAccepted(b, key, token, i - |a|);
      }
    }
    if start == Some(token) && forall j :: 0 <= j < |all| ==> Keeps(all[j], key) {
      assert Stands(a, key, start, token);
    }
  }

  lemma Concatenated(a: seq<Event>, b: seq<Event>, key: string,
                     start: Option<string>, middle: Option<string>, end: Option<string>)
    requires Agrees(a, key, start, middle) && Agrees(b, key, middle, end)
    ensures Agrees(a + b, key, start, end)
  {
    hide Stands;
    forall token ensures end == Some(token) <==> Stands(a + b, key, start, token) {
      LaterStands(a, b, key, start, middle, token);
    }
  }

  // ---------- one command ----------

  lemma {:induction false} WithoutTokenOps(ops: seq<Op>, w: World)
    requires forall i :: 0 <= i < |ops| ==> !ops[i].PutToken? && !ops[i].DropToken?
    ensures Exec(ops, w).keychain == w.keychain
    decreases |ops|
  {
    hide Tabs.Step;
    hide Sidecars.Step;
    if ops != [] {
      WithoutTokenOps(ops[1..], Apply(w, ops[0]));
    }
  }

  lemma {:induction false} BlankIsTrimmed(token: string)
    ensures Trim(token, IsWhiteSpace) == "" <==> IsBlankToken(token)
  {
    hide IsWhiteSpace;
    if token != "" {
      if IsWhiteSpace(token[0]) {
        BlankIsTrimmed(token[1..]);
        assert IsBlankToken(token) <==> IsBlankToken(token[1..]) by {
          assert forall i :: 1 <= i < |token| ==> token[i] == token[1..][i - 1];
        }
      } else {
        KeptStart(token);
      }
    }
  }

  lemma {:induction false} KeptStart(s: string)
    requires s != "" && !IsWhiteSpace(s[0])
    ensures TrimEnd(s, IsWhiteSpace) != ""
  {
    hide IsWhiteSpace;
    if IsWhiteSpace(s[|s| - 1]) {
      KeptStart(s[..|s| - 1]);
    }
  }

  /** How every reply is classified: a session, a session without an access
      token, a network failure, or a failure with its status. */
  lemma HowRepliesAreRead(reply: Reply)
    ensures PostSession(reply).Success? <==> IsSession(reply) && !EndsSession(reply)
    ensures PostSession(reply).Success? ==>
              var refreshed := PostSession(reply).value;
              && refreshed.accessToken == reply.data.value.accessToken
              && refreshed.sessionId == reply.data.value.sessionId
              && forall token :: Rotates(reply, token) <==> refreshed.rotated == Some(token)
    ensures PostSession(reply).Failure? ==>
              var e := PostSession(reply).error;
              && (e == NoSession <==> EndsSession(reply))
              && (e == Network <==> !Readable(reply))
              && (Readable(reply) && !EndsSession(reply) ==> e == Http(reply.status))
              && (e == Http(401) <==> IsUnauthorized(reply))
              && forall token :: !Rotates(reply, token)
    ensures IsUnauthorized(reply) || EndsSession(reply) ==> PostSession(reply).Failure?
  {
  }

  ghost predicate Follows(p: Policy, w: World, c: Command, key: string) {
    Agrees(Observed(p, w, c), key, TokenOf(w, key), TokenOf(Do(p, w, c), key))
  }

  lemma PutIs(w: World, account: string, rotated: Option<string>, key: string)
    ensures TokenOf(Exec(PutRotated(account, rotated), w), key) ==
            if rotated.Some? && key == account then rotated else TokenOf(w, key)
  {
    if rotated.Some? {
      ExecOne(PutToken(account, rotated.value), w);
    }
  }

  lemma DropIs(w: World, account: string, key: string)
    ensures TokenOf(Exec([DropToken(account)], w), key) == if key == account then None else TokenOf(w, key)
  {
    ExecOne(DropToken(account), w);
  }

  lemma ServerLeft(w: World, server: Server, after: World, key: string)
    requires SameCredentials(after, WithoutServer(w, Some(server)))
    ensures Agrees([Left(server)], key, TokenOf(w, key), TokenOf(after, key))
  {
    OneEvent(Left(server), key, TokenOf(w, key), TokenOf(after, key));
  }

  lemma StoreFollows(p: Policy, w: World, id: nat, token: string, key: string)
    ensures Follows(p, w, Store(id, token), key)
  {
    hide IsWhiteSpace;
    hide Trim;
    hide Agrees;
    var after := Do(p, w, Store(id, token));
    match ServerOf(w.inner, id)
    case None => NothingHappened(key, TokenOf(w, key));
    case Some(server) =>
      var event, account := LoggedIn(server, token), KeychainKey(server);
      BlankIsTrimmed(token);
      hide IsBlankToken;
      hide ServerOf;
      if IsBlankToken(token) {
        DropIs(w, account, key);
      } else {
        PutIs(w, account, Some(Trim(token, IsWhiteSpace)), key);
        assert key == account ==> Accepts(event, key, Trim(token, IsWhiteSpace));
      }
      hide Exec;
      OneEvent(LoggedIn(server, token), key, TokenOf(w, key), TokenOf(after, key));
  }

  lemma ClearFollows(p: Policy, w: World, id: nat, key: string)
    ensures Follows(p, w, Clear(id), key)
  {
    hide Agrees;
    match ServerOf(w.inner, id)
    case None => NothingHappened(key, TokenOf(w, key));
    case Some(server) =>
      hide ServerOf;
      DropIs(w, KeychainKey(server), key);
      hide Exec;
      OneEvent(SignedOut(server), key, TokenOf(w, key), TokenOf(Do(p, w, Clear(id)), key));
  }

  /** What a refresh does once its reply is there. */
  lemma RefreshEffectFollows(w: World, server: Server, reply: Reply, key: string)
    ensures Agrees([RefreshReply(server, reply)], key, TokenOf(w, key),
                   TokenOf(Exec(RefreshEffect(KeychainKey(server), reply), w), key))
  {
    hide Agrees;
    HowRepliesAreRead(reply);
    hide PostSession;
    hide Rotates;
    hide IsUnauthorized;
    hide EndsSession;
    var event, account := RefreshReply(server, reply), KeychainKey(server);
    DropIs(w, account, key);
    if PostSession(reply).Success? {
      var rotated := PostSession(reply).value.rotated;
      PutIs(w, account, rotated, key);
      assert rotated.Some? && key == account ==> Accepts(event, key, rotated.value);
    }
    hide PutRotated;
    assert Exec([], w) == w;
    hide Exec;
    OneEvent(RefreshReply(server, reply), key, TokenOf(w, key),
             TokenOf(Exec(RefreshEffect(KeychainKey(server), reply), w), key));
  }

  lemma RefreshFollows(p: Policy, w: World, id: nat, spawn: Spawn, reply: Reply, key: string)
    ensures Follows(p, w, Refresh(id, spawn, reply), key)
  {
    hide Agrees;
    hide Allows;
    hide RefreshEffect;
    hide Resolve;
    var c := Refresh(id, spawn, reply);
    match ServerOf(w.inner, id)
    case None => NothingHappened(key, TokenOf(w, key));
    case Some(server) =>
      hide ServerOf;
      if KeychainKey(server) !in w.keychain {
        NothingHappened(key, TokenOf(w, key));
      } else {
        var resolve := ResolveScript(p, server, spawn);
        WithoutTokenOps(resolve, w);
        var resolved := Exec(resolve, w);
        assert TokenOf(resolved, key) == TokenOf(w, key);
        if Resolve(p, w, server, spawn).Success? {
          RefreshEffectFollows(resolved, server, reply, key);
          ExecAppend(resolve, RefreshEffect(KeychainKey(server), reply), w);
        } else {
          ExecAppend(resolve, [], w);
          NothingHappened(key, TokenOf(w, key));
        }
      }
  }

  /** Storing the token that came with a usable session, or nothing. */
  function PutSession(reply: Reply): seq<Op> {
    match PostSession(reply)
    case Success(refreshed) => PutRotated("local", refreshed.rotated)
    case Failure(_) => []
  }

  lemma PutSessionIs(w: World, reply: Reply, key: string)
    ensures var after := TokenOf(Exec(PutSession(reply), w), key);
            && (forall token :: Rotates(reply, token) && key == "local" ==> after == Some(token))
            && ((forall token :: !Rotates(reply, token)) || key != "local" ==> after == TokenOf(w, key))
  {
    HowRepliesAreRead(reply);
    hide PostSession;
    hide Rotates;
    if PostSession(reply).Success? {
      PutIs(w, "local", PostSession(reply).value.rotated, key);
    }
  }

  lemma ExchangeReplyFollows(w: World, reply: Reply, key: string)
    ensures Agrees([ExchangeReply(reply)], key, TokenOf(w, key), TokenOf(Exec(PutSession(reply), w), key))
  {
    hide Agrees;
    hide PutSession;
    PutSessionIs(w, reply, key);
    hide Exec;
    hide Rotates;
    var event := ExchangeReply(reply);
    if Keeps(event, key) && key == "local" {
      forall token ensures !Rotates(reply, token) {
        assert !Accepts(event, key, token);
      }
    }
    OneEvent(event, key, TokenOf(w, key), TokenOf(Exec(PutSession(reply), w), key));
  }

  lemma ExchangeFollows(w: World, spawn: Spawn, reply: Reply, key: string)
    ensures Agrees(ExchangeEvents(w.sidecar, spawn, reply), key, TokenOf(w, key),
                   TokenOf(Exec(ExchangeScript(w.sidecar, spawn, reply), w), key))
  {
    hide Agrees;
    hide AfterTake;
    hide PostSession;
    hide PutRotated;
    var take, put := [Child(Take(spawn))], PutSession(reply);
    WithoutTokenOps(take, w);
    var taken := Exec(take, w);
    NothingHappened(key, TokenOf(w, key));
    ExchangeReplyFollows(taken, reply, key);
    ExecAppend(take, put, w);
    ExecAppend(take, [], w);
    hide Exec;
  }

  /** The refresh of a sign-in, once the child runs: a rejected token is replaced
      through a grant, any other failure leaves it. */
  function SignInEffect(sc: Sidecar, env: SignInWorld): seq<Op> {
    if IsUnauthorized(env.refresh) then [DropToken("local")] + ExchangeScript(sc, env.second, env.exchange)
    else PutSession(env.refresh)
  }

  lemma SignInReplyFollows(w: World, reply: Reply, key: string)
    ensures Agrees([SignInRefreshReply(reply)], key, TokenOf(w, key),
                   TokenOf(Exec(if IsUnauthorized(reply) then [DropToken("local")] else PutSession(reply), w), key))
  {
    hide Agrees;
    hide PutSession;
    PutSessionIs(w, reply, key);
    DropIs(w, "local", key);
    HowRepliesAreRead(reply);
    hide Exec;
    hide Rotates;
    hide IsUnauthorized;
    var event := SignInRefreshReply(reply);
    if Keeps(event, key) && key == "local" {
      forall token ensures !Rotates(reply, token) {
        assert !Accepts(event, key, token);
      }
    }
    OneEvent(event, key, TokenOf(w, key),
             TokenOf(Exec(if IsUnauthorized(reply) then [DropToken("local")] else PutSession(reply), w), key));
  }

  lemma SignInEffectFollows(w: World, env: SignInWorld, key: string)
    ensures Agrees([SignInRefreshReply(env.refresh)]
                   + (if IsUnauthorized(env.refresh) then ExchangeEvents(w.sidecar, env.second, env.exchange) else []),
                   key, TokenOf(w, key), TokenOf(Exec(SignInEffect(w.sidecar, env), w), key))
  {
    hide Agrees;
    hide PutSession;
    hide ExchangeScript;
    hide ExchangeEvents;
    hide IsUnauthorized;
    SignInReplyFollows(w, env.refresh, key);
    var first := [SignInRefreshReply(env.refresh)];
    if IsUnauthorized(env.refresh) {
      var drop := [DropToken("local")];
      ExecOne(DropToken("local"), w);
      var dropped := Exec(drop, w);
      ExchangeFollows(dropped, env.second, env.exchange, key);
      ExecAppend(drop, ExchangeScript(w.sidecar, env.second, env.exchange), w);
      hide Exec;
      Concatenated(first, ExchangeEvents(w.sidecar, env.second, env.exchange), key,
                   TokenOf(w, key), TokenOf(dropped, key), TokenOf(Exec(SignInEffect(w.sidecar, env), w), key));
    } else {
      assert first + [] == first;
    }
  }

  lemma SignInScriptIs(p: Policy, w: World, id: nat, env: SignInWorld)
    requires ServerOf(w.inner, id).Some? && ServerOf(w.inner, id).value.mode == Local
    requires Allows(p, ServerOf(w.inner, id).value) && "local" in w.keychain
    ensures var sidecar := AfterExits(AfterEnsure(w.sidecar, env.first).0, env.exits);
            SignInScript(p, w, id, env) ==
            [Child(Ensure(env.first))]
            + if AfterEnsure(w.sidecar, env.first).1.Failure? then []
              else Exits(env.exits) + SignInEffect(sidecar, env)
  {
    HowRepliesAreRead(env.refresh);
    hide PostSession;
    hide AfterEnsure;
    hide AfterExits;
    hide Exits;
    hide ExchangeScript;
    hide IsUnauthorized;
    hide Allows;
  }

  /** The child runs: what is left of a sign-in with a stored token. */
  lemma SignInRestFollows(w: World, env: SignInWorld, key: string)
    ensures var sidecar := AfterExits(w.sidecar, env.exits);
            Agrees([SignInRefreshReply(env.refresh)]
                   + (if IsUnauthorized(env.refresh) then ExchangeEvents(sidecar, env.second, env.exchange) else []),
                   key, TokenOf(w, key), TokenOf(Exec(Exits(env.exits) + SignInEffect(sidecar, env), w), key))
  {
    hide Agrees;
    hide SignInEffect;
    hide ExchangeEvents;
    hide IsUnauthorized;
    hide AfterExits;
    ExitsAre(env.exits, w);
    var later := Exec(Exits(env.exits), w);
    SignInEffectFollows(later, env, key);
    ExecAppend(Exits(env.exits), SignInEffect(later.sidecar, env), w);
    hide Exec;
  }

  lemma SignInFollows(p: Policy, w: World, id: nat, env: SignInWorld, key: string)
    ensures Follows(p, w, SignIn(id, env), key)
  {
    hide Agrees;
    hide AfterEnsure;
    hide AfterExits;
    hide Exits;
    hide SignInEffect;
    hide ExchangeEvents;
    hide ExchangeScript;
    hide IsUnauthorized;
    hide Allows;
    NothingHappened(key, TokenOf(w, key));
    if ServerOf(w.inner, id).Some? {
      var server := ServerOf(w.inner, id).value;
      if server.mode == Local && Allows(p, server) {
        if "local" !in w.keychain {
          ExchangeFollows(w, env.second, env.exchange, key);
        } else {
          SignInScriptIs(p, w, id, env);
          hide SignInScript;
          var ensure := [Child(Ensure(env.first))];
          ExecOne(Child(Ensure(env.first)), w);
          var started := Exec(ensure, w);
          SignInRestFollows(started, env, key);
          ExecAppend(ensure, Exits(env.exits) + SignInEffect(AfterExits(started.sidecar, env.exits), env), w);
          ExecAppend(ensure, [], w);
          hide Exec;
        }
      }
    }
  }

  // ---------- every command ----------

  /** The commands that have nothing to do with credentials. */
  predicate IsNeutral(c: Command) {
    c.MoveId? || c.Sweep? || c.SetRemote? || c.SetLocal? || c.GetServer? || c.ChildGone?
  }

  lemma NeutralScript(p: Policy, w: World, c: Command)
    requires IsNeutral(c)
    ensures var ops := Script(p, w, c); forall i :: 0 <= i < |ops| ==> !ops[i].PutToken? && !ops[i].DropToken?
  {
    hide Origin.Normalize;
    hide Allows;
    hide Tabs.Bind;
    hide HasTab;
    hide ServerOf;
    hide StaleIds;
  }

  lemma OtherFollows(p: Policy, w: World, c: Command, key: string)
    requires IsNeutral(c)
    ensures Follows(p, w, c, key)
  {
    hide Agrees;
    NeutralScript(p, w, c);
    hide Script;
    WithoutTokenOps(Script(p, w, c), w);
    hide ServerOf;
    NothingHappened(key, TokenOf(w, key));
  }

  lemma TabFollows(p: Policy, w: World, c: Command, key: string)
    requires Inv(p, w) && Legal(p, c) && (c.OpenTab? || c.ActivateId? || c.CloseTab? || c.Leave?)
    ensures Follows(p, w, c, key)
  {
    hide Agrees;
    hide WindowOk;
    hide Consistent;
    hide OpenScript;
    hide ActivateScript;
    hide CloseScript;
    hide UnbindScript;
    hide ToFile;
    hide Usable;
    hide Exec;
    hide WithoutServer;
    NothingHappened(key, TokenOf(w, key));
    match c
    case OpenTab(server, now) =>
      InvIsConsistent(p, w);
      OpenKeeps(p, w, server, now);
    case ActivateId(id, now) => ActivateFollows(p, w, id, now, key);
    case CloseTab(id, now) => CloseFollows(p, w, id, now, key);
    case Leave(id) => LeaveFollows(p, w, id, key);
  }

  lemma ActivateFollows(p: Policy, w: World, id: nat, now: Time, key: string)
    requires Inv(p, w)
    ensures Follows(p, w, ActivateId(id, now), key)
  {
    hide Agrees;
    hide Inv;
    hide Consistent;
    NothingHappened(key, TokenOf(w, key));
    if HasTab(w.inner, id) {
      InvIsConsistent(p, w);
      ActivateKeeps(p, w, id, now);
      hide ActivateScript;
    }
  }

  lemma CloseFollows(p: Policy, w: World, id: nat, now: Time, key: string)
    requires Inv(p, w)
    ensures Follows(p, w, CloseTab(id, now), key)
  {
    hide Agrees;
    hide Inv;
    hide CloseScript;
    NothingHappened(key, TokenOf(w, key));
    CloseKeeps(p, w, id, now);
    if !HasTab(w.inner, id) {
      NoTabNoServer(w, id, now);
    } else if ServerOf(w.inner, id).Some? {
      hide Exec;
      ServerLeft(w, ServerOf(w.inner, id).value, Do(p, w, CloseTab(id, now)), key);
    }
  }

  lemma LeaveFollows(p: Policy, w: World, id: nat, key: string)
    requires Inv(p, w)
    ensures Follows(p, w, Leave(id), key)
  {
    hide Agrees;
    hide Inv;
    hide UnbindScript;
    NothingHappened(key, TokenOf(w, key));
    UnbindKeeps(p, w, id);
    hide Exec;
    if ServerOf(w.inner, id).Some? {
      ServerLeft(w, ServerOf(w.inner, id).value, Do(p, w, Leave(id)), key);
    }
  }

  lemma NoTabNoServer(w: World, id: nat, now: Time)
    requires !HasTab(w.inner, id)
    ensures ServerOf(w.inner, id) == None && CloseScript(w, id, now) == []
  {
  }

  lemma CommandFollows(p: Policy, w: World, c: Command, key: string)
    requires Inv(p, w) && Legal(p, c)
    ensures Follows(p, w, c, key)
  {
    hide Follows;
    hide Legal;
    hide Inv;
    match c
    case Store(id, token) => StoreFollows(p, w, id, token, key);
    case Clear(id) => ClearFollows(p, w, id, key);
    case Refresh(id, spawn, reply) => RefreshFollows(p, w, id, spawn, reply, key);
    case SignIn(id, env) => SignInFollows(p, w, id, env, key);
    case _ =>
      if c.OpenTab? || c.ActivateId? || c.CloseTab? || c.Leave? {
        TabFollows(p, w, c, key);
      } else {
        OtherFollows(p, w, c, key);
      }
  }

  /** For every sequence of commands and every sequence of replies, the token
      stored for a server is the last one accepted for it and not dropped since. */
  lemma {:induction false} KeychainIsHistory(p: Policy, w: World, turns: seq<Turn>, key: string, token: string)
    requires Inv(p, w) && AllLegal(p, turns)
    ensures TokenOf(AfterTurns(p, w, turns), key) == Some(token) <==>
            Stands(History(p, w, turns), key, TokenOf(w, key), token)
  {
    hide Stands;
    HistoryAgrees(p, w, turns, key);
  }

  lemma {:induction false} HistoryAgrees(p: Policy, w: World, turns: seq<Turn>, key: string)
    requires Inv(p, w) && AllLegal(p, turns)
    ensures Agrees(History(p, w, turns), key, TokenOf(w, key), TokenOf(AfterTurns(p, w, turns), key))
    decreases |turns|
  {
    hide Agrees;
    hide Inv;
    hide Legal;
    hide AllSafe;
    hide Observed;
    hide AfterTurn;
    if turns == [] {
      NothingHappened(key, TokenOf(w, key));
    } else {
      var next, rest := AfterTurn(p, w, turns[0]), turns[1..];
      assert Legal(p, turns[0].command);
      TurnFollows(p, w, turns[0], key);
      TurnKeeps(p, w, turns[0]);
      HistoryAgrees(p, next, rest, key);
      Concatenated(Observed(p, w, turns[0].command), History(p, next, rest), key,
                   TokenOf(w, key), TokenOf(next, key), TokenOf(AfterTurns(p, next, rest), key));
    }
  }

  lemma TurnFollows(p: Policy, w: World, t: Turn, key: string)
    requires Inv(p, w) && Legal(p, t.command)
    ensures Agrees(Observed(p, w, t.command), key, TokenOf(w, key), TokenOf(AfterTurn(p, w, t), key))
  {
    hide Agrees;
    hide Inv;
    hide Legal;
    hide AllSafe;
    hide Observed;
    hide AfterTurn;
    CommandFollows(p, w, t.command, key);
    TurnKeeps(p, w, t);
    hide Do;
  }

  /** A command concerns no credential but that of the calling tab's server. */
  lemma OthersUntouched(p: Policy, w: World, c: Command, key: string)
    requires Inv(p, w) && Legal(p, c)
    requires TabOf(c).None? || ServerOf(w.inner, TabOf(c).value).None?
             || KeychainKey(ServerOf(w.inner, TabOf(c).value).value) != key
    ensures TokenOf(Do(p, w, c), key) == TokenOf(w, key)
  {
    hide Inv;
    hide Legal;
    hide Do;
    hide Agrees;
    CommandFollows(p, w, c, key);
    forall i | 0 <= i < |Observed(p, w, c)| ensures Account(Observed(p, w, c)[i]) != key {
      ObservedIsOwn(p, w, c, i);
    }
    hide Observed;
    ForeignEvents(Observed(p, w, c), key, TokenOf(w, key), TokenOf(Do(p, w, c), key));
  }

  lemma ForeignEvents(events: seq<Event>, key: string, before: Option<string>, after: Option<string>)
    requires Agrees(events, key, before, after)
    requires forall i :: 0 <= i < |events| ==> Account(events[i]) != key
    ensures after == before
  {
    if before.Some? {
      assert Stands(events, key, before, before.value);
    }
    if after.Some? {
      assert Stands(events, key, before, after.value);
    }
  }

  lemma ObservedIsOwn(p: Policy, w: World, c: Command, i: nat)
    requires i < |Observed(p, w, c)|
    ensures TabOf(c).Some? && ServerOf(w.inner, TabOf(c).value).Some?
    ensures Account(Observed(p, w, c)[i]) == KeychainKey(ServerOf(w.inner, TabOf(c).value).value)
  {
    hide ServerOf;
    hide AfterTake;
    hide AfterEnsure;
    hide Allows;
    hide Resolve;
    hide IsUnauthorized;
  }

  /** The answers and requests that end a credential. */
  predicate Ends(c: Command) {
    match c
    case CloseTab(_, _) => true
    case Leave(_) => true
    case Clear(_) => true
    case Store(_, token) => IsBlankToken(token)
    case Refresh(_, _, reply) => IsUnauthorized(reply) || EndsSession(reply)
    case SignIn(_, env) => IsUnauthorized(env.refresh)
    case _ => false
  }

  /** A stored token is lost only by closing or leaving its server, a sign-out, a
      blank login, a 401, or an empty access token in a plain refresh: never by a
      network error, another status, or a refusal of the policy. */
  lemma LostOnlyWhenEnded(p: Policy, w: World, c: Command, key: string)
    requires Inv(p, w) && Legal(p, c)
    requires TokenOf(w, key).Some? && TokenOf(Do(p, w, c), key).None?
    ensures Ends(c) && TabOf(c).Some? && ServerOf(w.inner, TabOf(c).value).Some?
    ensures KeychainKey(ServerOf(w.inner, TabOf(c).value).value) == key
  {
    hide Inv;
    hide Legal;
    hide Do;
    hide Agrees;
    CommandFollows(p, w, c, key);
    var i := SomeDrop(Observed(p, w, c), key, TokenOf(w, key));
    ObservedIsOwn(p, w, c, i);
    DroppedIsEnded(p, w, c, key, i);
  }

  lemma DroppedIsEnded(p: Policy, w: World, c: Command, key: string, i: nat)
    requires i < |Observed(p, w, c)| && Drops(Observed(p, w, c)[i], key)
    ensures Ends(c) && Account(Observed(p, w, c)[i]) == key
  {
    hide ServerOf;
    hide AfterTake;
    hide AfterEnsure;
    hide Allows;
    hide Resolve;
    hide IsUnauthorized;
    hide EndsSession;
    hide IsBlankToken;
  }

  lemma SomeDrop(events: seq<Event>, key: string, before: Option<string>) returns (i: nat)
    requires before.Some? && Agrees(events, key, before, None)
    ensures i < |events| && Drops(events[i], key)
  {
    hide Drops;
    hide Accepts;
    if forall j :: 0 <= j < |events| ==> !Drops(events[j], key) {
      var token := StandsUndropped(events, key, before);
      assert false;
    }
    i :| i < |events| && Drops(events[i], key);
  }

  lemma {:induction false} StandsUndropped(events: seq<Event>, key: string, before: Option<string>)
    returns (token: string)
    requires before.Some? && forall i :: 0 <= i < |events| ==> !Drops(events[i], key)
    ensures Stands(events, key, before, token)
  {
    hide Drops;
    hide Accepts;
    if events == [] {
      token := before.value;
    } else {
      var n := |events| - 1;
      if accepted :| Accepts(events[n], key, accepted) {
        token := accepted;
        assert LastAccepted(events, key, token, n);
      } else {
        var earlier := events[..n];
        token := StandsUndropped(earlier, key, before);
        assert Keeps(events[n], key);
        if i: nat :| LastAccepted(earlier, key, token, i) {
          assert LastAccepted(events, key, token, i);
        }
      }
    }
  }
}
