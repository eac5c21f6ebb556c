/** The keychain across launches and crashes: what it holds is what the whole
    history says, a process that dies in the middle of a command included. */
module SessionHistories {
  import opened Wrappers
  import opened Servers
  import opened Policies
  import opened Tabs
  import opened Restore
  import opened Sidecars
  import opened Shell
  import opened Invariants
  import opened Commands
  import opened Turns
  import opened Crash
  import opened TokenHistory
  import Text

  // ---------- keychain operations ----------

  predicate IsTokenOp(op: Op) {
    op.PutToken? || op.DropToken?
  }

  function TokenOps(ops: seq<Op>): (tokens: seq<Op>)
    ensures |tokens| <= |ops|
  {
    if ops == [] then [] else (if IsTokenOp(ops[0]) then [ops[0]] else []) + TokenOps(ops[1..])
  }

  lemma TokenOpsStep(ops: seq<Op>)
    ensures TokenOps(ops) ==
            if ops == [] then []
            else if IsTokenOp(ops[0]) then [ops[0]] + TokenOps(ops[1..])
            else TokenOps(ops[1..])
  {
    hide IsTokenOp;
  }

  lemma {:induction false} TokenOpsOfBoth(a: seq<Op>, b: seq<Op>)
    ensures TokenOps(a + b) == TokenOps(a) + TokenOps(b)
  {
    hide IsTokenOp;
    hide TokenOps;
    TokenOpsStep(a);
    if a == [] {
      assert a + b == b;
    } else {
      var all := a + b;
      TokenOpsStep(all);
      TokenOpsOfBoth(a[1..], b);
      assert all[1..] == a[1..] + b && all[0] == a[0];
      assert [a[0]] + (TokenOps(a[1..]) + TokenOps(b)) == [a[0]] + TokenOps(a[1..]) + TokenOps(b);
    }
  }

  lemma TokenOpsOfOne(op: Op)
    ensures TokenOps([op]) == if IsTokenOp(op) then [op] else []
  {
    assert [op][1..] == [];
  }

  lemma {:induction false} NoTokenOps(ops: seq<Op>)
    requires forall i :: 0 <= i < |ops| ==> !IsTokenOp(ops[i])
    ensures TokenOps(ops) == []
  {
    hide IsTokenOp;
    if ops != [] {
      assert !IsTokenOp(ops[0]);
      NoTokenOps(ops[1..]);
    }
  }

  predicate SameKeychain(w: World, v: World) {
    w.keychain == v.keychain
  }

  lemma OpIgnoresRest(w: World, v: World, op: Op)
    requires SameKeychain(w, v)
    ensures SameKeychain(Apply(w, op), Apply(v, op))
    ensures !IsTokenOp(op) ==> SameKeychain(Apply(w, op), v)
  {
    hide Tabs.Step;
    hide Sidecars.Step;
    hide ToFile;
  }

  /** Only the keychain operations matter to the keychain. */
  lemma {:induction false} KeychainByTokenOps(ops: seq<Op>, w: World, v: World)
    requires SameKeychain(w, v)
    ensures SameKeychain(Exec(ops, w), Exec(TokenOps(ops), v))
    decreases |ops|
  {
    hide Apply;
    hide SameKeychain;
    hide IsTokenOp;
    if ops != [] {
      OpIgnoresRest(w, v, ops[0]);
      TokenOpsStep(ops);
      if IsTokenOp(ops[0]) {
        KeychainByTokenOps(ops[1..], Apply(w, ops[0]), Apply(v, ops[0]));
        assert ([ops[0]] + TokenOps(ops[1..]))[1..] == TokenOps(ops[1..]);
      } else {
        KeychainByTokenOps(ops[1..], Apply(w, ops[0]), v);
      }
    }
  }

  lemma {:induction false} TokenOpsOfWoven(script: seq<Op>, gaps: seq<seq<nat>>)
    ensures TokenOps(Weave(script, gaps)) == TokenOps(script)
    decreases |script|
  {
    if script != [] && gaps != [] {
      var exits, rest := Exits(gaps[0]), Weave(script[1..], gaps[1..]);
      TokenOpsOfWoven(script[1..], gaps[1..]);
      OnlyExits(gaps[0]);
      NoTokenOps(exits);
      TokenOpsOfBoth([script[0]] + exits, rest);
      TokenOpsOfBoth([script[0]], exits);
      TokenOpsOfOne(script[0]);
    }
  }

  // ---------- how many keychain operations a command has ----------

  /** The one command with two: a rejected token, then the token of a fresh session. */
  ghost predicate Replaces(script: seq<Op>, events: seq<Event>) {
    && |TokenOps(script)| == |events| == 2
    && TokenOps(script)[0] == DropToken("local")
    && events[0].SignInRefreshReply? && IsUnauthorized(events[0].reply)
  }

  lemma SessionTokenOps(p: Policy, w: World, c: Command)
    requires c.Store? || c.Clear? || c.Refresh?
    ensures |TokenOps(Script(p, w, c))| <= 1
  {
    match c
    case Refresh(id, spawn, reply) =>
      if ServerOf(w.inner, id).Some? {
        var server := ServerOf(w.inner, id).value;
        hide ServerOf;
        hide Resolve;
        hide RefreshEffect;
        var resolve, effect := ResolveScript(p, server, spawn), RefreshEffect(KeychainKey(server), reply);
        NoTokenOps(resolve);
        RefreshTokenOps(KeychainKey(server), reply);
        TokenOpsOfBoth(resolve, effect);
        TokenOpsOfBoth(resolve, []);
        hide TokenOps;
      }
    case _ =>
      hide ServerOf;
      hide Text.Trim;
  }

  lemma RefreshTokenOps(key: string, reply: Reply)
    ensures |TokenOps(RefreshEffect(key, reply))| <= 1
  {
    hide PostSession;
  }

  lemma LosingTokenOps(p: Policy, w: World, c: Command)
    requires c.CloseTab? || c.Leave?
    ensures |TokenOps(Script(p, w, c))| <= 1
  {
    hide Tabs.Step;
    hide HasTab;
    hide ServerOf;
    hide NextActive;
    hide Exec;
    hide ForgetTaken;
    match c
    case Leave(id) =>
      var take, taken := TakeServer(id), ServerOf(w.inner, id);
      var forget := ForgetTaken(Tabs.Step(w.inner, take), taken);
      ForgetTokenOps(Tabs.Step(w.inner, take), taken);
      NoTokenOps([Locked(take)]);
      NoTokenOps(PERSIST);
      TokenOpsOfBoth([Locked(take)], forget);
      TokenOpsOfBoth([Locked(take)] + forget, PERSIST);
    case CloseTab(id, now) =>
      hide DetachScript;
      hide ActivateScript;
      hide OpenScript;
      var detached := Exec(DetachScript(w, id), w);
      DetachTokenOps(w, id);
      forall show |
        || show == OpenScript(detached, None, now)
        || exists next :: show == ActivateScript(detached, next, now)
        ensures TokenOps(DetachScript(w, id) + show) == TokenOps(DetachScript(w, id))
      {
        ShowingHasNoTokenOps(detached, now);
        NoTokenOps(show);
        TokenOpsOfBoth(DetachScript(w, id), show);
      }
      hide TokenOps;
  }

  lemma ShowingHasNoTokenOps(w: World, now: Time)
    ensures forall i :: 0 <= i < |OpenScript(w, None, now)| ==> !IsTokenOp(OpenScript(w, None, now)[i])
    ensures forall next, i :: 0 <= i < |ActivateScript(w, next, now)| ==> !IsTokenOp(ActivateScript(w, next, now)[i])
  {
    hide Tabs.Step;
    hide HasTab;
  }

  lemma ForgetTokenOps(s: Inner, taken: Option<Server>)
    ensures |TokenOps(ForgetTaken(s, taken))| <= 1
  {
    hide IsBound;
    if taken.Some? {
      var server := taken.value;
      var stop := if server.mode == Local then [Child(StopAct)] else [];
      NoTokenOps(stop);
      TokenOpsOfBoth([DropToken(KeychainKey(server))], stop);
      TokenOpsOfOne(DropToken(KeychainKey(server)));
    }
  }

  lemma DetachTokenOps(w: World, id: nat)
    ensures |TokenOps(DetachScript(w, id))| <= 1
  {
    hide Tabs.Step;
    hide ForgetTaken;
    hide ServerOf;
    var inner, taken := Tabs.Step(w.inner, RemoveTab(id)), ServerOf(w.inner, id);
    var head := [Locked(RemoveTab(id)), CloseWebviews({id})];
    NoTokenOps(head);
    ForgetTokenOps(inner, taken);
    TokenOpsOfBoth(head, ForgetTaken(inner, taken));
  }

  lemma NeutralTokenOps(p: Policy, w: World, c: Command)
    requires IsNeutral(c)
    ensures TokenOps(Script(p, w, c)) == []
  {
    NeutralScript(p, w, c);
    hide Script;
    NoTokenOps(Script(p, w, c));
  }

  lemma ShowTokenOps(p: Policy, w: World, c: Command)
    requires c.OpenTab? || c.ActivateId?
    ensures TokenOps(Script(p, w, c)) == []
  {
    hide Tabs.Step;
    hide HasTab;
    hide IsBound;
    hide TokenOps;
    NoTokenOps(Script(p, w, c));
  }

  lemma ExchangeTokenOps(sc: Sidecar, spawn: Spawn, reply: Reply)
    ensures |TokenOps(ExchangeScript(sc, spawn, reply))| <= |ExchangeEvents(sc, spawn, reply)| <= 1
  {
    hide AfterTake;
    var put := PutSession(reply);
    PutSessionTokenOps(reply);
    hide PostSession;
    hide PutRotated;
    NoTokenOps([Child(Take(spawn))]);
    TokenOpsOfBoth([Child(Take(spawn))], put);
    TokenOpsOfBoth([Child(Take(spawn))], []);
    hide TokenOps;
  }

  lemma PutSessionTokenOps(reply: Reply)
    ensures |TokenOps(PutSession(reply))| <= 1
  {
    hide PostSession;
  }

  /** Once the child runs: one keychain operation, or a deletion and the exchange. */
  lemma SignInEffectTokenOps(sc: Sidecar, env: SignInWorld)
    ensures |TokenOps(SignInEffect(sc, env))| <= 1
            || (IsUnauthorized(env.refresh) && |ExchangeEvents(sc, env.second, env.exchange)| == 1
                && |TokenOps(SignInEffect(sc, env))| == 2 && TokenOps(SignInEffect(sc, env))[0] == DropToken("local"))
  {
    hide PutSession;
    hide ExchangeScript;
    hide ExchangeEvents;
    hide IsUnauthorized;
    if IsUnauthorized(env.refresh) {
      var exchange := ExchangeScript(sc, env.second, env.exchange);
      ExchangeTokenOps(sc, env.second, env.exchange);
      TokenOpsOfBoth([DropToken("local")], exchange);
      TokenOpsOfOne(DropToken("local"));
      hide TokenOps;
    } else {
      PutSessionTokenOps(env.refresh);
    }
  }

  lemma SignInTokenOps(p: Policy, w: World, id: nat, env: SignInWorld)
    ensures var c := SignIn(id, env);
            |TokenOps(Script(p, w, c))| <= 1 || Replaces(Script(p, w, c), Observed(p, w, c))
  {
    hide AfterEnsure;
    hide AfterExits;
    hide Exits;
    hide ExchangeScript;
    hide ExchangeEvents;
    hide SignInEffect;
    hide IsUnauthorized;
    hide Allows;
    hide TokenOps;
    NoTokenOps([]);
    if ServerOf(w.inner, id).Some? {
      var server := ServerOf(w.inner, id).value;
      if server.mode == Local && Allows(p, server) {
        if "local" !in w.keychain {
          ExchangeTokenOps(w.sidecar, env.second, env.exchange);
        } else {
          SignInScriptIs(p, w, id, env);
          hide SignInScript;
          hide ServerOf;
          var (started, origin) := AfterEnsure(w.sidecar, env.first);
          var sidecar := AfterExits(started, env.exits);
          var ensure, effect := [Child(Ensure(env.first))], SignInEffect(sidecar, env);
          OnlyExits(env.exits);
          NoTokenOps(ensure);
          NoTokenOps(Exits(env.exits));
          SignInEffectTokenOps(sidecar, env);
          TokenOpsOfBoth(Exits(env.exits), effect);
          TokenOpsOfBoth(ensure, Exits(env.exits) + effect);
          TokenOpsOfBoth(ensure, []);
        }
      }
    }
  }

  lemma CommandTokenOps(p: Policy, w: World, c: Command)
    ensures |TokenOps(Script(p, w, c))| <= 1 || Replaces(Script(p, w, c), Observed(p, w, c))
  {
    hide Script;
    hide Observed;
    hide Replaces;
    match c
    case SignIn(id, env) => SignInTokenOps(p, w, id, env);
    case _ =>
      if c.Store? || c.Clear? || c.Refresh? {
        SessionTokenOps(p, w, c);
      } else if c.CloseTab? || c.Leave? {
        LosingTokenOps(p, w, c);
      } else if c.OpenTab? || c.ActivateId? {
        ShowTokenOps(p, w, c);
      } else {
        NeutralTokenOps(p, w, c);
      }
  }

  // ---------- a command cut short ----------

  /** What an onlooker saw when `done` of `total` keychain operations were done. */
  function Seen(events: seq<Event>, done: nat, total: nat): seq<Event> {
    if done >= total then events else events[..Min(done, |events|)]
  }

  function SeenOf(p: Policy, w: World, t: Turn, cut: nat): seq<Event>
    requires cut <= |TurnOps(p, w, t)|
  {
    Seen(Observed(p, w, t.command),
         |TokenOps(TurnOps(p, w, t)[..cut])|, |TokenOps(TurnOps(p, w, t))|)
  }

  lemma SameToken(w: World, v: World, key: string)
    requires SameKeychain(w, v)
    ensures TokenOf(w, key) == TokenOf(v, key)
  {
  }

  /** All keychain operations done: the keychain is already the final one. */
  lemma AllDone(ops: seq<Op>, cut: nat, w: World)
    requires cut <= |ops| && |TokenOps(ops[..cut])| >= |TokenOps(ops)|
    ensures SameKeychain(Exec(ops[..cut], w), Exec(ops, w))
  {
    hide TokenOps;
    assert ops == ops[..cut] + ops[cut..];
    TokenOpsOfBoth(ops[..cut], ops[cut..]);
    assert TokenOps(ops) == TokenOps(ops[..cut]);
    KeychainByTokenOps(ops, w, w);
    KeychainByTokenOps(ops[..cut], w, w);
  }

  /** A command cut after any operation, with children exiting meanwhile: the token
      is the one the events seen so far say. */
  lemma CutTurnFollows(p: Policy, w: World, t: Turn, cut: nat, key: string)
    requires Inv(p, w) && Legal(p, t.command) && cut <= |TurnOps(p, w, t)|
    ensures Agrees(SeenOf(p, w, t, cut), key, TokenOf(w, key), TokenOf(Exec(TurnOps(p, w, t)[..cut], w), key))
  {
    hide Agrees;
    hide Inv;
    hide Legal;
    hide Observed;
    hide Script;
    hide TokenOps;
    hide Exec;
    var ops, script, events := TurnOps(p, w, t), Script(p, w, t.command), Observed(p, w, t.command);
    var prefix := ops[..cut];
    var after := Exec(prefix, w);
    TokenOpsOfWoven(script, t.gaps);
    hide TurnOps;
    if |TokenOps(prefix)| >= |TokenOps(ops)| {
      AllDone(ops, cut, w);
      TurnFollows(p, w, t, key);
      SameToken(after, Exec(ops, w), key);
    } else {
      KeychainByTokenOps(prefix, w, w);
      if TokenOps(prefix) == [] {
        NothingDone(w);
        SameToken(after, w, key);
        NothingHappened(key, TokenOf(w, key));
        assert events[..0] == [];
      } else {
        CommandTokenOps(p, w, t.command);
        assert ops == prefix + ops[cut..];
        TokenOpsOfBoth(prefix, ops[cut..]);
        assert TokenOps(prefix) == [DropToken("local")];
        SameToken(after, Exec([DropToken("local")], w), key);
        SignInReplyFollows(w, events[0].reply, key);
        assert events[..1] == [SignInRefreshReply(events[0].reply)];
      }
    }
  }

  lemma NothingDone(w: World)
    ensures Exec([], w) == w
  {
  }

  // ---------- a run cut short ----------

  function RunEvents(p: Policy, w: World, turns: seq<Turn>, cut: nat): seq<Event>
    decreases |turns|
  {
    if turns == [] then []
    else
      var n := |TurnOps(p, w, turns[0])|;
      if cut < n then SeenOf(p, w, turns[0], cut)
      else Observed(p, w, turns[0].command) + RunEvents(p, AfterTurn(p, w, turns[0]), turns[1..], cut - n)
  }

  lemma CutInFirst(a: seq<Op>, b: seq<Op>, cut: nat)
    requires cut <= |a|
    ensures (a + b)[..cut] == a[..cut]
  {
  }

  lemma CutInSecond(a: seq<Op>, b: seq<Op>, cut: nat, w: World)
    requires |a| <= cut <= |a + b|
    ensures Exec((a + b)[..cut], w) == Exec(b[..cut - |a|], Exec(a, w))
  {
    hide Exec;
    assert (a + b)[..cut] == a + b[..cut - |a|];
    ExecAppend(a, b[..cut - |a|], w);
  }

  /** One whole turn, then the rest of the run. */
  lemma TurnThenRest(p: Policy, w: World, turns: seq<Turn>, cut: nat)
    requires turns != [] && cut >= |TurnOps(p, w, turns[0])|
    ensures var ops, n := RunOps(p, w, turns), |TurnOps(p, w, turns[0])|;
            var next := AfterTurn(p, w, turns[0]);
            var rest := RunOps(p, next, turns[1..]);
            Exec(ops[..Min(cut, |ops|)], w) == Exec(rest[..Min(cut - n, |rest|)], next)
  {
    hide TurnOps;
    hide Exec;
    AfterTurnIs(p, w, turns[0]);
    hide AfterTurn;
    var first, next := TurnOps(p, w, turns[0]), AfterTurn(p, w, turns[0]);
    var rest := RunOps(p, next, turns[1..]);
    CutInSecond(first, rest, Min(cut, |first + rest|), w);
  }

  lemma {:induction false} CutRunFollows(p: Policy, w: World, turns: seq<Turn>, cut: nat, key: string)
    requires Inv(p, w) && AllLegal(p, turns)
    ensures var ops := RunOps(p, w, turns);
            Agrees(RunEvents(p, w, turns, cut), key, TokenOf(w, key), TokenOf(Exec(ops[..Min(cut, |ops|)], w), key))
    decreases |turns|
  {
    hide Agrees;
    hide Inv;
    hide AllSafe;
    hide Observed;
    hide SeenOf;
    hide TurnOps;
    hide AfterTurn;
    hide SameButChild;
    hide Exec;
    hide Legal;
    hide AllLegal;
    if turns == [] {
      NothingHappened(key, TokenOf(w, key));
      NothingDone(w);
    } else {
      LegalFirst(p, turns);
      var first, next := TurnOps(p, w, turns[0]), AfterTurn(p, w, turns[0]);
      var rest := RunOps(p, next, turns[1..]);
      if cut < |first| {
        CutInFirst(first, rest, cut);
        CutTurnFollows(p, w, turns[0], cut, key);
      } else {
        TurnKeeps(p, w, turns[0]);
        TurnFollows(p, w, turns[0], key);
        TurnThenRest(p, w, turns, cut);
        CutRunFollows(p, next, turns[1..], cut - |first|, key);
        hide RunOps;
        Concatenated(Observed(p, w, turns[0].command), RunEvents(p, next, turns[1..], cut - |first|), key,
                     TokenOf(w, key), TokenOf(next, key),
                     TokenOf(Exec(rest[..Min(cut - |first|, |rest|)], next), key));
      }
    }
  }

  // ---------- start-up cut short ----------

  function Refusals(servers: seq<Server>): seq<Event> {
    seq(|servers|, i requires 0 <= i < |servers| => Refused(servers[i]))
  }

  lemma {:induction false} RefusalsFollow(servers: seq<Server>, w: World, key: string)
    ensures Agrees(Refusals(servers), key, TokenOf(w, key), TokenOf(Exec(DropAll(servers), w), key))
    decreases |servers|
  {
    hide Agrees;
    hide Exec;
    if servers == [] {
      assert Refusals(servers) == [] && DropAll(servers) == [];
      NothingDone(w);
      NothingHappened(key, TokenOf(w, key));
    } else {
      var account := KeychainKey(servers[0]);
      var w1, rest := Exec([DropToken(account)], w), servers[1..];
      DropIs(w, account, key);
      OneEvent(Refused(servers[0]), key, TokenOf(w, key), TokenOf(w1, key));
      ExecAppend([DropToken(account)], DropAll(rest), w);
      assert DropAll(servers) == [DropToken(account)] + DropAll(rest);
      hide DropAll;
      RefusalsFollow(rest, w1, key);
      assert Refusals(servers) == [Refused(servers[0])] + Refusals(rest);
      Concatenated([Refused(servers[0])], Refusals(rest), key,
                   TokenOf(w, key), TokenOf(w1, key), TokenOf(Exec(DropAll(rest), w1), key));
    }
  }

  lemma {:induction false} DropSome(servers: seq<Server>, cut: nat)
    requires cut <= |servers|
    ensures |DropAll(servers)| == |servers| && DropAll(servers)[..cut] == DropAll(servers[..cut])
  {
    if cut > 0 {
      DropSome(servers[1..], cut - 1);
      assert servers[1..][..cut - 1] == servers[..cut][1..];
    } else if servers != [] {
      DropSome(servers[1..], 0);
    }
  }

  /** Start-up: the deletions, then operations that leave the keychain alone. */
  lemma InitParts(p: Policy, w: World, now: Time) returns (rest: seq<Op>)
    ensures InitScript(p, w, now) == DropAll(Forgotten(p, w.disk)) + rest
    ensures TokenOps(rest) == []
  {
    hide ReadFile;
    hide Forgotten;
    hide DropAll;
    hide ActivateScript;
    hide OpenScript;
    hide TokenOps;
    var file, forget := ReadFile(p, w.disk), DropAll(Forgotten(p, w.disk));
    var forgotten := Exec(forget, w);
    if file.servers == [] {
      rest := OpenScript(forgotten, None, now);
      ShowingHasNoTokenOps(forgotten, now);
      NoTokenOps(rest);
    } else {
      var insert := InsertEach(file.servers, now);
      var id := Min(file.active, |file.servers| - 1) + 1;
      var restored := Exec(forget + insert, w);
      var show := ActivateScript(restored, id, now);
      rest := insert + show;
      InsertTokenOps(file.servers, now);
      ShowingHasNoTokenOps(restored, now);
      NoTokenOps(show);
      TokenOpsOfBoth(insert, show);
      hide InsertEach;
      assert forget + insert + show == forget + (insert + show);
    }
  }

  lemma {:induction false} InsertTokenOps(servers: seq<Server>, now: Time)
    ensures TokenOps(InsertEach(servers, now)) == []
  {
    if servers != [] {
      InsertTokenOps(servers[1..], now);
      TokenOpsOfOne(Locked(InsertTab(Some(servers[0]), now)));
      TokenOpsOfBoth([Locked(InsertTab(Some(servers[0]), now))], InsertEach(servers[1..], now));
    }
  }

  lemma PrefixHasNoTokenOps(ops: seq<Op>, cut: nat, w: World)
    requires TokenOps(ops) == [] && cut <= |ops|
    ensures SameKeychain(Exec(ops[..cut], w), w)
  {
    hide TokenOps;
    hide Exec;
    assert ops == ops[..cut] + ops[cut..];
    TokenOpsOfBoth(ops[..cut], ops[cut..]);
    KeychainByTokenOps(ops[..cut], w, w);
    NothingDone(w);
  }

  lemma CutInitFollows(p: Policy, w: World, now: Time, cut: nat, key: string)
    ensures var ops, forgotten := InitScript(p, w, now), Forgotten(p, w.disk);
            cut <= |ops| ==>
              Agrees(Refusals(forgotten[..Min(cut, |forgotten|)]), key,
                     TokenOf(w, key), TokenOf(Exec(ops[..cut], w), key))
  {
    hide Agrees;
    hide Forgotten;
    hide TokenOps;
    var ops, forgotten := InitScript(p, w, now), Forgotten(p, w.disk);
    var rest := InitParts(p, w, now);
    hide InitScript;
    hide Exec;
    var done := Min(cut, |forgotten|);
    DropSome(forgotten, done);
    RefusalsFollow(forgotten[..done], w, key);
    if cut <= |forgotten| {
      CutInFirst(DropAll(forgotten), rest, cut);
    } else if cut <= |ops| {
      var dropped := Exec(DropAll(forgotten), w);
      CutInSecond(DropAll(forgotten), rest, cut, w);
      PrefixHasNoTokenOps(rest, cut - |forgotten|, dropped);
      SameToken(Exec(ops[..cut], w), dropped, key);
      assert forgotten[..done] == forgotten;
    }
  }

  // ---------- histories ----------

  /** What an onlooker saw of one process until it died. */
  function SessionEvents(w: World, session: Session): seq<Event> {
    var p, b := session.policy, Booted(w);
    var forgotten, n := Forgotten(p, w.disk), |InitScript(p, b, session.start)|;
    if session.cut < n then Refusals(forgotten[..Min(session.cut, |forgotten|)])
    else Refusals(forgotten) + RunEvents(p, Launched(p, w, session.start), session.turns, session.cut - n)
  }

  function HistoryEvents(w: World, sessions: seq<Session>): seq<Event>
    decreases |sessions|
  {
    if sessions == [] then []
    else SessionEvents(w, sessions[0]) + HistoryEvents(RunSession(w, sessions[0]), sessions[1..])
  }

  lemma BootKeepsTokens(w: World, key: string)
    ensures TokenOf(Booted(w), key) == TokenOf(w, key) && Booted(w).disk == w.disk
  {
  }

  lemma WholeInitFollows(p: Policy, w: World, now: Time, key: string)
    ensures Agrees(Refusals(Forgotten(p, w.disk)), key, TokenOf(w, key), TokenOf(Launched(p, w, now), key))
  {
    hide Agrees;
    hide Forgotten;
    hide TokenOps;
    var b, forgotten := Booted(w), Forgotten(p, w.disk);
    var ops := InitScript(p, b, now);
    BootKeepsTokens(w, key);
    CutInitFollows(p, b, now, |ops|, key);
    var rest := InitParts(p, b, now);
    hide InitScript;
    hide Booted;
    DropSome(forgotten, 0);
    assert ops[..|ops|] == ops && forgotten[..|forgotten|] == forgotten;
  }

  /** The process dies during start-up. */
  lemma EarlyCutFollows(p: Policy, w: World, now: Time, rest: seq<Op>, cut: nat, key: string)
    requires cut < |InitScript(p, Booted(w), now)|
    ensures var ops, forgotten := InitScript(p, Booted(w), now) + rest, Forgotten(p, w.disk);
            Agrees(Refusals(forgotten[..Min(cut, |forgotten|)]), key,
                   TokenOf(w, key), TokenOf(Exec(ops[..cut], Booted(w)), key))
  {
    hide Agrees;
    hide Forgotten;
    hide InitScript;
    hide Exec;
    BootKeepsTokens(w, key);
    CutInFirst(InitScript(p, Booted(w), now), rest, cut);
    CutInitFollows(p, Booted(w), now, cut, key);
    hide Booted;
  }

  /** The process dies after start-up, or ends. */
  lemma LateCutFollows(p: Policy, w: World, now: Time, turns: seq<Turn>, cut: nat, key: string)
    requires Safe(w) && AllLegal(p, turns)
    ensures var launched := Launched(p, w, now);
            var run := RunOps(p, launched, turns);
            Agrees(Refusals(Forgotten(p, w.disk)) + RunEvents(p, launched, turns, cut), key,
                   TokenOf(w, key), TokenOf(Exec(run[..Min(cut, |run|)], launched), key))
  {
    hide Agrees;
    hide Safe;
    hide Inv;
    hide AllSafe;
    hide AllLegal;
    hide Forgotten;
    hide RunOps;
    hide RunEvents;
    hide Exec;
    InitKeeps(p, w, now);
    WholeInitFollows(p, w, now, key);
    hide Launched;
    var launched := Launched(p, w, now);
    var run := RunOps(p, launched, turns);
    CutRunFollows(p, launched, turns, cut, key);
    Concatenated(Refusals(Forgotten(p, w.disk)), RunEvents(p, launched, turns, cut), key,
                 TokenOf(w, key), TokenOf(launched, key), TokenOf(Exec(run[..Min(cut, |run|)], launched), key));
  }

  lemma SessionFollows(w: World, session: Session, key: string)
    requires Safe(w) && AllLegal(session.policy, session.turns)
    ensures Agrees(SessionEvents(w, session), key, TokenOf(w, key), TokenOf(RunSession(w, session), key))
  {
    hide Agrees;
    hide Safe;
    hide AllLegal;
    hide Forgotten;
    hide InitScript;
    hide RunOps;
    hide RunEvents;
    hide Refusals;
    hide Exec;
    hide Booted;
    var p, b, now := session.policy, Booted(w), session.start;
    var init, run := InitScript(p, b, now), RunOps(p, Launched(p, w, now), session.turns);
    if session.cut < |init| {
      EarlyCutFollows(p, w, now, run, session.cut, key);
    } else {
      CutInSecond(init, run, Min(session.cut, |init + run|), b);
      LateCutFollows(p, w, now, session.turns, session.cut - |init|, key);
    }
  }

  lemma {:induction false} SessionsFollow(w: World, sessions: seq<Session>, key: string)
    requires Safe(w) && LegalSessions(sessions)
    ensures Agrees(HistoryEvents(w, sessions), key, TokenOf(w, key), TokenOf(RunSessions(w, sessions), key))
    decreases |sessions|
  {
    hide Agrees;
    hide Safe;
    hide AllLegal;
    hide SessionEvents;
    hide RunSession;
    if sessions == [] {
      NothingHappened(key, TokenOf(w, key));
    } else {
      var next, rest := RunSession(w, sessions[0]), sessions[1..];
      assert AllLegal(sessions[0].policy, sessions[0].turns);
      SessionIsSafe(w, sessions[0]);
      SessionFollows(w, sessions[0], key);
      SessionsFollow(next, rest, key);
      Concatenated(SessionEvents(w, sessions[0]), HistoryEvents(next, rest), key,
                   TokenOf(w, key), TokenOf(next, key), TokenOf(RunSessions(next, rest), key));
    }
  }

  /** From a new machine on, through any number of launches under any policies, each
      process cut after any operation: the token stored under an account is the last
      one accepted for it and not dropped since, by a reply, a command, or a launch
      whose policy blocks the server. */
  lemma KeychainIsWholeHistory(sessions: seq<Session>, key: string, token: string)
    requires LegalSessions(sessions)
    ensures TokenOf(RunSessions(PRISTINE, sessions), key) == Some(token) <==>
            Stands(HistoryEvents(PRISTINE, sessions), key, None, token)
  {
    hide Stands;
    hide HistoryEvents;
    hide RunSessions;
    hide LegalSessions;
    SessionsFollow(PRISTINE, sessions, key);
  }
}
