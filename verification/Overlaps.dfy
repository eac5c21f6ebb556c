/** Where the guarantees end: exactly when a late reply, a late start of the child
    or a refused deletion does harm, and when overlapping closes lose the active tab. */
module Overlaps {
  import opened Wrappers
  import opened Servers
  import opened Policies
  import opened Tabs
  import opened Restore
  import opened Sidecars
  import opened Shell
  import opened Invariants
  import opened Commands
  import opened Turns
  import opened TokenHistory
  import Text
  import Origin

  lemma TakenKeyIsGone(p: Policy, s: Inner, section: Section, server: Server)
    requires TabsOk(p, s) && (section.TakeServer? || section.RemoveTab?)
    requires ServerOf(s, section.id) == Some(server)
    ensures !BoundKey(Tabs.Step(s, section), KeychainKey(server))
  {
    hide Usable;
    var after := Tabs.Step(s, section);
    TakenIsGone(p, s, section);
    StepKeepsTabsOk(p, s, section);
    if BoundKey(after, KeychainKey(server)) {
      var other :| IsBound(after, other) && KeychainKey(other) == KeychainKey(server);
      assert Usable(p, after.tabs[FindServer(after.tabs, other)].server.value);
      UsableIsWellFormed(p, other);
      UsableIsWellFormed(p, server);
      KeysDistinct(other, server);
    }
  }

  lemma UsableIsWellFormed(p: Policy, server: Server)
    ensures Usable(p, server) ==> WellFormed(server)
  {
  }

  lemma ClosedBound(s: Inner, id: nat, now: Time, key: string)
    requires HasTab(s, id) && BoundKey(ClosedInner(s, id, now), key)
    ensures BoundKey(Tabs.Step(s, RemoveTab(id)), key)
  {
    hide Tabs.Step;
    hide Insert;
    var rest, after := Tabs.Step(s, RemoveTab(id)), ClosedInner(s, id, now);
    var server :| IsBound(after, server) && KeychainKey(server) == key;
    match NextActive(s, id)
    case Some(next) => ActivationBindsNothing(rest, next, now, server);
    case None =>
      ActivationBindsNothing(Insert(rest, None, now), rest.nextId + 1, now, server);
      EmptyTabBindsNothing(rest, now, server);
  }

  lemma ActivationBindsNothing(s: Inner, id: nat, now: Time, server: Server)
    ensures IsBound(Tabs.Step(s, ActivateTab(id, now)), server) ==> IsBound(s, server)
  {
    var after := Tabs.Step(s, ActivateTab(id, now));
    if IsBound(after, server) {
      BoundAt(s, server, FindServer(after.tabs, server));
    }
  }

  lemma EmptyTabBindsNothing(s: Inner, now: Time, server: Server)
    ensures IsBound(Insert(s, None, now), server) ==> IsBound(s, server)
  {
    var after := Insert(s, None, now);
    if IsBound(after, server) {
      BoundAt(s, server, FindServer(after.tabs, server));
    }
  }

  lemma ClosedKeyIsGone(p: Policy, w: World, id: nat, server: Server, now: Time)
    requires Inv(p, w) && ServerOf(w.inner, id) == Some(server)
    ensures !BoundKey(Do(p, w, CloseTab(id, now)).inner, KeychainKey(server))
  {
    hide Consistent;
    hide WindowOk;
    hide ClosedInner;
    hide CloseScript;
    hide Tabs.Step;
    hide ToFile;
    hide BoundKey;
    CloseKeeps(p, w, id, now);
    ConsistentTabs(p, w);
    TakenKeyIsGone(p, w.inner, RemoveTab(id), server);
    if BoundKey(ClosedInner(w.inner, id, now), KeychainKey(server)) {
      ClosedBound(w.inner, id, now, KeychainKey(server));
    }
  }

  lemma StrayKeyIsUnsafe(w: World, key: string)
    requires w.disk.Saved? && key in w.keychain && !HasKey(w.disk.file.servers, key)
    ensures !Safe(w)
  {
  }

  lemma ConsistentTabs(p: Policy, w: World)
    requires Consistent(p, w)
    ensures TabsOk(p, w.inner)
  {
  }

  // ---------- replies that come late ----------

  lemma StrayWrite(p: Policy, w: World, key: string, token: string)
    requires Inv(p, w) && !BoundKey(w.inner, key)
    ensures !Safe(Apply(w, PutToken(key, token)))
  {
    hide Inv;
    hide BoundKey;
    hide HasKey;
    hide Safe;
    hide ToFile;
    InvIsSaved(p, w);
    hide TabsOk;
    SavedKeys(w.inner, key);
    StrayKeyIsUnsafe(Apply(w, PutToken(key, token)), key);
  }

  lemma LateWrite(p: Policy, w: World, key: string, token: string)
    requires Inv(p, w)
    ensures var late := Apply(w, PutToken(key, token));
            && (Safe(late) <==> BoundKey(w.inner, key))
            && (Inv(p, late) <==> BoundKey(w.inner, key))
  {
    hide Inv;
    hide BoundKey;
    hide Safe;
    var late := Apply(w, PutToken(key, token));
    if BoundKey(w.inner, key) {
      BenignKeeps(p, w, PutToken(key, token));
    } else {
      StrayWrite(p, w, key, token);
    }
    hide Apply;
    if Inv(p, late) {
      InvIsSafe(p, late);
    }
  }

  /** While a request waits for its reply, commands of any kind may run. Storing the
      reply is safe exactly if some tab still shows a server with this account, which
      the program could ask before it writes. */
  lemma LateReplies(p: Policy, w: World, turns: seq<Turn>, key: string, token: string)
    requires Inv(p, w) && AllLegal(p, turns)
    ensures var late := AfterTurns(p, w, turns);
            && (Safe(Apply(late, PutToken(key, token))) <==> BoundKey(late.inner, key))
            && (Inv(p, Apply(late, PutToken(key, token))) <==> BoundKey(late.inner, key))
  {
    hide Inv;
    hide AfterTurns;
    hide AllLegal;
    hide AllSafe;
    RunKeeps(p, w, turns);
    LateWrite(p, AfterTurns(p, w, turns), key, token);
  }

  /** The command takes this server from the tab that shows it. */
  predicate Releases(s: Inner, c: Command, server: Server) {
    (c.CloseTab? || c.Leave?) && ServerOf(s, c.id) == Some(server)
  }

  predicate KeepsTabs(op: Op) {
    op.Locked? ==> !op.section.TakeServer? && !op.section.RemoveTab?
  }

  ghost predicate AllKeepTabs(ops: seq<Op>) {
    forall i :: 0 <= i < |ops| ==> KeepsTabs(ops[i])
  }

  lemma {:induction false} OpsKeepBound(ops: seq<Op>, w: World, server: Server)
    requires IsBound(w.inner, server) && AllKeepTabs(ops)
    ensures IsBound(Exec(ops, w).inner, server)
    decreases |ops|
  {
    hide IsBound;
    hide Tabs.Step;
    hide Sidecars.Step;
    hide ToFile;
    if ops != [] {
      assert KeepsTabs(ops[0]);
      if ops[0].Locked? {
        StepKeepsBound(w.inner, ops[0].section, server);
      }
      OpsKeepBound(ops[1..], Apply(w, ops[0]), server);
    }
  }

  lemma ShowingKeepsTabs(w: World, id: nat, now: Time)
    ensures AllKeepTabs(ActivateScript(w, id, now)) && AllKeepTabs(OpenScript(w, None, now))
  {
    hide Tabs.Step;
    hide HasTab;
  }

  lemma ForgettingKeepsTabs(s: Inner, taken: Option<Server>)
    ensures AllKeepTabs(ForgetTaken(s, taken))
  {
    hide IsBound;
  }

  /** After its first operation, a close or a leave takes and removes nothing more. */
  lemma LosingScripts(p: Policy, w: World, c: Command)
    requires c.CloseTab? || c.Leave?
    ensures var script := Script(p, w, c);
            && (script != [] ==> script[0] == Locked(if c.CloseTab? then RemoveTab(c.id) else TakeServer(c.id)))
            && (script != [] ==> AllKeepTabs(script[1..]))
  {
    hide Tabs.Step;
    hide ServerOf;
    hide ForgetTaken;
    hide Exec;
    hide HasTab;
    match c
    case Leave(id) =>
      ForgettingKeepsTabs(Tabs.Step(w.inner, TakeServer(id)), ServerOf(w.inner, id));
    case CloseTab(id, now) =>
      hide ActivateScript;
      hide OpenScript;
      hide NextActive;
      ForgettingKeepsTabs(Tabs.Step(w.inner, RemoveTab(id)), ServerOf(w.inner, id));
      var detached := Exec(DetachScript(w, id), w);
      forall next
        ensures AllKeepTabs(ActivateScript(detached, next, now)) && AllKeepTabs(OpenScript(detached, None, now))
      {
        ShowingKeepsTabs(detached, next, now);
      }
  }

  lemma OtherScriptsKeepTabs(p: Policy, w: World, c: Command)
    requires !c.CloseTab? && !c.Leave?
    ensures AllKeepTabs(Script(p, w, c))
  {
    hide AllKeepTabs;
    if c.SignIn? {
      SignInKeepsTabs(p, w, c.id, c.env);
    } else if IsSessionCommand(c) {
      SessionKeepsTabs(p, w, c);
    } else {
      TabCommandsKeepTabs(p, w, c);
    }
  }

  lemma SessionKeepsTabs(p: Policy, w: World, c: Command)
    requires IsSessionCommand(c) && !c.SignIn?
    ensures AllKeepTabs(Script(p, w, c))
  {
    hide PostSession;
    hide Allows;
    hide Resolve;
    hide ServerOf;
    hide Text.Trim;
  }

  lemma TabCommandsKeepTabs(p: Policy, w: World, c: Command)
    requires !c.CloseTab? && !c.Leave? && !IsSessionCommand(c)
    ensures AllKeepTabs(Script(p, w, c))
  {
    hide Origin.Normalize;
    hide Allows;
    hide Tabs.Bind;
    hide HasTab;
    hide IsBound;
    hide StaleIds;
    hide Tabs.Step;
  }

  lemma SignInKeepsTabs(p: Policy, w: World, id: nat, env: SignInWorld)
    ensures AllKeepTabs(SignInScript(p, w, id, env))
  {
    OnlyExits(env.exits);
    hide Exits;
    hide AfterExits;
    hide AfterEnsure;
    hide AfterTake;
    hide PostSession;
    hide Allows;
  }

  /** A bound server stays bound through a command exactly if the command does not
      take it from its tab. */
  lemma BoundUnlessReleased(p: Policy, w: World, c: Command, server: Server)
    requires Inv(p, w) && IsBound(w.inner, server)
    ensures IsBound(Do(p, w, c).inner, server) <==> !Releases(w.inner, c, server)
  {
    hide Inv;
    hide IsBound;
    hide Exec;
    if Releases(w.inner, c, server) {
      ReleasedIsGone(p, w, c, server);
    } else if c.CloseTab? || c.Leave? {
      LosingScripts(p, w, c);
      hide Script;
      var script := Script(p, w, c);
      if script != [] {
        StepKeepsBound(w.inner, script[0].section, server);
        OpsKeepBound(script[1..], Apply(w, script[0]), server);
        assert Exec(script, w) == Exec(script[1..], Apply(w, script[0])) by { FirstOp(script, w); }
      } else {
        NoOps(w);
      }
    } else {
      OtherScriptsKeepTabs(p, w, c);
      hide Script;
      OpsKeepBound(Script(p, w, c), w, server);
    }
  }

  lemma FirstOp(ops: seq<Op>, w: World)
    requires ops != []
    ensures Exec(ops, w) == Exec(ops[1..], Apply(w, ops[0]))
  {
  }

  lemma NoOps(w: World)
    ensures Exec([], w) == w
  {
  }

  lemma BoundHasKey(s: Inner, server: Server)
    requires IsBound(s, server)
    ensures BoundKey(s, KeychainKey(server))
  {
  }

  lemma ReleasedIsGone(p: Policy, w: World, c: Command, server: Server)
    requires Inv(p, w) && Releases(w.inner, c, server)
    ensures !IsBound(Do(p, w, c).inner, server)
  {
    hide BoundKey;
    hide IsBound;
    hide Tabs.Step;
    hide Do;
    var after := Do(p, w, c);
    if c.CloseTab? {
      ClosedKeyIsGone(p, w, c.id, server, c.now);
    } else {
      LeftKeyIsGone(p, w, c.id, server);
    }
    if IsBound(after.inner, server) {
      BoundHasKey(after.inner, server);
    }
  }

  lemma LeftKeyIsGone(p: Policy, w: World, id: nat, server: Server)
    requires Inv(p, w) && ServerOf(w.inner, id) == Some(server)
    ensures !BoundKey(Do(p, w, Leave(id)).inner, KeychainKey(server))
  {
    hide BoundKey;
    hide Tabs.Step;
    hide Inv;
    hide Exec;
    hide UnbindScript;
    hide WithoutServer;
    hide ServerOf;
    hide TabsOk;
    hide Safe;
    hide AllSafe;
    UnbindKeeps(p, w, id);
    InvIsSaved(p, w);
    TakenKeyIsGone(p, w.inner, TakeServer(id), server);
  }

  /** No turn takes the server from the tab that shows it. */
  predicate NeverReleased(p: Policy, w: World, turns: seq<Turn>, server: Server)
    decreases |turns|
  {
    turns != [] ==>
      && !Releases(w.inner, turns[0].command, server)
      && NeverReleased(p, AfterTurn(p, w, turns[0]), turns[1..], server)
  }

  lemma {:induction false} StaysBound(p: Policy, w: World, turns: seq<Turn>, server: Server)
    requires Inv(p, w) && AllLegal(p, turns)
    requires IsBound(w.inner, server) && NeverReleased(p, w, turns, server)
    ensures IsBound(AfterTurns(p, w, turns).inner, server)
    decreases |turns|
  {
    hide Inv;
    hide IsBound;
    hide Releases;
    hide AfterTurn;
    hide AllSafe;
    hide Legal;
    if turns != [] {
      assert Legal(p, turns[0].command);
      BoundUnlessReleased(p, w, turns[0].command, server);
      TurnKeeps(p, w, turns[0]);
      hide Do;
      StaysBound(p, AfterTurn(p, w, turns[0]), turns[1..], server);
    }
  }

  /** A reply may always be stored if nothing that ran meanwhile closed or left the
      server it is for. */
  lemma ReplyInTime(p: Policy, w: World, turns: seq<Turn>, server: Server, token: string)
    requires Inv(p, w) && AllLegal(p, turns)
    requires IsBound(w.inner, server) && NeverReleased(p, w, turns, server)
    ensures Inv(p, Apply(AfterTurns(p, w, turns), PutToken(KeychainKey(server), token)))
  {
    hide Inv;
    hide IsBound;
    hide AfterTurns;
    hide NeverReleased;
    hide AllLegal;
    StaysBound(p, w, turns, server);
    LateReplies(p, w, turns, KeychainKey(server), token);
    BoundHasKey(AfterTurns(p, w, turns).inner, server);
    hide Apply;
  }

  /** The other case is easy to reach: closing the tab is enough, whatever it shows. */
  lemma LateReplyOrphans(p: Policy, w: World, id: nat, server: Server, now: Time, token: string)
    requires Inv(p, w) && ServerOf(w.inner, id) == Some(server)
    ensures !Safe(Apply(Do(p, w, CloseTab(id, now)), PutToken(KeychainKey(server), token)))
  {
    hide Inv;
    hide Legal;
    hide BoundKey;
    hide AllSafe;
    hide Safe;
    assert Legal(p, CloseTab(id, now)) by { ClosesAreLegal(p, id, now); }
    CommandKeeps(p, w, CloseTab(id, now));
    ClosedKeyIsGone(p, w, id, server, now);
    LateWrite(p, Do(p, w, CloseTab(id, now)), KeychainKey(server), token);
    hide Do;
  }

  lemma ClosesAreLegal(p: Policy, id: nat, now: Time)
    ensures Legal(p, CloseTab(id, now))
  {
  }

  /** A request whose tab is gone may still reach the sidecar. What it does there keeps
      everything in step exactly if it starts no child, or some tab shows the local
      server. */
  lemma LateStarts(p: Policy, w: World, turns: seq<Turn>, act: Act)
    requires Inv(p, w) && AllLegal(p, turns) && (act.Ensure? || act.Take?)
    ensures var late := AfterTurns(p, w, turns);
            Inv(p, Apply(late, Child(act))) <==> (act.spawn.Ready? ==> IsBound(late.inner, LOCAL))
  {
    hide Inv;
    hide AfterTurns;
    hide AllLegal;
    hide AllSafe;
    RunKeeps(p, w, turns);
    LateStart(p, AfterTurns(p, w, turns), act);
  }

  lemma LateStart(p: Policy, w: World, act: Act)
    requires Inv(p, w) && (act.Ensure? || act.Take?)
    ensures Inv(p, Apply(w, Child(act))) <==> (act.spawn.Ready? ==> IsBound(w.inner, LOCAL))
  {
    hide Inv;
    hide IsBound;
    hide SidecarOk;
    hide TabsOk;
    var late := Apply(w, Child(act));
    RunningIsBound(p, w);
    StepKeepsOk(w.sidecar, act);
    if IsBound(w.inner, LOCAL) {
      ChildKeeps(p, w, act);
    } else if act.spawn.Ready? {
      assert late.sidecar.running.Some?;
      if Inv(p, late) {
        RunningIsBound(p, late);
      }
    } else {
      InvWithChild(p, late, w);
    }
  }

  /** The failing case: the only tab with the local server is closed before the child
      is started for it. */
  lemma LateStartOrphans(p: Policy, w: World, id: nat, now: Time, act: Act)
    requires Inv(p, w) && ServerOf(w.inner, id) == Some(LOCAL)
    requires (act.Ensure? || act.Take?) && act.spawn.Ready?
    ensures var late := Apply(Do(p, w, CloseTab(id, now)), Child(act));
            late.sidecar.running.Some? && !IsBound(late.inner, LOCAL)
  {
    hide Inv;
    hide IsBound;
    hide BoundKey;
    hide Exec;
    ClosedKeyIsGone(p, w, id, LOCAL, now);
    var closed := Do(p, w, CloseTab(id, now));
    hide Do;
    if IsBound(closed.inner, LOCAL) {
      BoundHasKey(closed.inner, LOCAL);
    }
  }

  /** A rejection that comes late deletes whatever token is stored by then. That keeps
      everything in step, but it is another token than the one rejected exactly if
      some other one was accepted meanwhile and not dropped. */
  lemma LateRejections(p: Policy, w: World, turns: seq<Turn>, key: string, sent: string)
    requires Inv(p, w) && AllLegal(p, turns) && TokenOf(w, key) == Some(sent)
    ensures var late := AfterTurns(p, w, turns);
            && Inv(p, Apply(late, DropToken(key)))
            && (TokenOf(late, key) !in {None, Some(sent)} <==>
                exists token :: token != sent && Stands(History(p, w, turns), key, Some(sent), token))
  {
    hide Inv;
    hide AfterTurns;
    hide AllLegal;
    hide AllSafe;
    hide Stands;
    hide History;
    var late := AfterTurns(p, w, turns);
    RunKeeps(p, w, turns);
    BenignKeeps(p, late, DropToken(key));
    hide Apply;
    forall token ensures TokenOf(late, key) == Some(token) <==> Stands(History(p, w, turns), key, Some(sent), token) {
      KeychainIsHistory(p, w, turns, key, token);
    }
    match TokenOf(late, key)
    case None =>
    case Some(token) =>
      assert Stands(History(p, w, turns), key, Some(sent), token);
  }

  /** The failing case: a login that succeeds while the refresh is under way. */
  lemma LoginIsLost(p: Policy, w: World, id: nat, server: Server, sent: string, login: string)
    requires ServerOf(w.inner, id) == Some(server) && TokenOf(w, KeychainKey(server)) == Some(sent)
    requires Text.Trim(login, Text.IsWhiteSpace) !in {"", sent}
    ensures var key, late := KeychainKey(server), Do(p, w, Store(id, login));
            && TokenOf(late, key) == Some(Text.Trim(login, Text.IsWhiteSpace))
            && TokenOf(late, key) !in {None, Some(sent)}
            && TokenOf(Apply(late, DropToken(key)), key) == None
  {
    hide ServerOf;
    hide Text.Trim;
    hide Exec;
    ExecOne(PutToken(KeychainKey(server), Text.Trim(login, Text.IsWhiteSpace)), w);
  }

  // ---------- deletions that fail ----------

  /** A save is safe exactly if every stored credential is a bound server's. */
  lemma SaveIsSafe(p: Policy, w: World)
    requires TabsOk(p, w.inner)
    ensures Safe(Exec(PERSIST, w)) <==> KeysBound(w)
  {
    hide TabsOk;
    hide ToFile;
    hide BoundKey;
    PersistIs(w);
    hide Exec;
    ToFileIsWritten(p, w.inner);
    forall key ensures HasKey(ToFile(w.inner).servers, key) <==> BoundKey(w.inner, key) {
      SavedKeys(w.inner, key);
    }
    hide HasKey;
    hide Written;
  }

  predicate Unbinds(section: Section) {
    section.TakeServer? || section.RemoveTab?
  }

  function ReleasedKey(s: Inner, section: Section): set<string> {
    if Unbinds(section) && ServerOf(s, section.id).Some? then {KeychainKey(ServerOf(s, section.id).value)} else {}
  }

  /** The accounts of the servers that the sections take or remove. */
  function ReleasedKeys(s: Inner, sections: seq<Section>): set<string>
    decreases |sections|
  {
    if sections == [] then {}
    else ReleasedKey(s, sections[0]) + ReleasedKeys(Tabs.Step(s, sections[0]), sections[1..])
  }

  lemma {:induction false} UnreleasedStaysBound(s: Inner, sections: seq<Section>, key: string)
    requires BoundKey(s, key) && key !in ReleasedKeys(s, sections)
    ensures BoundKey(Tabs.Run(s, sections), key)
    decreases |sections|
  {
    hide BoundKey;
    hide Tabs.Step;
    hide ServerOf;
    if sections != [] {
      StepKeepsBoundKey(s, sections[0], key);
      UnreleasedStaysBound(Tabs.Step(s, sections[0]), sections[1..], key);
    }
  }

  /** Where a leave or a close stops when the keychain refuses the deletion: the
      server is gone from the tabs, its credential and the file are untouched. */
  function Refused(w: World, c: Command): World
    requires c.Leave? || c.CloseTab?
  {
    if c.Leave? then Apply(w, Locked(TakeServer(c.id)))
    else Apply(Apply(w, Locked(RemoveTab(c.id))), CloseWebviews({c.id}))
  }

  function LosingSection(c: Command): (section: Section)
    requires c.Leave? || c.CloseTab?
    ensures Unbinds(section) && section.id == c.id
  {
    if c.Leave? then TakeServer(c.id) else RemoveTab(c.id)
  }

  lemma RefusedIsSafe(w: World, c: Command)
    requires Safe(w) && (c.Leave? || c.CloseTab?)
    ensures var left := Refused(w, c);
            Safe(left) && left.keychain == w.keychain && left.inner == Tabs.Step(w.inner, LosingSection(c))
  {
    hide Tabs.Step;
    hide Safe;
    QuietIsSafe(w, Locked(LosingSection(c)));
    QuietIsSafe(Apply(w, Locked(LosingSection(c))), CloseWebviews({c.id}));
  }

  lemma InvBinds(p: Policy, w: World)
    requires Inv(p, w)
    ensures TabsOk(p, w.inner) && Safe(w) && KeysBound(w) && ActiveExists(w.inner)
  {
    hide TabsOk;
    hide Safe;
    hide BoundKey;
    hide HasTab;
  }

  lemma RefusedIs(p: Policy, w: World, c: Command, server: Server)
    requires Inv(p, w) && (c.Leave? || c.CloseTab?) && ServerOf(w.inner, c.id) == Some(server)
    ensures var left := Refused(w, c);
            && Safe(left) && left.keychain == w.keychain && TabsOk(p, left.inner)
            && !BoundKey(left.inner, KeychainKey(server))
            && forall key :: key in w.keychain && key != KeychainKey(server) ==> BoundKey(left.inner, key)
  {
    hide Inv;
    hide Tabs.Step;
    hide BoundKey;
    hide Safe;
    hide TabsOk;
    hide ServerOf;
    var section := LosingSection(c);
    InvBinds(p, w);
    RefusedIsSafe(w, c);
    hide Refused;
    StepKeepsTabsOk(p, w.inner, section);
    TakenKeyIsGone(p, w.inner, section, server);
    forall key | key in w.keychain && key != KeychainKey(server)
      ensures BoundKey(Tabs.Step(w.inner, section), key)
    {
      StepKeepsBoundKey(w.inner, section, key);
    }
  }

  /** When the keychain refuses a deletion, leaving or closing stops before it saves;
      the next save is that of some later command. Whatever lock sections run until
      then, the credentials of servers they release being deleted: the save is safe
      exactly if the credential is gone by then, or some tab shows the server again. */
  lemma FailedDelete(p: Policy, w: World, c: Command, server: Server, sections: seq<Section>)
    requires Inv(p, w) && (c.Leave? || c.CloseTab?) && ServerOf(w.inner, c.id) == Some(server)
    requires forall i :: 0 <= i < |sections| ==> FromCommand(p, sections[i])
    ensures var left, key := Refused(w, c), KeychainKey(server);
            var later := left.(inner := Tabs.Run(left.inner, sections),
                               keychain := w.keychain - ReleasedKeys(left.inner, sections));
            && Safe(left)
            && (Safe(Exec(PERSIST, later)) <==> key !in later.keychain || BoundKey(later.inner, key))
  {
    hide Inv;
    hide Refused;
    hide TabsOk;
    hide BoundKey;
    hide Safe;
    hide Exec;
    hide ServerOf;
    hide FromCommand;
    var left, key := Refused(w, c), KeychainKey(server);
    RefusedIs(p, w, c, server);
    SectionsKeepTabsOk(p, left.inner, sections);
    var released := ReleasedKeys(left.inner, sections);
    var later := left.(inner := Tabs.Run(left.inner, sections), keychain := w.keychain - released);
    forall other | other in later.keychain && other != key ensures BoundKey(later.inner, other) {
      UnreleasedStaysBound(left.inner, sections, other);
    }
    SaveIsSafe(p, later);
  }

  /** Saving at once: safe exactly if there was no credential to delete. */
  lemma SavedAtOnce(p: Policy, w: World, c: Command, server: Server)
    requires Inv(p, w) && (c.Leave? || c.CloseTab?) && ServerOf(w.inner, c.id) == Some(server)
    ensures Safe(Exec(PERSIST, Refused(w, c))) <==> KeychainKey(server) !in w.keychain
  {
    hide Inv;
    hide Refused;
    hide BoundKey;
    hide Safe;
    hide Exec;
    hide ServerOf;
    FailedDelete(p, w, c, server, []);
    RefusedIs(p, w, c, server);
    var left := Refused(w, c);
    assert w.keychain - {} == left.keychain;
    assert left.(inner := Tabs.Run(left.inner, []), keychain := w.keychain - ReleasedKeys(left.inner, [])) == left;
  }

  lemma TakenTwice(s: Inner, id: nat)
    ensures var taken := Tabs.Step(s, TakeServer(id));
            && Tabs.Step(taken, TakeServer(id)) == taken && ServerOf(taken, id) == None
            && (HasTab(taken, id) <==> HasTab(s, id))
  {
    if HasTab(s, id) {
      SamePlaces(s.tabs, Tabs.Take(s, id).value.tabs, id);
    }
  }

  /** The failing case: trying to leave once more finds no server to forget, and
      saves. */
  lemma LeavingAgain(p: Policy, w: World, id: nat, server: Server)
    requires Inv(p, w) && ServerOf(w.inner, id) == Some(server)
    ensures var left := Refused(w, Leave(id));
            && Script(p, left, Leave(id)) == [Locked(TakeServer(id))] + PERSIST
            && (Safe(Do(p, left, Leave(id))) <==> KeychainKey(server) !in w.keychain)
  {
    hide Inv;
    hide Safe;
    SavedAtOnce(p, w, Leave(id), server);
    TakenTwice(w.inner, id);
    hide Tabs.Step;
    var left, take := Refused(w, Leave(id)), Locked(TakeServer(id));
    assert [take] + [] + PERSIST == [take] + PERSIST;
    ExecAppend([take], PERSIST, left);
    ExecOne(take, left);
    hide Exec;
  }

  lemma TakenAt(s: Inner, id: nat)
    requires HasTab(s, id)
    ensures var at, taken := Position(s.tabs, id), Tabs.Step(s, TakeServer(id));
            && taken == s.(tabs := s.tabs[at := s.tabs[at].(server := None)])
            && Position(taken.tabs, id) == at
  {
    SamePlaces(s.tabs, Tabs.Take(s, id).value.tabs, id);
  }

  lemma TakenThenBound(p: Policy, s: Inner, id: nat, server: Server)
    requires TabsOk(p, s) && ServerOf(s, id) == Some(server)
    ensures Tabs.Bind(Tabs.Step(s, TakeServer(id)), id, server) == Success(s)
  {
    hide TabsOk;
    hide Usable;
    hide Position;
    hide FindServer;
    TakenIsGone(p, s, TakeServer(id));
    TakenAt(s, id);
    hide Tabs.Step;
    var at, taken := Position(s.tabs, id), Tabs.Step(s, TakeServer(id));
    assert taken.tabs[at := taken.tabs[at].(server := Some(server))] == s.tabs;
  }

  /** The case that heals: binding the tab to the same server again brings back
      exactly the state before the refused leave. */
  lemma BindingAgain(p: Policy, w: World, id: nat, server: Server)
    requires Inv(p, w) && ServerOf(w.inner, id) == Some(server)
    ensures var left := Refused(w, Leave(id));
            Exec(BindScript(left, id, server), left) == w.(tmp := None)
  {
    hide TabsOk;
    hide ToFile;
    hide WindowOk;
    hide Tabs.Bind;
    TakenThenBound(p, w.inner, id, server);
    var left, bind := Refused(w, Leave(id)), Locked(BindTab(id, server));
    ExecAppend([bind], PERSIST, left);
    ExecOne(bind, left);
    PersistIs(Apply(left, bind));
    hide Exec;
  }

  lemma RemovedActive(s: Inner, id: nat)
    requires DistinctIds(s.tabs) && ActiveExists(s)
    ensures Tabs.Step(s, RemoveTab(id)).active == s.active
    ensures ActiveExists(Tabs.Step(s, RemoveTab(id))) <==> s.active != Some(id)
  {
    RemovedIsGone(s, id);
    if s.active != Some(id) {
      StepKeepsTab(s, RemoveTab(id), s.active.value);
    }
  }

  /** A refused deletion ends a close before it shows another tab: the active tab is
      gone exactly if it was the one that was closed. */
  lemma RefusedClose(p: Policy, w: World, id: nat, now: Time)
    requires Inv(p, w)
    ensures ActiveExists(Refused(w, CloseTab(id, now)).inner) <==> w.inner.active != Some(id)
  {
    hide Inv;
    hide Safe;
    hide Tabs.Step;
    InvBinds(p, w);
    hide ActiveExists;
    RemovedActive(w.inner, id);
  }

  // ---------- closes that overlap ----------

  predicate ActiveExists(s: Inner) {
    s.active.Some? && HasTab(s, s.active.value)
  }

  /** How a close ends: the tab it chose is activated, if it is still there; a close
      that found no other tab opens an empty one. */
  function Finish(s: Inner, next: Option<nat>, now: Time): Inner {
    match next
    case Some(id) => Tabs.Step(s, ActivateTab(id, now))
    case None => OpenedInner(s, now)
  }

  lemma RemovedIsGone(s: Inner, id: nat)
    requires DistinctIds(s.tabs)
    ensures !HasTab(Tabs.Step(s, RemoveTab(id)), id)
    ensures DistinctIds(Tabs.Step(s, RemoveTab(id)).tabs)
  {
  }

  lemma ActivationIs(s: Inner, id: nat, now: Time)
    ensures HasTab(s, id) ==> ActiveExists(Tabs.Step(s, ActivateTab(id, now)))
    ensures !HasTab(s, id) ==> Tabs.Step(s, ActivateTab(id, now)) == s
  {
    if HasTab(s, id) {
      StepKeepsTab(s, ActivateTab(id, now), id);
    }
  }

  lemma OpenedExists(s: Inner, now: Time)
    ensures ActiveExists(OpenedInner(s, now))
  {
    var inserted := Insert(s, None, now);
    TabAt(inserted, s.nextId + 1, |s.tabs|);
    hide Insert;
    ActivationIs(inserted, s.nextId + 1, now);
  }

  /** A finish that finds its tab makes an existing tab active; any other one leaves
      everything as it is. */
  lemma FinishIs(s: Inner, next: Option<nat>, now: Time)
    ensures next.None? || HasTab(s, next.value) ==> ActiveExists(Finish(s, next, now))
    ensures next.Some? && !HasTab(s, next.value) ==> Finish(s, next, now) == s
    ensures ActiveExists(s) ==> ActiveExists(Finish(s, next, now))
  {
    hide Tabs.Step;
    hide ActiveExists;
    hide OpenedInner;
    match next
    case Some(id) => ActivationIs(s, id, now);
    case None => OpenedExists(s, now);
  }

  lemma FinishKeepsTab(s: Inner, next: Option<nat>, now: Time, id: nat)
    requires HasTab(s, id)
    ensures HasTab(Finish(s, next, now), id)
  {
    hide Tabs.Step;
    match next
    case Some(n) => StepKeepsTab(s, ActivateTab(n, now), id);
    case None =>
      TabAt(Insert(s, None, now), id, Position(s.tabs, id));
      hide Insert;
      StepKeepsTab(Insert(s, None, now), ActivateTab(s.nextId + 1, now), id);
  }

  /** Two finishes, in this order: it is enough that one of them finds its tab. */
  lemma TwoFinishes(s: Inner, first: Option<nat>, second: Option<nat>, now: Time, later: Time)
    ensures first.None? || HasTab(s, first.value) || second.None? || HasTab(s, second.value) ==>
              ActiveExists(Finish(Finish(s, first, now), second, later))
    ensures first.Some? && !HasTab(s, first.value) && second.Some? && !HasTab(s, second.value) ==>
              Finish(Finish(s, first, now), second, later) == s
  {
    hide Finish;
    hide ActiveExists;
    FinishIs(s, first, now);
    FinishIs(Finish(s, first, now), second, later);
    if second.Some? && HasTab(s, second.value) {
      FinishKeepsTab(s, first, now, second.value);
    }
    hide HasTab;
  }

  /** Both tabs were removed before either close activates what it chose. */
  lemma BothRemoved(s: Inner, a: nat, b: nat)
    requires DistinctIds(s.tabs) && ActiveExists(s) && HasTab(s, a) && HasTab(s, b) && a != b
    ensures var afterA := Tabs.Step(s, RemoveTab(a));
            var afterB := Tabs.Step(afterA, RemoveTab(b));
            && HasTab(afterA, b) && !HasTab(afterB, a) && !HasTab(afterB, b)
            && afterA.active == s.active && afterB.active == s.active
            && var nextA, nextB := NextActive(s, a), NextActive(afterA, b);
               if s.active == Some(a) && nextA == Some(b) then nextB == Some(a)
               else nextA.None? || nextB.None? || HasTab(afterB, nextA.value) || HasTab(afterB, nextB.value)
  {
    var afterA := Tabs.Step(s, RemoveTab(a));
    var afterB := Tabs.Step(afterA, RemoveTab(b));
    RemoveSucceeds(s, a);
    StepKeepsTab(s, RemoveTab(a), b);
    RemoveSucceeds(afterA, b);
    RemovedIsGone(s, a);
    RemovedIsGone(afterA, b);
    StepForgets(afterA, b, a);
    NextIsThere(s, a);
    var nextA := NextActive(s, a);
    if nextA.Some? && nextA != Some(b) {
      StepKeepsTab(afterA, RemoveTab(b), nextA.value);
    } else if nextA == Some(b) && s.active != Some(a) {
      assert afterA.active == Some(b);
      NextIsThere(afterA, b);
    }
  }

  lemma StepForgets(s: Inner, removed: nat, id: nat)
    requires !HasTab(s, id)
    ensures !HasTab(Tabs.Step(s, RemoveTab(removed)), id)
  {
  }

  /** Two closes overlap: both tabs are gone before either close shows the tab it
      chose, in whichever order they do. Afterwards the active tab exists exactly
      unless the first one to go was active and chose the other; then both choices are
      gone, nothing is activated, and the active tab is one that does not exist. */
  lemma OverlappingCloses(s: Inner, a: nat, b: nat, now: Time, later: Time)
    requires DistinctIds(s.tabs) && ActiveExists(s) && HasTab(s, a) && HasTab(s, b) && a != b
    ensures var afterA := Tabs.Step(s, RemoveTab(a));
            var afterB := Tabs.Step(afterA, RemoveTab(b));
            && HasTab(afterA, b)
            && var nextA, nextB := NextActive(s, a), NextActive(afterA, b);
               var ab, ba := Finish(Finish(afterB, nextA, now), nextB, later),
                             Finish(Finish(afterB, nextB, now), nextA, later);
               && (ActiveExists(ab) <==> !(s.active == Some(a) && nextA == Some(b)))
               && (ActiveExists(ba) <==> !(s.active == Some(a) && nextA == Some(b)))
               && (!ActiveExists(ab) ==> ab == ba == afterB && ab.active == Some(a))
  {
    BothRemoved(s, a, b);
    hide Tabs.Step;
    hide NextActive;
    hide Finish;
    var afterA := Tabs.Step(s, RemoveTab(a));
    var afterB := Tabs.Step(afterA, RemoveTab(b));
    var nextA, nextB := NextActive(s, a), NextActive(afterA, b);
    TwoFinishes(afterB, nextA, nextB, now, later);
    TwoFinishes(afterB, nextB, nextA, now, later);
    hide HasTab;
  }

  /** The only two tabs, closed at once: no tab is left at all. */
  lemma LastTwoTabs(s: Inner, now: Time, later: Time)
    requires |s.tabs| == 2 && s.tabs[0].id != s.tabs[1].id && s.active == Some(s.tabs[0].id)
    ensures var a, b := s.tabs[0].id, s.tabs[1].id;
            var afterA := Tabs.Step(s, RemoveTab(a));
            var afterB := Tabs.Step(afterA, RemoveTab(b));
            && HasTab(s, a) && HasTab(afterA, b)
            && NextActive(s, a) == Some(b)
            && Finish(Finish(afterB, NextActive(s, a), now), NextActive(afterA, b), later) == afterB
            && afterB.tabs == [] && afterB.active == Some(a)
  {
    var a, b := s.tabs[0].id, s.tabs[1].id;
    TabAt(s, a, 0);
    var afterA := Tabs.Step(s, RemoveTab(a));
    assert afterA.tabs == [s.tabs[1]];
    TabAt(afterA, b, 0);
  }

  /** Three tabs, the first of them active, the first two closed at once: the third
      is left, and hidden. */
  lemma TwoOfThreeTabs(s: Inner, now: Time, later: Time)
    requires |s.tabs| == 3 && DistinctIds(s.tabs) && s.active == Some(s.tabs[0].id)
    ensures var a, b, c := s.tabs[0].id, s.tabs[1].id, s.tabs[2].id;
            var afterA := Tabs.Step(s, RemoveTab(a));
            var afterB := Tabs.Step(afterA, RemoveTab(b));
            && HasTab(s, a) && HasTab(afterA, b)
            && Finish(Finish(afterB, NextActive(s, a), now), NextActive(afterA, b), later) == afterB
            && afterB.tabs == [s.tabs[2]] && afterB.active == Some(a)
  {
    var a, b := s.tabs[0].id, s.tabs[1].id;
    TabAt(s, a, 0);
    var afterA := Tabs.Step(s, RemoveTab(a));
    assert afterA.tabs == [s.tabs[1], s.tabs[2]];
    TabAt(afterA, b, 0);
    var afterB := Tabs.Step(afterA, RemoveTab(b));
    assert afterB.tabs == [s.tabs[2]];
  }
}
