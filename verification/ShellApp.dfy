/** The running shell: tab list, webviews, file, keychain and sidecar as one
    object whose methods work step by step like the program's commands. Every
    method is proved to perform exactly the operations its script lists, in that
    order, so what is proved about scripts holds of the methods. */
module ShellApps {
  import opened Wrappers
  import opened Text
  import opened Servers
  import opened Policies
  import opened Tabs
  import opened Restore
  import opened Sidecars
  import opened Shell
  import opened Invariants
  import opened Commands
  import opened Crash
  import opened TabTables
  import opened Answers
  import opened Effects
  import TokenHistory
  import Origin

  // ---------- stories ----------

  /** Where the shell is, and the states it went through. */
  datatype Story = Story(world: World, past: seq<World>)

  function After(s: Story, ops: seq<Op>): Story {
    Story(Exec(ops, s.world), s.past + Trace(ops, s.world))
  }

  /** A command, performed from start to end. */
  function Did(p: Policy, s: Story, c: Command): Story {
    After(s, Script(p, s.world, c))
  }

  lemma AfterOne(s: Story, op: Op)
    ensures After(s, [op]) == Story(Apply(s.world, op), s.past + [Apply(s.world, op)])
  {
    ExecOne(op, s.world);
  }

  lemma AfterBoth(s: Story, a: seq<Op>, b: seq<Op>)
    ensures After(After(s, a), b) == After(s, a + b)
  {
    hide Exec;
    hide Trace;
    ExecAppend(a, b, s.world);
  }

  lemma AfterNothing(s: Story)
    ensures After(s, []) == s
  {
  }

  /** The shell could have been killed in any of these states. */
  ghost predicate PastIsSafe(past: seq<World>) {
    forall i :: 0 <= i < |past| ==> Safe(past[i])
  }

  lemma {:induction false} SafeScriptSafePast(s: Story, ops: seq<Op>)
    requires PastIsSafe(s.past) && AllSafe(ops, s.world)
    ensures PastIsSafe(After(s, ops).past)
    decreases |ops|
  {
    hide Safe;
    hide Apply;
    if ops != [] {
      var next := Story(Apply(s.world, ops[0]), s.past + [Apply(s.world, ops[0])]);
      SafeScriptSafePast(next, ops[1..]);
      assert After(s, ops) == After(next, ops[1..]);
    }
  }

  lemma DidKeeps(p: Policy, s: Story, c: Command)
    requires Inv(p, s.world) && PastIsSafe(s.past) && Legal(p, c)
    ensures Inv(p, Did(p, s, c).world) && PastIsSafe(Did(p, s, c).past)
  {
    CommandKeeps(p, s.world, c);
    hide Inv;
    hide AllSafe;
    hide PastIsSafe;
    hide Script;
    SafeScriptSafePast(s, Script(p, s.world, c));
  }

  // ---------- the object ----------

  class ShellApp {
    const policy: Policy
    const table: TabTable
    const sidecar: SidecarCell
    /** Content webviews by tab, and whether each is shown. */
    var webviews: map<nat, bool>
    var disk: DiskFile
    var tmp: Option<TabsFile>
    var keychain: map<string, string>
    ghost var past: seq<World>

    ghost function View(): World
      reads this, table, sidecar
    {
      World(table.View(), webviews, disk, tmp, keychain, sidecar.View())
    }

    ghost function Now(): Story
      reads this, table, sidecar
    {
      Story(View(), past)
    }

    /** Everything is in step, and was safe to kill at every moment so far. */
    ghost predicate Valid()
      reads this, table, sidecar
    {
      Inv(policy, View()) && PastIsSafe(past)
    }

    /** A new process over what the last one left behind. */
    constructor (policy: Policy, disk: DiskFile, tmp: Option<TabsFile>, keychain: map<string, string>)
      ensures this.policy == policy && fresh(table) && fresh(sidecar)
      ensures View() == World(EMPTY, map[], disk, tmp, keychain, IDLE) && past == []
      ensures sidecar.Valid()
    {
      this.policy := policy;
      table := new TabTable();
      sidecar := new SidecarCell();
      webviews, this.disk, this.tmp, this.keychain, past := map[], disk, tmp, keychain, [];
    }

    // ----- file and keychain -----

    ghost method Note()
      modifies this`past
      ensures past == old(past) + [View()]
    {
      past := past + [View()];
    }

    method Persist()
      modifies this`disk, this`tmp, this`past
      ensures Now() == After(old(Now()), PERSIST)
    {
      ghost var start := Now();
      var file := table.ToFile();
      tmp := Some(file);
      Note();
      AfterOne(start, WriteTmp);
      ghost var written := Now();
      disk, tmp := Saved(tmp.value), None;
      Note();
      AfterOne(written, RenameTmp);
      AfterBoth(start, [WriteTmp], [RenameTmp]);
      assert [WriteTmp] + [RenameTmp] == PERSIST;
    }

    method WriteToken(key: string, token: string)
      modifies this`keychain, this`past
      ensures Now() == After(old(Now()), [PutToken(key, token)])
    {
      AfterOne(Now(), PutToken(key, token));
      keychain := keychain[key := token];
      Note();
    }

    method DeleteToken(key: string)
      modifies this`keychain, this`past
      ensures Now() == After(old(Now()), [DropToken(key)])
    {
      AfterOne(Now(), DropToken(key));
      keychain := keychain - {key};
      Note();
    }

    // ----- webviews -----

    /** A new webview starts hidden; an existing one stays as it is. */
    method Materialize(id: nat)
      modifies this`webviews
      ensures webviews == if id in old(webviews) then old(webviews) else old(webviews)[id := false]
    {
      if id !in webviews {
        webviews := webviews[id := false];
      }
    }

    /** Afterwards `id` is the only webview shown. */
    method ShowAmong(id: nat)
      modifies this`webviews
      requires id in webviews
      ensures webviews == OnlyShown(old(webviews), id)
    {
      var rest := webviews.Keys;
      while rest != {}
        invariant rest <= webviews.Keys == old(webviews).Keys
        invariant forall l :: l in webviews && l !in rest ==> webviews[l] == (l == id)
        decreases |rest|
      {
        var l :| l in rest;
        webviews := webviews[l := l == id];
        rest := rest - {l};
      }
      assert webviews == OnlyShown(old(webviews), id);
    }

    method ShowTab(id: nat)
      modifies this`webviews, this`past
      ensures Now() == After(old(Now()), [ShowOnly(id)])
    {
      AfterOne(Now(), ShowOnly(id));
      hide Exec;
      hide Trace;
      Materialize(id);
      assert OnlyShown(webviews, id) == OnlyShown(old(webviews), id);
      hide OnlyShown;
      ShowAmong(id);
      Note();
    }

    method CloseEachWebview(ids: set<nat>)
      modifies this`webviews, this`past
      ensures Now() == After(old(Now()), [CloseWebviews(ids)])
    {
      AfterOne(Now(), CloseWebviews(ids));
      hide Exec;
      hide Trace;
      var rest := webviews.Keys;
      while rest != {}
        modifies this`webviews
        invariant forall l :: l in webviews <==> l in old(webviews) && (l !in ids || l in rest)
        invariant forall l :: l in webviews ==> webviews[l] == old(webviews)[l]
        decreases |rest|
      {
        var l :| l in rest;
        if l in ids {
          webviews := webviews - {l};
        }
        rest := rest - {l};
      }
      assert webviews == old(webviews) - ids;
      Note();
    }

    // ----- steps shared by the commands -----

    /** The id must name a tab. */
    method Activate(id: nat, now: Time) returns (r: Result<(), TabsError>)
      modifies this, table
      ensures Now() == After(old(Now()), ActivateScript(old(View()), id, now))
      ensures r == if HasTab(old(table.View()), id) then Success(()) else Failure(UnknownTab)
    {
      hide Exec;
      hide Trace;
      hide Tabs.Step;
      ghost var start := Now();
      AfterNothing(start);
      if Position(table.tabs, id) == |table.tabs| {
        return Failure(UnknownTab);
      }
      r := table.SetActive(id, now);
      Note();
      var activate, show := Locked(ActivateTab(id, now)), ShowOnly(id);
      AfterOne(start, activate);
      ShowTab(id);
      AfterBoth(start, [activate], [show]);
      Persist();
      AfterBoth(start, [activate] + [show], PERSIST);
      assert [activate] + [show] + PERSIST == ActivateScript(start.world, id, now);
    }

    /** The tab returned is in the list and active, whether it is new or not. */
    method Open(server: Option<Server>, now: Time) returns (tab: Tab)
      modifies this, table
      ensures Now() == After(old(Now()), OpenScript(old(View()), server, now))
      ensures tab in table.tabs && table.active == Some(tab.id)
    {
      hide Exec;
      hide Trace;
      hide ActivateScript;
      ghost var start := Now();
      if server.Some? {
        var open := FindServer(table.tabs, server.value);
        if open < |table.tabs| {
          var id := table.tabs[open].id;
          TabAt(start.world.inner, id, open);
          var activated := Activate(id, now);
          tab := TabWith(id, now, start.world);
          return;
        }
      }
      var id := table.Insert(server, now);
      Note();
      var insert := Locked(InsertTab(server, now));
      AfterOne(start, insert);
      ghost var inserted := View();
      InsertedIsThere(start.world, server, now);
      var activated := Activate(id, now);
      AfterBoth(start, [insert], ActivateScript(inserted, id, now));
      tab := TabWith(id, now, inserted);
    }

    /** The tab with this id, which was just activated. */
    method TabWith(id: nat, now: Time, ghost before: World) returns (tab: Tab)
      requires HasTab(before.inner, id) && View() == Exec(ActivateScript(before, id, now), before)
      ensures tab in table.tabs && tab.id == id && table.active == Some(id)
    {
      ActivatedIsThere(before, id, now);
      tab := table.tabs[Position(table.tabs, id)];
    }

    /** Leaves everything alone while some tab shows the server. */
    method ForgetServer(server: Server)
      requires sidecar.Valid()
      modifies this`keychain, this`past, sidecar
      ensures Now() == After(old(Now()), ForgetScript(old(table.View()), server)) && sidecar.Valid()
    {
      hide Exec;
      hide Trace;
      hide SidecarOk;
      ghost var start := Now();
      AfterNothing(start);
      if FindServer(table.tabs, server) < |table.tabs| {
        return;
      }
      var key := KeychainKey(server);
      DeleteToken(key);
      assert [DropToken(key)] + [] == [DropToken(key)];
      if server.mode == Local {
        ghost var dropped := Now();
        sidecar.Stop();
        Note();
        AfterOne(dropped, Child(StopAct));
        AfterBoth(start, [DropToken(key)], [Child(StopAct)]);
      }
    }

    /** Remove a tab with its webview and its server; says which tab comes next. */
    method Detach(id: nat) returns (r: Result<Option<nat>, TabsError>)
      requires sidecar.Valid()
      modifies this, table, sidecar
      ensures sidecar.Valid()
      ensures if HasTab(old(table.View()), id) then
                && Now() == After(old(Now()), DetachScript(old(View()), id))
                && table.View() == Tabs.Step(old(table.View()), RemoveTab(id))
                && r == Success(NextActive(old(table.View()), id))
              else Now() == old(Now()) && r == Failure(UnknownTab)
    {
      hide Exec;
      hide Trace;
      hide SidecarOk;
      hide ForgetScript;
      hide NextActive;
      ghost var start := Now();
      var removed := table.Remove(id);
      if removed.Failure? {
        NothingTaken(start.world.inner, id);
        return Failure(UnknownTab);
      }
      hide Tabs.Step;
      Note();
      var remove, close := Locked(RemoveTab(id)), CloseWebviews({id});
      AfterOne(start, remove);
      CloseEachWebview({id});
      AfterBoth(start, [remove], [close]);
      assert [remove] + [close] == [remove, close];
      var (tab, next) := removed.value;
      ghost var closed := Now();
      AfterNothing(closed);
      if tab.server.Some? {
        ForgetServer(tab.server.value);
      }
      AfterBoth(start, [remove, close], ForgetTaken(closed.world.inner, tab.server));
      return Success(next);
    }

    method BindAndPersist(id: nat, server: Server) returns (r: Result<(), TabsError>)
      modifies this`disk, this`tmp, this`past, table
      ensures Now() == After(old(Now()), BindScript(old(View()), id, server))
      ensures r == Answer(Tabs.Bind(old(table.View()), id, server))
    {
      hide Exec;
      hide Trace;
      hide Tabs.Bind;
      ghost var start := Now();
      AfterNothing(start);
      r := table.Bind(id, server);
      if r.Success? {
        Note();
        AfterOne(start, Locked(BindTab(id, server)));
        Persist();
        AfterBoth(start, [Locked(BindTab(id, server))], PERSIST);
      }
    }

    /** Start the local child, if none runs. */
    method EnsureSidecar(spawn: Spawn) returns (r: Result<string, SidecarError>)
      requires sidecar.Valid()
      modifies this`past, sidecar
      ensures Now() == After(old(Now()), [Child(Ensure(spawn))]) && sidecar.Valid()
      ensures r == AfterEnsure(old(sidecar.View()), spawn).1
    {
      hide SidecarOk;
      hide AfterEnsure;
      AfterOne(Now(), Child(Ensure(spawn)));
      r := sidecar.EnsureRunning(spawn);
      Note();
    }

    method TakeSidecarGrant(spawn: Spawn) returns (r: Result<(string, string), SidecarError>)
      requires sidecar.Valid()
      modifies this`past, sidecar
      ensures Now() == After(old(Now()), [Child(Take(spawn))]) && sidecar.Valid()
      ensures r == AfterTake(old(sidecar.View()), spawn).1
    {
      hide SidecarOk;
      hide AfterTake;
      AfterOne(Now(), Child(Take(spawn)));
      r := sidecar.TakeGrant(spawn);
      Note();
    }

    /** Touches the child only for an allowed local server. */
    method ResolveOrigin(server: Server, spawn: Spawn) returns (r: Result<string, SessionError>)
      requires sidecar.Valid()
      modifies this`past, sidecar
      ensures Now() == After(old(Now()), ResolveScript(policy, server, spawn)) && sidecar.Valid()
      ensures r == Resolve(policy, old(View()), server, spawn)
    {
      hide SidecarOk;
      hide AfterEnsure;
      hide Exec;
      hide Trace;
      AfterNothing(Now());
      var refusal := Check(policy, server);
      if refusal.Some? {
        return Failure(ByPolicy(refusal.value));
      }
      match server.mode {
        case Remote => return Success(server.origin);
        case Local =>
          var origin := EnsureSidecar(spawn);
          r := match origin case Success(o) => Success(o) case Failure(e) => Failure(FromSidecar(e));
      }
    }

    // ----- start-up -----

    /** The loop computes the filter of the reader's specification. */
    method RetainReadable(servers: seq<Server>) returns (kept: seq<Server>)
      ensures kept == KeepReadable(servers)
    {
      hide Readable;
      kept := [];
      var i := 0;
      while i < |servers|
        invariant i <= |servers| && kept == KeepReadable(servers[..i])
      {
        ReadableOneMore(servers, i);
        if Readable(servers[i]) {
          kept := kept + [servers[i]];
        }
        i := i + 1;
      }
      assert servers[..i] == servers;
    }

    /** Drops entries equal to the one kept before them. */
    method DropAdjacent(servers: seq<Server>) returns (kept: seq<Server>)
      ensures kept == Dedup(servers)
    {
      kept := [];
      var i := 0;
      while i < |servers|
        invariant i <= |servers| && kept == Dedup(servers[..i])
      {
        DedupOneMore(servers[..i], servers[i]);
        assert servers[..i + 1] == servers[..i] + [servers[i]];
        if kept == [] || kept[|kept| - 1] != servers[i] {
          kept := kept + [servers[i]];
        }
        i := i + 1;
      }
      assert servers[..i] == servers;
    }

    method RetainOne(ghost start: Story, ghost before: seq<Server>, kept: seq<Server>, server: Server)
      returns (more: seq<Server>)
      requires kept == KeepAllowed(policy, before) && Now() == After(start, DropAll(KeepBlocked(policy, before)))
      modifies this`keychain, this`past
      ensures more == KeepAllowed(policy, before + [server])
      ensures Now() == After(start, DropAll(KeepBlocked(policy, before + [server])))
    {
      hide Exec;
      hide Trace;
      hide Allows;
      KeepOneMore(policy, before, server);
      BlockOneMore(policy, before, server);
      DropOneMore(KeepBlocked(policy, before), server);
      hide KeepAllowed;
      hide KeepBlocked;
      hide DropAll;
      if Allows(policy, server) {
        more := kept + [server];
      } else {
        more := kept;
        DeleteToken(KeychainKey(server));
        AfterBoth(start, DropAll(KeepBlocked(policy, before)), [DropToken(KeychainKey(server))]);
      }
    }

    /** The loop filters, and deletes one credential for each entry it drops. */
    method RetainAllowed(servers: seq<Server>) returns (kept: seq<Server>)
      modifies this`keychain, this`past
      ensures kept == KeepAllowed(policy, servers)
      ensures Now() == After(old(Now()), DropAll(KeepBlocked(policy, servers)))
    {
      hide Exec;
      hide Trace;
      hide Allows;
      ghost var start := Now();
      AfterNothing(start);
      DropNothing(policy);
      assert servers[..0] == [];
      hide KeepAllowed;
      hide KeepBlocked;
      hide DropAll;
      kept := [];
      var i := 0;
      while i < |servers|
        invariant i <= |servers| && kept == KeepAllowed(policy, servers[..i])
        invariant Now() == After(start, DropAll(KeepBlocked(policy, servers[..i])))
      {
        assert servers[..i + 1] == servers[..i] + [servers[i]];
        kept := RetainOne(start, servers[..i], kept, servers[i]);
        i := i + 1;
      }
      assert servers[..i] == servers;
    }

    method ReadTabsFile() returns (file: TabsFile)
      modifies this`keychain, this`past
      ensures file == ReadFile(policy, disk)
      ensures Now() == After(old(Now()), DropAll(Forgotten(policy, disk)))
    {
      hide Exec;
      hide Trace;
      match disk {
        case Saved(saved) =>
          var readable := RetainReadable(saved.servers);
          var distinct := DropAdjacent(readable);
          var allowed := RetainAllowed(distinct);
          file := TabsFile(allowed, saved.active);
        case _ =>
          AfterNothing(Now());
          file := TabsFile([], 0);
      }
    }

    /** One tab for each entry, numbered on from the last id. */
    method InsertSaved(servers: seq<Server>, now: Time) returns (ids: seq<nat>)
      modifies this`past, table
      ensures Now() == After(old(Now()), InsertEach(servers, now))
      ensures |ids| == |servers|
      ensures forall i :: 0 <= i < |ids| ==> ids[i] == old(table.nextId) + i + 1
    {
      hide Exec;
      hide Trace;
      hide Tabs.Step;
      ghost var start := Now();
      AfterNothing(start);
      ids := [];
      var i := 0;
      while i < |servers|
        invariant i == |ids| <= |servers| && table.nextId == old(table.nextId) + i
        invariant forall j :: 0 <= j < i ==> ids[j] == old(table.nextId) + j + 1
        invariant Now() == After(start, InsertEach(servers[..i], now))
      {
        InsertOneMore(servers[..i], servers[i], now);
        assert servers[..i + 1] == servers[..i] + [servers[i]];
        hide InsertEach;
        ghost var before := Now();
        var id := table.Insert(Some(servers[i]), now);
        Note();
        AfterOne(before, Locked(InsertTab(Some(servers[i]), now)));
        AfterBoth(start, InsertEach(servers[..i], now), [Locked(InsertTab(Some(servers[i]), now))]);
        ids := ids + [id];
        i := i + 1;
      }
      assert servers[..i] == servers;
    }

    /** Over any state a crash can leave, start-up puts everything in step. */
    method Init(now: Time)
      requires View() == Booted(View()) && Safe(View()) && PastIsSafe(past)
      modifies this, table
      ensures Valid() && Now() == After(old(Now()), InitScript(policy, old(View()), now))
    {
      hide Safe;
      hide Inv;
      hide PastIsSafe;
      hide Exec;
      hide Trace;
      hide ActivateScript;
      hide OpenScript;
      hide InsertEach;
      hide DropAll;
      hide ReadFile;
      hide Forgotten;
      hide InitScript;
      ghost var start := Now();
      InitKeeps(policy, View(), now);
      SafeScriptSafePast(start, InitScript(policy, View(), now));
      var file := ReadTabsFile();
      DropAllKeepsTable(policy, start.world);
      RestoreTabs(start, file, now);
    }

    /** After forgetting what policy blocks: the saved tabs, or an empty one. */
    method RestoreTabs(ghost start: Story, file: TabsFile, now: Time)
      requires file == ReadFile(policy, start.world.disk) && table.nextId == 0
      requires Now() == After(start, DropAll(Forgotten(policy, start.world.disk)))
      modifies this, table
      ensures Now() == After(start, InitScript(policy, start.world, now))
    {
      hide Exec;
      hide Trace;
      hide ActivateScript;
      hide OpenScript;
      hide InsertEach;
      hide ReadFile;
      hide Forgotten;
      hide DropAll;
      ghost var forget, forgotten := DropAll(Forgotten(policy, start.world.disk)), View();
      if file.servers == [] {
        var tab := Open(None, now);
        AfterBoth(start, forget, OpenScript(forgotten, None, now));
      } else {
        var index := if file.active < |file.servers| - 1 then file.active else |file.servers| - 1;
        var ids := InsertSaved(file.servers, now);
        AfterBoth(start, forget, InsertEach(file.servers, now));
        ghost var restored := View();
        var activated := Activate(ids[index], now);
        AfterBoth(start, forget + InsertEach(file.servers, now), ActivateScript(restored, ids[index], now));
      }
    }

    // ----- tab commands -----

    method TabsOpen(now: Time) returns (tab: Tab)
      requires Valid()
      modifies this, table
      ensures Valid() && Now() == Did(policy, old(Now()), OpenTab(None, now))
      ensures tab in table.tabs && table.active == Some(tab.id)
      ensures Shows(old(table.tabs) + [Tab(old(table.nextId) + 1, None, Some(now))], old(webviews), View(), tab.id, now)
    {
      hide Inv;
      hide PastIsSafe;
      hide Exec;
      hide OpenScript;
      hide Shows;
      OpenedShows(policy, View(), now);
      DidKeeps(policy, Now(), OpenTab(None, now));
      tab := Open(None, now);
    }

    method TabsActivate(id: nat, now: Time) returns (r: Result<(), TabsError>)
      requires Valid()
      modifies this, table
      ensures Valid() && Now() == Did(policy, old(Now()), ActivateId(id, now))
      ensures r == if HasTab(old(table.View()), id) then Success(()) else Failure(UnknownTab)
      ensures r.Success? ==> Shows(old(table.tabs), old(webviews), View(), id, now)
      ensures r.Failure? ==> View() == old(View())
    {
      hide Inv;
      hide PastIsSafe;
      hide Exec;
      hide ActivateScript;
      hide Shows;
      ActivatedShows(policy, View(), id, now);
      DidKeeps(policy, Now(), ActivateId(id, now));
      r := Activate(id, now);
    }

    /** A close never fails half-way: the tab it turns to is there. */
    method TabsClose(id: nat, now: Time) returns (r: Result<(), TabsError>)
      requires Valid()
      modifies this, table, sidecar
      ensures Valid() && Now() == Did(policy, old(Now()), CloseTab(id, now))
      ensures r == if HasTab(old(table.View()), id) then Success(()) else Failure(UnknownTab)
    {
      hide Inv;
      hide PastIsSafe;
      hide Exec;
      hide Trace;
      hide ActivateScript;
      hide OpenScript;
      hide ForgetScript;
      hide Tabs.Step;
      hide NextActive;
      hide SidecarOk;
      ghost var start := Now();
      SidecarIsOk(policy, View());
      DidKeeps(policy, start, CloseTab(id, now));
      var next := Detach(id);
      if next.Failure? {
        AfterNothing(start);
        return Failure(UnknownTab);
      }
      ghost var detached := View();
      NextIsStillThere(policy, start.world, id);
      match next.value {
        case Some(other) =>
          r := Activate(other, now);
          AfterBoth(start, DetachScript(start.world, id), ActivateScript(detached, other, now));
        case None =>
          var tab := Open(None, now);
          AfterBoth(start, DetachScript(start.world, id), OpenScript(detached, None, now));
          r := Success(());
      }
    }

    method TabsMove(id: nat, index: nat) returns (r: Result<(), TabsError>)
      requires Valid()
      modifies this, table
      ensures Valid() && Now() == Did(policy, old(Now()), MoveId(id, index))
      ensures r == if HasTab(old(table.View()), id) then Success(()) else Failure(UnknownTab)
    {
      hide Inv;
      hide PastIsSafe;
      hide Exec;
      hide Trace;
      ghost var start := Now();
      DidKeeps(policy, start, MoveId(id, index));
      MoveSucceeds(table.View(), id, index);
      hide Tabs.MoveTo;
      AfterNothing(start);
      r := table.MoveTo(id, index);
      if r.Success? {
        Note();
        AfterOne(start, Locked(MoveTab(id, index)));
        Persist();
        AfterBoth(start, [Locked(MoveTab(id, index))], PERSIST);
      }
    }

    /** Changes nothing but the webviews. */
    method DiscardStale(now: Time)
      requires Valid()
      modifies this`webviews, this`past
      ensures Valid() && Now() == Did(policy, old(Now()), Sweep(now))
      ensures forall id :: id in webviews <==> id in old(webviews) && !IdleForHalfAnHour(table.View(), id, now)
    {
      hide Inv;
      hide PastIsSafe;
      hide Exec;
      hide Trace;
      hide StaleIds;
      hide IdleForHalfAnHour;
      SweepDiscards(policy, View(), now);
      DidKeeps(policy, Now(), Sweep(now));
      var stale := table.CollectStale(now);
      CloseEachWebview(stale);
    }

    // ----- session commands -----

    method GetServer(id: nat, spawn: Spawn) returns (r: Result<Option<ServerInfo>, SessionError>)
      requires Valid()
      modifies this`past, sidecar
      ensures Valid() && Now() == Did(policy, old(Now()), Shell.GetServer(id, spawn))
      ensures r == GetServerOutcome(policy, old(View()), id, spawn)
      ensures AnswersGetServer(policy, old(View()), id, spawn, r)
    {
      hide Inv;
      hide PastIsSafe;
      hide Exec;
      hide Trace;
      hide Resolve;
      hide ResolveScript;
      hide SidecarOk;
      hide AnswersGetServer;
      GetServerAnswers(policy, View(), id, spawn);
      SidecarIsOk(policy, View());
      DidKeeps(policy, Now(), Shell.GetServer(id, spawn));
      AfterNothing(Now());
      var server := ServerOf(table.View(), id);
      if server.None? {
        return Success(None);
      }
      var origin := ResolveOrigin(server.value, spawn);
      r := match origin
        case Failure(e) => Failure(e)
        case Success(o) => Success(Some(ServerInfo(server.value.mode, o)));
    }

    method SetRemoteServer(id: nat, raw: string) returns (r: Result<ServerInfo, SessionError>)
      requires Valid()
      modifies this`disk, this`tmp, this`past, table
      ensures Valid() && Now() == Did(policy, old(Now()), SetRemote(id, raw))
      ensures r == SetRemoteOutcome(policy, old(table.View()), id, raw)
      ensures AnswersSetRemote(policy, old(table.View()), id, raw, r)
      ensures r.Success? ==> Binds(old(View()), View(), true, id, Server(Remote, r.value.origin))
      ensures r.Failure? ==> View() == old(View())
    {
      hide Inv;
      hide PastIsSafe;
      hide Exec;
      hide Trace;
      hide Origin.Normalize;
      hide Tabs.Bind;
      hide BindScript;
      hide AnswersSetRemote;
      hide Binds;
      RemoteIsBound(policy, View(), id, raw);
      DidKeeps(policy, Now(), SetRemote(id, raw));
      AfterNothing(Now());
      var normalized := Origin.Normalize(raw);
      if normalized.None? {
        return Failure(InvalidOrigin);
      }
      var server := RemoteServer(normalized.value);
      var refusal := Check(policy, server);
      if refusal.Some? {
        return Failure(ByPolicy(refusal.value));
      }
      var bound := BindAndPersist(id, server);
      r := match bound
        case Failure(e) => Failure(FromTabs(e))
        case Success(_) => Success(ServerInfo(Remote, normalized.value));
    }

    method SetLocalServer(id: nat, spawn: Spawn) returns (r: Result<ServerInfo, SessionError>)
      requires Valid()
      modifies this`disk, this`tmp, this`past, table, sidecar
      ensures Valid() && Now() == Did(policy, old(Now()), SetLocal(id, spawn))
      ensures r == SetLocalOutcome(policy, old(View()), id, spawn)
      ensures AnswersSetLocal(policy, old(View()), id, spawn, r)
      ensures r.Success? || r.error.FromSidecar? ==> Binds(old(View()), View(), true, id, LOCAL)
      ensures r.Failure? && !r.error.FromSidecar? ==> View() == old(View())
    {
      hide Inv;
      hide PastIsSafe;
      hide Exec;
      hide Trace;
      hide Tabs.Bind;
      hide BindScript;
      hide SidecarOk;
      hide AfterEnsure;
      hide AnswersSetLocal;
      hide Binds;
      LocalIsBound(policy, View(), id, spawn);
      ghost var start := Now();
      SidecarIsOk(policy, View());
      DidKeeps(policy, start, SetLocal(id, spawn));
      AfterNothing(start);
      var refusal := Check(policy, LOCAL);
      if refusal.Some? {
        return Failure(ByPolicy(refusal.value));
      }
      var bound := BindAndPersist(id, LOCAL);
      if bound.Failure? {
        BindFailed(start.world, id, LOCAL);
        return Failure(FromTabs(bound.error));
      }
      var origin := EnsureSidecar(spawn);
      AfterBoth(start, BindScript(start.world, id, LOCAL), [Child(Ensure(spawn))]);
      r := match origin
        case Failure(e) => Failure(FromSidecar(e))
        case Success(o) => Success(ServerInfo(Local, o));
    }

    /** The credential is gone before the file stops naming its server. */
    method LeaveServer(id: nat) returns (r: Result<(), TabsError>)
      requires Valid()
      modifies this, table, sidecar
      ensures Valid() && Now() == Did(policy, old(Now()), Leave(id))
      ensures r == if HasTab(old(table.View()), id) then Success(()) else Failure(UnknownTab)
      ensures Rebound(old(table.View()), table.View(), id, None) && FileNamesShown(View())
      ensures Forgets(old(View()), View(), ServerOf(old(table.View()), id))
    {
      hide Inv;
      hide PastIsSafe;
      hide Exec;
      hide Trace;
      hide ForgetScript;
      hide SidecarOk;
      hide Tabs.Step;
      hide Rebound;
      hide Forgets;
      hide FileNamesShown;
      LeaveForgets(policy, View(), id);
      ghost var start := Now();
      SidecarIsOk(policy, View());
      DidKeeps(policy, start, Leave(id));
      AfterNothing(start);
      var taken := table.Take(id);
      if taken.Failure? {
        NothingTaken(start.world.inner, id);
        return Failure(UnknownTab);
      }
      Note();
      var take := Locked(TakeServer(id));
      AfterOne(start, take);
      ghost var unbound := Now();
      AfterNothing(unbound);
      if taken.value.Some? {
        ForgetServer(taken.value.value);
      }
      ghost var forget := ForgetTaken(unbound.world.inner, taken.value);
      AfterBoth(start, [take], forget);
      Persist();
      AfterBoth(start, [take] + forget, PERSIST);
      return Success(());
    }

    /** Writes or deletes one account; its answer says nothing about tokens. */
    method StoreSession(id: nat, token: string) returns (r: Result<(), SessionError>)
      requires Valid()
      modifies this`keychain, this`past
      ensures Valid() && Now() == Did(policy, old(Now()), Store(id, token))
      ensures r == if ServerOf(table.View(), id).None? then Failure(NoServer) else Success(())
    {
      hide Inv;
      hide PastIsSafe;
      hide Exec;
      hide Trace;
      hide Trim;
      DidKeeps(policy, Now(), Store(id, token));
      AfterNothing(Now());
      var server := ServerOf(table.View(), id);
      if server.None? {
        return Failure(NoServer);
      }
      var key, trimmed := KeychainKey(server.value), Trim(token, IsWhiteSpace);
      if trimmed == "" {
        DeleteToken(key);
      } else {
        WriteToken(key, trimmed);
      }
      return Success(());
    }

    /** Sign-out. */
    method ClearSession(id: nat)
      requires Valid()
      modifies this`keychain, this`past
      ensures Valid() && Now() == Did(policy, old(Now()), Clear(id))
    {
      hide Inv;
      hide PastIsSafe;
      hide Exec;
      hide Trace;
      DidKeeps(policy, Now(), Clear(id));
      AfterNothing(Now());
      var server := ServerOf(table.View(), id);
      if server.Some? {
        DeleteToken(KeychainKey(server.value));
      }
    }

    /** The keychain is written only after the reply, and only for this account. */
    method RefreshSession(id: nat, spawn: Spawn, reply: Reply) returns (r: Result<Credentials, SessionError>)
      requires Valid()
      modifies this`keychain, this`past, sidecar
      ensures Valid() && Now() == Did(policy, old(Now()), Refresh(id, spawn, reply))
      ensures r == Shared(RefreshOutcome(policy, old(View()), id, spawn, reply))
      ensures AnswersRefresh(policy, old(View()), id, spawn, reply, r)
      ensures r.Success? ==> Carries(reply, r.value)
    {
      hide Inv;
      hide PastIsSafe;
      hide Exec;
      hide Trace;
      hide Resolve;
      hide ResolveScript;
      hide SidecarOk;
      hide PostSession;
      hide AnswersRefresh;
      hide Carries;
      RefreshCarries(policy, View(), id, spawn, reply);
      ghost var start := Now();
      SidecarIsOk(policy, View());
      DidKeeps(policy, start, Refresh(id, spawn, reply));
      AfterNothing(start);
      var server := ServerOf(table.View(), id);
      if server.None? {
        return Failure(NoServer);
      }
      var key := KeychainKey(server.value);
      if key !in keychain {
        return Failure(NoSession);
      }
      var origin := ResolveOrigin(server.value, spawn);
      ghost var resolve := ResolveScript(policy, server.value, spawn);
      AfterBoth(start, resolve, []);
      AfterBoth(start, resolve, RefreshEffect(key, reply));
      AfterNothing(Now());
      if origin.Failure? {
        return Failure(origin.error);
      }
      match PostSession(reply) {
        case Success(refreshed) =>
          if refreshed.rotated.Some? {
            WriteToken(key, refreshed.rotated.value);
          }
          r := Success(Credentials(refreshed.accessToken, refreshed.sessionId));
        case Failure(e) =>
          if e == Http(401) || e == NoSession {
            DeleteToken(key);
          }
          r := Failure(e);
      }
    }

    /** Uses up a grant, and fails unless the reply brings a token to store. */
    method Exchange(spawn: Spawn, reply: Reply) returns (r: Result<Credentials, SessionError>)
      requires sidecar.Valid()
      modifies this`keychain, this`past, sidecar
      ensures Now() == After(old(Now()), ExchangeScript(old(sidecar.View()), spawn, reply)) && sidecar.Valid()
      ensures r == Shared(ExchangeOutcome(old(sidecar.View()), spawn, reply))
      ensures AnswersExchange(HasGrant(old(sidecar.View())), spawn, reply, r)
      ensures r.Success? ==> Carries(reply, r.value)
    {
      hide Exec;
      hide Trace;
      hide AfterTake;
      hide SidecarOk;
      hide PostSession;
      hide AnswersExchange;
      hide Carries;
      ExchangeCarries(sidecar.View(), spawn, reply);
      ghost var start := Now();
      var granted := TakeSidecarGrant(spawn);
      var posted := PostSession(reply);
      ghost var put := if posted.Success? then PutRotated("local", posted.value.rotated) else [];
      AfterBoth(start, [Child(Take(spawn))], []);
      AfterBoth(start, [Child(Take(spawn))], put);
      AfterNothing(Now());
      if granted.Failure? {
        return Failure(FromSidecar(granted.error));
      }
      if posted.Failure? {
        return Failure(posted.error);
      }
      var refreshed := posted.value;
      if refreshed.rotated.None? {
        return Failure(NoRefreshToken);
      }
      WriteToken("local", refreshed.rotated.value);
      return Success(Credentials(refreshed.accessToken, refreshed.sessionId));
    }

    /** The event loops of these children see their exits. */
    method NoticeExits(children: seq<nat>)
      requires sidecar.Valid()
      modifies this`past, sidecar
      ensures Now() == After(old(Now()), Exits(children)) && sidecar.Valid()
      decreases |children|
    {
      hide Exec;
      hide Trace;
      hide SidecarOk;
      ghost var start := Now();
      AfterNothing(start);
      if children != [] {
        var exit := Child(ChildExit(children[0]));
        if children[0] < sidecar.spawned {
          sidecar.OnTerminated(children[0]);
        }
        Note();
        AfterOne(start, exit);
        NoticeExits(children[1..]);
        AfterBoth(start, [exit], Exits(children[1..]));
      }
    }

    /** The refresh that comes first in a local sign-in; None when the stored token
        was rejected, which drops it. */
    method TryStoredToken(first: Spawn, exits: seq<nat>, reply: Reply)
      returns (r: Option<Result<Credentials, SessionError>>)
      requires sidecar.Valid()
      modifies this`keychain, this`past, sidecar
      ensures Now() == After(old(Now()), StoredTokenScript(old(sidecar.View()), first, exits, reply)) && sidecar.Valid()
      ensures r == StoredTokenOutcome(old(sidecar.View()), first, reply)
    {
      hide Exec;
      hide Trace;
      hide AfterEnsure;
      hide SidecarOk;
      hide PostSession;
      ghost var start := Now();
      var origin := EnsureSidecar(first);
      AfterBoth(start, [Child(Ensure(first))], []);
      AfterBoth(start, [Child(Ensure(first))], Exits(exits) + StoredTokenEffect(reply));
      if origin.Failure? {
        AfterNothing(Now());
        return Some(Failure(FromSidecar(origin.error)));
      }
      ghost var started := Now();
      // the request is under way
      NoticeExits(exits);
      AfterBoth(started, Exits(exits), StoredTokenEffect(reply));
      AfterNothing(Now());
      match PostSession(reply) {
        case Success(refreshed) =>
          if refreshed.rotated.Some? {
            WriteToken("local", refreshed.rotated.value);
          }
          r := Some(Success(Credentials(refreshed.accessToken, refreshed.sessionId)));
        case Failure(e) =>
          if e == Http(401) {
            DeleteToken("local");
            r := None;
          } else {
            r := Some(Failure(e));
          }
      }
    }

    /** At most one of refresh and exchange answers; a refresh that succeeds ends it. */
    method LocalSignIn(id: nat, env: SignInWorld) returns (r: Result<Credentials, SessionError>)
      requires Valid()
      modifies this`keychain, this`past, sidecar
      ensures Valid() && Now() == Did(policy, old(Now()), SignIn(id, env))
      ensures r == Shared(SignInOutcome(policy, old(View()), id, env))
      ensures AnswersSignIn(policy, old(View()), id, env, r)
      ensures r.Success? ==>
                var exchanged := "local" !in old(keychain) || TokenHistory.IsUnauthorized(env.refresh);
                Carries(if exchanged then env.exchange else env.refresh, r.value)
    {
      hide Inv;
      hide PastIsSafe;
      hide Exec;
      hide Trace;
      hide AfterEnsure;
      hide ExchangeScript;
      hide ExchangeOutcome;
      hide SidecarOk;
      hide PostSession;
      hide AnswersSignIn;
      hide Carries;
      SignInCarries(policy, View(), id, env);
      ghost var start := Now();
      SidecarIsOk(policy, View());
      DidKeeps(policy, start, SignIn(id, env));
      AfterNothing(start);
      var server := ServerOf(table.View(), id);
      if server.None? {
        return Failure(NoServer);
      }
      if server.value.mode != Local {
        return Failure(NotLocal);
      }
      var refusal := Check(policy, server.value);
      if refusal.Some? {
        return Failure(ByPolicy(refusal.value));
      }
      if "local" !in keychain {
        r := Exchange(env.second, env.exchange);
        return;
      }
      SignInParts(policy, start.world, id, env);
      hide SignInScript;
      hide SignInOutcome;
      hide StoredTokenScript;
      hide StoredTokenOutcome;
      var stored := TryStoredToken(env.first, env.exits, env.refresh);
      ghost var tried := StoredTokenScript(start.world.sidecar, env.first, env.exits, env.refresh);
      AfterBoth(start, tried, []);
      if stored.Some? {
        AfterNothing(Now());
        return stored.value;
      }
      AskedChild(start.world.sidecar, env.first, env.refresh);
      StoredTokenChild(start.world, env.first, env.exits, env.refresh);
      ghost var child := sidecar.View();
      r := Exchange(env.second, env.exchange);
      AfterBoth(start, tried, ExchangeScript(child, env.second, env.exchange));
    }

    /** The event loop of a child saw its exit. */
    method OnTerminated(child: nat)
      requires Valid() && child < sidecar.spawned
      modifies this`past, sidecar
      ensures Valid() && Now() == Did(policy, old(Now()), ChildGone(child))
    {
      hide Inv;
      hide PastIsSafe;
      hide Exec;
      hide Trace;
      hide SidecarOk;
      SidecarIsOk(policy, View());
      DidKeeps(policy, Now(), ChildGone(child));
      AfterOne(Now(), Child(ChildExit(child)));
      sidecar.OnTerminated(child);
      Note();
    }
  }

  /** What a local sign-in does with the stored token. */
  function StoredTokenEffect(reply: Reply): seq<Op> {
    match PostSession(reply)
    case Success(refreshed) => PutRotated("local", refreshed.rotated)
    case Failure(e) => if e == Http(401) then [DropToken("local")] else []
  }

  function StoredTokenScript(sc: Sidecar, first: Spawn, exits: seq<nat>, reply: Reply): seq<Op> {
    [Child(Ensure(first))]
    + if AfterEnsure(sc, first).1.Success? then Exits(exits) + StoredTokenEffect(reply) else []
  }

  function StoredTokenOutcome(sc: Sidecar, first: Spawn, reply: Reply): Option<Result<Credentials, SessionError>> {
    match AfterEnsure(sc, first).1
    case Failure(e) => Some(Failure(FromSidecar(e)))
    case Success(_) =>
      match PostSession(reply)
      case Success(refreshed) => Some(Success(Credentials(refreshed.accessToken, refreshed.sessionId)))
      case Failure(e) => if e == Http(401) then None else Some(Failure(e))
  }

  lemma AskedChild(sc: Sidecar, first: Spawn, reply: Reply)
    requires StoredTokenOutcome(sc, first, reply).None?
    ensures AfterEnsure(sc, first).1.Success?
  {
  }

  /** A sign-in with a stored token, taken apart. */
  lemma SignInParts(p: Policy, w: World, id: nat, env: SignInWorld)
    requires ServerOf(w.inner, id).Some? && ServerOf(w.inner, id).value.mode == Local
    requires Allows(p, ServerOf(w.inner, id).value) && "local" in w.keychain
    ensures var child := AfterExits(AfterEnsure(w.sidecar, env.first).0, env.exits);
            var stored := StoredTokenOutcome(w.sidecar, env.first, env.refresh);
            && SignInScript(p, w, id, env) ==
                 StoredTokenScript(w.sidecar, env.first, env.exits, env.refresh)
                 + (if stored.None? then ExchangeScript(child, env.second, env.exchange) else [])
            && Shared(SignInOutcome(p, w, id, env)) ==
                 (if stored.None? then Shared(ExchangeOutcome(child, env.second, env.exchange)) else stored.value)
  {
    hide AfterEnsure;
    hide AfterExits;
    hide Exits;
    hide ExchangeScript;
    hide ExchangeOutcome;
    hide PostSession;
    hide ServerOf;
  }

  lemma StoredTokenChild(w: World, first: Spawn, exits: seq<nat>, reply: Reply)
    requires AfterEnsure(w.sidecar, first).1.Success?
    ensures Exec(StoredTokenScript(w.sidecar, first, exits, reply), w).sidecar ==
            AfterExits(AfterEnsure(w.sidecar, first).0, exits)
  {
    hide AfterEnsure;
    hide PostSession;
    hide AfterExits;
    hide Exits;
    var effect := StoredTokenEffect(reply);
    ExecAppend([Child(Ensure(first))], Exits(exits) + effect, w);
    ExecOne(Child(Ensure(first)), w);
    var started := Exec([Child(Ensure(first))], w);
    ExecAppend(Exits(exits), effect, started);
    ExitsAre(exits, started);
    var later := Exec(Exits(exits), started);
    if effect != [] {
      ExecOne(effect[0], later);
    }
  }

  lemma DropAllKeepsTable(p: Policy, w: World)
    ensures Exec(DropAll(Forgotten(p, w.disk)), w).inner == w.inner
  {
    DropAllIs(Forgotten(p, w.disk), w);
  }

  lemma {:induction false} DropOneMore(servers: seq<Server>, server: Server)
    ensures DropAll(servers + [server]) == DropAll(servers) + [DropToken(KeychainKey(server))]
  {
    if servers != [] {
      DropOneMore(servers[1..], server);
      assert (servers + [server])[1..] == servers[1..] + [server];
    }
  }

  lemma DropNothing(p: Policy)
    ensures KeepAllowed(p, []) == [] && DropAll(KeepBlocked(p, [])) == []
  {
  }

  lemma {:induction false} InsertOneMore(servers: seq<Server>, server: Server, now: Time)
    ensures InsertEach(servers + [server], now) ==
            InsertEach(servers, now) + [Locked(InsertTab(Some(server), now))]
  {
    if servers != [] {
      InsertOneMore(servers[1..], server, now);
      assert (servers + [server])[1..] == servers[1..] + [server];
    }
  }

  // ---------- effects and answers together ----------

  lemma OpenedShows(p: Policy, w: World, now: Time)
    requires Inv(p, w)
    ensures Shows(w.inner.tabs + [Tab(w.inner.nextId + 1, None, Some(now))], w.webviews,
                  Do(p, w, OpenTab(None, now)), w.inner.nextId + 1, now)
    ensures Do(p, w, OpenTab(None, now)).inner.active == Some(w.inner.nextId + 1)
  {
    hide Inv;
    hide Do;
    OpenShows(p, w, None, now);
    hide ShownAlone;
    hide WebviewsShow;
    hide FileNamesShown;
  }

  lemma ActivatedShows(p: Policy, w: World, id: nat, now: Time)
    requires Inv(p, w)
    ensures var after := Do(p, w, ActivateId(id, now));
            if HasTab(w.inner, id) then Shows(w.inner.tabs, w.webviews, after, id, now) else after == w
  {
    hide Inv;
    hide Do;
    hide Shows;
    ActivateShows(p, w, id, now);
  }

  lemma RemoteIsBound(p: Policy, w: World, id: nat, raw: string)
    requires Inv(p, w)
    ensures var r, after := SetRemoteOutcome(p, w.inner, id, raw), Do(p, w, SetRemote(id, raw));
            && AnswersSetRemote(p, w.inner, id, raw, r)
            && (r.Success? ==> Binds(w, after, true, id, Server(Remote, r.value.origin)))
            && (r.Failure? ==> after == w)
  {
    InvIsDistinct(p, w);
    hide Inv;
    hide Do;
    hide Binds;
    hide TabsOk;
    hide Origin.Normalize;
    hide Allows;
    hide Tabs.Bind;
    hide DistinctIds;
    hide DistinctServers;
    hide ToFile;
    SetRemoteAnswers(p, w.inner, id, raw);
    SetRemoteBinds(p, w, id, raw);
    hide SetRemoteOutcome;
    match Origin.Normalize(raw)
    case None =>
    case Some(origin) =>
      NotBound(w, Do(p, w, SetRemote(id, raw)), Allows(p, Server(Remote, origin)), id, Server(Remote, origin));
  }

  /** Whether a tab can be bound, read off the answer. */
  lemma NotBound(w: World, after: World, allowed: bool, id: nat, server: Server)
    ensures AnswersBind(w.inner, id, server, None) <==> CanBind(w.inner, id, server)
    ensures forall e :: AnswersBind(w.inner, id, server, Some(e)) ==> !CanBind(w.inner, id, server)
    ensures Binds(w, after, allowed && CanBind(w.inner, id, server), id, server) ==>
              if allowed && CanBind(w.inner, id, server) then Binds(w, after, true, id, server) else after == w
  {
    hide ShownElsewhere;
    hide HasTab;
    hide ServerOf;
    hide Rebound;
    hide FileNamesShown;
  }

  lemma LocalIsBound(p: Policy, w: World, id: nat, spawn: Spawn)
    requires Inv(p, w)
    ensures var r, after := SetLocalOutcome(p, w, id, spawn), Do(p, w, SetLocal(id, spawn));
            && AnswersSetLocal(p, w, id, spawn, r)
            && (r.Success? || r.error.FromSidecar? ==> Binds(w, after, true, id, LOCAL))
            && (r.Failure? && !r.error.FromSidecar? ==> after == w)
  {
    InvIsDistinct(p, w);
    hide Inv;
    hide Do;
    hide Binds;
    hide TabsOk;
    hide Allows;
    hide Tabs.Bind;
    hide DistinctIds;
    hide DistinctServers;
    hide ToFile;
    hide AnswersBind;
    hide AfterEnsure;
    hide AnswersOrigin;
    hide CanBind;
    SetLocalAnswers(p, w, id, spawn);
    SetLocalBinds(p, w, id, spawn);
    hide SetLocalOutcome;
    NotBound(w, Do(p, w, SetLocal(id, spawn)), Allows(p, LOCAL), id, LOCAL);
  }

  lemma RefreshCarries(p: Policy, w: World, id: nat, spawn: Spawn, reply: Reply)
    ensures var r := Shared(RefreshOutcome(p, w, id, spawn, reply));
            AnswersRefresh(p, w, id, spawn, reply, r) && (r.Success? ==> Carries(reply, r.value))
  {
    hide AnswersRefresh;
    hide RefreshOutcome;
    hide Carries;
    var r := Shared(RefreshOutcome(p, w, id, spawn, reply));
    RefreshAnswers(p, w, id, spawn, reply);
    if r.Success? {
      CarriedInRefresh(p, w, id, spawn, reply, r);
    }
  }

  lemma ExchangeCarries(sc: Sidecar, spawn: Spawn, reply: Reply)
    ensures var r := Shared(ExchangeOutcome(sc, spawn, reply));
            AnswersExchange(HasGrant(sc), spawn, reply, r) && (r.Success? ==> Carries(reply, r.value))
  {
    hide AnswersExchange;
    hide ExchangeOutcome;
    hide Carries;
    var r := Shared(ExchangeOutcome(sc, spawn, reply));
    ExchangeAnswers(sc, spawn, reply);
    if r.Success? {
      CarriedInExchange(HasGrant(sc), spawn, reply, r);
    }
  }

  lemma SignInCarries(p: Policy, w: World, id: nat, env: SignInWorld)
    requires Inv(p, w)
    ensures var r := Shared(SignInOutcome(p, w, id, env));
            && AnswersSignIn(p, w, id, env, r)
            && (r.Success? ==>
                  Carries(if "local" !in w.keychain || TokenHistory.IsUnauthorized(env.refresh) then env.exchange
                          else env.refresh, r.value))
  {
    hide AnswersSignIn;
    hide SignInOutcome;
    hide Carries;
    SidecarIsOk(p, w);
    hide Inv;
    hide SidecarOk;
    var r := Shared(SignInOutcome(p, w, id, env));
    SignInAnswers(p, w, id, env);
    if r.Success? {
      CarriedInSignIn(p, w, id, env, r);
    }
  }

  lemma SidecarIsOk(p: Policy, w: World)
    requires Inv(p, w)
    ensures SidecarOk(w.sidecar)
  {
  }

  lemma BindFailed(w: World, id: nat, server: Server)
    requires Tabs.Bind(w.inner, id, server).Failure?
    ensures BindScript(w, id, server) == []
  {
  }

  lemma NothingTaken(s: Inner, id: nat)
    requires !HasTab(s, id)
    ensures Tabs.Step(s, TakeServer(id)) == s && Tabs.Step(s, RemoveTab(id)) == s
  {
  }

  lemma NextIsStillThere(p: Policy, w: World, id: nat)
    requires Inv(p, w) && HasTab(w.inner, id)
    ensures match NextActive(w.inner, id)
            case Some(next) => HasTab(Tabs.Step(w.inner, RemoveTab(id)), next)
            case None => true
  {
    ActiveIsThere(w);
    NextIsThere(w.inner, id);
  }

  lemma ActivatedIsThere(w: World, id: nat, now: Time)
    requires HasTab(w.inner, id)
    ensures var after := Exec(ActivateScript(w, id, now), w);
            HasTab(after.inner, id) && after.inner.active == Some(id)
  {
    var activate, show := Locked(ActivateTab(id, now)), ShowOnly(id);
    var w1 := Apply(w, activate);
    StepKeepsTab(w.inner, activate.section, id);
    assert w1.inner.active == Some(id);
    ExecAppend([activate, show], PERSIST, w);
    ExecAppend([activate], [show], w);
    ExecOne(activate, w);
    ExecOne(show, w1);
    PersistIs(Apply(w1, show));
    hide Exec;
    assert [activate] + [show] == [activate, show];
  }
}
