/** Saving the tabs and restoring them at the next launch (tabs.rs, `to_file`,
    `read_file` and the restore in `init`). */
module Restore {
  import opened Wrappers
  import opened Servers
  import opened Policies
  import opened Tabs
  import Origin
  import Reorder

  datatype DiskFile = Missing | Corrupt | Saved(file: TabsFile)

  // ---------- reading ----------

  /** An entry the reader does not drop as malformed. */
  predicate Readable(server: Server) {
    server.mode == Local || Origin.Normalize(server.origin) == Some(server.origin)
  }

  function KeepReadable(servers: seq<Server>): (kept: seq<Server>)
    ensures forall server :: server in kept <==> server in servers && Readable(server)
  {
    hide Readable;
    if servers == [] then []
    else (if Readable(servers[0]) then [servers[0]] else []) + KeepReadable(servers[1..])
  }

  /** Drops an entry equal to its predecessor; equal entries further apart stay. */
  function Dedup(servers: seq<Server>): (kept: seq<Server>)
    ensures forall server :: server in kept <==> server in servers
  {
    if |servers| <= 1 then servers
    else if servers[0] == servers[1] then
      assert servers[0] in servers[1..];
      Dedup(servers[1..])
    else [servers[0]] + Dedup(servers[1..])
  }

  function KeepAllowed(p: Policy, servers: seq<Server>): (kept: seq<Server>)
    ensures |kept| <= |servers|
    ensures forall server :: server in kept <==> server in servers && Allows(p, server)
  {
    hide Allows;
    if servers == [] then []
    else (if Allows(p, servers[0]) then [servers[0]] else []) + KeepAllowed(p, servers[1..])
  }

  function KeepBlocked(p: Policy, servers: seq<Server>): (kept: seq<Server>)
    ensures forall server :: server in kept <==> server in servers && !Allows(p, server)
  {
    hide Allows;
    if servers == [] then []
    else (if Allows(p, servers[0]) then [] else [servers[0]]) + KeepBlocked(p, servers[1..])
  }

  // ---------- one more entry ----------

  lemma {:induction false} ReadableOneMore(servers: seq<Server>, i: nat)
    requires i < |servers|
    ensures KeepReadable(servers[..i + 1]) ==
            KeepReadable(servers[..i]) + (if Readable(servers[i]) then [servers[i]] else [])
    decreases i
  {
    hide Readable;
    if i > 0 {
      ReadableOneMore(servers[1..], i - 1);
      assert servers[..i + 1][1..] == servers[1..][..i] && servers[..i][1..] == servers[1..][..i - 1];
    }
  }

  lemma DedupFirst(servers: seq<Server>)
    ensures Dedup(servers) ==
            if |servers| <= 1 then servers
            else if servers[0] == servers[1] then Dedup(servers[1..])
            else [servers[0]] + Dedup(servers[1..])
  {
  }

  lemma {:induction false} DedupOneMore(servers: seq<Server>, server: Server)
    ensures var kept := Dedup(servers);
            && (servers == [] <==> kept == [])
            && (servers != [] ==> kept[|kept| - 1] == servers[|servers| - 1])
            && Dedup(servers + [server]) ==
                 if servers != [] && servers[|servers| - 1] == server then kept else kept + [server]
  {
    hide Dedup;
    var all := servers + [server];
    DedupFirst(servers);
    DedupFirst(all);
    if servers == [] {
      assert all == [server];
    } else {
      assert all[1..] == servers[1..] + [server];
      DedupOneMore(servers[1..], server);
      if |servers| == 1 {
        DedupFirst(servers[1..]);
      }
    }
  }

  lemma KeepFirst(p: Policy, servers: seq<Server>)
    ensures KeepAllowed(p, servers) ==
            if servers == [] then []
            else if Allows(p, servers[0]) then [servers[0]] + KeepAllowed(p, servers[1..])
            else KeepAllowed(p, servers[1..])
  {
    hide Allows;
  }

  lemma BlockFirst(p: Policy, servers: seq<Server>)
    ensures KeepBlocked(p, servers) ==
            if servers == [] then []
            else if !Allows(p, servers[0]) then [servers[0]] + KeepBlocked(p, servers[1..])
            else KeepBlocked(p, servers[1..])
  {
    hide Allows;
  }

  lemma {:induction false} KeepOneMore(p: Policy, servers: seq<Server>, server: Server)
    ensures KeepAllowed(p, servers + [server]) ==
            if Allows(p, server) then KeepAllowed(p, servers) + [server] else KeepAllowed(p, servers)
  {
    hide Allows;
    hide KeepAllowed;
    var all := servers + [server];
    KeepFirst(p, all);
    KeepFirst(p, servers);
    if servers == [] {
      assert all[1..] == [];
      KeepFirst(p, []);
    } else {
      assert all[1..] == servers[1..] + [server];
      KeepOneMore(p, servers[1..], server);
    }
  }

  lemma {:induction false} BlockOneMore(p: Policy, servers: seq<Server>, server: Server)
    ensures KeepBlocked(p, servers + [server]) ==
            if Allows(p, server) then KeepBlocked(p, servers) else KeepBlocked(p, servers) + [server]
  {
    hide Allows;
    hide KeepBlocked;
    var all := servers + [server];
    BlockFirst(p, all);
    BlockFirst(p, servers);
    if servers == [] {
      assert all[1..] == [];
      BlockFirst(p, []);
    } else {
      assert all[1..] == servers[1..] + [server];
      BlockOneMore(p, servers[1..], server);
    }
  }

  // ---------- the whole reader ----------

  function Entries(disk: DiskFile): seq<Server> {
    match disk
    case Saved(file) => Dedup(KeepReadable(file.servers))
    case _ => []
  }

  /** The file the app starts from. The saved index is kept as it is. */
  function ReadFile(p: Policy, disk: DiskFile): TabsFile {
    TabsFile(KeepAllowed(p, Entries(disk)), if disk.Saved? then disk.file.active else 0)
  }

  /** Servers whose credentials the reader drops because policy blocks them. */
  function Forgotten(p: Policy, disk: DiskFile): seq<Server> {
    KeepBlocked(p, Entries(disk))
  }

  // ---------- restoring ----------

  function InsertAll(s: Inner, servers: seq<Server>, now: Time): Inner
    decreases |servers|
  {
    if servers == [] then s
    else InsertAll(Insert(s, Some(servers[0]), now), servers[1..], now)
  }

  /** Tab ids start over in every process; the tab restored first gets id 1. */
  function Restored(file: TabsFile, now: Time): Inner {
    if file.servers == [] then Step(Insert(EMPTY, None, now), ActivateTab(1, now))
    else Step(InsertAll(EMPTY, file.servers, now),
              ActivateTab(Min(file.active, |file.servers| - 1) + 1, now))
  }

  lemma {:induction false} InsertAllIs(s: Inner, servers: seq<Server>, now: Time)
    ensures var t := InsertAll(s, servers, now);
            && t.active == s.active && t.nextId == s.nextId + |servers|
            && |t.tabs| == |s.tabs| + |servers|
            && (forall i :: 0 <= i < |s.tabs| ==> t.tabs[i] == s.tabs[i])
            && (forall i :: 0 <= i < |servers| ==>
                  t.tabs[|s.tabs| + i] == Tab(s.nextId + 1 + i, Some(servers[i]), Some(now)))
    decreases |servers|
  {
    if servers != [] {
      var s1 := Insert(s, Some(servers[0]), now);
      InsertAllIs(s1, servers[1..], now);
      var t := InsertAll(s, servers, now);
      forall i | 0 <= i < |servers|
        ensures t.tabs[|s.tabs| + i] == Tab(s.nextId + 1 + i, Some(servers[i]), Some(now))
      {
        if i > 0 {
          assert servers[i] == servers[1..][i - 1];
          assert t.tabs[|s1.tabs| + (i - 1)] == Tab(s1.nextId + 1 + (i - 1), Some(servers[i]), Some(now));
        } else {
          assert t.tabs[|s.tabs|] == s1.tabs[|s.tabs|];
        }
      }
    }
  }

  // ---------- what is written ----------

  predicate DistinctEntries(servers: seq<Server>) {
    forall i, j :: 0 <= i < j < |servers| ==> servers[i] != servers[j]
  }

  /** A file the app can have written. */
  predicate Written(file: TabsFile) {
    && DistinctEntries(file.servers)
    && (forall i :: 0 <= i < |file.servers| ==> WellFormed(file.servers[i]))
    && (file.active < |file.servers| || (file.servers == [] && file.active == 0))
  }

  lemma {:induction false} BoundTabsMembers(tabs: seq<Tab>)
    ensures forall tab :: tab in BoundTabs(tabs) <==> tab in tabs && tab.server.Some?
  {
    if tabs != [] {
      BoundTabsMembers(tabs[1..]);
      assert forall tab :: tab in tabs <==> tab == tabs[0] || tab in tabs[1..];
    }
  }

  lemma {:induction false} BoundTabsDistinct(tabs: seq<Tab>)
    ensures DistinctIds(tabs) ==> DistinctIds(BoundTabs(tabs))
    ensures DistinctServers(tabs) ==> DistinctServers(BoundTabs(tabs))
  {
    if tabs != [] {
      var rest := tabs[1..];
      var bound := BoundTabs(rest);
      BoundTabsDistinct(rest);
      forall i | 0 <= i < |bound|
        ensures exists k :: 1 <= k < |tabs| && tabs[k] == bound[i]
      {
        assert bound[i] in rest;
        var k :| 0 <= k < |rest| && rest[k] == bound[i];
        assert tabs[k + 1] == bound[i];
      }
    }
  }

  /** The saved list names exactly the bound servers. */
  lemma SavedMeansBound(s: Inner, server: Server)
    ensures server in ToFile(s).servers <==> IsBound(s, server)
  {
    BoundTabsMembers(s.tabs);
    var bound := BoundTabs(s.tabs);
    if IsBound(s, server) {
      var tab := s.tabs[FindServer(s.tabs, server)];
      assert tab in bound;
      var i :| 0 <= i < |bound| && bound[i] == tab;
      assert ToFile(s).servers[i] == server;
    }
    if server in ToFile(s).servers {
      var i :| 0 <= i < |bound| && ToFile(s).servers[i] == server;
      assert bound[i] in s.tabs;
    }
  }

  lemma ToFileIsWritten(p: Policy, s: Inner)
    requires TabsOk(p, s)
    ensures Written(ToFile(s))
  {
    hide WellFormed;
    BoundTabsDistinct(s.tabs);
    var bound := BoundTabs(s.tabs);
    forall i | 0 <= i < |bound| ensures WellFormed(ToFile(s).servers[i]) {
      assert bound[i] in s.tabs;
    }
  }

  /** The saved index points at the active tab's server, or at the first one when
      the active tab shows no server. */
  lemma SavedActive(s: Inner)
    requires DistinctIds(s.tabs) && s.active.Some?
    ensures var file := ToFile(s);
            match ServerOf(s, s.active.value)
            case Some(server) => file.active < |file.servers| && file.servers[file.active] == server
            case None => file.active == 0
  {
    BoundTabsMembers(s.tabs);
    BoundTabsDistinct(s.tabs);
    var id, bound := s.active.value, BoundTabs(s.tabs);
    var at := Position(bound, id);
    if at < |bound| {
      assert bound[at] in s.tabs;
    }
    if ServerOf(s, id).Some? {
      var tab := s.tabs[Position(s.tabs, id)];
      assert tab in bound;
    }
  }

  /** Place in the file of the tab at i, if it is bound. */
  function SavedPlace(s: Inner, i: nat): nat
    requires i <= |s.tabs|
  {
    |BoundTabs(s.tabs[..i])|
  }

  lemma {:induction false} BoundOneMore(tabs: seq<Tab>, i: nat)
    requires i < |tabs|
    ensures BoundTabs(tabs[..i + 1]) == BoundTabs(tabs[..i]) + (if tabs[i].server.Some? then [tabs[i]] else [])
    decreases i
  {
    if i > 0 {
      BoundOneMore(tabs[1..], i - 1);
      assert tabs[..i + 1][1..] == tabs[1..][..i];
      assert tabs[..i][1..] == tabs[1..][..i - 1];
    }
  }

  lemma {:induction false} SavedBefore(tabs: seq<Tab>, i: nat, j: nat)
    requires i < j <= |tabs| && tabs[i].server.Some?
    ensures BoundTabs(tabs[..i]) + [tabs[i]] <= BoundTabs(tabs[..j])
    decreases j
  {
    BoundOneMore(tabs, j - 1);
    hide BoundTabs;
    if i < j - 1 {
      SavedBefore(tabs, i, j - 1);
    }
  }

  /** The file lists the bound servers in the order of their tabs. */
  lemma SavedInOrder(s: Inner, i: nat, j: nat)
    requires i < j <= |s.tabs| && s.tabs[i].server.Some?
    ensures SavedPlace(s, i) < SavedPlace(s, j) <= |ToFile(s).servers|
    ensures ToFile(s).servers[SavedPlace(s, i)] == s.tabs[i].server.value
  {
    SavedBefore(s.tabs, i, j);
    SavedBefore(s.tabs, i, |s.tabs|);
    assert s.tabs[..|s.tabs|] == s.tabs;
    SavedGrows(s.tabs, j);
  }

  lemma {:induction false} SavedGrows(tabs: seq<Tab>, j: nat)
    requires j <= |tabs|
    ensures |BoundTabs(tabs[..j])| <= |BoundTabs(tabs)|
    decreases |tabs| - j
  {
    if j < |tabs| {
      BoundOneMore(tabs, j);
      SavedGrows(tabs, j + 1);
    } else {
      assert tabs[..j] == tabs;
    }
  }

  // ---------- agreement ----------

  predicate AllowsAll(p: Policy, servers: seq<Server>) {
    forall i :: 0 <= i < |servers| ==> Allows(p, servers[i])
  }

  predicate AllowsNone(p: Policy, servers: seq<Server>) {
    forall i :: 0 <= i < |servers| ==> !Allows(p, servers[i])
  }

  lemma {:induction false} ReaderKeepsAll(p: Policy, servers: seq<Server>)
    requires DistinctEntries(servers)
    requires forall i :: 0 <= i < |servers| ==> WellFormed(servers[i])
    ensures KeepReadable(servers) == servers && Dedup(servers) == servers
    ensures AllowsAll(p, servers) ==> KeepAllowed(p, servers) == servers
  {
    hide Origin.Normalize;
    hide Allows;
    if servers != [] {
      assert servers == [servers[0]] + servers[1..];
      ReaderKeepsAll(p, servers[1..]);
    }
  }

  lemma BoundOfAllBound(tabs: seq<Tab>)
    requires forall i :: 0 <= i < |tabs| ==> tabs[i].server.Some?
    ensures BoundTabs(tabs) == tabs
  {
    if tabs != [] {
      BoundOfAllBound(tabs[1..]);
    }
  }

  /** Exactly these servers in this order, in tabs 1..n. */
  predicate ShowsInOrder(s: Inner, servers: seq<Server>) {
    && |s.tabs| == |servers|
    && forall i :: 0 <= i < |servers| ==> s.tabs[i].id == i + 1 && s.tabs[i].server == Some(servers[i])
  }

  predicate FreshStart(s: Inner) {
    s.tabs == [Tab(1, None, None)] && s.active == Some(1)
  }

  function ActiveServer(s: Inner): Option<Server> {
    if s.active.Some? then ServerOf(s, s.active.value) else None
  }

  function SavedServer(file: TabsFile): Option<Server> {
    if file.active < |file.servers| then Some(file.servers[file.active]) else None
  }

  lemma AllInserted(servers: seq<Server>, now: Time)
    ensures var t := InsertAll(EMPTY, servers, now);
            && t.active == None && t.nextId == |servers| && |t.tabs| == |servers|
            && forall i :: 0 <= i < |servers| ==> t.tabs[i] == Tab(i + 1, Some(servers[i]), Some(now))
  {
    InsertAllIs(EMPTY, servers, now);
    var t := InsertAll(EMPTY, servers, now);
    forall i | 0 <= i < |servers| ensures t.tabs[i] == Tab(i + 1, Some(servers[i]), Some(now)) {
      assert t.tabs[|EMPTY.tabs| + i] == Tab(EMPTY.nextId + 1 + i, Some(servers[i]), Some(now));
    }
  }

  /** What a launch makes of a non-empty list: the clamped index becomes active. */
  lemma RestoredTabs(file: TabsFile, now: Time)
    requires file.servers != []
    ensures var s, a := Restored(file, now), Min(file.active, |file.servers| - 1);
            && ShowsInOrder(s, file.servers) && s.nextId == |file.servers| && s.active == Some(a + 1)
            && (forall i :: 0 <= i < |s.tabs| ==> s.tabs[i].hiddenSince == if i == a then None else Some(now))
            && Position(s.tabs, a + 1) == a
  {
    var a := Min(file.active, |file.servers| - 1);
    var all := InsertAll(EMPTY, file.servers, now);
    AllInserted(file.servers, now);
    Reorder.PositionIs(all.tabs, a + 1, a);
    var s := Restored(file, now);
    assert s.tabs == ShownAll(all.tabs, a + 1, now);
    Reorder.PositionIs(s.tabs, a + 1, a);
  }

  lemma RestoredIsSaved(file: TabsFile, now: Time)
    requires file.servers != []
    ensures ToFile(Restored(file, now)) == file.(active := Min(file.active, |file.servers| - 1))
  {
    var s := Restored(file, now);
    RestoredTabs(file, now);
    BoundOfAllBound(s.tabs);
    assert ServersOf(s.tabs) == file.servers;
  }

  /** A launch under a policy that allows every saved server brings back the same
      servers in the same order with ids 1..n, activates the saved one, and saves
      the same file again; an empty file gives one unbound tab. */
  lemma RestoreAgrees(p: Policy, file: TabsFile, now: Time)
    requires Written(file) && AllowsAll(p, file.servers)
    ensures var s := Restored(ReadFile(p, Saved(file)), now);
            && ToFile(s) == file
            && Forgotten(p, Saved(file)) == []
            && (if file.servers == [] then FreshStart(s)
                else ShowsInOrder(s, file.servers) && ActiveServer(s) == SavedServer(file))
  {
    hide Origin.Normalize;
    hide Allows;
    ReaderKeepsAll(p, file.servers);
    NothingBlocked(p, file.servers);
    assert ReadFile(p, Saved(file)) == file;
    if file.servers == [] {
      assert Restored(file, now).tabs == [Tab(1, None, None)];
      assert BoundTabs([Tab(1, None, None)]) == [];
    } else {
      RestoredTabs(file, now);
      RestoredIsSaved(file, now);
    }
  }

  lemma NothingBlocked(p: Policy, servers: seq<Server>)
    requires AllowsAll(p, servers)
    ensures KeepBlocked(p, servers) == []
  {
    hide Allows;
    if KeepBlocked(p, servers) != [] {
      assert KeepBlocked(p, servers)[0] in KeepBlocked(p, servers);
    }
  }

  /** Saving a state and launching again under a policy that allows its servers:
      same bound servers in the same order, and the same active server, or the
      first one when the active tab showed none. */
  lemma RestartAgrees(p: Policy, s: Inner, q: Policy, now: Time)
    requires TabsOk(p, s) && s.active.Some?
    requires AllowsAll(q, ToFile(s).servers) && ToFile(s).servers != []
    ensures var t := Restored(ReadFile(q, Saved(ToFile(s))), now);
            && ShowsInOrder(t, ToFile(s).servers)
            && ActiveServer(t) == (if ActiveServer(s).Some? then ActiveServer(s) else Some(ToFile(s).servers[0]))
  {
    hide Usable;
    ToFileIsWritten(p, s);
    hide Origin.Normalize;
    hide Allows;
    SavedActive(s);
    RestoreAgrees(q, ToFile(s), now);
  }

  // ---------- when policy drops entries ----------

  lemma {:induction false} AllowedPrefix(p: Policy, servers: seq<Server>, k: nat)
    requires k < |servers| && Allows(p, servers[k])
    ensures var n := |KeepAllowed(p, servers[..k])|;
            && n < |KeepAllowed(p, servers)| && KeepAllowed(p, servers)[n] == servers[k]
            && |KeepAllowed(p, servers)| == n + 1 + |KeepAllowed(p, servers[k + 1..])|
  {
    hide Allows;
    hide KeepAllowed;
    KeepFirst(p, servers);
    KeepFirst(p, servers[..k]);
    if k > 0 {
      AllowedPrefix(p, servers[1..], k - 1);
      assert servers[1..][..k - 1] == servers[..k][1..];
      assert servers[1..][k..] == servers[k + 1..];
    }
  }

  lemma {:induction false} AllowedCount(p: Policy, servers: seq<Server>)
    ensures |KeepAllowed(p, servers)| == |servers| <==> AllowsAll(p, servers)
    ensures |KeepAllowed(p, servers)| == 0 <==> AllowsNone(p, servers)
  {
    hide Allows;
    if servers != [] {
      AllowedCount(p, servers[1..]);
      assert forall i :: 1 <= i < |servers| ==> servers[i] == servers[1..][i - 1];
    }
  }

  lemma {:induction false} AllowedDistinct(p: Policy, servers: seq<Server>)
    requires DistinctEntries(servers)
    ensures DistinctEntries(KeepAllowed(p, servers))
  {
    hide Allows;
    if servers != [] {
      AllowedDistinct(p, servers[1..]);
      var kept := KeepAllowed(p, servers[1..]);
      assert forall i :: 0 <= i < |kept| ==> kept[i] in servers[1..];
    }
  }

  /** The saved index is not adjusted for entries policy drops. It stays in range,
      and the server activated is the saved one exactly when that is still allowed
      and either nothing before it was dropped or nothing after it was kept. */
  lemma ActiveAfterDrops(p: Policy, file: TabsFile, now: Time)
    requires Written(file) && KeepAllowed(p, file.servers) != []
    ensures var s := Restored(ReadFile(p, Saved(file)), now);
            && ActiveServer(s).Some?
            && (ActiveServer(s) == SavedServer(file) <==> SavedIsKept(p, file.servers, file.active))
  {
    hide Allows;
    hide Restored;
    hide KeepAllowed;
    hide SavedIsKept;
    hide ReadFile;
    var servers := file.servers;
    ReadWritten(p, file);
    RestoredActive(ReadFile(p, Saved(file)), now);
    SomethingKept(p, servers);
    hide WellFormed;
    ActiveEntry(p, servers, file.active);
  }

  /** The reader only applies the policy to a file the app wrote. */
  lemma ReadWritten(p: Policy, file: TabsFile)
    requires Written(file)
    ensures ReadFile(p, Saved(file)) == TabsFile(KeepAllowed(p, file.servers), file.active)
  {
    hide WellFormed;
    hide Allows;
    ReaderKeepsAll(p, file.servers);
    hide KeepReadable;
    hide Dedup;
    hide KeepAllowed;
  }

  lemma SomethingKept(p: Policy, servers: seq<Server>)
    ensures KeepAllowed(p, servers) != [] ==> servers != []
  {
    hide Allows;
  }

  const LOCAL_MODE_OFF := RawPolicy(None, None, Some(true), None)

  lemma WrittenWithLocal(a: Server, b: Server)
    requires a.mode == b.mode == Remote && WellFormed(a) && WellFormed(b) && a != b
    ensures Written(TabsFile([LOCAL, a, b], 1))
  {
    LocalIsWellFormed();
    hide WellFormed;
  }

  /** Local mode is switched off between two launches: the local entry goes, the
      index stays, and the tab after the saved one becomes active. */
  lemma WrongTabActive(a: Server, b: Server, now: Time)
    requires a.mode == b.mode == Remote && WellFormed(a) && WellFormed(b) && a != b
    ensures var file := TabsFile([LOCAL, a, b], 1);
            && Written(file) && SavedServer(file) == Some(a)
            && ActiveServer(Restored(ReadFile(FromRaw(LOCAL_MODE_OFF), Saved(file)), now)) == Some(b)
  {
    hide WellFormed;
    hide Written;
    hide ReadFile;
    hide KeepAllowed;
    hide Restored;
    hide ActiveServer;
    hide FromRaw;
    WrittenWithLocal(a, b);
    ReadWritten(FromRaw(LOCAL_MODE_OFF), TabsFile([LOCAL, a, b], 1));
    OnlyRemotesKept(a, b);
    RestoredActive(TabsFile([a, b], 1), now);
  }

  lemma LocalIsWellFormed()
    ensures WellFormed(LOCAL)
  {
    hide Origin.Normalize;
  }

  lemma OnlyRemotesAllowed(server: Server)
    ensures server.mode == Remote ==> Allows(FromRaw(LOCAL_MODE_OFF), server)
    ensures server == LOCAL ==> !Allows(FromRaw(LOCAL_MODE_OFF), server)
  {
    hide Origin.Normalize;
  }

  lemma OnlyRemotesKept(a: Server, b: Server)
    requires a.mode == b.mode == Remote
    ensures KeepAllowed(FromRaw(LOCAL_MODE_OFF), [LOCAL, a, b]) == [a, b]
  {
    hide Allows;
    hide FromRaw;
    hide KeepAllowed;
    var p := FromRaw(LOCAL_MODE_OFF);
    OnlyRemotesAllowed(LOCAL);
    OnlyRemotesAllowed(a);
    OnlyRemotesAllowed(b);
    KeepFirst(p, [LOCAL, a, b]);
    KeepFirst(p, [a, b]);
    KeepFirst(p, [b]);
    KeepFirst(p, []);
    assert [LOCAL, a, b][1..] == [a, b] && [a, b][1..] == [b] && [b][1..] == [];
  }

  lemma RestoredActive(file: TabsFile, now: Time)
    requires file.servers != []
    ensures ActiveServer(Restored(file, now)) == Some(file.servers[Min(file.active, |file.servers| - 1)])
  {
    RestoredTabs(file, now);
  }

  predicate SavedIsKept(p: Policy, servers: seq<Server>, k: nat) {
    && k < |servers| && Allows(p, servers[k])
    && (|| AllowsAll(p, servers[..k])
        || AllowsNone(p, servers[k + 1..]))
  }

  lemma ActiveEntry(p: Policy, servers: seq<Server>, k: nat)
    requires DistinctEntries(servers) && k < |servers| && KeepAllowed(p, servers) != []
    ensures var kept := KeepAllowed(p, servers);
            kept[Min(k, |kept| - 1)] == servers[k] <==> SavedIsKept(p, servers, k)
  {
    hide Allows;
    var kept := KeepAllowed(p, servers);
    if Allows(p, servers[k]) {
      var before, after := servers[..k], servers[k + 1..];
      AllowedPrefix(p, servers, k);
      AllowedDistinct(p, servers);
      AllowedCount(p, before);
      AllowedCount(p, after);
      ClampHits(kept, servers[k], |KeepAllowed(p, before)|, |KeepAllowed(p, after)|, k);
    } else {
      assert kept[Min(k, |kept| - 1)] in kept;
    }
  }

  lemma ClampHits(kept: seq<Server>, server: Server, before: nat, after: nat, k: nat)
    requires DistinctEntries(kept) && |kept| == before + 1 + after && kept[before] == server
    requires before <= k
    ensures kept[Min(k, |kept| - 1)] == server <==> before == k || after == 0
  {
    var a := Min(k, |kept| - 1);
    assert a < before || a == before || before < a;
  }

  // ---------- files the app did not write ----------

  /** Equal entries that policy allows stand next to each other. */
  predicate Grouped(p: Policy, servers: seq<Server>) {
    forall i, j, k :: 0 <= i < k < j < |servers| && servers[i] == servers[j] && Allows(p, servers[i]) ==>
      servers[k] == servers[i]
  }

  lemma {:induction false} GroupedTail(p: Policy, servers: seq<Server>)
    requires |servers| >= 2
    ensures Grouped(p, servers) ==> Grouped(p, servers[1..])
    ensures servers[0] == servers[1] && Grouped(p, servers[1..]) ==> Grouped(p, servers)
    ensures !Allows(p, servers[0]) && Grouped(p, servers[1..]) ==> Grouped(p, servers)
    ensures servers[0] !in servers[1..] && Grouped(p, servers[1..]) ==> Grouped(p, servers)
    ensures servers[0] != servers[1] && Allows(p, servers[0]) && Grouped(p, servers) ==> servers[0] !in servers[1..]
  {
    hide Allows;
    var rest := servers[1..];
    assert forall i :: 0 <= i < |rest| ==> rest[i] == servers[i + 1];
    if Grouped(p, rest) {
      forall i, j, k | 0 <= i < k < j < |servers| && servers[i] == servers[j] && Allows(p, servers[i])
        && (servers[0] == servers[1] || !Allows(p, servers[0]) || servers[0] !in rest)
        ensures servers[k] == servers[i]
      {
        if i > 0 {
          assert rest[k - 1] == rest[i - 1];
        } else {
          assert rest[j - 1] == servers[0];
          if k > 1 { assert rest[k - 1] == rest[0]; }
        }
      }
    }
  }

  /** The reader drops adjacent duplicates only: a restored file shows each server
      in one tab exactly when equal allowed entries stand next to each other. */
  lemma {:induction false} DedupIsEnough(p: Policy, servers: seq<Server>)
    ensures DistinctEntries(KeepAllowed(p, Dedup(servers))) <==> Grouped(p, servers)
  {
    hide Allows;
    if |servers| >= 2 {
      var rest := servers[1..];
      DedupIsEnough(p, rest);
      GroupedTail(p, servers);
      var kept := KeepAllowed(p, Dedup(rest));
      if servers[0] != servers[1] && Allows(p, servers[0]) {
        assert Dedup(servers)[1..] == Dedup(rest);
        assert KeepAllowed(p, Dedup(servers)) == [servers[0]] + kept;
        HeadDistinct(servers[0], kept);
      } else if servers[0] != servers[1] {
        assert Dedup(servers)[1..] == Dedup(rest);
        assert KeepAllowed(p, Dedup(servers)) == kept;
      }
    }
  }

  lemma HeadDistinct(head: Server, tail: seq<Server>)
    ensures DistinctEntries([head] + tail) <==> head !in tail && DistinctEntries(tail)
  {
    var all := [head] + tail;
    assert forall i :: 0 <= i < |tail| ==> all[i + 1] == tail[i];
    if head in tail {
      var i :| 0 <= i < |tail| && tail[i] == head;
      assert all[0] == all[i + 1];
    }
  }

  /** For any file at all, written by the app or not. */
  lemma RestoredShowsEachOnce(p: Policy, file: TabsFile, now: Time)
    ensures DistinctServers(Restored(ReadFile(p, Saved(file)), now).tabs) <==>
            Grouped(p, KeepReadable(file.servers))
  {
    hide Readable;
    hide Allows;
    hide Grouped;
    var read := ReadFile(p, Saved(file));
    DedupIsEnough(p, KeepReadable(file.servers));
    hide KeepReadable;
    hide KeepAllowed;
    hide Dedup;
    if read.servers != [] {
      RestoredTabs(read, now);
    }
  }

  /** A file edited by hand: the same server twice, with another one between, comes
      back as two tabs. */
  lemma SameServerTwice(a: Server, b: Server, now: Time)
    requires a.mode == b.mode == Remote && WellFormed(a) && WellFormed(b) && a != b
    ensures !DistinctServers(Restored(ReadFile(FromRaw(NOTHING_SET), Saved(TabsFile([a, b, a], 0))), now).tabs)
  {
    hide Allows;
    hide FromRaw;
    hide Readable;
    hide WellFormed;
    hide KeepReadable;
    hide DistinctServers;
    hide Restored;
    hide ReadFile;
    var p, servers := FromRaw(NOTHING_SET), [a, b, a];
    RemoteIsKept(a);
    RemoteIsKept(b);
    AllReadable(servers);
    assert servers[0] == servers[2] && servers[1] != servers[0];
    assert !Grouped(p, servers);
    RestoredShowsEachOnce(p, TabsFile(servers, 0), now);
  }

  lemma RemoteIsKept(server: Server)
    requires server.mode == Remote && WellFormed(server)
    ensures Readable(server) && Allows(FromRaw(NOTHING_SET), server)
  {
    hide Origin.Normalize;
  }

  lemma {:induction false} AllReadable(servers: seq<Server>)
    requires forall i :: 0 <= i < |servers| ==> Readable(servers[i])
    ensures KeepReadable(servers) == servers
  {
    hide Readable;
    if servers != [] {
      AllReadable(servers[1..]);
    }
  }

  /** There are such servers: both things happen to files and policies that exist. */
  lemma BothHappen(now: Time) returns (a: Server, b: Server)
    ensures var restarted := Restored(ReadFile(FromRaw(LOCAL_MODE_OFF), Saved(TabsFile([LOCAL, a, b], 1))), now);
            a != b && ActiveServer(restarted) == Some(b)
    ensures !DistinctServers(Restored(ReadFile(FromRaw(NOTHING_SET), Saved(TabsFile([a, b, a], 0))), now).tabs)
  {
    hide WellFormed;
    hide ReadFile;
    hide Restored;
    hide DistinctServers;
    hide ActiveServer;
    a, b := TwoRemotes();
    WrongTabActive(a, b, now);
    SameServerTwice(a, b, now);
  }
}
