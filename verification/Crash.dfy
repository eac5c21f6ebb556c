/** Launches and crashes: a process may die after any operation, also during
    start-up; the next launch may run under another policy. */
module Crash {
  import opened Wrappers
  import opened Servers
  import opened Policies
  import opened Tabs
  import opened Restore
  import opened Sidecars
  import opened Shell
  import opened Invariants
  import opened Commands
  import opened Turns

  // ---------- start-up ----------

  lemma {:induction false} DropAllIs(servers: seq<Server>, w: World)
    ensures var after := Exec(DropAll(servers), w);
            && after == w.(keychain := after.keychain)
            && (forall key :: key in after.keychain <==> key in w.keychain && !HasKey(servers, key))
            && (forall key :: key in after.keychain ==> after.keychain[key] == w.keychain[key])
    ensures forall i :: 0 <= i < |DropAll(servers)| ==> IsQuiet(DropAll(servers)[i])
  {
    if servers != [] {
      var w1 := Apply(w, DropToken(KeychainKey(servers[0])));
      DropAllIs(servers[1..], w1);
      assert forall key :: HasKey(servers, key) <==> key == KeychainKey(servers[0]) || HasKey(servers[1..], key) by {
        forall key ensures HasKey(servers, key) <==> key == KeychainKey(servers[0]) || HasKey(servers[1..], key) {
          HasKeyHead(servers, key);
        }
      }
    }
  }

  lemma HasKeyHead(servers: seq<Server>, key: string)
    requires servers != []
    ensures HasKey(servers, key) <==> key == KeychainKey(servers[0]) || HasKey(servers[1..], key)
  {
    if HasKey(servers[1..], key) {
      var i :| 0 <= i < |servers[1..]| && KeychainKey(servers[1..][i]) == key;
      assert servers[i + 1] == servers[1..][i];
    }
    if HasKey(servers, key) && key != KeychainKey(servers[0]) {
      var i :| 0 <= i < |servers| && KeychainKey(servers[i]) == key;
      assert servers[1..][i - 1] == servers[i];
    }
  }

  lemma {:induction false} InsertEachIs(servers: seq<Server>, w: World, now: Time)
    ensures Exec(InsertEach(servers, now), w) == w.(inner := InsertAll(w.inner, servers, now))
    ensures forall i :: 0 <= i < |InsertEach(servers, now)| ==> IsQuiet(InsertEach(servers, now)[i])
    decreases |servers|
  {
    hide Insert;
    if servers != [] {
      InsertEachIs(servers[1..], Apply(w, Locked(InsertTab(Some(servers[0]), now))), now);
    }
  }

  /** Inserting distinct usable servers into an empty list. */
  lemma {:induction false} InsertAllOk(p: Policy, servers: seq<Server>, now: Time)
    requires DistinctEntries(servers) && forall i :: 0 <= i < |servers| ==> Usable(p, servers[i])
    ensures TabsOk(p, InsertAll(EMPTY, servers, now))
    ensures forall server :: server in servers ==> IsBound(InsertAll(EMPTY, servers, now), server)
  {
    hide Usable;
    AllInserted(servers, now);
    var s := InsertAll(EMPTY, servers, now);
    forall server | server in servers ensures IsBound(s, server) {
      var i :| 0 <= i < |servers| && servers[i] == server;
      BoundAt(s, server, i);
    }
  }

  /** The servers a launch restores: those of the file that policy allows. */
  function Kept(p: Policy, disk: DiskFile): seq<Server> {
    ReadFile(p, disk).servers
  }

  /** The key of a server of the file that policy blocks. */
  predicate BlockedKey(p: Policy, disk: DiskFile, key: string) {
    disk.Saved? && exists i :: 0 <= i < |disk.file.servers| && KeychainKey(disk.file.servers[i]) == key
                               && !Allows(p, disk.file.servers[i])
  }

  /** The reader splits the entries: each is kept or forgotten. */
  lemma SplitByPolicy(p: Policy, servers: seq<Server>, key: string)
    ensures HasKey(servers, key) ==> HasKey(KeepAllowed(p, servers), key) || HasKey(KeepBlocked(p, servers), key)
    ensures HasKey(KeepBlocked(p, servers), key) <==>
            exists i :: 0 <= i < |servers| && KeychainKey(servers[i]) == key && !Allows(p, servers[i])
  {
    hide Allows;
    var kept, blocked := KeepAllowed(p, servers), KeepBlocked(p, servers);
    if HasKey(servers, key) {
      var i :| 0 <= i < |servers| && KeychainKey(servers[i]) == key;
      InListHasKey(kept, servers[i]);
      InListHasKey(blocked, servers[i]);
      assert servers[i] in kept || servers[i] in blocked;
    }
    if HasKey(blocked, key) {
      var j :| 0 <= j < |blocked| && KeychainKey(blocked[j]) == key;
      assert blocked[j] in servers && !Allows(p, blocked[j]);
    }
    if i :| 0 <= i < |servers| && KeychainKey(servers[i]) == key && !Allows(p, servers[i]) {
      assert servers[i] in blocked;
      InListHasKey(blocked, servers[i]);
    }
  }

  lemma KeptAreUsable(p: Policy, servers: seq<Server>)
    requires forall i :: 0 <= i < |servers| ==> WellFormed(servers[i])
    ensures var kept := KeepAllowed(p, servers); forall i :: 0 <= i < |kept| ==> Usable(p, kept[i])
  {
    hide WellFormed;
    hide Allows;
    var kept := KeepAllowed(p, servers);
    forall i | 0 <= i < |kept| ensures Usable(p, kept[i]) {
      assert kept[i] in kept;
    }
  }

  /** What the reader makes of a safe disk. */
  lemma ReaderOnSafe(p: Policy, w: World)
    requires Safe(w)
    ensures DistinctEntries(Kept(p, w.disk))
    ensures forall i :: 0 <= i < |Kept(p, w.disk)| ==> Usable(p, Kept(p, w.disk)[i])
    ensures forall key :: key in w.keychain ==> HasKey(Kept(p, w.disk), key) || HasKey(Forgotten(p, w.disk), key)
    ensures forall key :: HasKey(Forgotten(p, w.disk), key) <==> BlockedKey(p, w.disk, key)
  {
    hide WellFormed;
    hide Allows;
    hide Usable;
    hide KeepAllowed;
    hide KeepBlocked;
    hide KeepReadable;
    hide Dedup;
    match w.disk
    case Missing =>
      assert KeepAllowed(p, []) == [] && KeepBlocked(p, []) == [] by { NothingToKeep(p); }
    case Saved(file) =>
      ReaderKeepsAll(p, file.servers);
      AllowedDistinct(p, file.servers);
      KeptAreUsable(p, file.servers);
      assert Entries(w.disk) == file.servers;
      forall key
        ensures HasKey(file.servers, key) ==>
                  HasKey(KeepAllowed(p, file.servers), key) || HasKey(KeepBlocked(p, file.servers), key)
        ensures HasKey(Forgotten(p, w.disk), key) <==> BlockedKey(p, w.disk, key)
      {
        SplitByPolicy(p, file.servers, key);
      }
  }

  lemma NothingToKeep(p: Policy)
    ensures KeepAllowed(p, []) == [] && KeepBlocked(p, []) == []
  {
  }

  lemma InListHasKey(servers: seq<Server>, server: Server)
    ensures server in servers ==> HasKey(servers, KeychainKey(server))
  {
    if server in servers {
      var i :| 0 <= i < |servers| && servers[i] == server;
      assert KeychainKey(servers[i]) == KeychainKey(server);
    }
  }

  /** The state after forgetting and inserting, before a tab is activated. */
  function Restoring(p: Policy, w: World, now: Time): World {
    var forgotten := Exec(DropAll(Forgotten(p, w.disk)), Booted(w));
    forgotten.(inner := InsertAll(EMPTY, Kept(p, w.disk), now))
  }

  lemma RestoringIsConsistent(p: Policy, w: World, now: Time)
    requires Safe(w)
    ensures Consistent(p, Restoring(p, w, now))
    ensures Safe(Exec(DropAll(Forgotten(p, w.disk)), Booted(w)))
  {
    hide Usable;
    hide ReadFile;
    var w1 := Exec(DropAll(Forgotten(p, w.disk)), Booted(w));
    var w2 := Restoring(p, w, now);
    DropAllIs(Forgotten(p, w.disk), Booted(w));
    ReaderOnSafe(p, w);
    var kept := Kept(p, w.disk);
    InsertAllOk(p, kept, now);
    hide TabsOk;
    hide Written;
    forall key | key in w2.keychain ensures BoundKey(w2.inner, key) {
      assert HasKey(kept, key);
      var i :| 0 <= i < |kept| && KeychainKey(kept[i]) == key;
      assert kept[i] in kept;
    }
    assert SidecarOk(IDLE);
  }

  lemma BootedIsSafe(w: World)
    requires Safe(w)
    ensures Safe(Booted(w))
  {
    hide Written;
  }

  /** Start-up, cut anywhere, leaves a safe state, and completed leaves everything
      in step: whatever the policy of this launch. */
  lemma InitKeeps(p: Policy, w: World, now: Time)
    requires Safe(w)
    ensures AllSafe(InitScript(p, Booted(w), now), Booted(w))
    ensures Inv(p, Launched(p, w, now))
    ensures Launched(p, w, now).keychain == Exec(DropAll(Forgotten(p, w.disk)), Booted(w)).keychain
    ensures Launched(p, w, now).inner == Restored(ReadFile(p, w.disk), now)
  {
    hide AllSafe;
    hide Safe;
    hide Consistent;
    hide WindowOk;
    hide Inv;
    hide ActivateScript;
    hide ReadFile;
    hide Forgotten;
    hide OpenScript;
    hide InsertEach;
    hide DropAll;
    hide Tabs.Step;
    hide ToFile;
    hide HasTab;
    var b := Booted(w);
    BootedIsSafe(w);
    var forget := DropAll(Forgotten(p, w.disk));
    DropAllIs(Forgotten(p, w.disk), b);
    var w1 := Exec(forget, b);
    QuietScriptIsSafe(forget, b);
    RestoringIsConsistent(p, w, now);
    var file := ReadFile(p, w.disk);
    if file.servers == [] {
      assert Restoring(p, w, now) == w1;
      OpenKeeps(p, w1, None, now);
      TwoScripts(forget, OpenScript(w1, None, now), b);
    } else {
      var insert := InsertEach(file.servers, now);
      InsertEachIs(file.servers, w1, now);
      var w2 := Exec(insert, w1);
      assert w2 == Restoring(p, w, now);
      QuietScriptIsSafe(insert, w1);
      TwoScripts(forget, insert, b);
      var id := Min(file.active, |file.servers| - 1) + 1;
      AllInserted(file.servers, now);
      TabAt(w2.inner, id, id - 1);
      ActivateKeeps(p, w2, id, now);
      TwoScripts(forget + insert, ActivateScript(w2, id, now), b);
    }
  }

  /** Quitting between commands and launching again under a policy that allows the
      saved servers loses nothing: same bound servers in the same order, the same
      active one (or the first, when the active tab showed none), the same
      credentials, and the same file. */
  lemma RestartKeepsAll(p: Policy, w: World, q: Policy, now: Time)
    requires Inv(p, w) && AllowsAll(q, ToFile(w.inner).servers) && ToFile(w.inner).servers != []
    ensures var next, servers := Launched(q, w, now), ToFile(w.inner).servers;
            && Inv(q, next) && next.disk == w.disk && next.keychain == w.keychain
            && ShowsInOrder(next.inner, servers)
            && ActiveServer(next.inner) ==
                 (if ActiveServer(w.inner).Some? then ActiveServer(w.inner) else Some(servers[0]))
  {
    InvIsSaved(p, w);
    hide Safe;
    InitKeeps(q, w, now);
    hide Launched;
    InvIsSaved(q, Launched(q, w, now));
    hide Inv;
    ToFileIsWritten(p, w.inner);
    RestoreAgrees(q, ToFile(w.inner), now);
    RestartAgrees(p, w.inner, q, now);
    hide Restored;
    hide ToFile;
    hide ReadFile;
    hide TabsOk;
    DropAllIs([], Booted(w));
  }

  // ---------- histories ----------

  /** One process: its policy, its commands, and after how many operations of
      start-up and commands it died (all of them if `cut` is larger). */
  datatype Session = Session(policy: Policy, start: Time, turns: seq<Turn>, cut: nat)

  function RunSession(w: World, session: Session): World {
    var ops := SessionOps(session.policy, w, session.start, session.turns);
    Exec(ops[..Min(session.cut, |ops|)], Booted(w))
  }

  function RunSessions(w: World, sessions: seq<Session>): World
    decreases |sessions|
  {
    if sessions == [] then w else RunSessions(RunSession(w, sessions[0]), sessions[1..])
  }

  predicate LegalSessions(sessions: seq<Session>) {
    forall i :: 0 <= i < |sessions| ==> AllLegal(sessions[i].policy, sessions[i].turns)
  }

  /** Before the first launch: no file, no credentials. */
  const PRISTINE := World(EMPTY, map[], Missing, None, map[], IDLE)

  /** The very first launch: one empty tab, shown, nothing stored, nothing running. */
  lemma FirstLaunch(p: Policy, now: Time)
    ensures var w := Launched(p, PRISTINE, now);
            Inv(p, w) && w.inner.tabs == [Tab(1, None, None)] && w.keychain == map[] && w.disk == Saved(TabsFile([], 0))
  {
    hide Launched;
    hide Forgotten;
    hide DropAll;
    hide ReadFile;
    InitKeeps(p, PRISTINE, now);
    DropAllIs(Forgotten(p, Missing), Booted(PRISTINE));
    NothingRead(p);
    var w := Launched(p, PRISTINE, now);
    InvIsSaved(p, w);
    hide Inv;
    EmptyRestore(now);
    assert w.keychain.Keys == {};
  }

  lemma NothingRead(p: Policy)
    ensures ReadFile(p, Missing) == TabsFile([], 0)
  {
    NothingToKeep(p);
  }

  lemma EmptyRestore(now: Time)
    ensures var s := Restored(TabsFile([], 0), now);
            s.tabs == [Tab(1, None, None)] && ToFile(s) == TabsFile([], 0)
  {
    var s := Restored(TabsFile([], 0), now);
    assert s.tabs == [Tab(1, None, None)];
    assert BoundTabs([Tab(1, None, None)]) == [];
  }

  lemma SessionIsSafe(w: World, session: Session)
    requires Safe(w) && AllLegal(session.policy, session.turns)
    ensures Safe(RunSession(w, session))
  {
    hide Safe;
    hide AllSafe;
    hide Inv;
    hide InitScript;
    hide RunOps;
    hide AllLegal;
    var p, b := session.policy, Booted(w);
    var launched := Launched(p, w, session.start);
    InitKeeps(p, w, session.start);
    RunKeeps(p, launched, session.turns);
    TwoScripts(InitScript(p, b, session.start), RunOps(p, launched, session.turns), b);
    var ops := SessionOps(p, w, session.start, session.turns);
    AllSafePrefix(ops, b, Min(session.cut, |ops|));
  }

  /** Any number of launches, each under its own policy and each cut anywhere. */
  lemma {:induction false} HistoryIsSafe(w: World, sessions: seq<Session>)
    requires Safe(w) && LegalSessions(sessions)
    ensures Safe(RunSessions(w, sessions))
    decreases |sessions|
  {
    hide Safe;
    hide AllLegal;
    hide RunSession;
    if sessions != [] {
      SessionIsSafe(w, sessions[0]);
      HistoryIsSafe(RunSession(w, sessions[0]), sessions[1..]);
    }
  }

  /** Exactly one tab shows the server this credential belongs to. */
  ghost predicate BoundOnce(s: Inner, key: string) {
    exists i :: 0 <= i < |s.tabs| && OwnsKey(s.tabs[i], key)
                && forall j :: 0 <= j < |s.tabs| && OwnsKey(s.tabs[j], key) ==> j == i
  }

  predicate OwnsKey(tab: Tab, key: string) {
    tab.server.Some? && KeychainKey(tab.server.value) == key
  }

  lemma BoundKeyOnce(p: Policy, s: Inner, key: string)
    requires TabsOk(p, s) && BoundKey(s, key)
    ensures BoundOnce(s, key)
  {
    var server :| IsBound(s, server) && KeychainKey(server) == key;
    var i := FindServer(s.tabs, server);
    forall j | 0 <= j < |s.tabs| && OwnsKey(s.tabs[j], key) ensures j == i {
      if j < i {
        BoundKeysDistinct(p, s, j, i);
      } else if i < j {
        BoundKeysDistinct(p, s, i, j);
      }
    }
    hide Usable;
    assert OwnsKey(s.tabs[i], key);
  }

  /** Crash safety of credentials. Take any history of launches and commands, every
      process killed after any operation, and launch once more under any policy:
      a stored token survives, unchanged, exactly unless it belongs to a server of
      the file that policy now blocks, and each surviving token belongs to the server of
      exactly one restored tab. */
  lemma CredentialsSurviveCrashes(sessions: seq<Session>, q: Policy, now: Time)
    requires LegalSessions(sessions)
    ensures var crashed := RunSessions(PRISTINE, sessions);
            var next := Launched(q, crashed, now);
            && Inv(q, next)
            && (forall key :: key in crashed.keychain ==>
                  if BlockedKey(q, crashed.disk, key) then key !in next.keychain
                  else key in next.keychain && next.keychain[key] == crashed.keychain[key])
            && (forall key :: key in next.keychain ==> key in crashed.keychain && BoundOnce(next.inner, key))
  {
    hide LegalSessions;
    hide RunSessions;
    hide Launched;
    HistoryIsSafe(PRISTINE, sessions);
    var crashed := RunSessions(PRISTINE, sessions);
    var next := Launched(q, crashed, now);
    InitKeeps(q, crashed, now);
    DropAllIs(Forgotten(q, crashed.disk), Booted(crashed));
    ReaderOnSafe(q, crashed);
    hide BlockedKey;
    hide Forgotten;
    hide TabsOk;
    hide BoundKey;
    hide WindowOk;
    hide ToFile;
    hide Safe;
    forall key | key in next.keychain ensures BoundOnce(next.inner, key) {
      BoundKeyOnce(q, next.inner, key);
    }
  }
}
