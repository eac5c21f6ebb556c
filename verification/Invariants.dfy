/** What every command keeps (window, resources, file) and what every single
    operation keeps (what a crash must find on disk and in the keychain). */
module Invariants {
  import opened Wrappers
  import opened Servers
  import opened Policies
  import opened Tabs
  import opened Restore
  import opened Sidecars
  import opened Shell

  // ---------- the invariants ----------

  /** The key is the account of some server in the list. */
  predicate HasKey(servers: seq<Server>, key: string) {
    exists i :: 0 <= i < |servers| && KeychainKey(servers[i]) == key
  }

  ghost predicate KeysAmong(keychain: map<string, string>, servers: seq<Server>) {
    forall key :: key in keychain ==> HasKey(servers, key)
  }

  /** What a crash may leave behind: a file the app wrote (or none yet), and
      credentials only for servers the file names. */
  ghost predicate Safe(w: World) {
    match w.disk
    case Missing => w.keychain == map[]
    case Corrupt => false
    case Saved(file) => Written(file) && KeysAmong(w.keychain, file.servers)
  }

  /** The key is the account of a server some tab shows. */
  ghost predicate BoundKey(s: Inner, key: string) {
    exists server :: IsBound(s, server) && KeychainKey(server) == key
  }

  /** Tabs, credentials, webviews and sidecar fit together. */
  ghost predicate Consistent(p: Policy, w: World) {
    && TabsOk(p, w.inner)
    && Safe(w)
    && (forall key :: key in w.keychain ==> BoundKey(w.inner, key))
    && (forall id :: id in w.webviews ==> HasTab(w.inner, id))
    && SidecarOk(w.sidecar)
    && (w.sidecar.running.Some? ==> IsBound(w.inner, LOCAL))
  }

  /** The active tab exists, is the only one not hidden, and its webview exists
      and is the only one shown. */
  ghost predicate WindowOk(w: World) {
    && w.inner.active.Some?
    && var id := w.inner.active.value;
       && HasTab(w.inner, id)
       && (forall i :: 0 <= i < |w.inner.tabs| ==> (w.inner.tabs[i].hiddenSince.None? <==> w.inner.tabs[i].id == id))
       && id in w.webviews
       && (forall l :: l in w.webviews ==> (w.webviews[l] <==> l == id))
  }

  /** What holds between commands. */
  ghost predicate Inv(p: Policy, w: World) {
    && Consistent(p, w)
    && WindowOk(w)
    && w.disk == Saved(ToFile(w.inner))
  }

  /** No operation, wherever the script is cut, leaves an unsafe state. */
  ghost predicate AllSafe(ops: seq<Op>, w: World)
    decreases |ops|
  {
    Safe(w) && (ops != [] ==> AllSafe(ops[1..], Apply(w, ops[0])))
  }

  lemma {:induction false} AllSafeAppend(a: seq<Op>, b: seq<Op>, w: World)
    requires AllSafe(a, w) && AllSafe(b, Exec(a, w))
    ensures AllSafe(a + b, w)
    decreases |a|
  {
    hide Safe;
    if a == [] {
      assert a + b == b;
    } else {
      assert (a + b)[1..] == a[1..] + b;
      AllSafeAppend(a[1..], b, Apply(w, a[0]));
    }
  }

  lemma {:induction false} AllSafePrefix(ops: seq<Op>, w: World, cut: nat)
    requires AllSafe(ops, w) && cut <= |ops|
    ensures Safe(Exec(ops[..cut], w))
    decreases |ops|
  {
    hide Safe;
    if cut > 0 {
      assert ops[..cut][1..] == ops[1..][..cut - 1];
      AllSafePrefix(ops[1..], Apply(w, ops[0]), cut - 1);
    }
  }

  // ---------- single operations ----------

  /** An operation that writes neither the file nor a token. */
  predicate IsQuiet(op: Op) {
    !op.RenameTmp? && !op.PutToken?
  }

  lemma QuietIsSafe(w: World, op: Op)
    requires Safe(w) && IsQuiet(op)
    ensures Safe(Apply(w, op))
  {
    hide Written;
    hide ToFile;
  }

  lemma {:induction false} QuietScriptIsSafe(ops: seq<Op>, w: World)
    requires Safe(w) && forall i :: 0 <= i < |ops| ==> IsQuiet(ops[i])
    ensures AllSafe(ops, w)
    decreases |ops|
  {
    if ops != [] {
      QuietIsSafe(w, ops[0]);
      hide Safe;
      QuietScriptIsSafe(ops[1..], Apply(w, ops[0]));
    }
  }

  lemma SavedKeys(s: Inner, key: string)
    ensures HasKey(ToFile(s).servers, key) <==> BoundKey(s, key)
  {
    var servers := ToFile(s).servers;
    if HasKey(servers, key) {
      var i :| 0 <= i < |servers| && KeychainKey(servers[i]) == key;
      SavedMeansBound(s, servers[i]);
    }
    if BoundKey(s, key) {
      var server :| IsBound(s, server) && KeychainKey(server) == key;
      SavedMeansBound(s, server);
      var i :| 0 <= i < |servers| && servers[i] == server;
    }
  }

  ghost predicate KeysBound(w: World) {
    forall key :: key in w.keychain ==> BoundKey(w.inner, key)
  }

  /** Writing the file is safe as long as every credential is a bound server's. */
  lemma PersistIsSafe(p: Policy, w: World)
    requires TabsOk(p, w.inner) && Safe(w) && KeysBound(w)
    ensures AllSafe(PERSIST, w)
    ensures Exec(PERSIST, w) == w.(disk := Saved(ToFile(w.inner)), tmp := None)
    ensures Safe(Exec(PERSIST, w))
  {
    hide TabsOk;
    hide BoundKey;
    hide HasKey;
    var w1 := Apply(w, WriteTmp);
    var w2 := Apply(w1, RenameTmp);
    ToFileIsWritten(p, w.inner);
    forall key | key in w.keychain ensures HasKey(ToFile(w.inner).servers, key) {
      SavedKeys(w.inner, key);
    }
    hide Written;
    hide ToFile;
    assert Safe(w1) && Safe(w2);
    hide Safe;
    assert PERSIST[1..] == [RenameTmp] && [RenameTmp][1..] == [];
    assert AllSafe([], w2);
    assert AllSafe([RenameTmp], w1);
  }

  // ---------- how sections move bound servers ----------

  lemma BoundAt(s: Inner, server: Server, i: nat)
    requires i < |s.tabs| && s.tabs[i].server == Some(server)
    ensures IsBound(s, server)
  {
  }

  lemma RemoveKeepsBound(s: Inner, id: nat, server: Server)
    requires IsBound(s, server) && HasTab(s, id) && ServerOf(s, id) != Some(server)
    ensures IsBound(Remove(s, id).value, server)
  {
    var j, at := FindServer(s.tabs, server), Position(s.tabs, id);
    BoundAt(Remove(s, id).value, server, if j < at then j else j - 1);
  }

  lemma MoveKeepsBound(s: Inner, id: nat, index: nat, server: Server)
    requires IsBound(s, server) && HasTab(s, id)
    ensures IsBound(MoveTo(s, id, index).value, server)
  {
    var k := Landing(|s.tabs|, Position(s.tabs, id), Min(index, |s.tabs| - 1), FindServer(s.tabs, server));
    MovedTab(s, id, index, k);
    hide MoveTo;
    BoundAt(MoveTo(s, id, index).value, server, k);
  }

  /** A section unbinds no server but the one it takes or removes. */
  lemma StepKeepsBound(s: Inner, section: Section, server: Server)
    requires IsBound(s, server)
    requires section.TakeServer? || section.RemoveTab? ==> ServerOf(s, section.id) != Some(server)
    ensures IsBound(Tabs.Step(s, section), server)
  {
    hide MoveTo;
    hide Remove;
    if Attempt(s, section).Success? {
      match section
      case RemoveTab(id) => RemoveSucceeds(s, id); RemoveKeepsBound(s, id, server);
      case MoveTab(id, index) => MoveSucceeds(s, id, index); MoveKeepsBound(s, id, index, server);
      case _ => BoundAt(Tabs.Step(s, section), server, FindServer(s.tabs, server));
    }
  }

  lemma StepKeepsBoundKey(s: Inner, section: Section, key: string)
    requires BoundKey(s, key)
    requires section.TakeServer? || section.RemoveTab? ==>
               ServerOf(s, section.id).None? || KeychainKey(ServerOf(s, section.id).value) != key
    ensures BoundKey(Tabs.Step(s, section), key)
  {
    var server :| IsBound(s, server) && KeychainKey(server) == key;
    StepKeepsBound(s, section, server);
  }

  /** Taking or removing a server leaves no tab that shows it. */
  lemma TakenIsGone(p: Policy, s: Inner, section: Section)
    requires TabsOk(p, s) && (section.TakeServer? || section.RemoveTab?)
    requires ServerOf(s, section.id).Some?
    ensures !IsBound(Tabs.Step(s, section), ServerOf(s, section.id).value)
    ensures Usable(p, ServerOf(s, section.id).value)
  {
    hide Usable;
    var server, after := ServerOf(s, section.id).value, Tabs.Step(s, section);
    var at := Position(s.tabs, section.id);
    forall i | 0 <= i < |after.tabs| ensures after.tabs[i].server != Some(server) {
      var j := if section.RemoveTab? && i >= at then i + 1 else i;
      assert j != at ==> after.tabs[i].server == s.tabs[j].server;
    }
  }

  lemma TabAt(s: Inner, id: nat, i: nat)
    requires i < |s.tabs| && s.tabs[i].id == id
    ensures HasTab(s, id)
  {
  }

  lemma RemoveKeepsTab(s: Inner, gone: nat, id: nat)
    requires HasTab(s, id) && HasTab(s, gone) && gone != id
    ensures HasTab(Remove(s, gone).value, id)
  {
    var j, at := Position(s.tabs, id), Position(s.tabs, gone);
    TabAt(Remove(s, gone).value, id, if j < at then j else j - 1);
  }

  lemma MoveKeepsTab(s: Inner, moved: nat, index: nat, id: nat)
    requires HasTab(s, id) && HasTab(s, moved)
    ensures HasTab(MoveTo(s, moved, index).value, id)
  {
    var k := Landing(|s.tabs|, Position(s.tabs, moved), Min(index, |s.tabs| - 1), Position(s.tabs, id));
    MovedTab(s, moved, index, k);
    hide MoveTo;
    TabAt(MoveTo(s, moved, index).value, id, k);
  }

  lemma StepKeepsTab(s: Inner, section: Section, id: nat)
    requires HasTab(s, id) && section != RemoveTab(id)
    ensures HasTab(Tabs.Step(s, section), id)
  {
    hide MoveTo;
    hide Remove;
    if Attempt(s, section).Success? {
      match section
      case RemoveTab(gone) => RemoveSucceeds(s, gone); RemoveKeepsTab(s, gone, id);
      case MoveTab(moved, index) => MoveSucceeds(s, moved, index); MoveKeepsTab(s, moved, index, id);
      case _ => TabAt(Tabs.Step(s, section), id, Position(s.tabs, id));
    }
  }

  /** A section that neither takes nor removes keeps tabs, credentials, webviews
      and sidecar consistent. */
  lemma SectionKeepsConsistent(p: Policy, w: World, section: Section)
    requires Consistent(p, w) && Admissible(p, w.inner, section)
    requires !section.TakeServer? && !section.RemoveTab?
    ensures Consistent(p, Apply(w, Locked(section)))
  {
    StepKeepsTabsOk(p, w.inner, section);
    QuietIsSafe(w, Locked(section));
    hide TabsOk;
    hide Safe;
    hide Admissible;
    var after := Apply(w, Locked(section));
    forall key | key in w.keychain ensures BoundKey(after.inner, key) {
      StepKeepsBoundKey(w.inner, section, key);
    }
    forall id | id in w.webviews ensures HasTab(after.inner, id) {
      StepKeepsTab(w.inner, section, id);
    }
    if w.sidecar.running.Some? {
      StepKeepsBound(w.inner, section, LOCAL);
    }
  }

  // ---------- tab commands ----------

  lemma PersistKeeps(p: Policy, w: World)
    requires Consistent(p, w)
    ensures AllSafe(PERSIST, w)
    ensures Exec(PERSIST, w) == w.(disk := Saved(ToFile(w.inner)), tmp := None)
    ensures Consistent(p, Exec(PERSIST, w))
  {
    PersistIsSafe(p, w);
    hide Safe;
    hide TabsOk;
  }

  lemma OneOp(w: World, op: Op)
    requires Safe(w) && Safe(Apply(w, op))
    ensures AllSafe([op], w) && Exec([op], w) == Apply(w, op)
  {
    hide Safe;
    var after := Apply(w, op);
    hide Apply;
    assert [op][1..] == [];
    assert AllSafe([], after);
    assert Exec([], after) == after;
  }

  lemma TwoScripts(a: seq<Op>, b: seq<Op>, w: World)
    requires AllSafe(a, w) && AllSafe(b, Exec(a, w))
    ensures AllSafe(a + b, w) && Exec(a + b, w) == Exec(b, Exec(a, w))
  {
    AllSafeAppend(a, b, w);
    ExecAppend(a, b, w);
  }

  predicate SameCredentials(after: World, before: World) {
    after.keychain == before.keychain && after.sidecar == before.sidecar
  }

  lemma ConsistentIsSafe(p: Policy, w: World)
    requires Consistent(p, w)
    ensures Safe(w)
  {
  }

  lemma SameWindow(w: World, after: World)
    requires WindowOk(w) && after.inner == w.inner && after.webviews == w.webviews
    ensures WindowOk(after)
  {
  }

  /** One safe operation, then saving. */
  lemma OpThenPersist(p: Policy, w: World, op: Op)
    requires Safe(w) && Consistent(p, Apply(w, op))
    ensures var after := Apply(w, op);
            && AllSafe([op] + PERSIST, w)
            && Exec([op] + PERSIST, w) == after.(disk := Saved(ToFile(after.inner)), tmp := None)
            && Consistent(p, Exec([op] + PERSIST, w))
            && (WindowOk(after) ==> Inv(p, Exec([op] + PERSIST, w)))
  {
    hide AllSafe;
    hide Consistent;
    hide WindowOk;
    hide Safe;
    hide Apply;
    hide ToFile;
    var after := Apply(w, op);
    ConsistentIsSafe(p, after);
    PersistKeeps(p, after);
    OneOp(w, op);
    TwoScripts([op], PERSIST, w);
    if WindowOk(after) {
      SameWindow(after, Exec([op] + PERSIST, w));
    }
  }

  /** Activating an existing tab makes a consistent state a proper one. */
  lemma ActivateKeeps(p: Policy, w: World, id: nat, now: Time)
    requires Consistent(p, w) && HasTab(w.inner, id)
    ensures AllSafe(ActivateScript(w, id, now), w)
    ensures Inv(p, Exec(ActivateScript(w, id, now), w))
    ensures SameCredentials(Exec(ActivateScript(w, id, now), w), w)
    ensures Exec(ActivateScript(w, id, now), w).inner == Tabs.Step(w.inner, ActivateTab(id, now))
  {
    hide AllSafe;
    hide Consistent;
    hide WindowOk;
    hide Safe;
    hide Inv;
    var activate, show := Locked(ActivateTab(id, now)), ShowOnly(id);
    var w1 := Apply(w, activate);
    SectionKeepsConsistent(p, w, activate.section);
    StepKeepsTab(w.inner, activate.section, id);
    ShowKeeps(p, w1, id);
    ActivatedWindow(w, id, now);
    ConsistentIsSafe(p, w);
    ConsistentIsSafe(p, w1);
    OpThenPersist(p, w1, show);
    OneOp(w, activate);
    TwoScripts([activate], [show] + PERSIST, w);
    assert ActivateScript(w, id, now) == [activate] + ([show] + PERSIST);
  }

  lemma ActivatedWindow(w: World, id: nat, now: Time)
    requires HasTab(w.inner, id)
    ensures WindowOk(Apply(Apply(w, Locked(ActivateTab(id, now))), ShowOnly(id)))
  {
    var s := SetActive(w.inner, id, now).value;
    TabAt(s, id, Position(w.inner.tabs, id));
  }

  lemma ShowKeeps(p: Policy, w: World, id: nat)
    requires Consistent(p, w) && HasTab(w.inner, id)
    ensures Consistent(p, Apply(w, ShowOnly(id)))
  {
    QuietIsSafe(w, ShowOnly(id));
    hide Safe;
    hide TabsOk;
  }

  lemma InsertedIsThere(w: World, server: Option<Server>, now: Time)
    ensures HasTab(Apply(w, Locked(InsertTab(server, now))).inner, w.inner.nextId + 1)
  {
    TabAt(Insert(w.inner, server, now), w.inner.nextId + 1, |w.inner.tabs|);
  }

  /** The tab list after opening an empty tab. */
  function OpenedInner(s: Inner, now: Time): Inner {
    Tabs.Step(Insert(s, None, now), ActivateTab(s.nextId + 1, now))
  }

  lemma OpenKeeps(p: Policy, w: World, server: Option<Server>, now: Time)
    requires Consistent(p, w) && (server.Some? ==> Usable(p, server.value))
    ensures AllSafe(OpenScript(w, server, now), w)
    ensures Inv(p, Exec(OpenScript(w, server, now), w))
    ensures SameCredentials(Exec(OpenScript(w, server, now), w), w)
    ensures server.None? ==> Exec(OpenScript(w, server, now), w).inner == OpenedInner(w.inner, now)
  {
    hide AllSafe;
    hide Consistent;
    hide WindowOk;
    hide Safe;
    hide Inv;
    hide ActivateScript;
    hide Usable;
    if server.Some? && IsBound(w.inner, server.value) {
      var at := FindServer(w.inner.tabs, server.value);
      TabAt(w.inner, w.inner.tabs[at].id, at);
      ActivateKeeps(p, w, w.inner.tabs[at].id, now);
    } else {
      var insert := Locked(InsertTab(server, now));
      SectionKeepsConsistent(p, w, insert.section);
      InsertedIsThere(w, server, now);
      ActivateKeeps(p, Apply(w, insert), w.inner.nextId + 1, now);
      ConsistentIsSafe(p, w);
      ConsistentIsSafe(p, Apply(w, insert));
      OneOp(w, insert);
      TwoScripts([insert], ActivateScript(Apply(w, insert), w.inner.nextId + 1, now), w);
    }
  }

  predicate HasHidden(s: Inner, id: nat, hiddenSince: Option<Time>) {
    exists j :: 0 <= j < |s.tabs| && s.tabs[j].id == id && s.tabs[j].hiddenSince == hiddenSince
  }

  /** Every tab was there before, hidden for as long. */
  predicate KeepsHidden(s: Inner, after: Inner) {
    && after.active == s.active
    && forall i :: 0 <= i < |after.tabs| ==> HasHidden(s, after.tabs[i].id, after.tabs[i].hiddenSince)
  }

  lemma SectionKeepsHidden(s: Inner, section: Section)
    requires section.BindTab? || section.TakeServer? || section.MoveTab?
    ensures KeepsHidden(s, Tabs.Step(s, section))
  {
    if section.MoveTab? {
      MoveKeepsHidden(s, section.id, section.index);
    } else {
      var after := Tabs.Step(s, section);
      forall i | 0 <= i < |after.tabs|
        ensures HasHidden(s, after.tabs[i].id, after.tabs[i].hiddenSince)
      {
        assert s.tabs[i].id == after.tabs[i].id;
      }
    }
  }

  lemma MoveKeepsHidden(s: Inner, id: nat, index: nat)
    ensures KeepsHidden(s, Tabs.Step(s, MoveTab(id, index)))
  {
    hide Position;
    var after := Tabs.Step(s, MoveTab(id, index));
    MoveSucceeds(s, id, index);
    assert after.active == s.active;
    forall i | 0 <= i < |after.tabs|
      ensures HasHidden(s, after.tabs[i].id, after.tabs[i].hiddenSince)
    {
      if HasTab(s, id) {
        MovedTab(s, id, index, i);
      } else {
        assert s.tabs[i].id == after.tabs[i].id;
      }
    }
  }

  /** Binding, taking and moving leave the active tab active. */
  lemma SectionKeepsWindow(w: World, section: Section)
    requires WindowOk(w) && (section.BindTab? || section.TakeServer? || section.MoveTab?)
    ensures WindowOk(Apply(w, Locked(section)))
  {
    hide Tabs.Step;
    hide HasTab;
    StepKeepsTab(w.inner, section, w.inner.active.value);
    SectionKeepsHidden(w.inner, section);
  }

  lemma SectionThenPersist(p: Policy, w: World, section: Section)
    requires Inv(p, w) && Admissible(p, w.inner, section)
    requires section.BindTab? || section.MoveTab?
    ensures AllSafe([Locked(section)] + PERSIST, w)
    ensures Inv(p, Exec([Locked(section)] + PERSIST, w))
    ensures Exec([Locked(section)] + PERSIST, w).inner == Tabs.Step(w.inner, section)
    ensures Exec([Locked(section)] + PERSIST, w).sidecar == w.sidecar
  {
    hide AllSafe;
    hide Consistent;
    hide WindowOk;
    hide Safe;
    hide Tabs.Step;
    hide Admissible;
    SectionKeepsConsistent(p, w, section);
    SectionKeepsWindow(w, section);
    ConsistentIsSafe(p, w);
    OpThenPersist(p, w, Locked(section));
  }

  lemma BindKeeps(p: Policy, w: World, id: nat, server: Server)
    requires Inv(p, w) && Usable(p, server)
    ensures AllSafe(BindScript(w, id, server), w)
    ensures Inv(p, Exec(BindScript(w, id, server), w))
  {
    hide Usable;
    hide Consistent;
    hide WindowOk;
    if Tabs.Bind(w.inner, id, server).Success? {
      SectionThenPersist(p, w, BindTab(id, server));
    } else {
      ConsistentIsSafe(p, w);
    }
  }

  lemma MoveKeeps(p: Policy, w: World, id: nat, index: nat)
    requires Inv(p, w)
    ensures AllSafe(MoveScript(w, id, index), w)
    ensures Inv(p, Exec(MoveScript(w, id, index), w))
  {
    hide Consistent;
    hide WindowOk;
    if HasTab(w.inner, id) {
      SectionThenPersist(p, w, MoveTab(id, index));
    } else {
      ConsistentIsSafe(p, w);
    }
  }

  // ---------- forgetting a server ----------

  /** A tab just lost `taken`: its credential and the sidecar may still be there,
      everything else is consistent. */
  ghost predicate Losing(p: Policy, w: World, taken: Option<Server>) {
    && TabsOk(p, w.inner)
    && Safe(w)
    && (forall id :: id in w.webviews ==> HasTab(w.inner, id))
    && SidecarOk(w.sidecar)
    && (forall key :: key in w.keychain ==>
          BoundKey(w.inner, key) || (taken.Some? && KeychainKey(taken.value) == key))
    && (w.sidecar.running.Some? ==> IsBound(w.inner, LOCAL) || taken == Some(LOCAL))
    && (taken.Some? ==> !IsBound(w.inner, taken.value) && WellFormed(taken.value))
  }

  /** The world without the credential of `taken`, and without the sidecar if that
      was the local server. */
  function WithoutServer(w: World, taken: Option<Server>): World {
    if taken.None? then w
    else
      var dropped := w.(keychain := w.keychain - {KeychainKey(taken.value)});
      if taken.value.mode == Local then dropped.(sidecar := AfterStop(w.sidecar)) else dropped
  }

  lemma ForgetKeeps(p: Policy, w: World, taken: Option<Server>)
    requires Losing(p, w, taken)
    ensures var script := ForgetTaken(w.inner, taken);
            AllSafe(script, w) && Exec(script, w) == WithoutServer(w, taken) && Consistent(p, WithoutServer(w, taken))
  {
    hide TabsOk;
    hide WellFormed;
    hide IsBound;
    hide BoundKey;
    if taken.Some? {
      var drop := DropToken(KeychainKey(taken.value));
      var w1 := Apply(w, drop);
      QuietIsSafe(w, drop);
      OneOp(w, drop);
      if taken.value.mode == Local {
        OnlyOneLocal(taken.value);
        var stop := Child(StopAct);
        StopKeepsOk(w.sidecar);
        QuietIsSafe(w1, stop);
        OneOp(w1, stop);
        TwoScripts([drop], [stop], w);
      } else {
        assert [drop] + [] == [drop];
      }
      hide Safe;
      hide SidecarOk;
    }
  }

  lemma OnlyOneLocal(server: Server)
    requires WellFormed(server) && server.mode == Local
    ensures server == LOCAL
  {
  }

  lemma TakeLoses(p: Policy, w: World, section: Section)
    requires section.TakeServer? || (section.RemoveTab? && section.id !in w.webviews)
    requires Consistent(p, w) && HasTab(w.inner, section.id)
    ensures Losing(p, Apply(w, Locked(section)), ServerOf(w.inner, section.id))
  {
    hide Safe;
    hide WellFormed;
    hide Tabs.Step;
    hide BoundKey;
    hide TabsOk;
    hide SidecarOk;
    hide IsBound;
    hide HasTab;
    var taken, after := ServerOf(w.inner, section.id), Apply(w, Locked(section));
    ConsistentIsSafe(p, w);
    StepKeepsTabsOk(p, w.inner, section);
    QuietIsSafe(w, Locked(section));
    if taken.Some? {
      TakenIsGone(p, w.inner, section);
      TakenIsWellFormed(p, taken.value);
    }
    hide ServerOf;
    forall key | key in w.keychain
      ensures BoundKey(after.inner, key) || (taken.Some? && KeychainKey(taken.value) == key)
    {
      if !(taken.Some? && KeychainKey(taken.value) == key) {
        StepKeepsBoundKey(w.inner, section, key);
      }
    }
    forall id | id in w.webviews ensures HasTab(after.inner, id) {
      StepKeepsTab(w.inner, section, id);
    }
    if w.sidecar.running.Some? && taken != Some(LOCAL) {
      StepKeepsBound(w.inner, section, LOCAL);
    }
  }

  lemma TakenIsWellFormed(p: Policy, server: Server)
    requires Usable(p, server)
    ensures WellFormed(server)
  {
  }
}
