/** What each command comes to, tab by tab: stated over the list, the webviews, the
    saved servers, the keychain and the child, without the scripts that do it. */
module Effects {
  import opened Wrappers
  import opened Servers
  import opened Policies
  import opened Tabs
  import opened Restore
  import opened Sidecars
  import opened Shell
  import opened Invariants
  import opened Commands
  import opened TokenHistory
  import opened Crash
  import Origin
  import Reorder
  import Text

  // ---------- vocabulary ----------

  /** Before and after one activation: the tabs stay, `id` is shown, the others are
      hidden, each since the time it already was, or else since now. */
  ghost predicate ShownAlone(before: seq<Tab>, after: seq<Tab>, id: nat, now: Time) {
    && |after| == |before|
    && forall i :: 0 <= i < |before| ==>
         && after[i].id == before[i].id && after[i].server == before[i].server
         && after[i].hiddenSince ==
              (if before[i].id == id then None
               else if before[i].hiddenSince.Some? then before[i].hiddenSince
               else Some(now))
  }

  /** One webview is shown; it is new or was there before, as all the others. */
  ghost predicate WebviewsShow(before: map<nat, bool>, after: map<nat, bool>, id: nat) {
    && after.Keys == before.Keys + {id}
    && forall l :: l in after ==> (after[l] <==> l == id)
  }

  /** The file names exactly the servers that tabs show. */
  ghost predicate FileNamesShown(w: World) {
    && w.disk.Saved?
    && forall server :: server in w.disk.file.servers <==>
         exists i :: 0 <= i < |w.inner.tabs| && w.inner.tabs[i].server == Some(server)
  }

  lemma InvNamesShown(p: Policy, w: World)
    requires Inv(p, w)
    ensures FileNamesShown(w)
  {
    InvIsSaved(p, w);
    hide Inv;
    hide ToFile;
    forall server
      ensures server in w.disk.file.servers <==>
              exists i :: 0 <= i < |w.inner.tabs| && w.inner.tabs[i].server == Some(server)
    {
      SavedMeansBound(w.inner, server);
      ShownIsBound(w.inner, server);
    }
  }

  lemma ShownIsBound(s: Inner, server: Server)
    ensures IsBound(s, server) <==> exists i :: 0 <= i < |s.tabs| && s.tabs[i].server == Some(server)
  {
    if IsBound(s, server) {
      assert s.tabs[FindServer(s.tabs, server)].server == Some(server);
    }
  }

  /** The list but for the binding of one tab. */
  ghost predicate Rebound(before: Inner, after: Inner, id: nat, server: Option<Server>) {
    && |after.tabs| == |before.tabs| && after.active == before.active && after.nextId == before.nextId
    && forall i :: 0 <= i < |before.tabs| ==>
         && after.tabs[i].id == before.tabs[i].id && after.tabs[i].hiddenSince == before.tabs[i].hiddenSince
         && after.tabs[i].server == (if before.tabs[i].id == id then server else before.tabs[i].server)
  }

  /** The tab can be bound: unbound or showing this server, which no other tab shows. */
  predicate CanBind(s: Inner, id: nat, server: Server) {
    HasTab(s, id) && ServerOf(s, id) in {None, Some(server)} && !ShownElsewhere(s, id, server)
  }

  // ---------- binding ----------

  lemma BindingIs(w: World, id: nat, server: Server)
    ensures Exec(BindScript(w, id, server), w) ==
            match Tabs.Bind(w.inner, id, server)
            case Success(bound) => w.(inner := bound, disk := Saved(ToFile(bound)), tmp := None)
            case Failure(_) => w
  {
    hide ToFile;
    hide Tabs.Bind;
    if Tabs.Bind(w.inner, id, server).Success? {
      var bind := Locked(BindTab(id, server));
      ExecAppend([bind], PERSIST, w);
      ExecOne(bind, w);
      PersistIs(Apply(w, bind));
      hide Exec;
    }
  }

  lemma BoundIs(s: Inner, id: nat, server: Server)
    requires DistinctIds(s.tabs) && DistinctServers(s.tabs)
    ensures Tabs.Bind(s, id, server).Success? <==> CanBind(s, id, server)
    ensures CanBind(s, id, server) ==> Rebound(s, Tabs.Bind(s, id, server).value, id, Some(server))
  {
    BindRefusals(s, id, server);
  }

  lemma InvIsDistinct(p: Policy, w: World)
    requires Inv(p, w)
    ensures DistinctIds(w.inner.tabs) && DistinctServers(w.inner.tabs) && TabsOk(p, w.inner)
    ensures w.disk == Saved(ToFile(w.inner))
  {
  }

  /** Binding to a server: that tab shows it, the file names it, nothing else changes;
      or nothing changes at all. */
  ghost predicate Binds(w: World, after: World, can: bool, id: nat, server: Server) {
    if can then
      && Rebound(w.inner, after.inner, id, Some(server)) && FileNamesShown(after)
      && after.webviews == w.webviews && after.keychain == w.keychain
    else after == w
  }

  lemma BindingBinds(p: Policy, w: World, id: nat, server: Server)
    requires Inv(p, w) && Usable(p, server)
    ensures var after := Exec(BindScript(w, id, server), w);
            Binds(w, after, CanBind(w.inner, id, server), id, server) && after.sidecar == w.sidecar
  {
    hide Usable;
    hide Inv;
    hide Rebound;
    hide FileNamesShown;
    hide CanBind;
    InvIsDistinct(p, w);
    BindKeeps(p, w, id, server);
    InvNamesShown(p, Exec(BindScript(w, id, server), w));
    BoundIs(w.inner, id, server);
    BindingIs(w, id, server);
    hide BindScript;
    hide Exec;
    hide TabsOk;
    hide ToFile;
    hide AllSafe;
    hide DistinctIds;
    hide DistinctServers;
    hide Tabs.Bind;
  }

  lemma AllowedIsUsable(p: Policy, raw: string, origin: string)
    requires Origin.Normalize(raw) == Some(origin) && Allows(p, Server(Remote, origin))
    ensures Usable(p, Server(Remote, origin))
  {
    hide Origin.Normalize;
    hide Allows;
    Origin.NormalizeIdempotent(raw);
  }

  /** An address that normalises to an allowed server binds a tab that can be bound;
      in every other case nothing changes. */
  lemma SetRemoteBinds(p: Policy, w: World, id: nat, raw: string)
    requires Inv(p, w)
    ensures var after := Do(p, w, SetRemote(id, raw));
            match Origin.Normalize(raw)
            case None => after == w
            case Some(origin) =>
              var server := Server(Remote, origin);
              && Binds(w, after, Allows(p, server) && CanBind(w.inner, id, server), id, server)
              && after.sidecar == w.sidecar
  {
    hide Inv;
    hide Rebound;
    hide FileNamesShown;
    hide CanBind;
    hide BindScript;
    hide Origin.Normalize;
    hide Usable;
    hide Allows;
    NothingDone(w);
    match Origin.Normalize(raw)
    case None =>
    case Some(origin) =>
      if Allows(p, Server(Remote, origin)) {
        AllowedIsUsable(p, raw, origin);
        BindingBinds(p, w, id, Server(Remote, origin));
      }
      hide Exec;
  }

  lemma NothingDone(w: World)
    ensures Exec([], w) == w
  {
  }

  /** The tab's own server afterwards, and everybody else's. */
  lemma ReboundServers(before: Inner, after: Inner, id: nat, server: Option<Server>, other: nat)
    requires Rebound(before, after, id, server)
    ensures ServerOf(after, other) == if other == id && HasTab(before, id) then server else ServerOf(before, other)
  {
    SamePlaces(before.tabs, after.tabs, other);
  }

  /** In one sentence: the address a user gives is the server the tab shows and the
      file names. */
  lemma GivenAddressIsShown(p: Policy, w: World, id: nat, raw: string, origin: string)
    requires Inv(p, w) && Origin.Normalize(raw) == Some(origin) && Allows(p, Server(Remote, origin))
    requires CanBind(w.inner, id, Server(Remote, origin))
    ensures var after := Do(p, w, SetRemote(id, raw));
            && ServerOf(after.inner, id) == Some(Server(Remote, origin))
            && after.disk.Saved? && Server(Remote, origin) in after.disk.file.servers
            && forall other :: other != id ==> ServerOf(after.inner, other) == ServerOf(w.inner, other)
  {
    hide Inv;
    hide Allows;
    hide Origin.Normalize;
    SetRemoteBinds(p, w, id, raw);
    var after := Do(p, w, SetRemote(id, raw));
    hide Do;
    hide ServerOf;
    forall other
      ensures ServerOf(after.inner, other) ==
              if other == id && HasTab(w.inner, id) then Some(Server(Remote, origin)) else ServerOf(w.inner, other)
    {
      ReboundServers(w.inner, after.inner, id, Some(Server(Remote, origin)), other);
    }
    assert after.inner.tabs[Position(w.inner.tabs, id)].server == Some(Server(Remote, origin));
  }

  lemma BindThenEnsure(w: World, id: nat, spawn: Spawn)
    ensures Exec(BindScript(w, id, LOCAL) + [Child(Ensure(spawn))], w) ==
            var bound := Exec(BindScript(w, id, LOCAL), w);
            bound.(sidecar := AfterEnsure(bound.sidecar, spawn).0)
  {
    hide BindScript;
    hide AfterEnsure;
    var bind := BindScript(w, id, LOCAL);
    ExecAppend(bind, [Child(Ensure(spawn))], w);
    ExecOne(Child(Ensure(spawn)), Exec(bind, w));
    hide Exec;
  }

  lemma LocalIsUsable(p: Policy)
    requires Allows(p, LOCAL)
    ensures Usable(p, LOCAL)
  {
  }

  lemma SetLocalIs(p: Policy, w: World, id: nat, spawn: Spawn)
    ensures Do(p, w, SetLocal(id, spawn)) ==
            if Allows(p, LOCAL) && Tabs.Bind(w.inner, id, LOCAL).Success? then
              var bound := Exec(BindScript(w, id, LOCAL), w);
              bound.(sidecar := AfterEnsure(bound.sidecar, spawn).0)
            else w
  {
    hide Allows;
    hide AfterEnsure;
    hide Tabs.Bind;
    BindThenEnsure(w, id, spawn);
    NothingDone(w);
    hide BindScript;
    hide Exec;
  }

  /** The local server is bound like any other; then its child is started, unless one
      runs, and the tab stays bound whatever becomes of it. */
  lemma SetLocalBinds(p: Policy, w: World, id: nat, spawn: Spawn)
    requires Inv(p, w)
    ensures var after, can := Do(p, w, SetLocal(id, spawn)), Allows(p, LOCAL) && CanBind(w.inner, id, LOCAL);
            && Binds(w, after, can, id, LOCAL)
            && after.sidecar == if can then AfterEnsure(w.sidecar, spawn).0 else w.sidecar
  {
    hide Inv;
    hide Rebound;
    hide Usable;
    hide Allows;
    hide AfterEnsure;
    hide CanBind;
    hide FileNamesShown;
    hide DistinctIds;
    hide DistinctServers;
    hide TabsOk;
    hide ToFile;
    InvIsDistinct(p, w);
    BoundIs(w.inner, id, LOCAL);
    hide Tabs.Bind;
    SetLocalIs(p, w, id, spawn);
    if Allows(p, LOCAL) && CanBind(w.inner, id, LOCAL) {
      LocalIsUsable(p);
      BindingBinds(p, w, id, LOCAL);
      ChildKeepsNames(Exec(BindScript(w, id, LOCAL), w), AfterEnsure(w.sidecar, spawn).0);
    }
    hide Do;
  }

  lemma ChildKeepsNames(w: World, sidecar: Sidecar)
    ensures FileNamesShown(w) ==> FileNamesShown(w.(sidecar := sidecar))
  {
  }

  // ---------- showing a tab ----------

  /** These tabs and webviews, with one of them shown and active. */
  ghost predicate Shows(tabs: seq<Tab>, webviews: map<nat, bool>, after: World, id: nat, now: Time) {
    && ShownAlone(tabs, after.inner.tabs, id, now) && after.inner.active == Some(id)
    && WebviewsShow(webviews, after.webviews, id)
  }

  lemma ActivatedIs(s: Inner, id: nat, now: Time)
    requires HasTab(s, id)
    ensures var after := Tabs.Step(s, ActivateTab(id, now));
            ShownAlone(s.tabs, after.tabs, id, now) && after.active == Some(id) && after.nextId == s.nextId
  {
  }

  lemma OnlyShownShows(webviews: map<nat, bool>, id: nat)
    ensures WebviewsShow(webviews, OnlyShown(webviews, id), id)
  {
  }

  lemma ShowingIs(w: World, id: nat, now: Time)
    requires HasTab(w.inner, id)
    ensures var after := Exec(ActivateScript(w, id, now), w);
            && after.inner == Tabs.Step(w.inner, ActivateTab(id, now))
            && after.webviews == OnlyShown(w.webviews, id)
            && after.disk == Saved(ToFile(after.inner))
            && SameCredentials(after, w)
  {
    hide Tabs.Step;
    hide HasTab;
    hide ToFile;
    hide OnlyShown;
    var activate, show := Locked(ActivateTab(id, now)), ShowOnly(id);
    ExecAppend([activate, show], PERSIST, w);
    assert [activate] + [show] == [activate, show];
    ExecAppend([activate], [show], w);
    ExecOne(activate, w);
    ExecOne(show, Apply(w, activate));
    PersistIs(Apply(Apply(w, activate), show));
    hide Exec;
  }

  lemma ScriptShows(w: World, id: nat, now: Time)
    requires HasTab(w.inner, id)
    ensures var after := Exec(ActivateScript(w, id, now), w);
            && Shows(w.inner.tabs, w.webviews, after, id, now) && after.inner.nextId == w.inner.nextId
            && SameCredentials(after, w)
  {
    ShowingIs(w, id, now);
    ActivatedIs(w.inner, id, now);
    OnlyShownShows(w.webviews, id);
    hide Tabs.Step;
    hide OnlyShown;
    hide Exec;
    hide ActivateScript;
    hide ShownAlone;
    hide WebviewsShow;
  }

  /** Activating a tab shows it and hides the others; a tab that was hidden already
      keeps the time since when. An unknown id changes nothing. */
  lemma ActivateShows(p: Policy, w: World, id: nat, now: Time)
    requires Inv(p, w)
    ensures var after := Do(p, w, ActivateId(id, now));
            if HasTab(w.inner, id) then
              && Shows(w.inner.tabs, w.webviews, after, id, now) && after.inner.nextId == w.inner.nextId
              && SameCredentials(after, w) && FileNamesShown(after)
            else after == w
  {
    hide Shows;
    hide FileNamesShown;
    hide Inv;
    hide AllSafe;
    hide ActivateScript;
    hide HasTab;
    ActivateIdKeeps(p, w, id, now);
    if HasTab(w.inner, id) {
      InvNamesShown(p, Do(p, w, ActivateId(id, now)));
      ScriptShows(w, id, now);
      hide Exec;
    } else {
      UnknownIsNothing(w, id, now);
    }
  }

  lemma UnknownIsNothing(w: World, id: nat, now: Time)
    requires !HasTab(w.inner, id)
    ensures Exec(ActivateScript(w, id, now), w) == w
  {
  }

  lemma InsertingIs(w: World, server: Option<Server>, now: Time)
    ensures Apply(w, Locked(InsertTab(server, now))) == w.(inner := Insert(w.inner, server, now))
  {
    hide Insert;
  }

  lemma OpenScriptIs(w: World, server: Option<Server>, now: Time)
    requires server.Some? ==> !IsBound(w.inner, server.value)
    ensures var inserted := w.(inner := Insert(w.inner, server, now));
            OpenScript(w, server, now) ==
            [Locked(InsertTab(server, now))] + ActivateScript(inserted, w.inner.nextId + 1, now)
  {
    hide IsBound;
    hide ActivateScript;
    hide Insert;
    InsertingIs(w, server, now);
    hide Apply;
  }

  lemma OpeningIs(w: World, server: Option<Server>, now: Time)
    requires server.Some? ==> !IsBound(w.inner, server.value)
    ensures var inserted := w.(inner := Insert(w.inner, server, now));
            && HasTab(inserted.inner, w.inner.nextId + 1)
            && Exec(OpenScript(w, server, now), w) == Exec(ActivateScript(inserted, w.inner.nextId + 1, now), inserted)
  {
    hide IsBound;
    hide ActivateScript;
    hide OpenScript;
    hide Exec;
    hide Trace;
    hide HasTab;
    hide Insert;
    hide Apply;
    var insert := Locked(InsertTab(server, now));
    var inserted := w.(inner := Insert(w.inner, server, now));
    InsertingIs(w, server, now);
    OpenScriptIs(w, server, now);
    ExecAppend([insert], ActivateScript(inserted, w.inner.nextId + 1, now), w);
    ExecOne(insert, w);
    InsertedIsThere(w, server, now);
  }

  lemma NewTabShows(w: World, server: Option<Server>, now: Time)
    requires server.Some? ==> !IsBound(w.inner, server.value)
    ensures var after, id := Exec(OpenScript(w, server, now), w), w.inner.nextId + 1;
            && Shows(w.inner.tabs + [Tab(id, server, Some(now))], w.webviews, after, id, now)
            && after.inner.nextId == id && SameCredentials(after, w)
  {
    hide IsBound;
    hide Shows;
    hide ActivateScript;
    hide OpenScript;
    hide Exec;
    hide HasTab;
    OpeningIs(w, server, now);
    ScriptShows(w.(inner := Insert(w.inner, server, now)), w.inner.nextId + 1, now);
  }

  lemma ShownAt(s: Inner, at: nat, server: Server)
    requires DistinctServers(s.tabs) && at < |s.tabs| && s.tabs[at].server == Some(server)
    ensures FindServer(s.tabs, server) == at
  {
  }

  lemma KnownTabShows(w: World, at: nat, server: Server, now: Time)
    requires at == FindServer(w.inner.tabs, server) < |w.inner.tabs|
    ensures var after := Exec(OpenScript(w, Some(server), now), w);
            && Shows(w.inner.tabs, w.webviews, after, w.inner.tabs[at].id, now)
            && after.inner.nextId == w.inner.nextId
  {
    hide Shows;
    hide ActivateScript;
    hide HasTab;
    TabAt(w.inner, w.inner.tabs[at].id, at);
    ScriptShows(w, w.inner.tabs[at].id, now);
    hide Exec;
  }

  /** Opening shows the tab that has the server, or else a new last one. */
  lemma OpenShows(p: Policy, w: World, server: Option<Server>, now: Time)
    requires Inv(p, w) && (server.Some? ==> Usable(p, server.value))
    ensures var after, id := Do(p, w, OpenTab(server, now)), w.inner.nextId + 1;
            && SameCredentials(after, w) && FileNamesShown(after)
            && (forall i :: 0 <= i < |w.inner.tabs| && server.Some? && w.inner.tabs[i].server == server ==>
                  && Shows(w.inner.tabs, w.webviews, after, w.inner.tabs[i].id, now)
                  && after.inner.nextId == w.inner.nextId)
            && ((server.Some? ==> !IsBound(w.inner, server.value)) ==>
                  && Shows(w.inner.tabs + [Tab(id, server, Some(now))], w.webviews, after, id, now)
                  && after.inner.nextId == id)
  {
    hide Shows;
    hide FileNamesShown;
    hide Usable;
    hide Inv;
    hide AllSafe;
    hide Consistent;
    hide TabsOk;
    hide DistinctIds;
    hide DistinctServers;
    hide OpenScript;
    hide Exec;
    hide ToFile;
    hide OpenedInner;
    hide IsBound;
    InvIsConsistent(p, w);
    InvIsDistinct(p, w);
    OpenKeeps(p, w, server, now);
    InvNamesShown(p, Do(p, w, OpenTab(server, now)));
    forall i | 0 <= i < |w.inner.tabs| && server.Some? && w.inner.tabs[i].server == server
      ensures var after := Do(p, w, OpenTab(server, now));
              && Shows(w.inner.tabs, w.webviews, after, w.inner.tabs[i].id, now)
              && after.inner.nextId == w.inner.nextId
    {
      ShownAt(w.inner, i, server.value);
      KnownTabShows(w, i, server.value, now);
    }
    if server.Some? ==> !IsBound(w.inner, server.value) {
      NewTabShows(w, server, now);
    }
  }

  // ---------- leaving and closing ----------

  /** What is left of a server nobody shows: no credential, and no child of a local
      one. Another server's credential and child stay. */
  ghost predicate Forgets(w: World, after: World, server: Option<Server>) {
    match server
    case None => SameCredentials(after, w)
    case Some(Server(Local, _)) =>
      && after.keychain == w.keychain - {"local"}
      && after.sidecar == w.sidecar.(running := None, killed := w.sidecar.killed + InSlot(w.sidecar))
    case Some(Server(Remote, origin)) =>
      after.keychain == w.keychain - {origin} && after.sidecar == w.sidecar
  }

  lemma WithoutServerForgets(w: World, after: World, server: Option<Server>)
    requires SameCredentials(after, WithoutServer(w, server))
    ensures Forgets(w, after, server)
  {
    StopIs(w.sidecar);
  }

  lemma TakenIs(s: Inner, id: nat)
    requires DistinctIds(s.tabs)
    ensures Rebound(s, Tabs.Step(s, TakeServer(id)), id, None)
  {
  }

  /** Only the keychain and the child are touched. */
  lemma ForgettingTouches(s: Inner, taken: Option<Server>, w: World)
    ensures var after := Exec(ForgetTaken(s, taken), w);
            after == w.(keychain := after.keychain, sidecar := after.sidecar)
  {
    hide IsBound;
    hide AfterStop;
    NothingDone(w);
    if taken.Some? && !IsBound(s, taken.value) {
      var drop, stop := DropToken(KeychainKey(taken.value)), Child(StopAct);
      ExecOne(drop, w);
      ExecOne(stop, Apply(w, drop));
      ExecAppend([drop], [stop], w);
      assert [drop] + [] == [drop];
      hide Exec;
    }
  }

  lemma LeavingKeepsWebviews(w: World, id: nat)
    ensures Exec(UnbindScript(w, id), w).webviews == w.webviews
  {
    hide Tabs.Step;
    hide ToFile;
    hide ForgetTaken;
    NothingDone(w);
    if HasTab(w.inner, id) {
      var take, taken := Locked(TakeServer(id)), ServerOf(w.inner, id);
      hide ServerOf;
      var w1 := Apply(w, take);
      var forget := ForgetTaken(w1.inner, taken);
      ForgettingTouches(w1.inner, taken, w1);
      ExecAppend([take] + forget, PERSIST, w);
      ExecAppend([take], forget, w);
      ExecOne(take, w);
      PersistIs(Exec(forget, w1));
      hide Exec;
    }
  }

  /** Leaving empties that tab, forgets its server, and changes no other tab. */
  lemma LeaveForgets(p: Policy, w: World, id: nat)
    requires Inv(p, w)
    ensures var after := Do(p, w, Leave(id));
            && Rebound(w.inner, after.inner, id, None) && after.webviews == w.webviews
            && Forgets(w, after, ServerOf(w.inner, id)) && FileNamesShown(after)
  {
    hide Rebound;
    hide FileNamesShown;
    hide ServerOf;
    hide UnbindScript;
    hide Tabs.Step;
    hide WithoutServer;
    hide Inv;
    hide AllSafe;
    hide TabsOk;
    hide DistinctIds;
    hide DistinctServers;
    hide Exec;
    hide Forgets;
    hide ToFile;
    InvIsDistinct(p, w);
    UnbindKeeps(p, w, id);
    InvNamesShown(p, Do(p, w, Leave(id)));
    TakenIs(w.inner, id);
    LeavingKeepsWebviews(w, id);
    WithoutServerForgets(w, Do(p, w, Leave(id)), ServerOf(w.inner, id));
  }

  lemma DetachingIs(w: World, id: nat)
    ensures var after := Exec(DetachScript(w, id), w);
            && after.inner == Tabs.Step(w.inner, RemoveTab(id)) && after.webviews == w.webviews - {id}
  {
    hide Tabs.Step;
    hide ServerOf;
    hide ForgetTaken;
    var remove, close := Locked(RemoveTab(id)), CloseWebviews({id});
    var w2 := Apply(Apply(w, remove), close);
    var taken := ServerOf(w.inner, id);
    ForgettingTouches(w2.inner, taken, w2);
    ExecAppend([remove, close], ForgetTaken(w2.inner, taken), w);
    assert [remove] + [close] == [remove, close];
    ExecAppend([remove], [close], w);
    ExecOne(remove, w);
    ExecOne(close, Apply(w, remove));
    hide Exec;
  }

  /** The tab shown after the one at `at` is closed: the active one as long as it is
      another; then the left neighbour, from the first tab the right one, and a new
      one when none is left. */
  function NextShown(s: Inner, at: nat): nat
    requires at < |s.tabs| && s.active.Some?
  {
    if s.active != Some(s.tabs[at].id) then s.active.value
    else if |s.tabs| == 1 then s.nextId + 1
    else if at == 0 then s.tabs[1].id
    else s.tabs[at - 1].id
  }

  lemma RemovedIs(s: Inner, at: nat)
    requires DistinctIds(s.tabs) && at < |s.tabs|
    ensures HasTab(s, s.tabs[at].id)
    ensures Tabs.Step(s, RemoveTab(s.tabs[at].id)) == s.(tabs := s.tabs[..at] + s.tabs[at + 1..])
  {
    FirstIs(s.tabs, s.tabs[at].id, at);
  }

  lemma DetachThenShow(w: World, id: nat, other: nat, now: Time)
    requires HasTab(Tabs.Step(w.inner, RemoveTab(id)), other)
    ensures var detach := DetachScript(w, id);
            Shows(Tabs.Step(w.inner, RemoveTab(id)).tabs, w.webviews - {id},
                  Exec(detach + ActivateScript(Exec(detach, w), other, now), w), other, now)
  {
    hide Shows;
    hide DetachScript;
    hide ActivateScript;
    hide Tabs.Step;
    hide HasTab;
    hide Exec;
    hide Trace;
    var detached := Exec(DetachScript(w, id), w);
    DetachingIs(w, id);
    ScriptShows(detached, other, now);
    ExecAppend(DetachScript(w, id), ActivateScript(detached, other, now), w);
  }

  lemma DetachThenOpen(w: World, id: nat, now: Time)
    requires Tabs.Step(w.inner, RemoveTab(id)).tabs == []
    requires Tabs.Step(w.inner, RemoveTab(id)).nextId == w.inner.nextId
    ensures var detach, next := DetachScript(w, id), w.inner.nextId + 1;
            Shows([Tab(next, None, Some(now))], w.webviews - {id},
                  Exec(detach + OpenScript(Exec(detach, w), None, now), w), next, now)
  {
    hide Shows;
    hide DetachScript;
    hide OpenScript;
    hide Tabs.Step;
    hide Exec;
    hide Trace;
    var detached := Exec(DetachScript(w, id), w);
    DetachingIs(w, id);
    NewTabShows(detached, None, now);
    ExecAppend(DetachScript(w, id), OpenScript(detached, None, now), w);
    assert [] + [Tab(w.inner.nextId + 1, None, Some(now))] == [Tab(w.inner.nextId + 1, None, Some(now))];
  }

  lemma ClosingShows(w: World, at: nat, now: Time)
    requires DistinctIds(w.inner.tabs) && at < |w.inner.tabs|
    requires w.inner.active.Some? && HasTab(w.inner, w.inner.active.value)
    ensures var s, id := w.inner, w.inner.tabs[at].id;
            var after := Exec(CloseScript(w, id, now), w);
            var rest := s.tabs[..at] + s.tabs[at + 1..];
            var next := NextShown(s, at);
            && Shows(if rest == [] then [Tab(next, None, Some(now))] else rest, w.webviews - {id}, after, next, now)
  {
    hide Shows;
    hide DetachScript;
    hide ActivateScript;
    hide OpenScript;
    hide Tabs.Step;
    hide HasTab;
    hide DistinctIds;
    hide NextActive;
    hide NextShown;
    hide Exec;
    var s, id := w.inner, w.inner.tabs[at].id;
    ClosingTurnsTo(s, at);
    RemovedIs(s, at);
    match NextActive(s, id)
    case Some(other) => DetachThenShow(w, id, other, now);
    case None => DetachThenOpen(w, id, now);
  }

  /** The code's choice of the next tab, and that the tab is there. */
  lemma ClosingTurnsTo(s: Inner, at: nat)
    requires DistinctIds(s.tabs) && at < |s.tabs| && s.active.Some? && HasTab(s, s.active.value)
    ensures HasTab(s, s.tabs[at].id)
    ensures var next := NextActive(s, s.tabs[at].id);
            && (next == if |s.tabs| == 1 then None else Some(NextShown(s, at)))
            && (|s.tabs| == 1 ==> NextShown(s, at) == s.nextId + 1)
            && (next.Some? ==> HasTab(Tabs.Step(s, RemoveTab(s.tabs[at].id)), next.value))
  {
    hide DistinctIds;
    NextIsNeighbour(s, at);
    NextIsThere(s, s.tabs[at].id);
    OnlyTabIsActive(s, at);
    hide NextActive;
    hide HasTab;
    hide Tabs.Step;
  }

  lemma OnlyTabIsActive(s: Inner, at: nat)
    requires at < |s.tabs| && s.active.Some? && HasTab(s, s.active.value)
    ensures |s.tabs| == 1 ==> s.active == Some(s.tabs[at].id)
  {
  }

  /** Closing a tab takes its webview with it, forgets its server, and shows the tab
      whose turn it is; the other tabs keep their order and their servers. */
  lemma CloseForgets(p: Policy, w: World, at: nat, now: Time)
    requires Inv(p, w) && at < |w.inner.tabs|
    ensures w.inner.active.Some?
    ensures var s, id := w.inner, w.inner.tabs[at].id;
            var after, next := Do(p, w, CloseTab(id, now)), NextShown(s, at);
            var rest := s.tabs[..at] + s.tabs[at + 1..];
            && Shows(if rest == [] then [Tab(next, None, Some(now))] else rest, w.webviews - {id}, after, next, now)
            && Forgets(w, after, s.tabs[at].server) && FileNamesShown(after)
  {
    hide Shows;
    hide FileNamesShown;
    hide CloseScript;
    hide WithoutServer;
    hide ClosedInner;
    var id := w.inner.tabs[at].id;
    var after := Do(p, w, CloseTab(id, now));
    InvIsDistinct(p, w);
    CloseKeeps(p, w, id, now);
    ActiveIsThere(w);
    hide Inv;
    hide AllSafe;
    hide TabsOk;
    InvNamesShown(p, after);
    ClosingShows(w, at, now);
    RemovedIs(w.inner, at);
    FirstIs(w.inner.tabs, id, at);
    hide Exec;
    hide DistinctIds;
    hide Tabs.Step;
    WithoutServerForgets(w, after, w.inner.tabs[at].server);
    hide Forgets;
  }

  // ---------- moving ----------

  lemma MovingIs(w: World, id: nat, index: nat)
    ensures Exec(MoveScript(w, id, index), w) ==
            if HasTab(w.inner, id) then
              var moved := Tabs.Step(w.inner, MoveTab(id, index));
              w.(inner := moved, disk := Saved(ToFile(moved)), tmp := None)
            else w
  {
    hide Tabs.Step;
    hide HasTab;
    hide ToFile;
    NothingDone(w);
    var move := Locked(MoveTab(id, index));
    ExecAppend([move], PERSIST, w);
    ExecOne(move, w);
    PersistIs(Apply(w, move));
    hide Exec;
  }

  lemma MovedLands(s: Inner, at: nat, index: nat)
    requires DistinctIds(s.tabs) && at < |s.tabs|
    ensures HasTab(s, s.tabs[at].id)
    ensures var to := if index < |s.tabs| then index else |s.tabs| - 1;
            var moved := Tabs.Step(s, MoveTab(s.tabs[at].id, index));
            && |moved.tabs| == |s.tabs| && moved.tabs[to] == s.tabs[at]
            && moved.tabs[..to] + moved.tabs[to + 1..] == s.tabs[..at] + s.tabs[at + 1..]
            && moved == s.(tabs := moved.tabs)
  {
    FirstIs(s.tabs, s.tabs[at].id, at);
    hide DistinctIds;
    Reorder.MovePermutes(s, s.tabs[at].id, index);
    Reorder.MovedIs(s, s.tabs[at].id, index);
    hide MoveTo;
    hide Tabs.Step;
    hide Position;
    hide ServerOf;
  }

  /** Dragging the tab at `at`: it lands at the given index, or last, and the others
      stay in their order; nothing else changes but the saved order. */
  lemma MoveLands(p: Policy, w: World, at: nat, index: nat)
    requires Inv(p, w) && at < |w.inner.tabs|
    ensures var s, id := w.inner, w.inner.tabs[at].id;
            var after, to := Do(p, w, MoveId(id, index)), if index < |s.tabs| then index else |s.tabs| - 1;
            && |after.inner.tabs| == |s.tabs| && after.inner.tabs[to] == s.tabs[at]
            && after.inner.tabs[..to] + after.inner.tabs[to + 1..] == s.tabs[..at] + s.tabs[at + 1..]
            && after == w.(inner := s.(tabs := after.inner.tabs), disk := after.disk, tmp := None)
            && FileNamesShown(after)
  {
    hide Inv;
    hide AllSafe;
    hide TabsOk;
    hide FileNamesShown;
    hide MoveScript;
    hide Exec;
    hide Tabs.Step;
    hide DistinctServers;
    hide ToFile;
    var s, id := w.inner, w.inner.tabs[at].id;
    InvIsDistinct(p, w);
    MoveKeeps(p, w, id, index);
    InvNamesShown(p, Do(p, w, MoveId(id, index)));
    MovingIs(w, id, index);
    MovedLands(s, at, index);
    hide MoveTo;
    hide DistinctIds;
    hide HasTab;
  }

  // ---------- sweeping ----------

  /** Some tab with this id is inactive and has been hidden for at least half an hour
      (in nanoseconds). */
  predicate IdleForHalfAnHour(s: Inner, id: nat, now: Time) {
    exists i :: 0 <= i < |s.tabs| && s.tabs[i].id == id && s.active != Some(id)
                && s.tabs[i].hiddenSince.Some? && now - s.tabs[i].hiddenSince.value >= 1_800_000_000_000
  }

  lemma StaleIs(s: Inner, now: Time, id: nat)
    ensures id in StaleIds(s, now) <==> IdleForHalfAnHour(s, id, now)
  {
    if id in StaleIds(s, now) {
      var i :| 0 <= i < |s.tabs| && s.tabs[i].id == id && IsStale(s, s.tabs[i], now);
    }
    if IdleForHalfAnHour(s, id, now) {
      var i :| 0 <= i < |s.tabs| && s.tabs[i].id == id && s.active != Some(id)
               && s.tabs[i].hiddenSince.Some? && now - s.tabs[i].hiddenSince.value >= 1_800_000_000_000;
      assert IsStale(s, s.tabs[i], now);
    }
  }

  /** A sweep takes a webview exactly from the tabs that have been idle for half an
      hour; the others keep theirs as it is. */
  lemma SweepDiscards(p: Policy, w: World, now: Time)
    requires Inv(p, w)
    ensures var after := Do(p, w, Sweep(now));
            && after == w.(webviews := after.webviews)
            && (forall id :: id in after.webviews <==> id in w.webviews && !IdleForHalfAnHour(w.inner, id, now))
            && (forall id :: id in after.webviews ==> after.webviews[id] == w.webviews[id])
  {
    hide Inv;
    hide AllSafe;
    hide StaleIds;
    hide IdleForHalfAnHour;
    SweepKeeps(p, w, now);
    forall id ensures id in StaleIds(w.inner, now) <==> IdleForHalfAnHour(w.inner, id, now) {
      StaleIs(w.inner, now, id);
    }
    hide Exec;
  }

  // ---------- session commands ----------

  /** Tabs, webviews and file. */
  predicate SameShell(w: World, after: World) {
    after == w.(keychain := after.keychain, sidecar := after.sidecar)
  }

  lemma {:induction false} BenignTouches(s: Inner, ops: seq<Op>, w: World)
    requires forall i :: 0 <= i < |ops| ==> Benign(s, ops[i])
    ensures SameShell(w, Exec(ops, w))
    decreases |ops|
  {
    hide Sidecars.Step;
    hide IsBound;
    hide BoundKey;
    if ops != [] {
      BenignTouches(s, ops[1..], Apply(w, ops[0]));
    }
  }

  /** The commands of a session leave tabs, webviews and file as they are. */
  lemma SessionLeavesShell(p: Policy, w: World, c: Command)
    requires Inv(p, w) && IsSessionCommand(c)
    ensures SameShell(w, Do(p, w, c))
  {
    InvIsDistinct(p, w);
    hide Inv;
    SessionIsBenign(p, w, c);
    hide Script;
    hide TabsOk;
    hide Benign;
    hide SameShell;
    BenignTouches(w.inner, Script(p, w, c), w);
  }

  /** Whether asking for the server's origin has to do with the child. */
  predicate NeedsChild(p: Policy, server: Option<Server>) {
    server.Some? && server.value.mode == Local && Allows(p, server.value)
  }

  lemma ResolvingIs(p: Policy, w: World, server: Server, spawn: Spawn)
    ensures Exec(ResolveScript(p, server, spawn), w) ==
            if NeedsChild(p, Some(server)) then w.(sidecar := AfterEnsure(w.sidecar, spawn).0) else w
  {
    hide Allows;
    hide AfterEnsure;
    NothingDone(w);
    ExecOne(Child(Ensure(spawn)), w);
    hide Exec;
  }

  /** Asking for a tab's server starts the child of a local one, and that is all. */
  lemma GetServerStarts(p: Policy, w: World, id: nat, spawn: Spawn)
    ensures Do(p, w, GetServer(id, spawn)) ==
            if NeedsChild(p, ServerOf(w.inner, id)) then w.(sidecar := AfterEnsure(w.sidecar, spawn).0) else w
  {
    hide NeedsChild;
    hide AfterEnsure;
    NothingDone(w);
    match ServerOf(w.inner, id)
    case None => assert !NeedsChild(p, None) by { NobodyNeedsNoChild(p); }
    case Some(server) =>
      hide ServerOf;
      ResolvingIs(p, w, server, spawn);
      hide ResolveScript;
      hide Exec;
  }

  lemma NobodyNeedsNoChild(p: Policy)
    ensures !NeedsChild(p, None)
  {
  }

  /** A login is kept under the account of the tab's server, without white space at its
      ends; a blank one deletes. */
  lemma StoreKeeps(p: Policy, w: World, id: nat, token: string)
    ensures var after := Do(p, w, Store(id, token));
            match ServerOf(w.inner, id)
            case None => after == w
            case Some(server) =>
              var account := if server.mode == Local then "local" else server.origin;
              var trimmed := Text.Trim(token, Text.IsWhiteSpace);
              after == w.(keychain := if trimmed == "" then w.keychain - {account} else w.keychain[account := trimmed])
  {
    hide Text.Trim;
    NothingDone(w);
    match ServerOf(w.inner, id)
    case None =>
    case Some(server) =>
      hide ServerOf;
      var trimmed := Text.Trim(token, Text.IsWhiteSpace);
      ExecOne(DropToken(KeychainKey(server)), w);
      ExecOne(PutToken(KeychainKey(server), trimmed), w);
      hide Exec;
  }

  lemma ClearForgets(p: Policy, w: World, id: nat)
    ensures var after := Do(p, w, Clear(id));
            match ServerOf(w.inner, id)
            case None => after == w
            case Some(server) =>
              after == w.(keychain := w.keychain - {if server.mode == Local then "local" else server.origin})
  {
    NothingDone(w);
    match ServerOf(w.inner, id)
    case None =>
    case Some(server) =>
      hide ServerOf;
      ExecOne(DropToken(KeychainKey(server)), w);
      hide Exec;
  }

  lemma {:induction false} TokenOpsKeepChild(ops: seq<Op>, w: World)
    requires forall i :: 0 <= i < |ops| ==> ops[i].PutToken? || ops[i].DropToken?
    ensures Exec(ops, w).sidecar == w.sidecar
    decreases |ops|
  {
    if ops != [] {
      TokenOpsKeepChild(ops[1..], Apply(w, ops[0]));
    }
  }

  lemma RefreshEffectIsToken(key: string, reply: Reply)
    ensures forall i :: 0 <= i < |RefreshEffect(key, reply)| ==>
              RefreshEffect(key, reply)[i].PutToken? || RefreshEffect(key, reply)[i].DropToken?
  {
    hide PostSession;
  }

  /** A refresh starts the child of a local server, if there is a token to refresh. */
  lemma RefreshStarts(p: Policy, w: World, id: nat, spawn: Spawn, reply: Reply)
    ensures Do(p, w, Refresh(id, spawn, reply)).sidecar ==
            var server := ServerOf(w.inner, id);
            if NeedsChild(p, server) && "local" in w.keychain then AfterEnsure(w.sidecar, spawn).0 else w.sidecar
  {
    hide AfterEnsure;
    hide Allows;
    hide RefreshEffect;
    hide Resolve;
    NothingDone(w);
    match ServerOf(w.inner, id)
    case None =>
    case Some(server) =>
      hide ServerOf;
      var resolve, effect := ResolveScript(p, server, spawn), RefreshEffect(KeychainKey(server), reply);
      ResolvingIs(p, w, server, spawn);
      hide ResolveScript;
      RefreshEffectIsToken(KeychainKey(server), reply);
      TokenOpsKeepChild(effect, Exec(resolve, w));
      ExecAppend(resolve, effect, w);
      ExecAppend(resolve, [], w);
      NothingDone(Exec(resolve, w));
      hide Exec;
  }

  lemma ExchangeTakes(sc: Sidecar, spawn: Spawn, reply: Reply, w: World)
    ensures Exec(ExchangeScript(sc, spawn, reply), w).sidecar == AfterTake(w.sidecar, spawn).0
  {
    hide PostSession;
    hide AfterTake;
    var take := Child(Take(spawn));
    var put := ExchangeScript(sc, spawn, reply)[1..];
    ExecOne(take, w);
    TokenOpsKeepChild(put, Apply(w, take));
    ExecAppend([take], put, w);
    assert ExchangeScript(sc, spawn, reply) == [take] + put;
    hide Exec;
  }

  /** What a sign-in does once the child runs. */
  function AfterOrigin(env: SignInWorld, sc: Sidecar): seq<Op> {
    match PostSession(env.refresh)
    case Success(refreshed) => PutRotated("local", refreshed.rotated)
    case Failure(e) =>
      if e == Http(401) then [DropToken("local")] + ExchangeScript(sc, env.second, env.exchange) else []
  }

  lemma AfterOriginTakes(env: SignInWorld, sc: Sidecar, w: World)
    ensures Exec(AfterOrigin(env, sc), w).sidecar ==
            if IsUnauthorized(env.refresh) then AfterTake(w.sidecar, env.second).0 else w.sidecar
  {
    hide AfterTake;
    HowRepliesAreRead(env.refresh);
    hide PostSession;
    hide IsUnauthorized;
    hide Rotates;
    hide ExchangeScript;
    var script := AfterOrigin(env, sc);
    if IsUnauthorized(env.refresh) {
      var drop := DropToken("local");
      ExecOne(drop, w);
      ExecAppend([drop], ExchangeScript(sc, env.second, env.exchange), w);
      ExchangeTakes(sc, env.second, env.exchange, Apply(w, drop));
    } else {
      TokenOpsKeepChild(script, w);
    }
    hide Exec;
  }

  /** A sign-in at the local server asks for the child when there is a token to
      refresh, and takes a grant when there is none or it was rejected. */
  lemma SignInStarts(p: Policy, w: World, id: nat, env: SignInWorld)
    ensures Do(p, w, SignIn(id, env)).sidecar ==
            if !NeedsChild(p, ServerOf(w.inner, id)) then w.sidecar
            else if "local" !in w.keychain then AfterTake(w.sidecar, env.second).0
            else
              var (ensured, origin) := AfterEnsure(w.sidecar, env.first);
              if origin.Failure? then ensured
              else if IsUnauthorized(env.refresh) then AfterTake(AfterExits(ensured, env.exits), env.second).0
              else AfterExits(ensured, env.exits)
  {
    hide AfterTake;
    hide AfterEnsure;
    hide AfterExits;
    hide Allows;
    hide ExchangeScript;
    hide IsUnauthorized;
    hide ServerOf;
    hide Exec;
    NothingDone(w);
    if NeedsChild(p, ServerOf(w.inner, id)) {
      hide PostSession;
      ExchangeTakes(w.sidecar, env.second, env.exchange, w);
      RefreshedSignIn(w, env);
    }
  }

  /** The operations of a sign-in with a stored token. */
  function RefreshFirst(sc: Sidecar, env: SignInWorld): seq<Op> {
    var (ensured, origin) := AfterEnsure(sc, env.first);
    [Child(Ensure(env.first))]
    + (if origin.Failure? then [] else Exits(env.exits) + AfterOrigin(env, AfterExits(ensured, env.exits)))
  }

  lemma RefreshedSignIn(w: World, env: SignInWorld)
    ensures Exec(RefreshFirst(w.sidecar, env), w).sidecar ==
            var (ensured, origin) := AfterEnsure(w.sidecar, env.first);
            if origin.Failure? then ensured
            else if IsUnauthorized(env.refresh) then AfterTake(AfterExits(ensured, env.exits), env.second).0
            else AfterExits(ensured, env.exits)
  {
    hide AfterTake;
    hide AfterEnsure;
    hide AfterExits;
    hide IsUnauthorized;
    hide AfterOrigin;
    hide Exits;
    hide Exec;
    var ensured := AfterEnsure(w.sidecar, env.first).0;
    var started := w.(sidecar := ensured);
    var left := AfterExits(ensured, env.exits);
    var rest := AfterOrigin(env, left);
    ExecOne(Child(Ensure(env.first)), w);
    ExitsAre(env.exits, started);
    AfterOriginTakes(env, left, started.(sidecar := left));
    ExecAppend([Child(Ensure(env.first))], [], w);
    ExecAppend([Child(Ensure(env.first))], Exits(env.exits) + rest, w);
    ExecAppend(Exits(env.exits), rest, started);
    NothingDone(started);
  }

  lemma ChildGoneIs(p: Policy, w: World, child: nat)
    requires child < w.sidecar.spawned
    ensures Do(p, w, ChildGone(child)) ==
            w.(sidecar := w.sidecar.(running := if child in InSlot(w.sidecar) then None else w.sidecar.running,
                                     exited := w.sidecar.exited + {child}))
  {
    ExecOne(Child(ChildExit(child)), w);
    hide Exec;
    ChildExitIs(w.sidecar, child);
  }

  // ---------- launching ----------

  lemma LaunchesEmpty(w: World, forget: seq<Op>, b: World, now: Time)
    requires w == Exec(forget, b) && w.inner == EMPTY
    ensures var after := Exec(forget + OpenScript(w, None, now), b);
            && after.inner == Restored(TabsFile([], 0), now) && after.disk == Saved(ToFile(after.inner))
            && after.keychain == w.keychain
  {
    hide ToFile;
    hide ActivateScript;
    hide Exec;
    hide Tabs.Step;
    hide HasTab;
    hide OpenScript;
    hide Insert;
    ExecAppend(forget, OpenScript(w, None, now), b);
    OpeningIs(w, None, now);
    ShowingIs(w.(inner := Insert(EMPTY, None, now)), 1, now);
  }

  lemma LaunchesSaved(w: World, forget: seq<Op>, b: World, file: TabsFile, now: Time)
    requires w == Exec(forget, b) && w.inner == EMPTY && file.servers != []
    ensures var insert, id := InsertEach(file.servers, now), Min(file.active, |file.servers| - 1) + 1;
            var restored := Exec(forget + insert, b);
            var after := Exec(forget + insert + ActivateScript(restored, id, now), b);
            && after.inner == Restored(file, now) && after.disk == Saved(ToFile(after.inner))
            && after.keychain == w.keychain
  {
    hide ToFile;
    hide ActivateScript;
    hide Exec;
    hide Tabs.Step;
    hide HasTab;
    hide InsertEach;
    hide InsertAll;
    var insert, id := InsertEach(file.servers, now), Min(file.active, |file.servers| - 1) + 1;
    var restored := Exec(insert, w);
    ExecAppend(forget, insert, b);
    InsertEachIs(file.servers, w, now);
    AllInserted(file.servers, now);
    TabAt(restored.inner, id, id - 1);
    ShowingIs(restored, id, now);
    ExecAppend(forget + insert, ActivateScript(restored, id, now), b);
  }

  /** A launch over any disk, also one the program never wrote, shows what the reader
      made of the file. */
  lemma LaunchRestores(p: Policy, w: World, now: Time)
    ensures Launched(p, w, now).inner == Restored(ReadFile(p, w.disk), now)
    ensures Launched(p, w, now).disk == Saved(ToFile(Launched(p, w, now).inner))
    ensures Launched(p, w, now).keychain == Exec(DropAll(Forgotten(p, w.disk)), Booted(w)).keychain
  {
    hide ToFile;
    hide ReadFile;
    hide Forgotten;
    hide DropAll;
    hide ActivateScript;
    hide OpenScript;
    hide InsertEach;
    hide Exec;
    var b, forget, file := Booted(w), DropAll(Forgotten(p, w.disk)), ReadFile(p, w.disk);
    DropAllIs(Forgotten(p, w.disk), b);
    if file.servers == [] {
      LaunchesEmpty(Exec(forget, b), forget, b, now);
      EmptyIsEmpty(file, now);
    } else {
      LaunchesSaved(Exec(forget, b), forget, b, file, now);
    }
    hide Restored;
  }

  lemma EmptyIsEmpty(file: TabsFile, now: Time)
    requires file.servers == []
    ensures Restored(file, now) == Restored(TabsFile([], 0), now)
  {
  }

  /** The servers of a list of tabs. */
  lemma RestoredServers(file: TabsFile, now: Time, server: Server)
    ensures (exists i :: 0 <= i < |Restored(file, now).tabs| && Restored(file, now).tabs[i].server == Some(server)) <==>
            server in file.servers
  {
    if file.servers == [] {
      assert forall i :: 0 <= i < |Restored(file, now).tabs| ==> Restored(file, now).tabs[i].server == None;
    } else {
      RestoredTabs(file, now);
      var tabs := Restored(file, now).tabs;
      hide Restored;
      if server in file.servers {
        var i :| 0 <= i < |file.servers| && file.servers[i] == server;
        assert tabs[i].server == Some(server);
      }
    }
  }

  /** Whatever is on disk: a launch shows exactly the servers the file names that are
      local or have an address in normal form, and that policy allows. */
  lemma RestoresExactly(p: Policy, w: World, now: Time, server: Server)
    ensures var tabs := Launched(p, w, now).inner.tabs;
            (exists i :: 0 <= i < |tabs| && tabs[i].server == Some(server)) <==>
            && w.disk.Saved? && server in w.disk.file.servers && Allows(p, server)
            && (server.mode == Local || Origin.Normalize(server.origin) == Some(server.origin))
  {
    hide Allows;
    hide Origin.Normalize;
    LaunchRestores(p, w, now);
    RestoredServers(ReadFile(p, w.disk), now, server);
    hide Launched;
    hide Restored;
  }

  /** The file names the server with this account, readably, and policy blocks it. */
  predicate BlocksAccount(p: Policy, disk: DiskFile, account: string) {
    disk.Saved? && exists i :: 0 <= i < |disk.file.servers| && BlocksEntry(p, disk.file.servers[i], account)
  }

  predicate BlocksEntry(p: Policy, server: Server, account: string) {
    && !Allows(p, server)
    && account == (if server.mode == Local then "local" else server.origin)
    && (server.mode == Local || Origin.Normalize(server.origin) == Some(server.origin))
  }

  lemma ForgottenAre(p: Policy, disk: DiskFile, server: Server)
    ensures server in Forgotten(p, disk) <==>
            && disk.Saved? && server in disk.file.servers && !Allows(p, server)
            && (server.mode == Local || Origin.Normalize(server.origin) == Some(server.origin))
  {
    hide Allows;
    hide Origin.Normalize;
  }

  lemma ForgottenAccounts(p: Policy, disk: DiskFile, account: string)
    ensures HasKey(Forgotten(p, disk), account) <==> BlocksAccount(p, disk, account)
  {
    hide Allows;
    hide Origin.Normalize;
    hide Forgotten;
    var forgotten := Forgotten(p, disk);
    if HasKey(forgotten, account) {
      var i :| 0 <= i < |forgotten| && KeychainKey(forgotten[i]) == account;
      ForgottenAre(p, disk, forgotten[i]);
      var j :| 0 <= j < |disk.file.servers| && disk.file.servers[j] == forgotten[i];
      assert BlocksEntry(p, disk.file.servers[j], account);
    }
    if BlocksAccount(p, disk, account) {
      var i :| 0 <= i < |disk.file.servers| && BlocksEntry(p, disk.file.servers[i], account);
      ForgottenAre(p, disk, disk.file.servers[i]);
      InListHasKey(forgotten, disk.file.servers[i]);
    }
  }

  /** Whatever is on disk: a launch deletes the credentials of the servers the file names
      that policy blocks, and no others. */
  lemma LaunchForgets(p: Policy, w: World, now: Time, account: string)
    ensures var after := Launched(p, w, now);
            && (account in after.keychain <==> account in w.keychain && !BlocksAccount(p, w.disk, account))
            && (account in after.keychain ==> after.keychain[account] == w.keychain[account])
  {
    hide BlocksAccount;
    hide Forgotten;
    hide HasKey;
    LaunchRestores(p, w, now);
    DropAllIs(Forgotten(p, w.disk), Booted(w));
    ForgottenAccounts(p, w.disk, account);
    hide Launched;
    hide Exec;
    hide DropAll;
    hide Restored;
  }

  /** A file that cannot be read is started over, and credentials are left without a
      server: the launch is safe exactly if there were none. */
  lemma UnreadableFile(p: Policy, w: World, now: Time)
    requires w.disk == Corrupt
    ensures var after := Launched(p, w, now);
            && after.inner.tabs == [Tab(1, None, None)] && after.disk == Saved(TabsFile([], 0))
            && after.keychain == w.keychain
            && (Safe(after) <==> w.keychain == map[])
  {
    var after := Launched(p, w, now);
    LaunchRestores(p, w, now);
    NothingToKeep(p);
    forall account ensures account in after.keychain <==> account in w.keychain
      ensures account in after.keychain ==> after.keychain[account] == w.keychain[account]
    {
      LaunchForgets(p, w, now, account);
    }
    hide Launched;
    assert after.keychain == w.keychain;
    EmptyLaunch(now);
    assert after.inner == Restored(TabsFile([], 0), now);
    hide Restored;
    if w.keychain != map[] {
      var account :| account in w.keychain;
      assert !HasKey([], account);
    }
  }

  lemma EmptyLaunch(now: Time)
    ensures Restored(TabsFile([], 0), now).tabs == [Tab(1, None, None)]
    ensures ToFile(Restored(TabsFile([], 0), now)) == TabsFile([], 0)
  {
    assert Insert(EMPTY, None, now).tabs == [Tab(1, None, Some(now))];
    assert Restored(TabsFile([], 0), now).tabs == [Tab(1, None, None)];
    assert BoundTabs([Tab(1, None, None)]) == [];
  }
}
