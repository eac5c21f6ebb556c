/** Every command, cut at any operation, leaves a state a restart can use; run to
    its end it keeps the window, the resources and the file in step. */
module Commands {
  import opened Wrappers
  import opened Text
  import opened Servers
  import opened Policies
  import opened Tabs
  import opened Restore
  import opened Sidecars
  import opened Shell
  import opened Invariants
  import Origin

  // ---------- leaving and closing ----------

  /** Leaving a server unbinds the tab, drops that server's credential and no
      other, and stops the sidecar exactly when it was the local server. */
  lemma UnbindKeeps(p: Policy, w: World, id: nat)
    requires Inv(p, w)
    ensures AllSafe(UnbindScript(w, id), w)
    ensures Inv(p, Exec(UnbindScript(w, id), w))
    ensures SameCredentials(Exec(UnbindScript(w, id), w), WithoutServer(w, ServerOf(w.inner, id)))
    ensures Exec(UnbindScript(w, id), w).inner == Tabs.Step(w.inner, TakeServer(id))
  {
    hide AllSafe;
    hide Consistent;
    hide WindowOk;
    hide Safe;
    hide Losing;
    ConsistentIsSafe(p, w);
    if !HasTab(w.inner, id) {
      QuietScriptIsSafe([], w);
    } else {
      var take, taken := TakeServer(id), ServerOf(w.inner, id);
      var w1 := Apply(w, Locked(take));
      TakeLoses(p, w, take);
      LosingIsSafe(p, w1, taken);
      SectionKeepsWindow(w, take);
      ForgetKeeps(p, w1, taken);
      hide ForgetTaken;
      var forget := ForgetTaken(w1.inner, taken);
      var w2 := Exec(forget, w1);
      SameWindow(w1, w2);
      PersistKeeps(p, w2);
      SameWindow(w2, Exec(PERSIST, w2));
      OneOp(w, Locked(take));
      TwoScripts([Locked(take)], forget, w);
      TwoScripts([Locked(take)] + forget, PERSIST, w);
    }
  }

  lemma LosingIsSafe(p: Policy, w: World, taken: Option<Server>)
    requires Losing(p, w, taken)
    ensures Safe(w)
  {
  }

  lemma CloseWebviewsKeeps(p: Policy, w: World, ids: set<nat>)
    requires Consistent(p, w)
    ensures Consistent(p, Apply(w, CloseWebviews(ids)))
  {
    QuietIsSafe(w, CloseWebviews(ids));
    hide Safe;
    hide TabsOk;
  }

  /** After the tab, its webview and its server are gone all that is left to do
      is to show another tab. */
  lemma DetachKeeps(p: Policy, w: World, id: nat)
    requires Consistent(p, w) && HasTab(w.inner, id)
    ensures AllSafe(DetachScript(w, id), w)
    ensures var after := Exec(DetachScript(w, id), w);
            && Consistent(p, after) && after.inner == Tabs.Step(w.inner, RemoveTab(id))
            && SameCredentials(after, WithoutServer(w, ServerOf(w.inner, id)))
  {
    hide AllSafe;
    hide Consistent;
    hide Safe;
    hide Losing;
    hide ForgetTaken;
    var remove, close, taken := RemoveTab(id), CloseWebviews({id}), ServerOf(w.inner, id);
    var w1 := Apply(w, Locked(remove));
    var w2 := Apply(w1, close);
    var closed := Apply(w, close);
    CloseWebviewsKeeps(p, w, {id});
    TakeLoses(p, closed, remove);
    assert Apply(closed, Locked(remove)) == w2;
    ForgetKeeps(p, w2, taken);
    ConsistentIsSafe(p, w);
    QuietIsSafe(w, Locked(remove));
    LosingIsSafe(p, w2, taken);
    OneOp(w, Locked(remove));
    OneOp(w1, close);
    TwoScripts([Locked(remove)], [close], w);
    assert [Locked(remove)] + [close] == [Locked(remove), close];
    TwoScripts([Locked(remove), close], ForgetTaken(w2.inner, taken), w);
  }

  lemma NextIsThere(s: Inner, id: nat)
    requires HasTab(s, id) && s.active.Some? && HasTab(s, s.active.value)
    ensures match NextActive(s, id)
            case Some(next) => HasTab(Tabs.Step(s, RemoveTab(id)), next)
            case None => |s.tabs| == 1
  {
    var at, rest := Position(s.tabs, id), Remove(s, id).value;
    if s.active != Some(id) {
      RemoveKeepsTab(s, id, s.active.value);
    } else if rest.tabs != [] {
      var i := if at == 0 then 0 else at - 1;
      TabAt(rest, rest.tabs[i].id, i);
    }
  }

  lemma ActiveIsThere(w: World)
    requires WindowOk(w)
    ensures w.inner.active.Some? && HasTab(w.inner, w.inner.active.value)
  {
  }

  /** The tab list after a close. */
  function ClosedInner(s: Inner, id: nat, now: Time): Inner
    requires HasTab(s, id)
  {
    var rest := Tabs.Step(s, RemoveTab(id));
    match NextActive(s, id)
    case Some(next) => Tabs.Step(rest, ActivateTab(next, now))
    case None => OpenedInner(rest, now)
  }

  /** Closing a tab removes that tab, drops the credential of its server and no
      other, and stops the sidecar exactly when the tab showed the local server. */
  lemma CloseKeeps(p: Policy, w: World, id: nat, now: Time)
    requires Inv(p, w)
    ensures AllSafe(CloseScript(w, id, now), w)
    ensures Inv(p, Exec(CloseScript(w, id, now), w))
    ensures HasTab(w.inner, id) ==>
              && SameCredentials(Exec(CloseScript(w, id, now), w), WithoutServer(w, ServerOf(w.inner, id)))
              && Exec(CloseScript(w, id, now), w).inner == ClosedInner(w.inner, id, now)
  {
    hide AllSafe;
    hide Consistent;
    hide WindowOk;
    hide Safe;
    hide DetachScript;
    hide ActivateScript;
    hide OpenScript;
    hide Tabs.Step;
    hide OpenedInner;
    hide NextActive;
    hide WithoutServer;
    hide ToFile;
    ConsistentIsSafe(p, w);
    if !HasTab(w.inner, id) {
      QuietScriptIsSafe([], w);
    } else {
      DetachKeeps(p, w, id);
      ActiveIsThere(w);
      NextIsThere(w.inner, id);
      hide HasTab;
      hide Inv;
      var detach := DetachScript(w, id);
      var detached := Exec(detach, w);
      match NextActive(w.inner, id)
      case Some(next) =>
        ActivateKeeps(p, detached, next, now);
        TwoScripts(detach, ActivateScript(detached, next, now), w);
      case None =>
        OpenKeeps(p, detached, None, now);
        TwoScripts(detach, OpenScript(detached, None, now), w);
    }
  }

  lemma SweptWindow(w: World, now: Time)
    requires WindowOk(w)
    ensures WindowOk(Apply(w, CloseWebviews(StaleIds(w.inner, now))))
  {
    assert w.inner.active.value !in StaleIds(w.inner, now);
  }

  /** A sweep drops exactly the webviews of tabs that are not active and have been
      hidden for at least 30 minutes, and nothing else. */
  lemma SweepKeeps(p: Policy, w: World, now: Time)
    requires Inv(p, w)
    ensures AllSafe(SweepScript(w, now), w)
    ensures var after := Exec(SweepScript(w, now), w);
            && Inv(p, after) && after == w.(webviews := after.webviews)
            && (forall id :: id in after.webviews <==> (id in w.webviews && id !in StaleIds(w.inner, now)))
            && (forall id :: id in after.webviews ==> after.webviews[id] == w.webviews[id])
  {
    hide Consistent;
    hide WindowOk;
    hide AllSafe;
    hide StaleIds;
    hide ToFile;
    hide Safe;
    var op := CloseWebviews(StaleIds(w.inner, now));
    CloseWebviewsKeeps(p, w, op.ids);
    SweptWindow(w, now);
    ConsistentIsSafe(p, w);
    ConsistentIsSafe(p, Apply(w, op));
    OneOp(w, op);
  }

  // ---------- session commands ----------

  /** Operations that keep everything in step, given the tabs. */
  ghost predicate Benign(s: Inner, op: Op) {
    match op
    case PutToken(key, _) => BoundKey(s, key)
    case DropToken(_) => true
    case Child(act) => act.StopAct? || act.ChildExit? || ((act.Ensure? || act.Take?) && IsBound(s, LOCAL))
    case _ => false
  }

  lemma ChildKeeps(p: Policy, w: World, act: Act)
    requires Inv(p, w)
    requires act.Ensure? || act.Take? ==> IsBound(w.inner, LOCAL)
    ensures Inv(p, Apply(w, Child(act))) && Apply(w, Child(act)).inner == w.inner
  {
    hide TabsOk;
    hide Written;
    hide ToFile;
    hide BoundKey;
    hide WindowOk;
    Sidecars.StepKeepsOk(w.sidecar, act);
    QuietIsSafe(w, Child(act));
    SameWindow(w, Apply(w, Child(act)));
    hide SidecarOk;
  }

  lemma BenignKeeps(p: Policy, w: World, op: Op)
    requires Inv(p, w) && Benign(w.inner, op)
    ensures Inv(p, Apply(w, op)) && Apply(w, op).inner == w.inner
  {
    hide TabsOk;
    hide Written;
    hide ToFile;
    hide BoundKey;
    hide WindowOk;
    hide SidecarOk;
    if op.Child? {
      ChildKeeps(p, w, op.act);
    } else {
      SavedKeys(w.inner, op.key);
      SameWindow(w, Apply(w, op));
    }
  }

  lemma {:induction false} BenignScript(p: Policy, w: World, ops: seq<Op>)
    requires Inv(p, w) && forall i :: 0 <= i < |ops| ==> Benign(w.inner, ops[i])
    ensures AllSafe(ops, w) && Inv(p, Exec(ops, w)) && Exec(ops, w).inner == w.inner
    decreases |ops|
  {
    ConsistentIsSafe(p, w);
    if ops != [] {
      BenignKeeps(p, w, ops[0]);
      hide Inv;
      hide Safe;
      hide Apply;
      var next := Apply(w, ops[0]);
      hide Benign;
      forall i | 0 <= i < |ops[1..]| ensures Benign(next.inner, ops[1..][i]) {
        assert ops[1..][i] == ops[i + 1];
      }
      BenignScript(p, next, ops[1..]);
    }
  }

  lemma CallerIsBound(p: Policy, s: Inner, id: nat)
    requires TabsOk(p, s) && ServerOf(s, id).Some?
    ensures IsBound(s, ServerOf(s, id).value) && BoundKey(s, KeychainKey(ServerOf(s, id).value))
    ensures ServerOf(s, id).value.mode == Local ==> ServerOf(s, id).value == LOCAL
  {
    BoundAt(s, ServerOf(s, id).value, Position(s.tabs, id));
    assert Usable(p, s.tabs[Position(s.tabs, id)].server.value);
  }

  /** Commands that only touch the calling tab's credential and the sidecar. */
  predicate IsSessionCommand(c: Command) {
    c.GetServer? || c.Store? || c.Clear? || c.Refresh? || c.SignIn?
  }

  lemma SignInIsBenign(p: Policy, w: World, id: nat, env: SignInWorld)
    requires TabsOk(p, w.inner)
    ensures var ops := SignInScript(p, w, id, env);
            forall i :: 0 <= i < |ops| ==> Benign(w.inner, ops[i])
  {
    OnlyExits(env.exits);
    hide Exits;
    hide AfterExits;
    hide TabsOk;
    hide BoundKey;
    hide IsBound;
    hide PostSession;
    hide Allows;
    hide AfterEnsure;
    hide AfterTake;
    if ServerOf(w.inner, id).Some? {
      CallerIsBound(p, w.inner, id);
    }
  }

  lemma SessionIsBenign(p: Policy, w: World, c: Command)
    requires TabsOk(p, w.inner) && IsSessionCommand(c)
    ensures forall i :: 0 <= i < |Script(p, w, c)| ==> Benign(w.inner, Script(p, w, c)[i])
  {
    hide TabsOk;
    hide BoundKey;
    hide IsBound;
    hide PostSession;
    hide Trim;
    hide Allows;
    hide Resolve;
    hide SignInScript;
    if c.SignIn? {
      SignInIsBenign(p, w, c.id, c.env);
    } else if ServerOf(w.inner, c.id).Some? {
      CallerIsBound(p, w.inner, c.id);
    }
  }

  lemma SessionKeeps(p: Policy, w: World, c: Command)
    requires Inv(p, w) && IsSessionCommand(c)
    ensures AllSafe(Script(p, w, c), w) && Inv(p, Do(p, w, c)) && Do(p, w, c).inner == w.inner
  {
    SessionIsBenign(p, w, c);
    hide Script;
    BenignScript(p, w, Script(p, w, c));
  }

  lemma SetRemoteKeeps(p: Policy, w: World, id: nat, raw: string)
    requires Inv(p, w)
    ensures AllSafe(SetRemoteScript(p, w, id, raw), w)
    ensures Inv(p, Exec(SetRemoteScript(p, w, id, raw), w))
  {
    hide Origin.Normalize;
    hide Allows;
    hide Consistent;
    hide WindowOk;
    hide BindScript;
    ConsistentIsSafe(p, w);
    match Origin.Normalize(raw)
    case None =>
    case Some(origin) =>
      Origin.NormalizeIdempotent(raw);
      if Allows(p, RemoteServer(origin)) {
        BindKeeps(p, w, id, RemoteServer(origin));
      }
  }

  lemma BoundAfterBind(s: Inner, id: nat, server: Server)
    requires Tabs.Bind(s, id, server).Success?
    ensures IsBound(Tabs.Bind(s, id, server).value, server)
  {
    BoundAt(Tabs.Bind(s, id, server).value, server, Position(s.tabs, id));
  }

  lemma SetLocalKeeps(p: Policy, w: World, id: nat, spawn: Spawn)
    requires Inv(p, w)
    ensures AllSafe(SetLocalScript(p, w, id, spawn), w)
    ensures Inv(p, Exec(SetLocalScript(p, w, id, spawn), w))
  {
    hide Consistent;
    hide WindowOk;
    hide AllSafe;
    hide Safe;
    hide ToFile;
    hide Tabs.Bind;
    ConsistentIsSafe(p, w);
    if Allows(p, LOCAL) && Tabs.Bind(w.inner, id, LOCAL).Success? {
      assert Usable(p, LOCAL);
      hide Usable;
      SectionThenPersist(p, w, BindTab(id, LOCAL));
      var w1 := Exec(BindScript(w, id, LOCAL), w);
      BoundAfterBind(w.inner, id, LOCAL);
      hide IsBound;
      assert w1.inner == Tabs.Bind(w.inner, id, LOCAL).value;
      BenignScript(p, w1, [Child(Ensure(spawn))]);
      TwoScripts(BindScript(w, id, LOCAL), [Child(Ensure(spawn))], w);
    } else {
      QuietScriptIsSafe([], w);
    }
  }

  lemma ChildGoneKeeps(p: Policy, w: World, child: nat)
    requires Inv(p, w)
    ensures AllSafe([Child(ChildExit(child))], w)
    ensures Inv(p, Exec([Child(ChildExit(child))], w))
  {
    hide Inv;
    hide AllSafe;
    hide Safe;
    var op := Child(ChildExit(child));
    ChildKeeps(p, w, op.act);
    InvIsSafe(p, w);
    InvIsSafe(p, Apply(w, op));
    OneOp(w, op);
  }

  lemma InvIsConsistent(p: Policy, w: World)
    requires Inv(p, w)
    ensures Consistent(p, w)
  {
  }

  lemma InvIsSaved(p: Policy, w: World)
    requires Inv(p, w)
    ensures TabsOk(p, w.inner) && Safe(w) && w.disk == Saved(ToFile(w.inner)) && w.inner.active.Some?
  {
  }

  lemma InvIsSafe(p: Policy, w: World)
    requires Inv(p, w)
    ensures Safe(w)
  {
  }

  /** The policy check that precedes every request never refuses a tab's server:
      nothing the policy forbids gets bound in the first place. */
  lemma BoundServersPassPolicy(p: Policy, w: World, id: nat, spawn: Spawn)
    requires Inv(p, w) && ServerOf(w.inner, id).Some?
    ensures Check(p, ServerOf(w.inner, id).value) == None
    ensures var r := Resolve(p, w, ServerOf(w.inner, id).value, spawn);
            r.Failure? ==> r.error.FromSidecar? && ServerOf(w.inner, id) == Some(LOCAL)
  {
    hide WindowOk;
    hide Safe;
    hide SidecarOk;
    assert Usable(p, w.inner.tabs[Position(w.inner.tabs, id)].server.value);
    hide Origin.Normalize;
  }

  // ---------- every command ----------

  /** What the outside can send: a tab is opened with a usable server or none. */
  predicate Legal(p: Policy, c: Command) {
    c.OpenTab? && c.server.Some? ==> Usable(p, c.server.value)
  }

  /** The one theorem about commands: whichever operation a command is cut after,
      the credentials left are safe; once it completes, everything is in step. */
  lemma CommandKeeps(p: Policy, w: World, c: Command)
    requires Inv(p, w) && Legal(p, c)
    ensures AllSafe(Script(p, w, c), w)
    ensures Inv(p, Do(p, w, c))
  {
    hide AllSafe;
    hide Usable;
    hide Inv;
    hide Consistent;
    hide Exec;
    hide OpenScript;
    hide ActivateScript;
    hide CloseScript;
    hide MoveScript;
    hide SweepScript;
    hide SetRemoteScript;
    hide SetLocalScript;
    hide UnbindScript;
    if IsSessionCommand(c) {
      SessionKeeps(p, w, c);
    } else {
      match c
      case OpenTab(server, now) => InvIsConsistent(p, w); OpenKeeps(p, w, server, now);
      case ActivateId(id, now) => ActivateIdKeeps(p, w, id, now);
      case CloseTab(id, now) => CloseKeeps(p, w, id, now);
      case MoveId(id, index) => MoveKeeps(p, w, id, index);
      case Sweep(now) => SweepKeeps(p, w, now);
      case SetRemote(id, raw) => SetRemoteKeeps(p, w, id, raw);
      case SetLocal(id, spawn) => SetLocalKeeps(p, w, id, spawn);
      case Leave(id) => UnbindKeeps(p, w, id);
      case ChildGone(child) => ChildGoneKeeps(p, w, child);
    }
  }

  lemma ActivateIdKeeps(p: Policy, w: World, id: nat, now: Time)
    requires Inv(p, w)
    ensures AllSafe(ActivateScript(w, id, now), w)
    ensures Inv(p, Exec(ActivateScript(w, id, now), w))
  {
    hide Consistent;
    hide WindowOk;
    if HasTab(w.inner, id) {
      ActivateKeeps(p, w, id, now);
    } else {
      ConsistentIsSafe(p, w);
    }
  }
}
