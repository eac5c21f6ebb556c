/** Commands while children exit: the exit of a child may be noticed after any
    operation of any command. */
module Turns {
  import opened Wrappers
  import opened Servers
  import opened Policies
  import opened Tabs
  import opened Restore
  import opened Sidecars
  import opened Shell
  import opened Invariants
  import opened Commands
  import Origin

  predicate AllLegal(p: Policy, turns: seq<Turn>) {
    forall i :: 0 <= i < |turns| ==> Legal(p, turns[i].command)
  }

  lemma LegalFirst(p: Policy, turns: seq<Turn>)
    requires AllLegal(p, turns) && turns != []
    ensures Legal(p, turns[0].command) && AllLegal(p, turns[1..])
  {
    hide Legal;
  }

  // ---------- exits change the sidecar only ----------

  /** The same but for the sidecar. */
  predicate SameButChild(w: World, v: World) {
    w == v.(sidecar := w.sidecar)
  }

  lemma OpIgnoresChild(w: World, v: World, op: Op)
    requires SameButChild(w, v)
    ensures SameButChild(Apply(w, op), Apply(v, op))
  {
    hide Tabs.Step;
    hide Sidecars.Step;
    hide ToFile;
  }

  /** Whatever exits are noticed on the way, a script does the same to tabs,
      webviews, file and keychain. */
  lemma {:induction false} WeaveDoesTheSame(script: seq<Op>, gaps: seq<seq<nat>>, w: World, v: World)
    requires SameButChild(w, v)
    ensures SameButChild(Exec(Weave(script, gaps), w), Exec(script, v))
    decreases |script|
  {
    hide Apply;
    hide SameButChild;
    if script != [] && gaps != [] {
      WeaveStep(script, gaps, w);
      var w1, v1 := Apply(w, script[0]), Apply(v, script[0]);
      OpIgnoresChild(w, v, script[0]);
      ExitsIgnored(gaps[0], w1, v1);
      WeaveDoesTheSame(script[1..], gaps[1..], Exec(Exits(gaps[0]), w1), v1);
    } else {
      ScriptIgnoresChild(script, w, v);
    }
  }

  lemma {:induction false} ScriptIgnoresChild(script: seq<Op>, w: World, v: World)
    requires SameButChild(w, v)
    ensures SameButChild(Exec(script, w), Exec(script, v))
    decreases |script|
  {
    hide Apply;
    hide SameButChild;
    if script != [] {
      OpIgnoresChild(w, v, script[0]);
      ScriptIgnoresChild(script[1..], Apply(w, script[0]), Apply(v, script[0]));
    }
  }

  lemma ExitsIgnored(children: seq<nat>, w: World, v: World)
    requires SameButChild(w, v)
    ensures SameButChild(Exec(Exits(children), w), v)
  {
    ExitsAre(children, w);
  }

  lemma WeaveStep(script: seq<Op>, gaps: seq<seq<nat>>, w: World)
    requires script != [] && gaps != []
    ensures Exec(Weave(script, gaps), w) ==
            Exec(Weave(script[1..], gaps[1..]), Exec(Exits(gaps[0]), Apply(w, script[0])))
  {
    hide Apply;
    var rest := Weave(script[1..], gaps[1..]);
    ExecAppend([script[0]] + Exits(gaps[0]), rest, w);
    ExecAppend([script[0]], Exits(gaps[0]), w);
    ExecOne(script[0], w);
  }

  // ---------- safety ----------

  lemma SafeIgnoresChild(w: World, v: World)
    requires SameButChild(w, v)
    ensures Safe(w) <==> Safe(v)
  {
    hide Written;
  }

  lemma {:induction false} ExitsAreSafe(children: seq<nat>, w: World)
    requires Safe(w)
    ensures AllSafe(Exits(children), w)
  {
    OnlyExits(children);
    QuietScriptIsSafe(Exits(children), w);
  }

  lemma {:induction false} ScriptSafeWithoutChild(script: seq<Op>, w: World, v: World)
    requires SameButChild(w, v) && AllSafe(script, v)
    ensures AllSafe(script, w)
    decreases |script|
  {
    hide Apply;
    hide Safe;
    SafeIgnoresChild(w, v);
    if script != [] {
      OpIgnoresChild(w, v, script[0]);
      hide SameButChild;
      ScriptSafeWithoutChild(script[1..], Apply(w, script[0]), Apply(v, script[0]));
    }
  }

  lemma {:induction false} WeaveIsSafe(script: seq<Op>, gaps: seq<seq<nat>>, w: World, v: World)
    requires SameButChild(w, v) && AllSafe(script, v)
    ensures AllSafe(Weave(script, gaps), w)
    decreases |script|
  {
    hide Apply;
    hide Safe;
    if script != [] && gaps != [] {
      var w1, v1 := Apply(w, script[0]), Apply(v, script[0]);
      var exits, rest := Exits(gaps[0]), Weave(script[1..], gaps[1..]);
      SafeIgnoresChild(w, v);
      OpIgnoresChild(w, v, script[0]);
      hide SameButChild;
      SafeIgnoresChild(w1, v1);
      ExitsAreSafe(gaps[0], w1);
      ExitsIgnored(gaps[0], w1, v1);
      WeaveIsSafe(script[1..], gaps[1..], Exec(exits, w1), v1);
      hide Weave;
      OneOp(w, script[0]);
      TwoScripts([script[0]], exits, w);
      TwoScripts([script[0]] + exits, rest, w);
    } else {
      ScriptSafeWithoutChild(script, w, v);
    }
  }

  // ---------- the child ----------

  lemma {:induction false} ScriptKeepsSidecarOk(ops: seq<Op>, w: World)
    requires SidecarOk(w.sidecar)
    ensures SidecarOk(Exec(ops, w).sidecar)
    decreases |ops|
  {
    hide SidecarOk;
    hide Sidecars.Step;
    hide Tabs.Step;
    if ops != [] {
      if ops[0].Child? {
        Sidecars.StepKeepsOk(w.sidecar, ops[0].act);
      }
      ScriptKeepsSidecarOk(ops[1..], Apply(w, ops[0]));
    }
  }

  /** Whether a child can be running after the operation, if one can before. */
  predicate CanRunAfter(op: Op, before: bool) {
    if op.Child? && op.act.StopAct? then false
    else if op.Child? && (op.act.Ensure? || op.act.Take?) then true
    else before
  }

  predicate CanRun(ops: seq<Op>, before: bool)
    decreases |ops|
  {
    if ops == [] then before else CanRun(ops[1..], CanRunAfter(ops[0], before))
  }

  lemma NothingCanRun(before: bool)
    ensures CanRun([], before) == before
  {
  }

  lemma OpCanRun(op: Op, w: World)
    ensures Apply(w, op).sidecar.running.Some? ==> CanRunAfter(op, w.sidecar.running.Some?)
  {
    hide Tabs.Step;
    hide ToFile;
    hide AfterEnsure;
    hide AfterTake;
  }

  lemma {:induction false} ExitsRunNothing(children: seq<nat>, sc: Sidecar)
    ensures AfterExits(sc, children).running.Some? ==> sc.running.Some?
    decreases |children|
  {
    if children != [] {
      ExitsRunNothing(children[1..], Sidecars.Step(sc, ChildExit(children[0])));
    }
  }

  /** A child that runs after a woven script can run after the script. */
  lemma {:induction false} WeaveCanRun(script: seq<Op>, gaps: seq<seq<nat>>, w: World, before: bool)
    requires w.sidecar.running.Some? ==> before
    ensures Exec(Weave(script, gaps), w).sidecar.running.Some? ==> CanRun(script, before)
    decreases |script|
  {
    hide Apply;
    if script != [] {
      OpCanRun(script[0], w);
      var w1 := Apply(w, script[0]);
      if gaps != [] {
        WeaveStep(script, gaps, w);
        ExitsAre(gaps[0], w1);
        ExitsRunNothing(gaps[0], w1.sidecar);
        WeaveCanRun(script[1..], gaps[1..], Exec(Exits(gaps[0]), w1), CanRunAfter(script[0], before));
      } else {
        WeaveCanRun(script[1..], [], w1, CanRunAfter(script[0], before));
      }
    }
  }

  ghost predicate OnlyStops(ops: seq<Op>) {
    forall i :: 0 <= i < |ops| && ops[i].Child? ==> ops[i].act.StopAct?
  }

  /** Without starts and exits, a script runs to its end what it can run. */
  lemma {:induction false} QuietRuns(script: seq<Op>, w: World)
    requires OnlyStops(script)
    ensures CanRun(script, w.sidecar.running.Some?) ==> Exec(script, w).sidecar.running.Some?
    decreases |script|
  {
    hide Tabs.Step;
    hide ToFile;
    if script != [] {
      QuietRuns(script[1..], Apply(w, script[0]));
    }
  }

  lemma {:induction false} StartsAreBound(script: seq<Op>, s: Inner, before: bool)
    requires before ==> IsBound(s, LOCAL)
    requires forall i :: 0 <= i < |script| ==> Benign(s, script[i])
    ensures CanRun(script, before) ==> IsBound(s, LOCAL)
    decreases |script|
  {
    hide IsBound;
    if script != [] {
      assert Benign(s, script[0]);
      StartsAreBound(script[1..], s, CanRunAfter(script[0], before));
    }
  }

  // ---------- one command ----------

  lemma RunningIsBound(p: Policy, w: World)
    requires Inv(p, w)
    ensures w.sidecar.running.Some? ==> IsBound(w.inner, LOCAL)
    ensures TabsOk(p, w.inner) && SidecarOk(w.sidecar)
  {
  }

  lemma InvWithChild(p: Policy, w: World, v: World)
    requires Inv(p, v) && SameButChild(w, v) && SidecarOk(w.sidecar)
    requires w.sidecar.running.Some? ==> IsBound(w.inner, LOCAL)
    ensures Inv(p, w)
  {
    hide TabsOk;
    hide BoundKey;
    hide ToFile;
    hide Written;
    hide SidecarOk;
    hide IsBound;
  }

  /** Whatever a command can leave running, some tab is bound to it. */
  lemma CanRunIsBound(p: Policy, w: World, c: Command)
    requires Inv(p, w) && Legal(p, c)
    ensures CanRun(Script(p, w, c), w.sidecar.running.Some?) ==> IsBound(Do(p, w, c).inner, LOCAL)
  {
    hide Inv;
    hide Legal;
    hide TabsOk;
    hide SidecarOk;
    hide IsBound;
    hide CanRun;
    RunningIsBound(p, w);
    CommandKeeps(p, w, c);
    if IsSessionCommand(c) || c.ChildGone? {
      if c.ChildGone? {
        ExecOne(Child(ChildExit(c.child)), w);
      } else {
        SessionIsBenign(p, w, c);
        SessionKeeps(p, w, c);
      }
      hide Script;
      StartsAreBound(Script(p, w, c), w.inner, w.sidecar.running.Some?);
    } else if c.SetLocal? {
      SetLocalBinds(p, w, c.id, c.spawn);
      NothingCanRun(w.sidecar.running.Some?);
      hide SetLocalScript;
    } else {
      TabScriptIsQuiet(p, w, c);
      hide Script;
      QuietRuns(Script(p, w, c), w);
      RunningIsBound(p, Do(p, w, c));
    }
  }

  lemma SetLocalBinds(p: Policy, w: World, id: nat, spawn: Spawn)
    ensures var script := SetLocalScript(p, w, id, spawn);
            if script == [] then Exec(script, w) == w else IsBound(Exec(script, w).inner, LOCAL)
  {
    hide Allows;
    hide IsBound;
    hide Tabs.Bind;
    var script := SetLocalScript(p, w, id, spawn);
    if script != [] {
      BoundAfterBind(w.inner, id, LOCAL);
      var bind := Locked(BindTab(id, LOCAL));
      ExecAppend([bind] + PERSIST, [Child(Ensure(spawn))], w);
      ExecAppend([bind], PERSIST, w);
      ExecOne(bind, w);
      PersistIs(Apply(w, bind));
      ExecOne(Child(Ensure(spawn)), Exec([bind] + PERSIST, w));
      hide Exec;
    }
  }

  lemma ShowingIsQuiet(w: World, id: nat, server: Option<Server>, now: Time)
    ensures OnlyStops(ActivateScript(w, id, now)) && OnlyStops(OpenScript(w, server, now))
  {
    hide Tabs.Step;
    hide HasTab;
    hide IsBound;
  }

  lemma OnlyStopsBoth(a: seq<Op>, b: seq<Op>)
    requires OnlyStops(a) && OnlyStops(b)
    ensures OnlyStops(a + b)
  {
  }

  lemma ForgettingIsQuiet(w: World, id: nat)
    ensures OnlyStops(DetachScript(w, id)) && OnlyStops(UnbindScript(w, id))
  {
    hide Tabs.Step;
    hide HasTab;
    hide ServerOf;
    hide IsBound;
  }

  lemma ClosingIsQuiet(w: World, id: nat, now: Time)
    ensures OnlyStops(CloseScript(w, id, now))
  {
    hide ActivateScript;
    hide OpenScript;
    hide DetachScript;
    hide OnlyStops;
    ForgettingIsQuiet(w, id);
    hide UnbindScript;
    if HasTab(w.inner, id) {
      var detached := Exec(DetachScript(w, id), w);
      hide Exec;
      match NextActive(w.inner, id)
      case Some(next) =>
        ShowingIsQuiet(detached, next, None, now);
        OnlyStopsBoth(DetachScript(w, id), ActivateScript(detached, next, now));
      case None =>
        ShowingIsQuiet(detached, 0, None, now);
        OnlyStopsBoth(DetachScript(w, id), OpenScript(detached, None, now));
    } else {
      NothingIsQuiet();
    }
  }

  lemma NothingIsQuiet()
    ensures OnlyStops([])
  {
  }

  lemma TabScriptIsQuiet(p: Policy, w: World, c: Command)
    requires !IsSessionCommand(c) && !c.ChildGone? && !c.SetLocal?
    ensures OnlyStops(Script(p, w, c))
  {
    hide OnlyStops;
    hide OpenScript;
    hide ActivateScript;
    hide CloseScript;
    hide UnbindScript;
    match c
    case OpenTab(server, now) => ShowingIsQuiet(w, 0, server, now);
    case ActivateId(id, now) => ShowingIsQuiet(w, id, None, now);
    case CloseTab(id, now) => ClosingIsQuiet(w, id, now);
    case Leave(id) => ForgettingIsQuiet(w, id);
    case _ => OtherIsQuiet(p, w, c);
  }

  lemma OtherIsQuiet(p: Policy, w: World, c: Command)
    requires c.MoveId? || c.Sweep? || c.SetRemote?
    ensures OnlyStops(Script(p, w, c))
  {
    hide Origin.Normalize;
    hide Allows;
    hide Tabs.Bind;
    hide HasTab;
    hide StaleIds;
  }

  /** A command during which children exit, at any of its operations: the same tabs,
      webviews, file and credentials as without, nothing unsafe on the way, and
      everything in step at the end. */
  lemma TurnKeeps(p: Policy, w: World, t: Turn)
    requires Inv(p, w) && Legal(p, t.command)
    ensures AllSafe(TurnOps(p, w, t), w)
    ensures Inv(p, AfterTurn(p, w, t))
    ensures SameButChild(AfterTurn(p, w, t), Do(p, w, t.command))
  {
    hide Inv;
    hide Legal;
    hide AllSafe;
    hide SidecarOk;
    hide IsBound;
    hide Script;
    var script, after := Script(p, w, t.command), AfterTurn(p, w, t);
    CommandKeeps(p, w, t.command);
    WeaveDoesTheSame(script, t.gaps, w, w);
    WeaveIsSafe(script, t.gaps, w, w);
    RunningIsBound(p, w);
    ScriptKeepsSidecarOk(TurnOps(p, w, t), w);
    WeaveCanRun(script, t.gaps, w, w.sidecar.running.Some?);
    CanRunIsBound(p, w, t.command);
    InvWithChild(p, after, Do(p, w, t.command));
  }

  lemma AfterTurnIs(p: Policy, w: World, t: Turn)
    ensures AfterTurn(p, w, t) == Exec(TurnOps(p, w, t), w)
  {
  }

  // ---------- every run ----------

  /** Every run of commands, whatever the outside answers and whenever children
      exit: safe to be killed at any operation, in step after every command. */
  lemma {:induction false} RunKeeps(p: Policy, w: World, turns: seq<Turn>)
    requires Inv(p, w) && AllLegal(p, turns)
    ensures AllSafe(RunOps(p, w, turns), w)
    ensures Exec(RunOps(p, w, turns), w) == AfterTurns(p, w, turns)
    ensures Inv(p, AfterTurns(p, w, turns))
    decreases |turns|
  {
    if turns == [] {
      InvIsSafe(p, w);
    } else {
      LegalFirst(p, turns);
      hide Inv;
      hide AllSafe;
      hide AllLegal;
      hide Legal;
      hide TurnOps;
      hide AfterTurn;
      hide SameButChild;
      AfterTurnIs(p, w, turns[0]);
      hide Exec;
      var next := AfterTurn(p, w, turns[0]);
      TurnKeeps(p, w, turns[0]);
      RunKeeps(p, next, turns[1..]);
      TwoScripts(TurnOps(p, w, turns[0]), RunOps(p, next, turns[1..]), w);
    }
  }
}
