/** What follows for whole runs: closing tabs, sweeping webviews, and where the
    guarantees end. */
module Runs {
  import opened Wrappers
  import opened Servers
  import opened Policies
  import opened Tabs
  import opened Sidecars
  import opened Shell
  import opened Invariants
  import opened Commands
  import opened Turns
  import Origin
  import Reorder

  // ---------- closing everything ----------

  /** Each turn closes the tab listed at its place. */
  predicate ClosesEach(turns: seq<Turn>, order: seq<nat>) {
    && |turns| == |order|
    && forall i :: 0 <= i < |turns| ==> turns[i].command.CloseTab? && turns[i].command.id == order[i]
  }

  /** One unbound tab never used before, shown, no credentials, no sidecar. */
  ghost predicate StartedOver(w: World, id: nat) {
    && w.inner.tabs == [Tab(id, None, None)]
    && w.inner.active == Some(id)
    && w.webviews == map[id := true]
    && w.keychain == map[]
    && w.sidecar.running.None?
  }

  lemma OneTabLeft(p: Policy, w: World, id: nat)
    requires Inv(p, w) && w.inner.tabs == [Tab(id, None, None)]
    ensures StartedOver(w, id)
  {
    hide TabsOk;
    hide Safe;
    hide ToFile;
    hide SidecarOk;
    forall key ensures !BoundKey(w.inner, key) {
    }
    assert w.keychain.Keys == {};
    forall l | l in w.webviews ensures l == id {
      assert HasTab(w.inner, l);
    }
    assert w.webviews.Keys == {id};
  }

  lemma RemoveFromOrder(s: Inner, order: seq<nat>, rest: seq<Tab>)
    requires DistinctIds(s.tabs) && Reorder.IsOrderOf(order, Reorder.IdsOf(s.tabs)) && |order| > 1
    requires HasTab(s, order[0])
    requires |rest| == |s.tabs| - 1
    requires forall i :: 0 <= i < Position(s.tabs, order[0]) ==> rest[i].id == s.tabs[i].id
    requires forall i :: Position(s.tabs, order[0]) < i < |s.tabs| ==> rest[i - 1].id == s.tabs[i].id
    ensures Reorder.IsOrderOf(order[1..], Reorder.IdsOf(rest))
  {
    var at := Position(s.tabs, order[0]);
    forall i | 0 <= i < |order[1..]| ensures order[1..][i] in Reorder.IdsOf(rest) {
      assert order[i + 1] in Reorder.IdsOf(s.tabs) && order[i + 1] != order[0];
      var j :| 0 <= j < |s.tabs| && Reorder.IdsOf(s.tabs)[j] == order[i + 1];
      assert s.tabs[j].id == order[i + 1];
      assert s.tabs[at].id == order[0];
      if j < at {
        assert Reorder.IdsOf(rest)[j] == order[i + 1];
      } else {
        assert Reorder.IdsOf(rest)[j - 1] == order[i + 1];
      }
    }
  }

  lemma ClosedIds(s: Inner, order: seq<nat>, now: Time)
    requires DistinctIds(s.tabs) && Reorder.IsOrderOf(order, Reorder.IdsOf(s.tabs)) && |order| > 1
    requires s.active.Some? && HasTab(s, s.active.value)
    ensures HasTab(s, order[0])
    ensures Reorder.IsOrderOf(order[1..], Reorder.IdsOf(ClosedInner(s, order[0], now).tabs))
    ensures ClosedInner(s, order[0], now).nextId == s.nextId
  {
    assert order[0] in Reorder.IdsOf(s.tabs);
    var at :| 0 <= at < |s.tabs| && Reorder.IdsOf(s.tabs)[at] == order[0];
    TabAt(s, order[0], at);
    NextIsThere(s, order[0]);
    var next := NextActive(s, order[0]).value;
    hide NextActive;
    RemovedThenShown(s, order[0], next, now);
    RemoveFromOrder(s, order, ClosedInner(s, order[0], now).tabs);
  }

  lemma RemovedThenShown(s: Inner, id: nat, next: nat, now: Time)
    requires HasTab(s, id)
    ensures var rest := Tabs.Step(Tabs.Step(s, RemoveTab(id)), ActivateTab(next, now));
            && rest.nextId == s.nextId && |rest.tabs| == |s.tabs| - 1
            && (forall i :: 0 <= i < Position(s.tabs, id) ==> rest.tabs[i].id == s.tabs[i].id)
            && (forall i :: Position(s.tabs, id) < i < |s.tabs| ==> rest.tabs[i - 1].id == s.tabs[i].id)
  {
    hide Tabs.Step;
    hide Position;
    RemovingIs(s, id);
    ShowingKeepsIds(Tabs.Step(s, RemoveTab(id)), next, now);
  }

  lemma RemovingIs(s: Inner, id: nat)
    requires HasTab(s, id)
    ensures Tabs.Step(s, RemoveTab(id)) == s.(tabs := Without(s.tabs, Position(s.tabs, id)))
  {
  }

  lemma ShowingKeepsIds(s: Inner, id: nat, now: Time)
    ensures var after := Tabs.Step(s, ActivateTab(id, now));
            && after.nextId == s.nextId && |after.tabs| == |s.tabs|
            && forall i :: 0 <= i < |s.tabs| ==> after.tabs[i].id == s.tabs[i].id
  {
  }

  lemma ClosedLast(s: Inner, id: nat, now: Time)
    requires |s.tabs| == 1 && s.tabs[0].id == id && s.active == Some(id) && id <= s.nextId
    ensures HasTab(s, id)
    ensures ClosedInner(s, id, now).tabs == [Tab(s.nextId + 1, None, None)]
  {
    TabAt(s, id, 0);
    assert Tabs.Step(s, RemoveTab(id)).tabs == [];
    var inserted := Insert(Tabs.Step(s, RemoveTab(id)), None, now);
    assert inserted.tabs == [Tab(s.nextId + 1, None, Some(now))];
    TabAt(inserted, s.nextId + 1, 0);
  }

  lemma CloseOne(p: Policy, w: World, turns: seq<Turn>, order: seq<nat>)
    requires Inv(p, w) && ClosesEach(turns, order) && order != []
    requires Reorder.IsOrderOf(order, Reorder.IdsOf(w.inner.tabs))
    ensures var next := AfterTurn(p, w, turns[0]);
            && Inv(p, next) && HasTab(w.inner, order[0])
            && next.inner == ClosedInner(w.inner, order[0], turns[0].command.now)
  {
    hide Inv;
    hide ClosedInner;
    hide CloseScript;
    hide AfterTurn;
    hide AllSafe;
    assert order[0] in Reorder.IdsOf(w.inner.tabs);
    var at :| 0 <= at < |w.inner.tabs| && Reorder.IdsOf(w.inner.tabs)[at] == order[0];
    TabAt(w.inner, order[0], at);
    CloseKeeps(p, w, order[0], turns[0].command.now);
    TurnKeeps(p, w, turns[0]);
  }

  /** Closing all tabs, in any order and whatever children exit meanwhile, ends with
      exactly one fresh unbound tab, an empty keychain and no sidecar. */
  lemma {:induction false} ClosingEverything(p: Policy, w: World, turns: seq<Turn>, order: seq<nat>)
    requires Inv(p, w) && ClosesEach(turns, order)
    requires Reorder.IsOrderOf(order, Reorder.IdsOf(w.inner.tabs))
    ensures StartedOver(AfterTurns(p, w, turns), w.inner.nextId + 1)
    decreases |order|
  {
    hide Inv;
    hide AfterTurn;
    hide StartedOver;
    hide ClosedInner;
    InvTabs(p, w);
    CloseOne(p, w, turns, order);
    var next, now := AfterTurn(p, w, turns[0]), turns[0].command.now;
    if |order| == 1 {
      assert order[0] in Reorder.IdsOf(w.inner.tabs);
      ClosedLast(w.inner, order[0], now);
      OneTabLeft(p, next, w.inner.nextId + 1);
      assert turns[1..] == [];
    } else {
      ClosedIds(w.inner, order, now);
      ClosingEverything(p, next, turns[1..], order[1..]);
    }
  }

  lemma InvTabs(p: Policy, w: World)
    requires Inv(p, w)
    ensures DistinctIds(w.inner.tabs) && AllocatedIds(w.inner) && |w.inner.tabs| > 0
    ensures w.inner.active.Some? && HasTab(w.inner, w.inner.active.value)
  {
  }

  // ---------- sweeping ----------

  /** The tab is shown, or was hidden at t or later. */
  predicate HiddenAfter(s: Inner, id: nat, t: Time) {
    forall i :: 0 <= i < |s.tabs| && s.tabs[i].id == id && s.tabs[i].hiddenSince.Some? ==>
      s.tabs[i].hiddenSince.value >= t
  }

  function SectionTime(section: Section): Option<Time> {
    match section
    case InsertTab(_, now) => Some(now)
    case ActivateTab(_, now) => Some(now)
    case _ => None
  }

  predicate NotBefore(op: Op, t: Time) {
    op.Locked? && SectionTime(op.section).Some? ==> SectionTime(op.section).value >= t
  }

  lemma SectionKeepsHiddenAfter(s: Inner, section: Section, id: nat, t: Time)
    requires HiddenAfter(s, id, t) && NotBefore(Locked(section), t)
    ensures HiddenAfter(Tabs.Step(s, section), id, t)
  {
    if section.MoveTab? && HasTab(s, section.id) {
      var moved := MoveTo(s, section.id, section.index).value;
      forall i | 0 <= i < |moved.tabs| && moved.tabs[i].id == id && moved.tabs[i].hiddenSince.Some?
        ensures moved.tabs[i].hiddenSince.value >= t
      {
        MovedTab(s, section.id, section.index, i);
      }
    } else if section.RemoveTab? && HasTab(s, section.id) {
      var rest := Without(s.tabs, Position(s.tabs, section.id));
      forall i | 0 <= i < |rest| && rest[i].id == id && rest[i].hiddenSince.Some?
        ensures rest[i].hiddenSince.value >= t
      {
        assert rest[i] == s.tabs[if i < Position(s.tabs, section.id) then i else i + 1];
      }
    } else if section.InsertTab? {
      var after := Insert(s, section.server, section.now);
      assert forall i :: 0 <= i < |s.tabs| ==> after.tabs[i] == s.tabs[i];
    }
  }

  lemma {:induction false} OpsKeepHiddenAfter(ops: seq<Op>, w: World, id: nat, t: Time)
    requires HiddenAfter(w.inner, id, t) && forall i :: 0 <= i < |ops| ==> NotBefore(ops[i], t)
    ensures HiddenAfter(Exec(ops, w).inner, id, t)
    decreases |ops|
  {
    hide HiddenAfter;
    hide Tabs.Step;
    if ops != [] {
      if ops[0].Locked? {
        SectionKeepsHiddenAfter(w.inner, ops[0].section, id, t);
      }
      OpsKeepHiddenAfter(ops[1..], Apply(w, ops[0]), id, t);
    }
  }

  function CommandTime(c: Command): Option<Time> {
    match c
    case OpenTab(_, now) => Some(now)
    case ActivateId(_, now) => Some(now)
    case CloseTab(_, now) => Some(now)
    case _ => None
  }

  ghost predicate AllNotBefore(ops: seq<Op>, t: Time) {
    forall i :: 0 <= i < |ops| ==> NotBefore(ops[i], t)
  }

  lemma OpenTimes(w: World, server: Option<Server>, now: Time, t: Time)
    requires now >= t
    ensures AllNotBefore(OpenScript(w, server, now), t)
  {
  }

  lemma CloseTimes(w: World, id: nat, now: Time, t: Time)
    requires now >= t
    ensures AllNotBefore(CloseScript(w, id, now), t)
  {
    hide Exec;
    hide OpenScript;
    if HasTab(w.inner, id) {
      var detach := DetachScript(w, id);
      assert AllNotBefore(detach, t);
      hide DetachScript;
      OpenTimes(Exec(detach, w), None, now, t);
    }
  }

  lemma OtherTimes(p: Policy, w: World, c: Command, t: Time)
    requires CommandTime(c).None?
    ensures AllNotBefore(Script(p, w, c), t)
  {
    if c.SignIn? {
      SignInTimes(p, w, c.id, c.env, t);
    } else if IsSessionCommand(c) {
      SessionTimes(p, w, c, t);
    } else {
      TabTimes(p, w, c, t);
    }
  }

  lemma SessionTimes(p: Policy, w: World, c: Command, t: Time)
    requires IsSessionCommand(c) && !c.SignIn?
    ensures AllNotBefore(Script(p, w, c), t)
  {
    hide PostSession;
    hide Allows;
    hide Resolve;
    hide ServerOf;
  }

  lemma TabTimes(p: Policy, w: World, c: Command, t: Time)
    requires CommandTime(c).None? && !IsSessionCommand(c)
    ensures AllNotBefore(Script(p, w, c), t)
  {
    hide Origin.Normalize;
    hide StaleIds;
    hide Allows;
    hide Tabs.Bind;
    hide HasTab;
    hide IsBound;
    hide Tabs.Step;
    hide ServerOf;
  }

  lemma SignInTimes(p: Policy, w: World, id: nat, env: SignInWorld, t: Time)
    ensures AllNotBefore(SignInScript(p, w, id, env), t)
  {
    OnlyExits(env.exits);
    hide Exits;
    hide AfterExits;
    hide AfterEnsure;
    hide AfterTake;
    hide PostSession;
    hide Allows;
  }

  lemma ScriptTimes(p: Policy, w: World, c: Command, t: Time)
    requires CommandTime(c).Some? ==> CommandTime(c).value >= t
    ensures AllNotBefore(Script(p, w, c), t)
  {
    hide AllNotBefore;
    match c
    case OpenTab(server, now) => OpenTimes(w, server, now, t);
    case ActivateId(id, now) => ActivateTimes(w, id, now, t);
    case CloseTab(id, now) => CloseTimes(w, id, now, t);
    case _ => OtherTimes(p, w, c, t);
  }

  lemma ActivateTimes(w: World, id: nat, now: Time, t: Time)
    requires now >= t
    ensures AllNotBefore(ActivateScript(w, id, now), t)
  {
  }

  predicate NoneBefore(turns: seq<Turn>, t: Time) {
    forall i :: 0 <= i < |turns| ==>
      CommandTime(turns[i].command).Some? ==> CommandTime(turns[i].command).value >= t
  }

  /** A webview is discarded only if its tab has not been the active one for 30
      minutes: whatever commands ran since it last was. */
  lemma {:induction false} SweptTabsWereIdle(p: Policy, w: World, turns: seq<Turn>, id: nat, t: Time, now: Time)
    requires WindowOk(w) && w.inner.active == Some(id) && NoneBefore(turns, t)
    ensures id in StaleIds(AfterTurns(p, w, turns).inner, now) ==> now - t >= 1_800_000_000_000
    ensures var late := AfterTurns(p, w, turns);
            id in late.webviews && id !in Do(p, late, Sweep(now)).webviews ==> now - t >= 1_800_000_000_000
  {
    assert HiddenAfter(w.inner, id, t);
    TurnsKeepHiddenAfter(p, w, turns, id, t);
    var late := AfterTurns(p, w, turns);
    ExecOne(CloseWebviews(StaleIds(late.inner, now)), late);
  }

  lemma {:induction false} TurnsKeepHiddenAfter(p: Policy, w: World, turns: seq<Turn>, id: nat, t: Time)
    requires HiddenAfter(w.inner, id, t) && NoneBefore(turns, t)
    ensures HiddenAfter(AfterTurns(p, w, turns).inner, id, t)
    decreases |turns|
  {
    hide HiddenAfter;
    hide Script;
    hide CommandTime;
    hide Weave;
    if turns != [] {
      var c := turns[0].command;
      ScriptTimes(p, w, c, t);
      OpsKeepHiddenAfter(Script(p, w, c), w, id, t);
      WeaveDoesTheSame(Script(p, w, c), turns[0].gaps, w, w);
      TurnsKeepHiddenAfter(p, AfterTurn(p, w, turns[0]), turns[1..], id, t);
    }
  }
}
