/** Dragging tabs (tabs.rs, `move_to`): one move changes the place of one tab
    only, and moves reach every order. */
module Reorder {
  import opened Wrappers
  import opened Tabs

  function IdsOf(tabs: seq<Tab>): (ids: seq<nat>)
    ensures |ids| == |tabs|
    ensures forall i :: 0 <= i < |tabs| ==> ids[i] == tabs[i].id
  {
    seq(|tabs|, i requires 0 <= i < |tabs| => tabs[i].id)
  }

  lemma {:induction false} SplitMultiset(tabs: seq<Tab>, at: nat)
    requires at < |tabs|
    ensures multiset(tabs) == multiset(Without(tabs, at)) + multiset{tabs[at]}
  {
    assert tabs == tabs[..at] + [tabs[at]] + tabs[at + 1..];
  }

  /** A move permutes the tabs: the moved one lands at min(index, n - 1), the
      others keep their order, and bindings and the active tab stay. */
  lemma MovePermutes(s: Inner, id: nat, index: nat)
    requires DistinctIds(s.tabs) && HasTab(s, id)
    ensures MoveTo(s, id, index).Success?
    ensures var before, after := Position(s.tabs, id), Min(index, |s.tabs| - 1);
            var moved := MoveTo(s, id, index).value;
            && multiset(moved.tabs) == multiset(s.tabs)
            && |moved.tabs| == |s.tabs|
            && moved.tabs[after] == s.tabs[before]
            && Position(moved.tabs, id) == after
            && Without(moved.tabs, after) == Without(s.tabs, before)
            && moved.active == s.active && moved.nextId == s.nextId
            && forall other :: ServerOf(moved, other) == ServerOf(s, other)
  {
    var before, after := Position(s.tabs, id), Min(index, |s.tabs| - 1);
    var moved := MoveTo(s, id, index).value;
    assert Without(moved.tabs, after) == Without(s.tabs, before);
    SplitMultiset(s.tabs, before);
    SplitMultiset(moved.tabs, after);
    MoveRearranges(s.tabs, before, after);
    forall other ensures ServerOf(moved, other) == ServerOf(s, other) {
      MoveKeepsServer(s, id, index, other);
    }
    assert moved.tabs[after].id == id;
    PositionIs(moved.tabs, id, after);
  }

  lemma PositionIs(tabs: seq<Tab>, id: nat, at: nat)
    requires at < |tabs| && tabs[at].id == id
    requires forall j :: 0 <= j < at ==> tabs[j].id != id
    ensures Position(tabs, id) == at
  {
  }

  predicate IsMove(section: Section) {
    section.MoveTab?
  }

  /** `target` lists exactly the given ids, each once. */
  predicate IsOrderOf(target: seq<nat>, ids: seq<nat>) {
    && |target| == |ids|
    && (forall i, j :: 0 <= i < j < |target| ==> target[i] != target[j])
    && (forall i :: 0 <= i < |target| ==> target[i] in ids)
  }

  /** n moves put n tabs in any order. */
  lemma EveryOrderReachable(s: Inner, target: seq<nat>) returns (moves: seq<Section>)
    requires DistinctIds(s.tabs) && IsOrderOf(target, IdsOf(s.tabs))
    ensures |moves| <= |s.tabs|
    ensures forall i :: 0 <= i < |moves| ==> IsMove(moves[i])
    ensures IdsOf(Run(s, moves).tabs) == target
  {
    moves := FinishOrder(s, target, 0);
  }

  lemma {:induction false} FinishOrder(s: Inner, target: seq<nat>, done: nat) returns (moves: seq<Section>)
    requires DistinctIds(s.tabs) && IsOrderOf(target, IdsOf(s.tabs))
    requires done <= |target| && IdsOf(s.tabs)[..done] == target[..done]
    ensures |moves| <= |target| - done
    ensures forall i :: 0 <= i < |moves| ==> IsMove(moves[i])
    ensures IdsOf(Run(s, moves).tabs) == target
    decreases |target| - done
  {
    if done == |target| {
      moves := [];
    } else {
      var move := MoveTab(target[done], done);
      PlaceNext(s, target, done);
      var rest := FinishOrder(Step(s, move), target, done + 1);
      moves := [move] + rest;
    }
  }

  lemma MoveKeepsIds(s: Inner, id: nat, index: nat, other: nat)
    requires DistinctIds(s.tabs) && HasTab(s, id) && other in IdsOf(s.tabs)
    ensures other in IdsOf(MoveTo(s, id, index).value.tabs)
  {
    var before, after := Position(s.tabs, id), Min(index, |s.tabs| - 1);
    var j :| 0 <= j < |s.tabs| && IdsOf(s.tabs)[j] == other;
    MoveRearranges(s.tabs, before, after);
    var k := Landing(|s.tabs|, before, after, j);
    assert IdsOf(MoveTo(s, id, index).value.tabs)[k] == other;
  }

  /** Moving to `index` something that is not before it leaves the tabs before
      `index` alone. */
  lemma MoveKeepsPrefix(s: Inner, id: nat, index: nat)
    requires index <= Position(s.tabs, id) < |s.tabs|
    ensures var moved := MoveTo(s, id, index).value.tabs;
            moved[..index] == s.tabs[..index] && moved[index].id == id
  {
  }

  lemma TargetIsAhead(s: Inner, target: seq<nat>, done: nat)
    requires IsOrderOf(target, IdsOf(s.tabs))
    requires done < |target| && IdsOf(s.tabs)[..done] == target[..done]
    ensures HasTab(s, target[done]) && done <= Position(s.tabs, target[done])
  {
    var ids := IdsOf(s.tabs);
    var at :| 0 <= at < |ids| && ids[at] == target[done];
    assert s.tabs[at].id == target[done];
    assert forall i :: 0 <= i < done ==> ids[i] == ids[..done][i] == target[i];
  }

  lemma PlaceNext(s: Inner, target: seq<nat>, done: nat)
    requires DistinctIds(s.tabs) && IsOrderOf(target, IdsOf(s.tabs))
    requires done < |target| && IdsOf(s.tabs)[..done] == target[..done]
    ensures var after := Step(s, MoveTab(target[done], done));
            && DistinctIds(after.tabs) && IsOrderOf(target, IdsOf(after.tabs))
            && IdsOf(after.tabs)[..done + 1] == target[..done + 1]
  {
    var id := target[done];
    TargetIsAhead(s, target, done);
    MovedIdsDistinct(s, id, done);
    MoveKeepsPrefix(s, id, done);
    MovedIs(s, id, done);
    hide Step;
    hide DistinctIds;
    var after := Step(s, MoveTab(id, done));
    forall i | 0 <= i < |target| ensures target[i] in IdsOf(after.tabs) {
      MoveKeepsIds(s, id, done, target[i]);
    }
    hide MoveTo;
    PrefixIds(s.tabs, after.tabs, done);
    hide IdsOf;
    assert IdsOf(after.tabs)[..done + 1] == IdsOf(after.tabs)[..done] + [id];
    assert target[..done + 1] == target[..done] + [id];
  }

  lemma MovedIs(s: Inner, id: nat, index: nat)
    requires HasTab(s, id)
    ensures MoveTo(s, id, index).Success? && Step(s, MoveTab(id, index)) == MoveTo(s, id, index).value
    ensures |MoveTo(s, id, index).value.tabs| == |s.tabs|
  {
  }

  lemma PrefixIds(a: seq<Tab>, b: seq<Tab>, n: nat)
    requires n <= |a| && n <= |b| && a[..n] == b[..n]
    ensures IdsOf(a)[..n] == IdsOf(b)[..n]
  {
    forall i | 0 <= i < n ensures IdsOf(a)[i] == IdsOf(b)[i] {
      assert a[i] == a[..n][i] == b[..n][i];
    }
  }
}
