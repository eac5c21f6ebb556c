/** The tab list in place (tabs.rs, `Inner`): fields under a mutex, one method for
    each lock section. */
module TabTables {
  import opened Wrappers
  import opened Servers
  import opened Tabs
  import opened Restore
  import opened Shell

  /** What a caller of a lock section learns. */
  function Answer(attempt: Result<Inner, TabsError>): Result<(), TabsError> {
    match attempt
    case Success(_) => Success(())
    case Failure(e) => Failure(e)
  }

  class TabTable {
    var tabs: seq<Tab>
    var active: Option<nat>
    var nextId: nat

    function View(): Inner
      reads this
    {
      Inner(tabs, active, nextId)
    }

    constructor ()
      ensures View() == EMPTY
    {
      tabs, active, nextId := [], None, 0;
    }

    method AllocateId() returns (id: nat)
      modifies this`nextId
      ensures id == nextId == old(nextId) + 1
    {
      nextId := nextId + 1;
      return nextId;
    }

    /** The new tab is last, hidden, and has an id of its own. */
    method Insert(server: Option<Server>, now: Time) returns (id: nat)
      modifies this
      ensures View() == Tabs.Step(old(View()), InsertTab(server, now))
      ensures id == nextId == old(nextId) + 1
      ensures tabs == old(tabs) + [Tab(id, server, Some(now))] && active == old(active)
    {
      id := AllocateId();
      tabs := tabs + [Tab(id, server, Some(now))];
    }

    /** Refused, with nothing changed, for three reasons checked in this order. */
    method Bind(id: nat, server: Server) returns (r: Result<(), TabsError>)
      modifies this`tabs
      ensures View() == Tabs.Step(old(View()), BindTab(id, server))
      ensures r == Answer(Tabs.Bind(old(View()), id, server))
      ensures DistinctServers(old(tabs)) ==>
                r == if ShownElsewhere(old(View()), id, server) then Failure(OpenElsewhere)
                     else if !HasTab(old(View()), id) then Failure(UnknownTab)
                     else if ServerOf(old(View()), id) !in {None, Some(server)} then Failure(AlreadyBound)
                     else Success(())
      ensures r.Success? ==> ServerOf(View(), id) == Some(server)
    {
      if DistinctServers(tabs) {
        BindRefusals(View(), id, server);
      }
      var other := FindServer(tabs, server);
      if other < |tabs| && tabs[other].id != id {
        return Failure(OpenElsewhere);
      }
      var at := Position(tabs, id);
      if at == |tabs| {
        return Failure(UnknownTab);
      }
      var tab := tabs[at];
      if tab.server.Some? && tab.server != Some(server) {
        return Failure(AlreadyBound);
      }
      tabs := tabs[at := tab.(server := Some(server))];
      SamePlaces(old(tabs), tabs, id);
      return Success(());
    }

    /** Returns the server the tab had. */
    method Take(id: nat) returns (r: Result<Option<Server>, TabsError>)
      modifies this`tabs
      ensures View() == Tabs.Step(old(View()), TakeServer(id))
      ensures r == if HasTab(old(View()), id) then Success(ServerOf(old(View()), id)) else Failure(UnknownTab)
      ensures ServerOf(View(), id) == None
    {
      var at := Position(tabs, id);
      if at == |tabs| {
        return Failure(UnknownTab);
      }
      var tab := tabs[at];
      tabs := tabs[at := tab.(server := None)];
      SamePlaces(old(tabs), tabs, id);
      return Success(tab.server);
    }

    /** Hands back the tab and its successor; the `active` field stays as it was. */
    method Remove(id: nat) returns (r: Result<(Tab, Option<nat>), TabsError>)
      modifies this`tabs
      ensures View() == Tabs.Step(old(View()), RemoveTab(id))
      ensures r.Success? <==> HasTab(old(View()), id)
      ensures r.Success? ==> r.value == (old(tabs[Position(tabs, id)]), NextActive(old(View()), id))
      ensures r.Failure? ==> r.error == UnknownTab
    {
      var at := Position(tabs, id);
      if at == |tabs| {
        return Failure(UnknownTab);
      }
      var removed := tabs[at];
      tabs := tabs[..at] + tabs[at + 1..];
      var next := active;
      if active == Some(id) {
        // the left neighbour is missing only when no tab is left, so the
        // fallback to the first tab never applies
        var left := if at == 0 then 0 else at - 1;
        next := if left < |tabs| then Some(tabs[left].id) else None;
      }
      return Success((removed, next));
    }

    method MoveTo(id: nat, index: nat) returns (r: Result<(), TabsError>)
      modifies this`tabs
      ensures View() == Tabs.Step(old(View()), MoveTab(id, index))
      ensures r == Answer(Tabs.MoveTo(old(View()), id, index))
      ensures r == if HasTab(old(View()), id) then Success(()) else Failure(UnknownTab)
    {
      var from := Position(tabs, id);
      if from == |tabs| {
        return Failure(UnknownTab);
      }
      var tab := tabs[from];
      tabs := tabs[..from] + tabs[from + 1..];
      var to := if index < |tabs| then index else |tabs|;
      tabs := tabs[..to] + [tab] + tabs[to..];
      return Success(());
    }

    method SetActive(id: nat, now: Time) returns (r: Result<(), TabsError>)
      modifies this`tabs, this`active
      ensures View() == Tabs.Step(old(View()), ActivateTab(id, now))
      ensures r == Answer(Tabs.SetActive(old(View()), id, now))
      ensures r == if HasTab(old(View()), id) then Success(()) else Failure(UnknownTab)
      ensures r.Success? ==>
                && active == Some(id) && |tabs| == |old(tabs)|
                && forall i :: 0 <= i < |tabs| ==>
                     tabs[i].hiddenSince ==
                       if old(tabs)[i].id == id then None
                       else if old(tabs)[i].hiddenSince.Some? then old(tabs)[i].hiddenSince
                       else Some(now)
    {
      if Position(tabs, id) == |tabs| {
        return Failure(UnknownTab);
      }
      active := Some(id);
      var i := 0;
      while i < |tabs|
        modifies this`tabs
        invariant i <= |tabs| == |old(tabs)|
        invariant forall j :: 0 <= j < i ==> tabs[j] == Shown(old(tabs[j]), id, now)
        invariant forall j :: i <= j < |tabs| ==> tabs[j] == old(tabs[j])
      {
        var tab := tabs[i];
        var hidden := if tab.id == id then None
                      else if tab.hiddenSince.Some? then tab.hiddenSince
                      else Some(now);
        tabs := tabs[i := tab.(hiddenSince := hidden)];
        i := i + 1;
      }
      assert tabs == ShownAll(old(tabs), id, now);
      return Success(());
    }

    /** The loop computes the saved form of the specification. */
    method ToFile() returns (file: TabsFile)
      ensures file == Tabs.ToFile(View())
    {
      var bound: seq<Tab>, i := [], 0;
      while i < |tabs|
        invariant i <= |tabs|
        invariant bound == BoundTabs(tabs[..i])
      {
        BoundOneMore(tabs, i);
        if tabs[i].server.Some? {
          bound := bound + [tabs[i]];
        }
        i := i + 1;
      }
      assert tabs[..i] == tabs;
      var at := if active.Some? then Position(bound, active.value) else |bound|;
      return TabsFile(ServersOf(bound), if at < |bound| then at else 0);
    }

    /** Tabs to discard: not the active one, hidden for 30 minutes. */
    method CollectStale(now: Time) returns (ids: set<nat>)
      ensures ids == StaleIds(View(), now)
      ensures forall id :: id in ids <==>
                exists i :: 0 <= i < |tabs| && tabs[i].id == id && active != Some(id)
                            && tabs[i].hiddenSince.Some? && now - tabs[i].hiddenSince.value >= 1_800_000_000_000
    {
      ids := {};
      var i := 0;
      while i < |tabs|
        invariant i <= |tabs|
        invariant ids == set j | 0 <= j < i && IsStale(View(), tabs[j], now) :: tabs[j].id
      {
        if IsStale(View(), tabs[i], now) {
          ids := ids + {tabs[i].id};
        }
        i := i + 1;
      }
    }
  }
}
