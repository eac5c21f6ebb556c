/** The tab list (tabs.rs, `Inner`): what each lock section does to it, and what
    every interleaving of lock sections keeps. A tab id is the number n of the
    webview label `tab-n`. */
module Tabs {
  import opened Wrappers
  import opened Servers
  import opened Policies
  import Text

  type Time = nat

  /** hiddenSince is None exactly while the tab is the active one. */
  datatype Tab = Tab(id: nat, server: Option<Server>, hiddenSince: Option<Time>)

  /** What is saved: the bound servers in tab order, and the index to activate. */
  datatype TabsFile = TabsFile(servers: seq<Server>, active: nat)

  datatype Inner = Inner(tabs: seq<Tab>, active: Option<nat>, nextId: nat)

  datatype TabsError = UnknownTab | OpenElsewhere | AlreadyBound

  const EMPTY := Inner([], None, 0)

  // ---------- labels ----------

  /** Webview label of tab n. */
  function TabLabel(n: nat): string {
    "tab-" + Text.Decimal(n)
  }

  const CHROME_LABEL := "chrome"

  /** Numbers stand for labels: different tabs have different labels, and no tab
      has the label of the strip. */
  lemma LabelsDistinct(a: nat, b: nat)
    ensures TabLabel(a) == TabLabel(b) <==> a == b
    ensures TabLabel(a) != CHROME_LABEL
  {
    if TabLabel(a) == TabLabel(b) {
      assert TabLabel(a)[4..] == Text.Decimal(a);
      assert TabLabel(b)[4..] == Text.Decimal(b);
      Text.DecimalInjective(a, b);
    }
    assert TabLabel(a)[0] == 't';
  }

  // ---------- lookups ----------

  /** Index of the first tab with this id, or |tabs|. */
  function Position(tabs: seq<Tab>, id: nat): (i: nat)
    ensures i <= |tabs|
    ensures i < |tabs| ==> tabs[i].id == id
    ensures forall j :: 0 <= j < i ==> tabs[j].id != id
  {
    if tabs == [] || tabs[0].id == id then 0 else 1 + Position(tabs[1..], id)
  }

  /** Index of the first tab bound to this server, or |tabs|. */
  function FindServer(tabs: seq<Tab>, server: Server): (i: nat)
    ensures i <= |tabs|
    ensures i < |tabs| ==> tabs[i].server == Some(server)
    ensures forall j :: 0 <= j < i ==> tabs[j].server != Some(server)
  {
    if tabs == [] || tabs[0].server == Some(server) then 0 else 1 + FindServer(tabs[1..], server)
  }

  predicate HasTab(s: Inner, id: nat) {
    Position(s.tabs, id) < |s.tabs|
  }

  predicate IsBound(s: Inner, server: Server) {
    FindServer(s.tabs, server) < |s.tabs|
  }

  /** Server bound to the tab with this id, if any. */
  function ServerOf(s: Inner, id: nat): Option<Server> {
    if HasTab(s, id) then s.tabs[Position(s.tabs, id)].server else None
  }

  function BoundTabs(tabs: seq<Tab>): (bound: seq<Tab>)
    ensures |bound| <= |tabs|
    ensures forall i :: 0 <= i < |bound| ==> bound[i].server.Some? && bound[i] in tabs
  {
    if tabs == [] then []
    else if tabs[0].server.Some? then [tabs[0]] + BoundTabs(tabs[1..])
    else BoundTabs(tabs[1..])
  }

  function ServersOf(bound: seq<Tab>): (servers: seq<Server>)
    requires forall i :: 0 <= i < |bound| ==> bound[i].server.Some?
    ensures |servers| == |bound|
    ensures forall i :: 0 <= i < |bound| ==> servers[i] == bound[i].server.value
  {
    seq(|bound|, i requires 0 <= i < |bound| => bound[i].server.value)
  }

  function ToFile(s: Inner): TabsFile {
    var bound := BoundTabs(s.tabs);
    var at := if s.active.Some? then Position(bound, s.active.value) else 0;
    TabsFile(ServersOf(bound), if at < |bound| then at else 0)
  }

  // ---------- lock sections ----------

  function Insert(s: Inner, server: Option<Server>, now: Time): Inner {
    var id := s.nextId + 1;
    s.(tabs := s.tabs + [Tab(id, server, Some(now))], nextId := id)
  }

  function Bind(s: Inner, id: nat, server: Server): Result<Inner, TabsError> {
    var other := FindServer(s.tabs, server);
    if other < |s.tabs| && s.tabs[other].id != id then Failure(OpenElsewhere)
    else
      var at := Position(s.tabs, id);
      if at == |s.tabs| then Failure(UnknownTab)
      else if s.tabs[at].server.Some? && s.tabs[at].server != Some(server) then Failure(AlreadyBound)
      else Success(s.(tabs := s.tabs[at := s.tabs[at].(server := Some(server))]))
  }

  function Take(s: Inner, id: nat): Result<Inner, TabsError> {
    var at := Position(s.tabs, id);
    if at == |s.tabs| then Failure(UnknownTab)
    else Success(s.(tabs := s.tabs[at := s.tabs[at].(server := None)]))
  }

  function Without(tabs: seq<Tab>, at: nat): (rest: seq<Tab>)
    requires at < |tabs|
    ensures |rest| == |tabs| - 1
  {
    tabs[..at] + tabs[at + 1..]
  }

  function Remove(s: Inner, id: nat): Result<Inner, TabsError> {
    var at := Position(s.tabs, id);
    if at == |s.tabs| then Failure(UnknownTab) else Success(s.(tabs := Without(s.tabs, at)))
  }

  /** The tab to activate after removing `id`: the left neighbour of an active
      tab (the new first tab if it was first), otherwise whatever was active. */
  function NextActive(s: Inner, id: nat): Option<nat>
    requires HasTab(s, id)
  {
    var at := Position(s.tabs, id);
    var rest := Without(s.tabs, at);
    if s.active != Some(id) then s.active
    else if rest == [] then None
    else Some(rest[if at == 0 then 0 else at - 1].id)
  }

  function Min(a: nat, b: nat): nat {
    if a < b then a else b
  }

  function MoveTo(s: Inner, id: nat, index: nat): Result<Inner, TabsError> {
    var at := Position(s.tabs, id);
    if at == |s.tabs| then Failure(UnknownTab)
    else
      var rest := Without(s.tabs, at);
      var to := Min(index, |rest|);
      Success(s.(tabs := rest[..to] + [s.tabs[at]] + rest[to..]))
  }

  /** The tab as it is once `active` is the active one. */
  function Shown(tab: Tab, active: nat, now: Time): Tab {
    tab.(hiddenSince := if tab.id == active then None
                        else if tab.hiddenSince.Some? then tab.hiddenSince
                        else Some(now))
  }

  function ShownAll(tabs: seq<Tab>, active: nat, now: Time): (shown: seq<Tab>)
    ensures |shown| == |tabs|
    ensures forall i :: 0 <= i < |tabs| ==> shown[i] == Shown(tabs[i], active, now)
  {
    seq(|tabs|, i requires 0 <= i < |tabs| => Shown(tabs[i], active, now))
  }

  function SetActive(s: Inner, id: nat, now: Time): Result<Inner, TabsError> {
    if !HasTab(s, id) then Failure(UnknownTab)
    else Success(s.(active := Some(id), tabs := ShownAll(s.tabs, id, now)))
  }

  datatype Section =
    | InsertTab(server: Option<Server>, now: Time)
    | BindTab(id: nat, to: Server)
    | TakeServer(id: nat)
    | RemoveTab(id: nat)
    | MoveTab(id: nat, index: nat)
    | ActivateTab(id: nat, now: Time)

  function Attempt(s: Inner, section: Section): Result<Inner, TabsError> {
    match section
    case InsertTab(server, now) => Success(Insert(s, server, now))
    case BindTab(id, server) => Bind(s, id, server)
    case TakeServer(id) => Take(s, id)
    case RemoveTab(id) => Remove(s, id)
    case MoveTab(id, index) => MoveTo(s, id, index)
    case ActivateTab(id, now) => SetActive(s, id, now)
  }

  /** A refused section changes nothing. */
  function Step(s: Inner, section: Section): Inner {
    match Attempt(s, section)
    case Success(after) => after
    case Failure(_) => s
  }

  function Run(s: Inner, sections: seq<Section>): Inner
    decreases |sections|
  {
    if sections == [] then s else Run(Step(s, sections[0]), sections[1..])
  }

  // ---------- the invariant ----------

  predicate DistinctIds(tabs: seq<Tab>) {
    forall i, j :: 0 <= i < j < |tabs| ==> tabs[i].id != tabs[j].id
  }

  /** No server is shown by two tabs. */
  predicate DistinctServers(tabs: seq<Tab>) {
    forall i, j :: 0 <= i < j < |tabs| && tabs[i].server.Some? ==> tabs[i].server != tabs[j].server
  }

  /** In normal form and allowed by policy. */
  predicate Usable(p: Policy, server: Server) {
    WellFormed(server) && Allows(p, server)
  }

  predicate UsableServers(p: Policy, tabs: seq<Tab>) {
    forall i :: 0 <= i < |tabs| && tabs[i].server.Some? ==> Usable(p, tabs[i].server.value)
  }

  predicate AllocatedIds(s: Inner) {
    forall i :: 0 <= i < |s.tabs| ==> 1 <= s.tabs[i].id <= s.nextId
  }

  predicate TabsOk(p: Policy, s: Inner) {
    AllocatedIds(s) && DistinctIds(s.tabs) && DistinctServers(s.tabs) && UsableServers(p, s.tabs)
  }

  /** What the commands put into a section: opened tabs are unbound, except for
      a usable server that no tab shows, and only usable servers are bound. */
  predicate Admissible(p: Policy, s: Inner, section: Section) {
    match section
    case InsertTab(Some(server), _) => Usable(p, server) && !IsBound(s, server)
    case BindTab(_, server) => Usable(p, server)
    case _ => true
  }

  /** Admissible whatever the state, as every section of a running app is. */
  predicate FromCommand(p: Policy, section: Section) {
    match section
    case InsertTab(server, _) => server.None?
    case BindTab(_, server) => Usable(p, server)
    case _ => true
  }

  /** Each tab of `after` is a tab of `before`, at most hidden or shown anew;
      no tab of `before` occurs twice. */
  ghost predicate Rearranged(before: seq<Tab>, after: seq<Tab>, from: seq<nat>) {
    && |from| == |after|
    && (forall i :: 0 <= i < |from| ==> from[i] < |before|)
    && (forall i, j :: 0 <= i < j < |from| ==> from[i] != from[j])
    && (forall i :: 0 <= i < |after| ==>
          after[i].id == before[from[i]].id && after[i].server == before[from[i]].server)
  }

  lemma RearrangedKeepsTabsOk(p: Policy, s: Inner, after: Inner, from: seq<nat>)
    requires TabsOk(p, s) && Rearranged(s.tabs, after.tabs, from) && after.nextId == s.nextId
    ensures TabsOk(p, after)
  {
    hide Usable;
    forall i, j | 0 <= i < j < |after.tabs|
      ensures after.tabs[i].id != after.tabs[j].id
      ensures after.tabs[i].server.Some? ==> after.tabs[i].server != after.tabs[j].server
    {
      assert from[i] < from[j] || from[j] < from[i];
    }
  }

  function WithoutFrom(n: nat, at: nat): seq<nat>
    requires at < n
  {
    seq(n - 1, i => if i < at then i else i + 1)
  }

  function MovedFrom(n: nat, at: nat, to: nat): seq<nat>
    requires at < n && to < n
  {
    seq(n, i requires 0 <= i < n => if i == to then at else
        var k := if i < to then i else i - 1;
        if k < at then k else k + 1)
  }

  lemma MoveRearranges(tabs: seq<Tab>, at: nat, to: nat)
    requires at < |tabs| && to < |tabs|
    ensures var after := Without(tabs, at)[..to] + [tabs[at]] + Without(tabs, at)[to..];
            && Rearranged(tabs, after, MovedFrom(|tabs|, at, to))
            && forall i :: 0 <= i < |tabs| ==> after[i] == tabs[MovedFrom(|tabs|, at, to)[i]]
  {
    var rest, from := Without(tabs, at), MovedFrom(|tabs|, at, to);
    var after := rest[..to] + [tabs[at]] + rest[to..];
    forall i | 0 <= i < |tabs| ensures after[i] == tabs[from[i]] {
      assert after[i] == if i == to then tabs[at] else rest[if i < to then i else i - 1];
    }
    MovedFromDistinct(|tabs|, at, to);
    hide MovedFrom;
    hide Without;
  }

  lemma MovedFromDistinct(n: nat, at: nat, to: nat)
    requires at < n && to < n
    ensures var from := MovedFrom(n, at, to);
            && (forall i :: 0 <= i < n ==> from[i] < n)
            && (forall i, j :: 0 <= i < j < n ==> from[i] != from[j])
  {
  }

  /** Where a move from `at` to `to` puts index j. */
  function Landing(n: nat, at: nat, to: nat, j: nat): (k: nat)
    requires at < n && to < n && j < n
    ensures k < n && MovedFrom(n, at, to)[k] == j
  {
    if j == at then to
    else
      var r := if j < at then j else j - 1;
      if r < to then r else r + 1
  }

  /** The tab found at index i after a move was at this index before. */
  lemma MovedTab(s: Inner, id: nat, index: nat, i: nat)
    requires HasTab(s, id) && i < |s.tabs|
    ensures var from := MovedFrom(|s.tabs|, Position(s.tabs, id), Min(index, |s.tabs| - 1));
            && |MoveTo(s, id, index).value.tabs| == |s.tabs|
            && MoveTo(s, id, index).value.tabs[i] == s.tabs[from[i]]
  {
    MoveRearranges(s.tabs, Position(s.tabs, id), Min(index, |s.tabs| - 1));
  }

  lemma InsertKeepsTabsOk(p: Policy, s: Inner, server: Option<Server>, now: Time)
    requires TabsOk(p, s) && (server.Some? ==> Usable(p, server.value) && !IsBound(s, server.value))
    ensures TabsOk(p, Insert(s, server, now))
  {
    hide Usable;
  }

  lemma BindKeepsTabsOk(p: Policy, s: Inner, id: nat, server: Server)
    requires TabsOk(p, s) && Usable(p, server) && Bind(s, id, server).Success?
    ensures TabsOk(p, Bind(s, id, server).value)
  {
    hide Usable;
    var tabs := Bind(s, id, server).value.tabs;
    forall i, j | 0 <= i < j < |tabs| && tabs[i].server.Some?
      ensures tabs[i].server != tabs[j].server
    {
    }
  }

  lemma TakeKeepsTabsOk(p: Policy, s: Inner, id: nat)
    requires TabsOk(p, s) && Take(s, id).Success?
    ensures TabsOk(p, Take(s, id).value)
  {
    hide Usable;
  }

  lemma RemoveKeepsTabsOk(p: Policy, s: Inner, id: nat)
    requires TabsOk(p, s) && Remove(s, id).Success?
    ensures TabsOk(p, Remove(s, id).value)
  {
    hide TabsOk;
    RearrangedKeepsTabsOk(p, s, Remove(s, id).value, WithoutFrom(|s.tabs|, Position(s.tabs, id)));
  }

  lemma MoveKeepsTabsOk(p: Policy, s: Inner, id: nat, index: nat)
    requires TabsOk(p, s) && MoveTo(s, id, index).Success?
    ensures TabsOk(p, MoveTo(s, id, index).value)
  {
    hide TabsOk;
    var at, to := Position(s.tabs, id), Min(index, |s.tabs| - 1);
    MoveRearranges(s.tabs, at, to);
    RearrangedKeepsTabsOk(p, s, MoveTo(s, id, index).value, MovedFrom(|s.tabs|, at, to));
  }

  lemma StepKeepsTabsOk(p: Policy, s: Inner, section: Section)
    requires TabsOk(p, s) && Admissible(p, s, section)
    ensures TabsOk(p, Step(s, section))
  {
    hide Usable;
    if Attempt(s, section).Success? {
      match section
      case InsertTab(server, now) => InsertKeepsTabsOk(p, s, server, now);
      case BindTab(id, server) => BindKeepsTabsOk(p, s, id, server);
      case TakeServer(id) => TakeKeepsTabsOk(p, s, id);
      case RemoveTab(id) => RemoveKeepsTabsOk(p, s, id);
      case MoveTab(id, index) => MoveKeepsTabsOk(p, s, id, index);
      case ActivateTab(id, now) =>
        RearrangedKeepsTabsOk(p, s, Step(s, section), seq(|s.tabs|, i => i));
    }
  }

  /** Every interleaving of lock sections keeps ids distinct, each server in at
      most one tab, and every bound server usable. */
  lemma {:induction false} SectionsKeepTabsOk(p: Policy, s: Inner, sections: seq<Section>)
    requires TabsOk(p, s)
    requires forall i :: 0 <= i < |sections| ==> FromCommand(p, sections[i])
    ensures TabsOk(p, Run(s, sections))
    decreases |sections|
  {
    if sections != [] {
      StepKeepsTabsOk(p, s, sections[0]);
      SectionsKeepTabsOk(p, Step(s, sections[0]), sections[1..]);
    }
  }

  /** Distinct bound tabs have distinct keychain accounts. */
  lemma BoundKeysDistinct(p: Policy, s: Inner, i: nat, j: nat)
    requires TabsOk(p, s)
    requires i < j < |s.tabs| && s.tabs[i].server.Some? && s.tabs[j].server.Some?
    ensures KeychainKey(s.tabs[i].server.value) != KeychainKey(s.tabs[j].server.value)
  {
    assert Usable(p, s.tabs[i].server.value) && Usable(p, s.tabs[j].server.value);
    KeysDistinct(s.tabs[i].server.value, s.tabs[j].server.value);
  }

  /** Where a tab found after a section comes from: it is new, or it was there
      with the same server, unless the section took that server or bound it. */
  ghost predicate Derives(s: Inner, section: Section, tab: Tab) {
    || tab.id > s.nextId
    || exists j :: 0 <= j < |s.tabs| && s.tabs[j].id == tab.id
                   && (|| s.tabs[j].server == tab.server
                       || section == TakeServer(tab.id)
                       || (section.BindTab? && section.id == tab.id && s.tabs[j].server.None?))
  }

  lemma DerivesFrom(s: Inner, section: Section, tab: Tab, j: nat)
    requires j < |s.tabs| && s.tabs[j].id == tab.id && s.tabs[j].server == tab.server
    ensures Derives(s, section, tab)
  {
  }

  lemma StepDerives(s: Inner, section: Section, i: nat)
    requires i < |Step(s, section).tabs|
    ensures Derives(s, section, Step(s, section).tabs[i])
  {
    match section
    case RemoveTab(id) => RemainingDerives(s, id, i);
    case MoveTab(id, index) => MovedDerives(s, id, index, i);
    case _ => InPlaceDerives(s, section, i);
  }

  lemma RemainingDerives(s: Inner, id: nat, i: nat)
    requires i < |Step(s, RemoveTab(id)).tabs|
    ensures Derives(s, RemoveTab(id), Step(s, RemoveTab(id)).tabs[i])
  {
    hide Derives;
    DerivesFrom(s, RemoveTab(id), Step(s, RemoveTab(id)).tabs[i],
                if HasTab(s, id) && i >= Position(s.tabs, id) then i + 1 else i);
  }

  lemma MovedDerives(s: Inner, id: nat, index: nat, i: nat)
    requires i < |Step(s, MoveTab(id, index)).tabs|
    ensures Derives(s, MoveTab(id, index), Step(s, MoveTab(id, index)).tabs[i])
  {
    hide Derives;
    hide Position;
    MoveSucceeds(s, id, index);
    var tab := Step(s, MoveTab(id, index)).tabs[i];
    if HasTab(s, id) {
      MovedTab(s, id, index, i);
      hide MoveTo;
      DerivesFrom(s, MoveTab(id, index), tab,
                  MovedFrom(|s.tabs|, Position(s.tabs, id), Min(index, |s.tabs| - 1))[i]);
    } else {
      DerivesFrom(s, MoveTab(id, index), tab, i);
    }
  }

  lemma InPlaceDerives(s: Inner, section: Section, i: nat)
    requires !section.RemoveTab? && !section.MoveTab? && i < |Step(s, section).tabs|
    ensures Derives(s, section, Step(s, section).tabs[i])
  {
    if i < |s.tabs| {
      assert s.tabs[i].id == Step(s, section).tabs[i].id;
    }
  }

  lemma StepForgetsId(s: Inner, section: Section, id: nat)
    requires id <= s.nextId && !HasTab(s, id)
    ensures id <= Step(s, section).nextId && !HasTab(Step(s, section), id)
  {
    var after := Step(s, section);
    if HasTab(after, id) {
      StepDerives(s, section, Position(after.tabs, id));
    }
  }

  /** An id that is gone never comes back: ids are not reused in a run. */
  lemma {:induction false} IdsNeverReused(s: Inner, sections: seq<Section>, id: nat)
    requires id <= s.nextId && !HasTab(s, id)
    ensures !HasTab(Run(s, sections), id)
    decreases |sections|
  {
    if sections != [] {
      StepForgetsId(s, sections[0], id);
      IdsNeverReused(Step(s, sections[0]), sections[1..], id);
    }
  }

  lemma StepKeepsBinding(s: Inner, section: Section, id: nat, server: Server)
    requires DistinctIds(s.tabs) && id <= s.nextId
    requires !HasTab(s, id) || ServerOf(s, id) == Some(server)
    requires section != TakeServer(id)
    ensures !HasTab(Step(s, section), id) || ServerOf(Step(s, section), id) == Some(server)
    ensures id <= Step(s, section).nextId
  {
    var after := Step(s, section);
    if HasTab(after, id) {
      StepDerives(s, section, Position(after.tabs, id));
    }
  }

  /** A bound tab changes server only through unbind: until its server is taken
      it keeps it for as long as it exists. */
  lemma {:induction false} BoundUntilTaken(p: Policy, s: Inner, sections: seq<Section>, id: nat, server: Server)
    requires TabsOk(p, s) && id <= s.nextId
    requires !HasTab(s, id) || ServerOf(s, id) == Some(server)
    requires forall i :: 0 <= i < |sections| ==> FromCommand(p, sections[i]) && sections[i] != TakeServer(id)
    ensures !HasTab(Run(s, sections), id) || ServerOf(Run(s, sections), id) == Some(server)
    decreases |sections|
  {
    if sections != [] {
      assert FromCommand(p, sections[0]);
      StepKeepsBinding(s, sections[0], id, server);
      StepKeepsTabsOk(p, s, sections[0]);
      BoundUntilTaken(p, Step(s, sections[0]), sections[1..], id, server);
    }
  }

  // ---------- what each section does ----------

  lemma FirstIs(tabs: seq<Tab>, id: nat, at: nat)
    requires at < |tabs| && tabs[at].id == id && DistinctIds(tabs)
    ensures Position(tabs, id) == at
  {
  }

  /** Binding succeeds exactly for an existing tab that is unbound or shows this
      server already, when no other tab shows it. */
  lemma BindIsExact(s: Inner, id: nat, server: Server)
    requires DistinctIds(s.tabs) && DistinctServers(s.tabs)
    ensures Bind(s, id, server).Success? <==>
            && HasTab(s, id) && (ServerOf(s, id) == None || ServerOf(s, id) == Some(server))
            && (forall i :: 0 <= i < |s.tabs| && s.tabs[i].server == Some(server) ==> s.tabs[i].id == id)
  {
  }

  /** Some other tab shows the server. */
  predicate ShownElsewhere(s: Inner, id: nat, server: Server) {
    exists i :: 0 <= i < |s.tabs| && s.tabs[i].server == Some(server) && s.tabs[i].id != id
  }

  /** Which refusal a binding gets: the server is open elsewhere, the tab is unknown, or
      it shows another server, checked in this order. */
  lemma BindRefusals(s: Inner, id: nat, server: Server)
    requires DistinctServers(s.tabs)
    ensures Bind(s, id, server) == Failure(OpenElsewhere) <==> ShownElsewhere(s, id, server)
    ensures Bind(s, id, server) == Failure(UnknownTab) <==> !ShownElsewhere(s, id, server) && !HasTab(s, id)
    ensures Bind(s, id, server) == Failure(AlreadyBound) <==>
            !ShownElsewhere(s, id, server) && HasTab(s, id) && ServerOf(s, id) !in {None, Some(server)}
  {
  }

  /** Each tab's server is found by its id, and nothing by another id. */
  lemma ServerOfIs(s: Inner, id: nat)
    requires DistinctIds(s.tabs)
    ensures forall i :: 0 <= i < |s.tabs| && s.tabs[i].id == id ==> ServerOf(s, id) == s.tabs[i].server
    ensures (forall i :: 0 <= i < |s.tabs| ==> s.tabs[i].id != id) ==> ServerOf(s, id) == None
  {
  }

  /** What a section leaves tab `id` bound to; None also when there is no such tab. */
  function BoundTo(s: Inner, section: Section, id: nat): Option<Server> {
    match section
    case InsertTab(server, _) => if id == s.nextId + 1 then server else ServerOf(s, id)
    case BindTab(tab, server) =>
      if id == tab && Bind(s, tab, server).Success? then Some(server) else ServerOf(s, id)
    case TakeServer(tab) => if id == tab then None else ServerOf(s, id)
    case RemoveTab(tab) => if id == tab then None else ServerOf(s, id)
    case _ => ServerOf(s, id)
  }

  /** A section touches the binding of the tab it names and of no other. */
  lemma SectionBinds(p: Policy, s: Inner, section: Section, id: nat)
    requires TabsOk(p, s)
    ensures ServerOf(Step(s, section), id) == BoundTo(s, section, id)
  {
    hide UsableServers;
    hide DistinctServers;
    hide MoveTo;
    hide Remove;
    hide Insert;
    match section
    case InsertTab(server, now) => InsertBinds(s, server, now, id);
    case RemoveTab(tab) =>
      RemoveSucceeds(s, tab);
      if HasTab(s, tab) { RemoveBinds(s, tab, id); }
    case MoveTab(tab, index) =>
      MoveSucceeds(s, tab, index);
      if HasTab(s, tab) { MoveKeepsServer(s, tab, index, id); }
    case _ => ReboundInPlace(s, section, id);
  }

  lemma RemoveSucceeds(s: Inner, tab: nat)
    ensures Remove(s, tab).Success? <==> HasTab(s, tab)
  {
  }

  lemma MoveSucceeds(s: Inner, tab: nat, index: nat)
    ensures MoveTo(s, tab, index).Success? <==> HasTab(s, tab)
  {
  }

  lemma ReboundInPlace(s: Inner, section: Section, id: nat)
    requires section.BindTab? || section.TakeServer? || section.ActivateTab?
    ensures ServerOf(Step(s, section), id) == BoundTo(s, section, id)
  {
    hide Position;
    match section
    case BindTab(tab, server) =>
      if Bind(s, tab, server).Success? { BindInPlace(s, tab, server, id); }
    case TakeServer(tab) => TakeInPlace(s, tab, id);
    case ActivateTab(tab, now) => ShowInPlace(s, tab, now, id);
  }

  lemma BindInPlace(s: Inner, tab: nat, server: Server, id: nat)
    requires Bind(s, tab, server).Success?
    ensures ServerOf(Bind(s, tab, server).value, id) == if id == tab then Some(server) else ServerOf(s, id)
  {
    SamePlaces(s.tabs, Bind(s, tab, server).value.tabs, id);
  }

  lemma TakeInPlace(s: Inner, tab: nat, id: nat)
    ensures Take(s, tab).Failure? ==> ServerOf(s, tab) == None
    ensures Take(s, tab).Success? ==> ServerOf(Take(s, tab).value, id) == if id == tab then None else ServerOf(s, id)
  {
    if Take(s, tab).Success? {
      SamePlaces(s.tabs, Take(s, tab).value.tabs, id);
    }
  }

  lemma ShowInPlace(s: Inner, tab: nat, now: Time, id: nat)
    ensures SetActive(s, tab, now).Success? ==> ServerOf(SetActive(s, tab, now).value, id) == ServerOf(s, id)
  {
    if SetActive(s, tab, now).Success? {
      SamePlaces(s.tabs, SetActive(s, tab, now).value.tabs, id);
    }
  }

  lemma {:induction false} SamePlaces(a: seq<Tab>, b: seq<Tab>, id: nat)
    requires |a| == |b| && forall i :: 0 <= i < |a| ==> a[i].id == b[i].id
    ensures Position(a, id) == Position(b, id)
  {
    if a != [] {
      SamePlaces(a[1..], b[1..], id);
    }
  }

  lemma InsertBinds(s: Inner, server: Option<Server>, now: Time, id: nat)
    requires AllocatedIds(s) && DistinctIds(s.tabs)
    ensures ServerOf(Insert(s, server, now), id) == if id == s.nextId + 1 then server else ServerOf(s, id)
  {
    var after := Insert(s, server, now);
    if id == s.nextId + 1 {
      FirstIs(after.tabs, id, |s.tabs|);
    } else if HasTab(s, id) {
      FirstIs(after.tabs, id, Position(s.tabs, id));
    }
  }

  lemma RemoveBinds(s: Inner, tab: nat, id: nat)
    requires DistinctIds(s.tabs) && HasTab(s, tab)
    ensures ServerOf(Remove(s, tab).value, id) == if id == tab then None else ServerOf(s, id)
  {
    var at, rest := Position(s.tabs, tab), Remove(s, tab).value;
    var j := Position(s.tabs, id);
    if id != tab && HasTab(s, id) {
      FirstIs(rest.tabs, id, if j < at then j else j - 1);
    }
  }

  lemma MovedIdsDistinct(s: Inner, id: nat, index: nat)
    requires DistinctIds(s.tabs) && HasTab(s, id)
    ensures DistinctIds(MoveTo(s, id, index).value.tabs)
  {
    var before, after := Position(s.tabs, id), Min(index, |s.tabs| - 1);
    var from := MovedFrom(|s.tabs|, before, after);
    var moved := MoveTo(s, id, index).value;
    MoveRearranges(s.tabs, before, after);
    forall i, j | 0 <= i < j < |moved.tabs| ensures moved.tabs[i].id != moved.tabs[j].id {
      assert from[i] < from[j] || from[j] < from[i];
    }
  }

  lemma MoveKeepsServer(s: Inner, id: nat, index: nat, other: nat)
    requires DistinctIds(s.tabs) && HasTab(s, id)
    ensures ServerOf(MoveTo(s, id, index).value, other) == ServerOf(s, other)
  {
    var before, after := Position(s.tabs, id), Min(index, |s.tabs| - 1);
    var from := MovedFrom(|s.tabs|, before, after);
    var moved := MoveTo(s, id, index).value;
    MoveRearranges(s.tabs, before, after);
    MovedIdsDistinct(s, id, index);
    var i, j := Position(moved.tabs, other), Position(s.tabs, other);
    if i < |moved.tabs| {
      assert s.tabs[from[i]].id == other;
    }
    if j < |s.tabs| {
      var k := Landing(|s.tabs|, before, after, j);
      assert moved.tabs[k].id == other;
    }
  }

  /** Closing the active tab turns to its left neighbour, from the first tab to
      its right one, from the only tab to none; closing another changes nothing. */
  lemma NextIsNeighbour(s: Inner, at: nat)
    requires DistinctIds(s.tabs) && at < |s.tabs|
    ensures HasTab(s, s.tabs[at].id)
    ensures NextActive(s, s.tabs[at].id) ==
            if s.active != Some(s.tabs[at].id) then s.active
            else if |s.tabs| == 1 then None
            else if at == 0 then Some(s.tabs[1].id)
            else Some(s.tabs[at - 1].id)
  {
    FirstIs(s.tabs, s.tabs[at].id, at);
  }
}
