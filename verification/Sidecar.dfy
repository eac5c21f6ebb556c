/** The local server child (sidecar.rs): one mutex-held slot for the running
    child and its one-time grant. Commands hold the mutex from start to end;
    the exit of a child is reported later, at any time. Children are numbered in
    the order they were started, in place of their process ids. */
module Sidecars {
  import opened Wrappers

  /** grant is None once it was handed out. */
  datatype Running = Running(child: nat, origin: string, grant: Option<string>)

  /** How an attempt to start a child ends: no process at all, a process that did
      not report ready (error, early exit or timeout), or a ready one. */
  datatype Spawn = NoChild | NotReady | Ready(origin: string, grant: string)

  datatype SidecarError = SpawnFailed | NeverReady | WithoutGrant

  /** The slot, and the history of children and grants: the origin and the grant each
      ready child reported, and the children whose grant was handed out, in order. */
  datatype Sidecar = Sidecar(
    running: Option<Running>,
    spawned: nat,
    killed: set<nat>,
    exited: set<nat>,
    reported: map<nat, (string, string)>,
    handedOut: seq<nat>)

  const IDLE := Sidecar(None, 0, {}, {}, map[], [])

  // ---------- commands ----------

  /** Starting a child; the slot is not touched. */
  function Start(sc: Sidecar, spawn: Spawn): (Sidecar, Result<Running, SidecarError>) {
    match spawn
    case NoChild => (sc, Failure(SpawnFailed))
    case NotReady => (sc.(spawned := sc.spawned + 1, killed := sc.killed + {sc.spawned}), Failure(NeverReady))
    case Ready(origin, grant) =>
      (sc.(spawned := sc.spawned + 1, reported := sc.reported[sc.spawned := (origin, grant)]),
       Success(Running(sc.spawned, origin, Some(grant))))
  }

  function AfterEnsure(sc: Sidecar, spawn: Spawn): (Sidecar, Result<string, SidecarError>) {
    if sc.running.Some? then (sc, Success(sc.running.value.origin))
    else
      var (started, r) := Start(sc, spawn);
      match r
      case Failure(e) => (started, Failure(e))
      case Success(running) => (started.(running := Some(running)), Success(running.origin))
  }

  function AfterStop(sc: Sidecar): Sidecar {
    if sc.running.Some? then sc.(running := None, killed := sc.killed + {sc.running.value.child}) else sc
  }

  function HandOut(sc: Sidecar, running: Running): Sidecar {
    sc.(running := Some(running.(grant := None)), handedOut := sc.handedOut + [running.child])
  }

  /** Origin and grant; a child whose grant is gone is replaced. */
  function AfterTake(sc: Sidecar, spawn: Spawn): (Sidecar, Result<(string, string), SidecarError>) {
    if sc.running.Some? && sc.running.value.grant.Some? then
      var running := sc.running.value;
      (HandOut(sc, running), Success((running.origin, running.grant.value)))
    else
      var (started, r) := Start(AfterStop(sc), spawn);
      match r
      case Failure(e) => (started, Failure(e))
      case Success(running) =>
        if running.grant.None? then (started, Failure(WithoutGrant))
        else (HandOut(started, running), Success((running.origin, running.grant.value)))
  }

  /** A child's exit is noticed; children are told apart by their number. */
  function AfterExit(sc: Sidecar, child: nat): Sidecar {
    var noticed := sc.(exited := sc.exited + {child});
    if sc.running.Some? && sc.running.value.child == child then noticed.(running := None) else noticed
  }

  // ---------- what each command comes to ----------

  /** A running child answers with its origin; otherwise a new one is started, and only
      one that became ready gets into the slot. */
  lemma EnsureIs(sc: Sidecar, spawn: Spawn)
    ensures var (after, r) := AfterEnsure(sc, spawn);
            if sc.running.Some? then after == sc && r == Success(sc.running.value.origin)
            else match spawn
              case NoChild => after == sc && r == Failure(SpawnFailed)
              case NotReady =>
                && after == sc.(spawned := sc.spawned + 1, killed := sc.killed + {sc.spawned})
                && r == Failure(NeverReady)
              case Ready(origin, grant) =>
                && after == sc.(running := Some(Running(sc.spawned, origin, Some(grant))),
                                spawned := sc.spawned + 1,
                                reported := sc.reported[sc.spawned := (origin, grant)])
                && r == Success(origin)
  {
  }

  /** The slot's child, as the set of those a stop would kill. */
  function InSlot(sc: Sidecar): set<nat> {
    if sc.running.Some? then {sc.running.value.child} else {}
  }

  /** An unused grant is answered with its child's origin; otherwise the child is
      killed and only a new one that became ready is answered with. */
  lemma TakeIs(sc: Sidecar, spawn: Spawn)
    ensures var (after, r) := AfterTake(sc, spawn);
            if sc.running.Some? && sc.running.value.grant.Some? then
              var running := sc.running.value;
              && after == sc.(running := Some(Running(running.child, running.origin, None)),
                              handedOut := sc.handedOut + [running.child])
              && r == Success((running.origin, running.grant.value))
            else
              var killed := sc.killed + InSlot(sc);
              match spawn
              case NoChild => after == sc.(running := None, killed := killed) && r == Failure(SpawnFailed)
              case NotReady =>
                && after == sc.(running := None, spawned := sc.spawned + 1, killed := killed + {sc.spawned})
                && r == Failure(NeverReady)
              case Ready(origin, grant) =>
                && after == sc.(running := Some(Running(sc.spawned, origin, None)),
                                spawned := sc.spawned + 1,
                                killed := killed,
                                reported := sc.reported[sc.spawned := (origin, grant)],
                                handedOut := sc.handedOut + [sc.spawned])
                && r == Success((origin, grant))
  {
    StopIs(sc);
    hide AfterStop;
  }

  lemma StopIs(sc: Sidecar)
    ensures AfterStop(sc) == sc.(running := None, killed := sc.killed + InSlot(sc))
  {
  }

  /** At exit the child is killed if no command holds the mutex, and left alone else. */
  lemma ExitIs(sc: Sidecar, lockFree: bool)
    ensures Step(sc, StopAtExit(lockFree)) ==
            if lockFree then sc.(running := None, killed := sc.killed + InSlot(sc)) else sc
  {
    StopIs(sc);
  }

  /** The slot is emptied by the exit of the child in it, and by no other. */
  lemma ChildExitIs(sc: Sidecar, child: nat)
    requires child < sc.spawned
    ensures Step(sc, ChildExit(child)) ==
            sc.(running := if child in InSlot(sc) then None else sc.running, exited := sc.exited + {child})
  {
  }

  // ---------- every interleaving ----------

  datatype Act =
    | Ensure(spawn: Spawn)
    | Take(spawn: Spawn)
    | StopAct
    | StopAtExit(lockFree: bool)
    | ChildExit(child: nat)

  /** Only a child that was started can exit. */
  function Step(sc: Sidecar, act: Act): Sidecar {
    match act
    case Ensure(spawn) => AfterEnsure(sc, spawn).0
    case Take(spawn) => AfterTake(sc, spawn).0
    case StopAct => AfterStop(sc)
    case StopAtExit(lockFree) => if lockFree then AfterStop(sc) else sc
    case ChildExit(child) => if child < sc.spawned then AfterExit(sc, child) else sc
  }

  function Run(sc: Sidecar, acts: seq<Act>): Sidecar
    decreases |acts|
  {
    if acts == [] then sc else Run(Step(sc, acts[0]), acts[1..])
  }

  predicate IsTracked(sc: Sidecar, child: nat) {
    sc.running.Some? && sc.running.value.child == child
  }

  ghost predicate SidecarOk(sc: Sidecar) {
    // every child is tracked, killed or has exited; the tracked one is neither
    && (forall c :: 0 <= c < sc.spawned ==> IsTracked(sc, c) || c in sc.killed || c in sc.exited)
    && (sc.running.Some? ==>
          var child := sc.running.value.child;
          child < sc.spawned && child !in sc.killed && child !in sc.exited)
    && (forall c :: c in sc.killed || c in sc.exited ==> c < sc.spawned)
    // no grant is handed out twice; a grant is missing only after it was
    && (forall i, j :: 0 <= i < j < |sc.handedOut| ==> sc.handedOut[i] != sc.handedOut[j])
    && (forall i :: 0 <= i < |sc.handedOut| ==> sc.handedOut[i] < sc.spawned)
    && (sc.running.Some? ==> (sc.running.value.grant.None? <==> sc.running.value.child in sc.handedOut))
    // the slot holds the origin and the grant its child reported
    && (forall c :: c in sc.reported ==> c < sc.spawned)
    && (sc.running.Some? ==>
          && sc.running.value.child in sc.reported
          && sc.running.value.origin == sc.reported[sc.running.value.child].0)
    && (sc.running.Some? && sc.running.value.grant.Some? ==>
          sc.running.value.grant.value == sc.reported[sc.running.value.child].1)
  }

  lemma StopKeepsOk(sc: Sidecar)
    requires SidecarOk(sc)
    ensures SidecarOk(AfterStop(sc)) && AfterStop(sc).running.None?
  {
    var after := AfterStop(sc);
    forall c | 0 <= c < after.spawned ensures c in after.killed || c in after.exited {
      assert IsTracked(sc, c) || c in sc.killed || c in sc.exited;
    }
  }

  lemma EnsureKeepsOk(sc: Sidecar, spawn: Spawn)
    requires SidecarOk(sc)
    ensures SidecarOk(AfterEnsure(sc, spawn).0)
  {
    var after := AfterEnsure(sc, spawn).0;
    forall c | 0 <= c < after.spawned
      ensures IsTracked(after, c) || c in after.killed || c in after.exited
    {
      assert c < sc.spawned ==> IsTracked(sc, c) || c in sc.killed || c in sc.exited;
    }
  }

  lemma TakeKeepsOk(sc: Sidecar, spawn: Spawn)
    requires SidecarOk(sc)
    ensures SidecarOk(AfterTake(sc, spawn).0)
    ensures AfterTake(sc, spawn).1 != Failure(WithoutGrant)
  {
    StopKeepsOk(sc);
    var stopped, after := AfterStop(sc), AfterTake(sc, spawn).0;
    forall c | 0 <= c < after.spawned
      ensures IsTracked(after, c) || c in after.killed || c in after.exited
    {
      assert c < sc.spawned ==> IsTracked(sc, c) || c in sc.killed || c in sc.exited;
    }
  }

  lemma StepKeepsOk(sc: Sidecar, act: Act)
    requires SidecarOk(sc)
    ensures SidecarOk(Step(sc, act))
  {
    match act
    case Ensure(spawn) => EnsureKeepsOk(sc, spawn);
    case Take(spawn) => TakeKeepsOk(sc, spawn);
    case StopAct => StopKeepsOk(sc);
    case StopAtExit(lockFree) => StopKeepsOk(sc);
    case ChildExit(child) =>
      var after := Step(sc, act);
      forall c | 0 <= c < after.spawned
        ensures IsTracked(after, c) || c in after.killed || c in after.exited
      {
        assert IsTracked(sc, c) || c in sc.killed || c in sc.exited;
      }
  }

  /** Whatever the order of commands and late exits: no child is ever lost track
      of, and no child's grant is handed out twice. */
  lemma {:induction false} NoChildLost(sc: Sidecar, acts: seq<Act>)
    requires SidecarOk(sc)
    ensures SidecarOk(Run(sc, acts))
    decreases |acts|
  {
    if acts != [] {
      StepKeepsOk(sc, acts[0]);
      NoChildLost(Step(sc, acts[0]), acts[1..]);
    }
  }

  /** Neither another child's exit nor a request for the origin disturbs the
      running child: it keeps its slot and its grant until it exits, is stopped,
      or its grant is asked for. */
  lemma {:induction false} OldExitsAreHarmless(sc: Sidecar, acts: seq<Act>)
    requires sc.running.Some?
    requires forall i :: 0 <= i < |acts| ==>
               acts[i].Ensure? || (acts[i].ChildExit? && acts[i].child != sc.running.value.child)
    ensures Run(sc, acts).running == sc.running
    ensures Run(sc, acts).spawned == sc.spawned
    decreases |acts|
  {
    if acts != [] {
      OldExitsAreHarmless(Step(sc, acts[0]), acts[1..]);
    }
  }

  /** What is handed out are the origin and the grant reported by the child that is
      running when the command ends, the grant for the first time; a command that
      fails hands out none. */
  lemma GrantIsFresh(sc: Sidecar, spawn: Spawn)
    requires SidecarOk(sc)
    ensures var (after, r) := AfterTake(sc, spawn);
            if r.Success? then
              && after.running.Some? && after.running.value.origin == r.value.0
              && after.running.value.child !in sc.handedOut
              && after.handedOut == sc.handedOut + [after.running.value.child]
              && after.running.value.child in after.reported
              && r.value == after.reported[after.running.value.child]
            else after.running.None? && after.handedOut == sc.handedOut
  {
    hide AfterStop;
    StopKeepsOk(sc);
    StopForgetsNothing(sc);
  }

  lemma StopForgetsNothing(sc: Sidecar)
    ensures AfterStop(sc).handedOut == sc.handedOut && AfterStop(sc).reported == sc.reported
  {
  }

  /** What a child reported at its start is never changed afterwards. */
  lemma {:induction false} ReportsStay(sc: Sidecar, acts: seq<Act>, child: nat)
    requires SidecarOk(sc) && child in sc.reported
    ensures child in Run(sc, acts).reported && Run(sc, acts).reported[child] == sc.reported[child]
    decreases |acts|
  {
    if acts != [] {
      StepKeepsOk(sc, acts[0]);
      ReportsStay(Step(sc, acts[0]), acts[1..], child);
    }
  }

  // ---------- the mutex-held slot ----------

  class SidecarCell {
    var running: Option<Running>
    var spawned: nat
    ghost var killed: set<nat>
    ghost var exited: set<nat>
    ghost var reported: map<nat, (string, string)>
    ghost var handedOut: seq<nat>

    ghost function View(): Sidecar
      reads this
    {
      Sidecar(running, spawned, killed, exited, reported, handedOut)
    }

    ghost predicate Valid()
      reads this
    {
      SidecarOk(View())
    }

    constructor ()
      ensures Valid() && View() == IDLE
    {
      running, spawned := None, 0;
      killed, exited, reported, handedOut := {}, {}, map[], [];
    }

    method Kill(child: nat)
      modifies this`killed
      ensures killed == old(killed) + {child}
    {
      killed := killed + {child};
    }

    /** Start a child and wait until it is ready. */
    method StartChild(spawn: Spawn) returns (r: Result<Running, SidecarError>)
      modifies this`spawned, this`killed, this`reported
      ensures (View(), r) == Start(old(View()), spawn)
      ensures r == match spawn
                   case NoChild => Failure(SpawnFailed)
                   case NotReady => Failure(NeverReady)
                   case Ready(origin, grant) => Success(Running(old(spawned), origin, Some(grant)))
      ensures spawned == old(spawned) + (if spawn.NoChild? then 0 else 1)
      ensures killed == old(killed) + (if spawn.NotReady? then {old(spawned)} else {})
    {
      if spawn.NoChild? {
        return Failure(SpawnFailed);
      }
      var child := spawned;
      spawned := spawned + 1;
      if spawn.NotReady? {
        Kill(child);
        return Failure(NeverReady);
      }
      reported := reported[child := (spawn.origin, spawn.grant)];
      return Success(Running(child, spawn.origin, Some(spawn.grant)));
    }

    method EnsureRunning(spawn: Spawn) returns (r: Result<string, SidecarError>)
      requires Valid()
      modifies this
      ensures Valid() && (View(), r) == AfterEnsure(old(View()), spawn)
      ensures r.Success? <==> running.Some?
      ensures r.Success? ==> running.value.origin == r.value
      ensures old(running).Some? ==> r == Success(old(running).value.origin) && running == old(running)
      ensures old(running).None? ==>
                r == match spawn
                     case NoChild => Failure(SpawnFailed)
                     case NotReady => Failure(NeverReady)
                     case Ready(origin, _) => Success(origin)
    {
      EnsureKeepsOk(View(), spawn);
      if running.Some? {
        return Success(running.value.origin);
      }
      var started := StartChild(spawn);
      if started.Failure? {
        return Failure(started.error);
      }
      running := Some(started.value);
      return Success(started.value.origin);
    }

    method TakeGrant(spawn: Spawn) returns (r: Result<(string, string), SidecarError>)
      requires Valid()
      modifies this
      ensures Valid() && (View(), r) == AfterTake(old(View()), spawn)
      ensures r != Failure(WithoutGrant)
      ensures old(running).Some? && old(running).value.grant.Some? ==>
                r == Success((old(running).value.origin, old(running).value.grant.value))
      ensures old(running).None? || old(running).value.grant.None? ==>
                r == match spawn
                     case NoChild => Failure(SpawnFailed)
                     case NotReady => Failure(NeverReady)
                     case Ready(origin, grant) => Success((origin, grant))
      ensures r.Success? ==> running.Some? && running.value.origin == r.value.0 && running.value.grant.None?
    {
      TakeKeepsOk(View(), spawn);
      if running.Some? && running.value.grant.Some? {
        var current := running.value;
        running := Some(current.(grant := None));
        handedOut := handedOut + [current.child];
        return Success((current.origin, current.grant.value));
      }
      if running.Some? {
        var previous := running.value;
        running := None;
        Kill(previous.child);
      }
      var started := StartChild(spawn);
      if started.Failure? {
        return Failure(started.error);
      }
      var replacement := started.value;
      match replacement.grant {
        case None =>
          assert false;
        case Some(grant) =>
          running := Some(replacement.(grant := None));
          handedOut := handedOut + [replacement.child];
          r := Success((replacement.origin, grant));
      }
    }

    method Stop()
      requires Valid()
      modifies this
      ensures Valid() && View() == AfterStop(old(View())) && running.None?
      ensures killed == old(killed) + old(InSlot(View()))
    {
      StopKeepsOk(View());
      if running.Some? {
        var previous := running.value;
        running := None;
        Kill(previous.child);
      }
    }

    /** At app exit the slot is cleared only if no command holds the mutex. */
    method StopBlocking(lockFree: bool)
      requires Valid()
      modifies this
      ensures Valid() && View() == Step(old(View()), StopAtExit(lockFree))
      ensures lockFree ==> running.None? && killed == old(killed) + old(InSlot(View()))
      ensures !lockFree ==> View() == old(View())
    {
      if lockFree {
        Stop();
      }
    }

    /** The event loop of `child` saw its exit. */
    method OnTerminated(child: nat)
      requires Valid() && child < spawned
      modifies this
      ensures Valid() && View() == AfterExit(old(View()), child)
      ensures running == if child in old(InSlot(View())) then None else old(running)
      ensures exited == old(exited) + {child}
    {
      StepKeepsOk(View(), ChildExit(child));
      exited := exited + {child};
      if running.Some? && running.value.child == child {
        running := None;
      }
    }
  }
}
