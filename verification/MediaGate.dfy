/** The Intel media slot: a lock and the media children still alive
    (backend/app/hardware/ffmpeg.py:118-281, 582-648). */
module MediaGate {
  import opened Options

  /** A live ffmpeg or ffprobe process. `hold` numbers the holding of the slot it was launched in. */
  datatype Child = Child(what: string, gated: bool, hold: nat)

  type ChildId = nat

  /** The children alive, and, while the slot cannot be trusted, the stragglers it named. */
  datatype Gate = Gate(children: map<ChildId, Child>, unhealthy: Option<set<ChildId>>) {

    predicate Live(id: ChildId) {
      id in children
    }

    predicate LiveGated(id: ChildId) {
      id in children && children[id].gated
    }

    function GatedChildren(): (ids: set<ChildId>)
      ensures forall id :: id in ids <==> LiveGated(id)
    {
      set id | id in children && children[id].gated
    }

    predicate GpuSafe() {
      unhealthy.None?
    }

    function Registered(id: ChildId, child: Child): Gate {
      this.(children := children[id := child])
    }

    function Retired(id: ChildId): Gate {
      var left := Gate(children - {id}, unhealthy);
      if left.GatedChildren() == {} then left.(unhealthy := None) else left
    }

    function GivenUp(pending: set<ChildId>): Gate {
      this.(unhealthy := Some(pending))
    }

    /** None of the children that were waited for is alive any more. */
    predicate Settled(pending: set<ChildId>) {
      forall id :: id in pending ==> !Live(id)
    }

    /** The slot is not condemned for a child that is gone. */
    predicate Sound() {
      unhealthy.Some? ==> GatedChildren() != {}
    }
  }

  lemma GatedAfterExit(gate: Gate, id: ChildId)
    ensures gate.Retired(id).GatedChildren() == gate.GatedChildren() - {id}
    ensures gate.Retired(id).GatedChildren() == {} ==> gate.Retired(id).unhealthy == None
  {
    var left := Gate(gate.children - {id}, gate.unhealthy);
    assert gate.Retired(id).GatedChildren() == left.GatedChildren() == gate.GatedChildren() - {id};
  }

  /** A child that comes and goes leaves no trace, except that it clears a gate condemned for nothing. */
  lemma RegisterThenRetire(gate: Gate, id: ChildId, child: Child)
    requires !gate.Live(id)
    ensures gate.Registered(id, child).Retired(id) == if gate.Sound() then gate else gate.(unhealthy := None)
  {
    assert gate.children[id := child] - {id} == gate.children;
    assert Gate(gate.children, gate.unhealthy) == gate;
  }

  /** The gate as it is kept. */
  class MediaGate {
    var children: map<ChildId, Child>
    var unhealthy: Option<set<ChildId>>

    function State(): Gate
      reads this
    {
      Gate(children, unhealthy)
    }

    constructor ()
      ensures State() == Gate(map[], None) && State().Sound()
    {
      children, unhealthy := map[], None;
    }

    method Register(id: ChildId, what: string, gated: bool, hold: nat)
      requires id !in children
      modifies this
      ensures State() == old(State()).Registered(id, Child(what, gated, hold))
    {
      children := children[id := Child(what, gated, hold)];
    }

    /** `retire`: a child has exited; the last gated one to go makes the slot healthy again. */
    method Retire(id: ChildId)
      modifies this
      ensures State() == old(State()).Retired(id)
    {
      children := children - {id};
      if unhealthy.Some? {
        var stillGated := AnyGated();
        if !stillGated {
          unhealthy := None;
        }
      }
    }

    method AnyGated() returns (any: bool)
      ensures any <==> State().GatedChildren() != {}
    {
      var ids := children.Keys;
      any := false;
      while ids != {}
        invariant ids <= children.Keys
        invariant any <==> exists id :: id in children && id !in ids && children[id].gated
        decreases |ids|
      {
        var id :| id in ids;
        any := any || children[id].gated;
        ids := ids - {id};
      }
      if any {
        var id :| id in children && children[id].gated;
        assert id in State().GatedChildren();
      } else {
        assert State().GatedChildren() == {};
      }
    }

    /** `settle`, up to the wait: the gated children of earlier holders. */
    method BeginSettle() returns (pending: set<ChildId>)
      ensures pending == State().GatedChildren()
    {
      pending := set id | id in children && children[id].gated;
    }

    /** `settle`, after the wait: the stragglers either exited or ran out the clock. */
    method EndSettle(pending: set<ChildId>, timedOut: bool) returns (good: bool)
      modifies this
      ensures good == !timedOut
      ensures State() == if timedOut then old(State()).GivenUp(pending) else old(State())
    {
      if timedOut {
        unhealthy := Some(pending);
      }
      good := !timedOut;
    }

    /** `settle`: `exits` are the children whose exit is confirmed while it waits, which it does only if
        there is a gated child to wait for. The clock may run out before the waiting task is told of the last
        of them: then `late` holds, and the slot is given up though nothing is left to wait for. */
    method Settle(exits: seq<ChildId>, late: bool) returns (good: bool)
      modifies this
      ensures var awaited := old(State()).GatedChildren();
              && (good <==> awaited == {} || (!late && forall id :: id in awaited ==> id in exits))
              && (good ==> State().GatedChildren() == {})
              && (State().GpuSafe() <==> good && (awaited != {} || old(State()).GpuSafe()))
              && (!good ==> unhealthy == Some(awaited))
              && children == if awaited == {} then old(children) else old(children) - (set id | id in exits)
      ensures old(State()).Sound() ==> (State().Sound() <==> good || State().GatedChildren() != {})
    {
      var pending := BeginSettle();
      if pending == {} {
        return true;
      }
      for i := 0 to |exits|
        invariant children == old(children) - (set id | id in exits[..i])
        invariant State().GatedChildren() == {} ==> unhealthy == None
      {
        GatedAfterExit(State(), exits[i]);
        Retire(exits[i]);
      }
      assert exits[..|exits|] == exits;
      good := EndSettle(pending, late || exists id :: id in pending && id in children);
      assert State().GatedChildren() == pending - (set id | id in exits);
      if id :| id in pending && id !in exits {
        assert id in State().GatedChildren();
      }
    }

    /** `_close_child`: retire a child that was seen to exit; one that was not stays registered. */
    method Close(id: ChildId, graceful: bool, exitedInGrace: bool, exitedOnceKilled: bool) returns (exited: bool)
      modifies this
      ensures exited <==> exitedInGrace || (graceful && exitedOnceKilled)
      ensures State() == if exited then old(State()).Retired(id) else old(State())
    {
      exited := exitedInGrace;
      if !exited && graceful {
        exited := exitedOnceKilled;
      }
      if exited {
        Retire(id);
      }
    }

    /** `_run_process`, nothing else happening meanwhile. Once the process is seen to exit, the gate is what
        it was before, or healthy again if it was condemned for nothing; until then the child stays on it, and
        holds up whoever settles next. */
    method RunProcess(id: ChildId, what: string, gated: bool, hold: nat, finished: bool, exitedInGrace: bool,
                      exitedOnceKilled: bool) returns (exited: bool)
      requires id !in children
      modifies this
      ensures exited <==> exitedInGrace || (finished && exitedOnceKilled)
      ensures exited ==>
                State() == if old(State()).Sound() then old(State()) else old(State()).(unhealthy := None)
      ensures !exited ==> State() == old(State()).Registered(id, Child(what, gated, hold))
      ensures !exited && gated ==> State().LiveGated(id)
    {
      RegisterThenRetire(State(), id, Child(what, gated, hold));
      Register(id, what, gated, hold);
      exited := Close(id, finished, exitedInGrace, exitedOnceKilled);
    }
  }
}
