/** The framework as it runs: the data of one processing element, updated in place. */
module EhfMonitor {
  import opened Bitwise
  import opened EhfModel
  import EhfStack

  datatype Reply = Done | Panicked | Asserted

  class Ehf {
    const config: Config
    var activePriBits: nat
    var initPriMask: Pri
    var nsPriMask: Pri
    /** The priority mask of the interrupt controller. */
    var mask: Pri

    ghost function State(): Pe
      reads this
    {
      Pe(activePriBits, initPriMask, nsPriMask, mask)
    }

    ghost predicate Did(o: Outcome, r: Reply)
      reads this
    {
      match o
      case Ok(next) => r == Done && State() == next
      case Panic => r == Panicked
      case AssertFails => r == Asserted
    }

    constructor (config: Config, mask: Pri)
      ensures this.config == config && State() == Pe(0, 0, 0, mask)
    {
      this.config := config;
      activePriBits, initPriMask, nsPriMask := 0, 0, 0;
      this.mask := mask;
    }

    /** The interrupt controller returns the mask it had. */
    method SetPriorityMask(newMask: Pri) returns (oldMask: Pri)
      modifies `mask
      ensures oldMask == old(mask) && mask == newMask
    {
      oldMask := mask;
      mask := newMask;
    }

    /** The number of the right-most set bit, or -1 when there is none. */
    method HighestActiveIdx() returns (idx: int)
      ensures idx == if Stack(activePriBits) == [] then -1 else Stack(activePriBits)[0]
    {
      EhfStack.EmptyStack(activePriBits);
      return if activePriBits == 0 then -1 else Ctz(activePriBits);
    }

    method ActivatePriority(priority: Pri, running: Pri) returns (r: Reply)
      requires ConfigOk(config)
      modifies this
      ensures Did(Activate(config, old(State()), priority, running), r)
    {
      EhfStack.EmptyStack(activePriBits);
      if priority >= running {
        return Panicked;
      }
      var current := HighestActiveIdx();
      var idx := PriToIdx(config, priority);
      if !IdxOk(config, idx) {
        return Asserted;
      }
      if current != -1 && idx >= current {
        return Panicked;
      }
      activePriBits := Or(activePriBits, Pow2(idx));
      var oldMask := SetPriorityMask(priority);
      if priority >= oldMask {
        return Panicked;
      }
      if current == -1 {
        initPriMask := oldMask;
      }
      return Done;
    }

    method DeactivatePriority(priority: Pri, running: Pri) returns (r: Reply)
      requires ConfigOk(config)
      modifies this
      ensures Did(Deactivate(config, old(State()), priority, running), r)
    {
      EhfStack.EmptyStack(activePriBits);
      if priority >= running {
        return Panicked;
      }
      var current := HighestActiveIdx();
      var idx := PriToIdx(config, priority);
      if !IdxOk(config, idx) {
        return Asserted;
      }
      if current == -1 || idx != current {
        return Panicked;
      }
      activePriBits := And(activePriBits, activePriBits - 1);
      EhfStack.EmptyStack(activePriBits);
      current := HighestActiveIdx();
      var oldMask: Pri;
      if current == -1 {
        oldMask := SetPriorityMask(initPriMask);
      } else {
        oldMask := SetPriorityMask(priority);
      }
      return if oldMask > priority then Panicked else Done;
    }

    method ExitedNormal(running: Pri) returns (r: Reply)
      modifies this
      ensures Did(ExitedNormalWorld(old(State()), running), r)
    {
      if IsSecure(running) || activePriBits != 0 {
        return Done;
      }
      if nsPriMask != 0 {
        return Asserted;
      }
      nsPriMask := SetPriorityMask(GIC_HIGHEST_NS_PRIORITY);
      return if IsSecure(nsPriMask) then Panicked else Done;
    }

    method EnteringNormal(running: Pri) returns (r: Reply)
      modifies this
      ensures Did(EnteringNormalWorld(old(State()), running), r)
    {
      if IsSecure(running) || activePriBits != 0 || nsPriMask == 0 {
        return Done;
      }
      var oldMask := SetPriorityMask(nsPriMask);
      if oldMask != GIC_HIGHEST_NS_PRIORITY && oldMask != nsPriMask {
        return Panicked;
      }
      nsPriMask := 0;
      return Done;
    }

    method AllowPreemption() returns (r: Reply)
      modifies this
      ensures Did(AllowNsPreemption(old(State())), r)
    {
      if nsPriMask == 0 {
        return Asserted;
      }
      if activePriBits != 0 {
        return Panicked;
      }
      var _ := SetPriorityMask(nsPriMask);
      nsPriMask := 0;
      return Done;
    }

    /** Serves activations and deactivations one after the other and stops at the first that fails. */
    method Serve(moves: seq<EhfStack.Move>) returns (r: Reply)
      requires ConfigOk(config)
      modifies this
      ensures Did(EhfStack.Run(config, old(State()), moves), r)
    {
      r := Done;
      var i := 0;
      while i < |moves|
        invariant 0 <= i <= |moves|
        invariant r == Done
        invariant EhfStack.Run(config, old(State()), moves) == EhfStack.Run(config, State(), moves[i..])
      {
        assert moves[i..][0] == moves[i] && moves[i..][1..] == moves[i + 1..];
        match moves[i] {
          case Push(pri, run) => r := ActivatePriority(pri, run);
          case Pop(pri, run) => r := DeactivatePriority(pri, run);
        }
        if r != Done {
          return;
        }
        i := i + 1;
      }
    }
  }
}
