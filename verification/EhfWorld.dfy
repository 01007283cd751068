/** World switches, activations and preemption grants with no interrupt in progress: the normal world
    gets back the mask it had. */
module EhfWorld {
  import Bitwise
  import opened EhfModel
  import opened EhfStack

  datatype World = Normal | SecureWorld

  /** `stash` is the mask the normal world had at the last exit with no activation outstanding;
      `granted` says whether it has been allowed to preempt since then. */
  datatype System = System(pe: Pe, world: World, stash: Pri, granted: bool)

  /** `SetMask` is the normal world writing its priority mask. */
  datatype Event = Exit | Enter | Activation(pri: Pri) | Deactivation(pri: Pri) | Grant | SetMask(mask: Pri)

  datatype Next = Next(sys: System) | Fails(how: Outcome)

  /** The events that can happen in a world; priorities that are activated stand for their index. */
  predicate Enabled(c: Config, s: System, e: Event)
    requires c.priBits <= 7
  {
    match e
    case Exit => s.world == Normal
    case SetMask(_) => s.world == Normal
    case Activation(pri) => s.world == SecureWorld && Aligned(c, pri)
    case Deactivation(pri) => s.world == SecureWorld && Aligned(c, pri)
    case _ => s.world == SecureWorld
  }

  function Respond(c: Config, s: System, e: Event, idle: Pri): Outcome
    requires ConfigOk(c)
  {
    match e
    case Exit => ExitedNormalWorld(s.pe, idle)
    case Enter => EnteringNormalWorld(s.pe, idle)
    case Activation(pri) => Activate(c, s.pe, pri, idle)
    case Deactivation(pri) => Deactivate(c, s.pe, pri, idle)
    case Grant => AllowNsPreemption(s.pe)
    // The interrupt controller lets the normal world change a mask in its own range only.
    case SetMask(mask) => Ok(if IsSecure(s.pe.pmr) || IsSecure(mask) then s.pe else s.pe.(pmr := mask))
  }

  function Step(c: Config, s: System, e: Event, idle: Pri): Next
    requires ConfigOk(c)
  {
    match Respond(c, s, e, idle)
    case Ok(pe) =>
      var stashes := e == Exit && s.pe.active == 0;
      Next(System(pe, if e == Exit then SecureWorld else if e == Enter then Normal else s.world,
                  if stashes then s.pe.pmr else s.stash,
                  if stashes then false else s.granted || e == Grant))
    case Panic => Fails(Panic)
    case AssertFails => Fails(AssertFails)
  }

  /** The mask outside of all activations. */
  predicate RestsAt(pe: Pe, mask: Pri) { Resting(pe) == mask }

  ghost predicate Inv(c: Config, s: System)
    requires ConfigOk(c)
  {
    && MaskOk(c, s.pe)
    && !IsSecure(s.stash)
    && if s.world == Normal && s.pe.active == 0 then s.pe.ns == 0 && !IsSecure(s.pe.pmr)
       else if s.granted then s.pe.ns == 0 && RestsAt(s.pe, s.stash)
       else s.pe.ns == s.stash && RestsAt(s.pe, GIC_HIGHEST_NS_PRIORITY)
  }

  ghost predicate Boot(s: System) {
    s.world == Normal && s.pe.active == 0 && s.pe.ns == 0 && !IsSecure(s.pe.pmr) && !IsSecure(s.stash)
  }

  /** An active priority is in the secure range, and so is the mask. */
  lemma ActiveMaskSecure(c: Config, pe: Pe)
    requires ConfigOk(c) && MaskOk(c, pe) && pe.active != 0
    ensures IsSecure(pe.pmr)
  {
  }

  lemma StepKeeps(c: Config, s: System, e: Event, idle: Pri)
    requires ConfigOk(c) && Inv(c, s) && Enabled(c, s, e) && !IsSecure(idle)
    ensures Step(c, s, e, idle).Next? ==> Inv(c, Step(c, s, e, idle).sys)
  {
    EmptyStack(s.pe.active);
    match e {
      case Activation(pri) =>
        if Activate(c, s.pe, pri, idle).Ok? {
          ActivatePushes(c, s.pe, pri, idle);
          EmptyStack(Activate(c, s.pe, pri, idle).next.active);
        }
      case Deactivation(pri) =>
        if Deactivate(c, s.pe, pri, idle).Ok? {
          DeactivatePops(c, s.pe, pri, idle);
          EmptyStack(Deactivate(c, s.pe, pri, idle).next.active);
        }
      case _ =>
        if s.pe.active != 0 {
          ActiveMaskSecure(c, s.pe);
        }
    }
  }

  /** Which events fail, and how: world switches never do, so neither the assertion on the stashed mask
      nor the panics about masks can be reached; a grant fails the assertion just when it is the second
      one, and panics just when a priority is active. */
  lemma FailsExactly(c: Config, s: System, e: Event, idle: Pri)
    requires ConfigOk(c) && Inv(c, s) && Enabled(c, s, e) && !IsSecure(idle)
    ensures e.Exit? || e.Enter? || e.SetMask? ==> Step(c, s, e, idle).Next?
    ensures e.Grant? ==>
              && (Step(c, s, e, idle) == Fails(AssertFails) <==> s.granted)
              && (Step(c, s, e, idle) == Fails(Panic) <==> !s.granted && s.pe.active != 0)
    ensures e.Deactivation? ==>
              (Step(c, s, e, idle).Next? <==>
                  Bitwise.Stack(s.pe.active) != [] && Bitwise.Stack(s.pe.active)[0] == PriToIdx(c, e.pri))
    ensures e.Activation? ==>
              (Step(c, s, e, idle).Next? <==>
                 && IdxOk(c, PriToIdx(c, e.pri)) && e.pri < s.pe.pmr
                 && (Bitwise.Stack(s.pe.active) == [] || PriToIdx(c, e.pri) < Bitwise.Stack(s.pe.active)[0]))
  {
    match e
    case Activation(pri) => ActivateExact(c, s.pe, pri, idle);
    case Deactivation(pri) => DeactivateExact(c, s.pe, pri, idle);
    case _ =>
  }

  /** When the normal world resumes with no activation outstanding, its mask is the stashed one; while
      the secure world runs, preemption is reported as allowed just when it has been granted. */
  lemma NormalMaskRestored(c: Config, s: System, idle: Pri)
    requires ConfigOk(c) && Inv(c, s) && s.world == SecureWorld && !IsSecure(idle)
    ensures Step(c, s, Enter, idle).Next?
    ensures var s' := Step(c, s, Enter, idle).sys;
            s'.world == Normal && s'.stash == s.stash && (s'.pe.active == 0 ==> s'.pe.pmr == s.stash)
    ensures IsNsPreemptionAllowed(s.pe, idle) <==> s.pe.active == 0 && s.granted
  {
  }

  /* Runs */

  function Run(c: Config, s: System, events: seq<Event>, idle: Pri): Next
    requires ConfigOk(c)
    decreases |events|
  {
    if events == [] then Next(s)
    else
      match Step(c, s, events[0], idle)
      case Next(s') => Run(c, s', events[1..], idle)
      case Fails(how) => Fails(how)
  }

  ghost predicate EnabledRun(c: Config, s: System, events: seq<Event>, idle: Pri)
    requires ConfigOk(c)
    decreases |events|
  {
    events == [] ||
    (&& Enabled(c, s, events[0])
     && (Step(c, s, events[0], idle).Next? ==> EnabledRun(c, Step(c, s, events[0], idle).sys, events[1..], idle)))
  }

  lemma {:induction false} RunKeeps(c: Config, s: System, events: seq<Event>, idle: Pri)
    requires ConfigOk(c) && Inv(c, s) && !IsSecure(idle) && EnabledRun(c, s, events, idle)
    ensures Run(c, s, events, idle).Next? ==> Inv(c, Run(c, s, events, idle).sys)
    decreases |events|
  {
    if events != [] && Step(c, s, events[0], idle).Next? {
      StepKeeps(c, s, events[0], idle);
      RunKeeps(c, Step(c, s, events[0], idle).sys, events[1..], idle);
    }
  }

  /** The mask the normal world had when it was last left with no activation outstanding. */
  function LastMask(c: Config, s: System, events: seq<Event>, idle: Pri, last: Pri): Pri
    requires ConfigOk(c)
    decreases |events|
  {
    if events == [] then last
    else
      match Step(c, s, events[0], idle)
      case Next(s') =>
        LastMask(c, s', events[1..], idle, if events[0] == Exit && s.pe.active == 0 then s.pe.pmr else last)
      case Fails(_) => last
  }

  lemma {:induction false} StashIsLastMask(c: Config, s: System, events: seq<Event>, idle: Pri)
    requires ConfigOk(c) && Run(c, s, events, idle).Next?
    ensures Run(c, s, events, idle).sys.stash == LastMask(c, s, events, idle, s.stash)
    decreases |events|
  {
    if events != [] {
      StashIsLastMask(c, Step(c, s, events[0], idle).sys, events[1..], idle);
    }
  }

  /** In every run from boot, a return to the normal world with no activation outstanding succeeds and
      gives back the mask of the exit it answers. */
  lemma ReturnAnswersExit(c: Config, s: System, events: seq<Event>, idle: Pri)
    requires ConfigOk(c) && Boot(s) && MaskOk(c, s.pe) && !IsSecure(idle) && EnabledRun(c, s, events, idle)
    requires var r := Run(c, s, events, idle); r.Next? && r.sys.world == SecureWorld && r.sys.pe.active == 0
    ensures var end := Run(c, s, events, idle).sys;
            && Step(c, end, Enter, idle).Next?
            && Step(c, end, Enter, idle).sys.pe.pmr == LastMask(c, s, events, idle, s.stash)
            && Step(c, end, Enter, idle).sys.pe.ns == 0
  {
    RunKeeps(c, s, events, idle);
    StashIsLastMask(c, s, events, idle);
    NormalMaskRestored(c, Run(c, s, events, idle).sys, idle);
  }
}
