/** The exception priority framework of the secure monitor: nested activations of priorities, held in
    one word, and the priority mask of the interrupt controller. */
module EhfModel {
  import opened Bitwise

  /** A priority or a priority mask; the lower the number, the higher the priority. */
  type Pri = p: int | 0 <= p < 256

  const GIC_HIGHEST_NS_PRIORITY: Pri := 0x80

  /** What the platform registers: how many of the upper bits of a priority count, the size of the
      priority array, and the indices with a valid entry. */
  datatype Config = Config(priBits: nat, num: nat, valid: set<nat>)

  /** The data of one processing element and the mask of its interrupt controller interface. */
  datatype Pe = Pe(active: nat, init: Pri, ns: Pri, pmr: Pri)

  datatype Outcome = Ok(next: Pe) | Panic | AssertFails

  predicate IsSecure(pri: Pri) { pri < 0x80 }

  /** The index of a priority: the upper `priBits` of its lower 7 bits. */
  function PriToIdx(c: Config, pri: Pri): nat
    requires c.priBits <= 7
  {
    ShiftRight(pri % 128, 7 - c.priBits)
  }

  function IdxToPri(c: Config, idx: nat): nat
    requires c.priBits <= 7
  {
    ShiftLeft(idx, 7 - c.priBits) % 128
  }

  /** The word of active priorities has 32 bits, and every valid entry is at the index of a priority. */
  ghost predicate ConfigOk(c: Config) {
    c.priBits <= 7 && c.num <= 32 && forall idx :: idx in c.valid ==> ShiftLeft(idx, 7 - c.priBits) < 128
  }

  predicate IdxOk(c: Config, idx: nat) { idx < c.num && idx in c.valid }

  /** The priority is the one its index stands for. */
  predicate Aligned(c: Config, pri: Pri)
    requires c.priBits <= 7
  {
    IdxToPri(c, PriToIdx(c, pri)) == pri
  }

  /* Activation and deactivation; `run` is the running priority of the interrupt controller. */

  function Activate(c: Config, pe: Pe, pri: Pri, run: Pri): Outcome
    requires ConfigOk(c)
  {
    var idx := PriToIdx(c, pri);
    if pri >= run then Panic
    else if !IdxOk(c, idx) then AssertFails
    else if pe.active != 0 && idx >= Ctz(pe.active) then Panic
    else if pri >= pe.pmr then Panic
    else Ok(Pe(Or(pe.active, Pow2(idx)), if pe.active == 0 then pe.pmr else pe.init, pe.ns, pri))
  }

  function Deactivate(c: Config, pe: Pe, pri: Pri, run: Pri): Outcome
    requires ConfigOk(c)
  {
    var idx := PriToIdx(c, pri);
    if pri >= run then Panic
    else if !IdxOk(c, idx) then AssertFails
    else if pe.active == 0 || idx != Ctz(pe.active) then Panic
    else
      var rest := And(pe.active, pe.active - 1);
      if pe.pmr > pri then Panic
      else Ok(pe.(active := rest, pmr := if rest == 0 then pe.init else pri))
  }

  /* World switches and preemption grants */

  function ExitedNormalWorld(pe: Pe, run: Pri): Outcome {
    if IsSecure(run) || pe.active != 0 then Ok(pe)
    else if pe.ns != 0 then AssertFails
    else if IsSecure(pe.pmr) then Panic
    else Ok(pe.(ns := pe.pmr, pmr := GIC_HIGHEST_NS_PRIORITY))
  }

  function EnteringNormalWorld(pe: Pe, run: Pri): Outcome {
    if IsSecure(run) || pe.active != 0 || pe.ns == 0 then Ok(pe)
    else if pe.pmr != GIC_HIGHEST_NS_PRIORITY && pe.pmr != pe.ns then Panic
    else Ok(pe.(pmr := pe.ns, ns := 0))
  }

  function AllowNsPreemption(pe: Pe): Outcome {
    if pe.ns == 0 then AssertFails
    else if pe.active != 0 then Panic
    else Ok(pe.(pmr := pe.ns, ns := 0))
  }

  predicate IsNsPreemptionAllowed(pe: Pe, run: Pri) {
    !IsSecure(run) && pe.active == 0 && pe.ns == 0
  }
}
