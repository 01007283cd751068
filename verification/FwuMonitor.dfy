/** The monitor itself: the table of loaded images is an array, the descriptors and the running world
    are fields that each request updates. */
module FwuMonitor {
  import opened ImageIds
  import opened FwuModel
  import opened FwuSafety

  datatype Reply = Answer(code: Code) | Halted

  class Bl1Fwu {
    const p: Platform
    const loadedIds: array<nat>
    var desc: map<nat, Desc>
    var secExecImageId: nat
    var world: World
    var mem: Memory

    ghost predicate Valid()
      reads this
    {
      desc.Keys == p.images.Keys && loadedIds.Length == p.slots
    }

    /** The state the requests are specified on. */
    ghost function State(): Fwu
      reads this, loadedIds
    {
      Fwu(desc, loadedIds[..], secExecImageId, world, mem)
    }

    /** The monitor has done what `o` says. */
    ghost predicate Did(o: Outcome, r: Reply)
      reads this, loadedIds
    {
      match o
      case Stop => r == Halted
      case Ret(next, code) => Valid() && State() == next && r == Answer(code)
    }

    constructor (p: Platform, desc: map<nat, Desc>, mem: Memory)
      requires desc.Keys == p.images.Keys
      requires PlatformOk(p) && forall id :: id in p.images ==>
                 if p.images[id].security == Secure then desc[id].state == Reset
                 else desc[id].state in {Reset, Executed} && desc[id].copied == 0
      ensures Valid() && fresh(loadedIds) && this.p == p && Initial(p, State())
      ensures this.desc == desc && this.mem == mem
    {
      this.p := p;
      this.desc := desc;
      this.mem := mem;
      secExecImageId := INVALID_IMAGE_ID;
      world := NonSecure;
      loadedIds := new nat[p.slots](_ => INVALID_IMAGE_ID);
    }

    /** Adds an image to the table unless it is there; fails when there is no free slot. */
    method AddLoadedId(id: nat) returns (ok: bool)
      modifies loadedIds
      ensures match AddLoaded(old(loadedIds[..]), id)
              case Full => !ok && loadedIds[..] == old(loadedIds[..])
              case Table(loaded) => ok && loadedIds[..] == loaded
    {
      for i := 0 to loadedIds.Length
        invariant loadedIds[..] == old(loadedIds[..])
        invariant Find(loadedIds[..], id, 0) == Find(loadedIds[..], id, i)
      {
        if loadedIds[i] == id {
          return true;
        }
      }
      for i := 0 to loadedIds.Length
        invariant loadedIds[..] == old(loadedIds[..])
        invariant Find(loadedIds[..], INVALID_IMAGE_ID, 0) == Find(loadedIds[..], INVALID_IMAGE_ID, i)
      {
        if loadedIds[i] == INVALID_IMAGE_ID {
          loadedIds[i] := id;
          return true;
        }
      }
      return false;
    }

    method RemoveLoadedId(id: nat) returns (ok: bool)
      modifies loadedIds
      ensures match RemoveLoaded(old(loadedIds[..]), id)
              case Full => !ok && loadedIds[..] == old(loadedIds[..])
              case Table(loaded) => ok && loadedIds[..] == loaded
    {
      for i := 0 to loadedIds.Length
        invariant loadedIds[..] == old(loadedIds[..])
        invariant Find(loadedIds[..], id, 0) == Find(loadedIds[..], id, i)
      {
        if loadedIds[i] == id {
          loadedIds[i] := INVALID_IMAGE_ID;
          return true;
        }
      }
      return false;
    }

    method CheckOverlaps(id: nat) returns (r: Check)
      requires Valid() && id in p.images && desc[id].size > 0
      ensures r == Overlaps(p, State(), id, 0)
    {
      var base := p.images[id].base;
      var end := LastAddr(p, base, desc[id].size);
      for i := 0 to loadedIds.Length
        invariant Overlaps(p, State(), id, 0) == Overlaps(p, State(), id, i)
      {
        var other := loadedIds[i];
        if other == INVALID_IMAGE_ID || other == id {
          continue;
        }
        if other !in p.images || desc[other].state == Reset {
          return CheckFailed;
        }
        if desc[other].size == 0 {
          continue;
        }
        var otherBase := p.images[other].base;
        var otherEnd := LastAddr(p, otherBase, desc[other].size);
        if otherEnd <= otherBase {
          return CheckFailed;
        }
        if !(otherEnd < base || end < otherBase) {
          return Overlap;
        }
      }
      return Clear;
    }

    method ImageCopy(id: nat, src: nat, blockSize: nat, imageSize: nat, mapped: bool, preLoad: bool) returns (r: Reply)
      requires Valid()
      modifies this, loadedIds
      ensures Did(Copy(p, old(State()), id, src, blockSize, imageSize, mapped, preLoad), r)
    {
      if id !in p.images || world == Secure || p.images[id].security == NonSecure {
        return Answer(Eperm);
      }
      if desc[id].state != Reset && desc[id].state != Copying {
        return Answer(Eperm);
      }
      if src == 0 || blockSize == 0 || PtrOverflow(p, src, blockSize - 1) {
        return Answer(Enomem);
      }
      if desc[id].state == Copying {
        if desc[id].copied == 0 || desc[id].size == 0 || desc[id].copied >= desc[id].size {
          return Halted;
        }
      } else {
        if imageSize == 0 || imageSize > p.images[id].maxSize {
          return Answer(Enomem);
        }
        desc := desc[id := desc[id].(size := imageSize)];
        var check := CheckOverlaps(id);
        if check == CheckFailed {
          return Halted;
        }
        if check == Overlap {
          desc := desc[id := desc[id].(size := 0)];
          return Answer(Eperm);
        }
        desc := desc[id := desc[id].(copied := 0)];
        assert desc == old(desc)[id := old(desc[id]).(size := imageSize, copied := 0)];
      }
      r := MoveBlock(id, src, blockSize, mapped, preLoad);
    }

    /** The common end of a first and of a further copy request. */
    method MoveBlock(id: nat, src: nat, blockSize: nat, mapped: bool, preLoad: bool) returns (r: Reply)
      requires Valid() && id in p.images && desc[id].copied <= desc[id].size
      modifies this, loadedIds
      ensures Did(CopyBlock(p, old(State()), id, src, blockSize, mapped, preLoad), r)
    {
      var remaining := desc[id].size - desc[id].copied;
      var len := blockSize;
      if len > remaining {
        len := remaining;
      }
      if !mapped {
        return Answer(Enomem);
      }
      var added := AddLoadedId(id);
      if !added {
        return Answer(Enomem);
      }
      if desc[id].state == Reset && !preLoad {
        return Answer(Eperm);
      }
      assert desc[id].copied + len <= desc[id].size;
      mem := WriteMem(mem, p.images[id].base + desc[id].copied, ReadMem(mem, src, len));
      desc := desc[id := Desc(if len == remaining then Copied else Copying, desc[id].size, desc[id].copied + len)];
      return Answer(Success);
    }

    method ImageAuth(id: nat, src: nat, imageSize: nat, mapped: bool, verified: bool, postLoad: bool) returns (r: Reply)
      requires Valid()
      modifies this, loadedIds
      ensures Did(Auth(p, old(State()), id, src, imageSize, mapped, verified, postLoad), r)
    {
      if id !in p.images {
        return Answer(Eperm);
      }
      if world == Secure {
        if desc[id].state != Reset {
          return Answer(Eperm);
        }
      } else if p.images[id].security == Secure {
        if desc[id].state != Copied {
          return Answer(Eperm);
        }
      } else if desc[id].state != Reset {
        return Answer(Eperm);
      }
      var base := p.images[id].base;
      if desc[id].state != Copied {
        if src == 0 || imageSize == 0 || PtrOverflow(p, src, imageSize - 1) || !mapped {
          return Answer(Enomem);
        }
        var added := AddLoadedId(id);
        if !added {
          return Answer(Enomem);
        }
        base := src;
        desc := desc[id := desc[id].(size := imageSize)];
      }
      r := ConcludeAuth(id, base, verified, postLoad);
    }

    /** What follows the answer of the authentication module. */
    method ConcludeAuth(id: nat, base: nat, verified: bool, postLoad: bool) returns (r: Reply)
      requires Valid() && id in p.images
      modifies this, loadedIds
      ensures Did(Authenticated'(p, old(State()), id, base, verified, postLoad), r)
    {
      if !verified {
        if desc[id].state == Copied {
          mem := WriteMem(mem, base, Zeros(desc[id].size));
          desc := desc[id := desc[id].(state := Reset)];
        }
        var _ := RemoveLoadedId(id);
        return Answer(Eauth);
      }
      desc := desc[id := desc[id].(state := Authenticated)];
      if !postLoad {
        return Halted;
      }
      return Answer(Success);
    }

    method ImageExecute(id: nat) returns (r: Reply)
      requires Valid()
      modifies this
      ensures Did(Execute(p, old(State()), id), r)
    {
      if || id !in p.images || world == Secure || p.images[id].security == NonSecure
         || !p.images[id].executable || desc[id].state != Authenticated
      {
        return Answer(Eperm);
      }
      desc := desc[id := desc[id].(state := Executed)];
      secExecImageId := id;
      world := Secure;
      return Answer(Success);
    }

    method ImageResume() returns (r: Reply)
      requires Valid()
      modifies this
      ensures Did(Resume(p, old(State())), r)
    {
      var id := secExecImageId;
      if id !in p.images {
        return if world == NonSecure then Answer(Eperm) else Halted;
      }
      if p.images[id].security == NonSecure || !p.images[id].executable {
        return Halted;
      }
      if world == Secure {
        if desc[id].state != Executed {
          return Halted;
        }
        desc := desc[id := desc[id].(state := Interrupted)];
        world := NonSecure;
      } else {
        if desc[id].state != Interrupted {
          return Halted;
        }
        desc := desc[id := desc[id].(state := Executed)];
        world := Secure;
      }
      return Answer(Success);
    }

    method ImageDone() returns (r: Reply)
      requires Valid()
      modifies this, loadedIds
      ensures Did(Done(p, old(State())), r)
    {
      if world == NonSecure {
        return Answer(Eperm);
      }
      var id := secExecImageId;
      if id !in p.images || p.images[id].security == NonSecure || !p.images[id].executable ||
          desc[id].state != Executed {
        return Halted;
      }
      var removed := RemoveLoadedId(id);
      if !removed {
        return Halted;
      }
      desc := desc[id := desc[id].(state := Reset)];
      secExecImageId := INVALID_IMAGE_ID;
      world := NonSecure;
      return Answer(Success);
    }

    method ImageReset(id: nat) returns (r: Reply)
      requires Valid()
      modifies this, loadedIds
      ensures Did(ResetTo(p, old(State()), id), r)
    {
      if id !in p.images || world == Secure {
        return Answer(Eperm);
      }
      if desc[id].state == Reset {
        return Answer(Success);
      }
      if desc[id].state == Executed {
        return Halted;
      }
      var removed := RemoveLoadedId(id);
      if !removed {
        return Answer(Eperm);
      }
      if desc[id].copied != 0 {
        if p.images[id].security != Secure {
          return Halted;
        }
        mem := WriteMem(mem, p.images[id].base, Zeros(desc[id].copied));
      }
      desc := desc[id := Desc(Reset, 0, 0)];
      return Answer(Success);
    }

    /** The handler of the monitor calls: every allowed call that does not stop the machine keeps the
        invariant. */
    method Handle(call: Call) returns (r: Reply)
      requires Valid()
      modifies this, loadedIds
      ensures Did(Step(p, old(State()), call), r)
      ensures old(Inv(p, State())) && Allowed(p, old(State()), call) && r.Answer? ==> Inv(p, State())
    {
      if Inv(p, State()) && Allowed(p, State(), call) {
        StepInv(p, State(), call);
      }
      match call
      case CopyImage(id, src, block, size, mapped, preLoad) =>
        r := ImageCopy(id, src, block, size, mapped, preLoad);
      case AuthImage(id, src, size, mapped, verified, postLoad) =>
        r := ImageAuth(id, src, size, mapped, verified, postLoad);
      case ExecuteImage(id) =>
        r := ImageExecute(id);
      case ResumeImage =>
        r := ImageResume();
      case SecImageDone =>
        r := ImageDone();
      case ResetImage(id) =>
        r := ImageReset(id);
      case UpdateDone =>
        r := Halted;
      case Poke(addr, val) =>
        mem := WriteMem(mem, addr, [val]);
        r := Answer(Success);
    }
  }
}
