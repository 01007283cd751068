/** Runs from boot in which the firmware update code does what its callers may not expect. */
module FwuExamples {
  import opened ImageIds
  import opened FwuModel
  import opened FwuSafety
  import opened FwuStops

  /** A platform with two secure images whose areas overlap. */
  const TWO_IMAGES := Platform(map[1 := Image(0x100, 0x80, Secure, true), 2 := Image(0x140, 0x80, Secure, true)],
                               2, 0xFFFF)

  function TwoImages(one: Desc, two: Desc, loaded: seq<nat>, sec: nat, world: World, mem: Memory): Fwu {
    Fwu(map[1 := one, 2 := two], loaded, sec, world, mem)
  }

  const UNTOUCHED := Desc(Reset, 0, 0)

  const NONE_LOADED := [INVALID_IMAGE_ID, INVALID_IMAGE_ID]

  function Boot(mem: Memory): Fwu { TwoImages(UNTOUCHED, UNTOUCHED, NONE_LOADED, INVALID_IMAGE_ID, NonSecure, mem) }

  /** A copy request for the whole of image `id`. */
  function CopyAll(id: nat, size: nat, preLoad: bool): Call { CopyImage(id, 0x1000, size, size, true, preLoad) }

  predicate Goes(p: Platform, st: Fwu, call: Call, next: Fwu)
    requires st.desc.Keys == p.images.Keys
  {
    Step(p, st, call) == Ret(next, Success) && next.desc.Keys == p.images.Keys
  }

  lemma {:induction false} NothingOverlaps(p: Platform, st: Fwu, id: nat, i: nat)
    requires id in p.images && id in st.desc && st.desc[id].size > 0 && i <= |st.loaded|
    requires forall j :: 0 <= j < |st.loaded| ==> st.loaded[j] == INVALID_IMAGE_ID
    ensures Overlaps(p, st, id, i) == Clear
    decreases |st.loaded| - i
  {
    if i < |st.loaded| {
      NothingOverlaps(p, st, id, i + 1);
    }
  }

  lemma AddsFirst(id: nat)
    requires id != INVALID_IMAGE_ID
    ensures AddLoaded(NONE_LOADED, id) == Table([id, INVALID_IMAGE_ID])
  {
    assert Find(NONE_LOADED, INVALID_IMAGE_ID, 0) == 0 && Find(NONE_LOADED, id, 0) == 2;
  }

  /** At boot the checks of a first copy of image 1 pass. */
  lemma BootChecks(mem: Memory, size: nat, preLoad: bool)
    requires 0 < size <= 0x80
    ensures Initial(TWO_IMAGES, Boot(mem)) && FirstCopy(TWO_IMAGES, Boot(mem), CopyAll(1, size, preLoad))
    ensures Overlaps(TWO_IMAGES, Sized(Boot(mem), 1, size), 1, 0) == Clear
    ensures AddLoaded(NONE_LOADED, 1) == Table([1, INVALID_IMAGE_ID])
  {
    NothingOverlaps(TWO_IMAGES, Sized(Boot(mem), 1, size), 1, 0);
    AddsFirst(1);
  }

  /** A first copy of the whole image. */
  lemma WholeCopy(p: Platform, st: Fwu, call: Call, loaded: seq<nat>)
    requires DescsOk(p, st.desc) && FirstCopy(p, st, call) && call.mapped && call.preLoad && call.block == call.size
    requires Overlaps(p, Sized(st, call.id, call.size), call.id, 0) == Clear &&
        AddLoaded(st.loaded, call.id) == Table(loaded)
    ensures var r := Step(p, st, call);
            && r.Ret? && r.code == Success
            && r.next == st.(desc := st.desc[call.id := Desc(Copied, call.size, call.size)], loaded := loaded,
                  mem := r.next.mem)
  {
    FirstCopyIs(p, st, call);
  }

  lemma CopiesFirst(mem: Memory, size: nat) returns (next: Fwu)
    requires 0 < size <= 0x80
    ensures Goes(TWO_IMAGES, Boot(mem), CopyAll(1, size, true), next)
    ensures next == TwoImages(Desc(Copied, size, size), UNTOUCHED, [1, INVALID_IMAGE_ID], INVALID_IMAGE_ID, NonSecure,
        next.mem)
  {
    var st, copy := Boot(mem), CopyAll(1, size, true);
    var r := Step(TWO_IMAGES, st, copy);
    assert r.Ret? && r.code == Success
        && r.next == st.(desc := st.desc[1 := Desc(Copied, size, size)], loaded := [1, INVALID_IMAGE_ID],
              mem := r.next.mem) by {
      BootChecks(mem, size, true);
      InitialInv(TWO_IMAGES, st);
      WholeCopy(TWO_IMAGES, st, copy, [1, INVALID_IMAGE_ID]);
    }
    assert st.desc[1 := Desc(Copied, size, size)] == map[1 := Desc(Copied, size, size), 2 := UNTOUCHED];
    next := r.next;
  }

  /** Image 1 has been copied and has one byte. */
  lemma OneByteFails(mem: Memory)
    ensures var st := TwoImages(Desc(Copied, 1, 1), UNTOUCHED, [1, INVALID_IMAGE_ID], INVALID_IMAGE_ID, NonSecure, mem);
            st.desc.Keys == TWO_IMAGES.images.Keys && Step(TWO_IMAGES, st, CopyAll(2, 0x40, true)).Stop?
  {
    var st := TwoImages(Desc(Copied, 1, 1), UNTOUCHED, [1, INVALID_IMAGE_ID], INVALID_IMAGE_ID, NonSecure, mem);
    var sized := Sized(st, 2, 0x40);
    assert sized.desc[1] == Desc(Copied, 1, 1);
    assert Overlaps(TWO_IMAGES, sized, 2, 0) == CheckFailed;
  }

  /** A one-byte image is accepted, and stops the machine when another image is copied. */
  lemma OneByteStops(mem: Memory) returns (st: Fwu)
    ensures Initial(TWO_IMAGES, Boot(mem))
    ensures Goes(TWO_IMAGES, Boot(mem), CopyAll(1, 1, true), st)
    ensures Step(TWO_IMAGES, st, CopyAll(2, 0x40, true)).Stop?
  {
    BootChecks(mem, 1, true);
    st := CopiesFirst(mem, 1);
    OneByteFails(st.mem);
  }

  /** A pre-load handler that fails at boot: no image but the same one can then be copied. */
  lemma PreLoadFails(mem: Memory)
    ensures Initial(TWO_IMAGES, Boot(mem)) && FailsPreLoad(TWO_IMAGES, Boot(mem), CopyAll(1, 0x40, false))
    ensures var r := Step(TWO_IMAGES, Boot(mem), CopyAll(1, 0x40, false));
            && r.Ret? && r.code == Eperm && r.next.desc.Keys == TWO_IMAGES.images.Keys
            && r.next.loaded == [1, INVALID_IMAGE_ID] && r.next.desc[1].state == Reset
            && Step(TWO_IMAGES, r.next, CopyAll(2, 0x40, true)).Stop?
  {
    var st := Boot(mem);
    BootChecks(mem, 0x40, false);
    InitialInv(TWO_IMAGES, st);
    FailedPreLoad(TWO_IMAGES, st, CopyAll(1, 0x40, false));
    var st' := Step(TWO_IMAGES, st, CopyAll(1, 0x40, false)).next;
    assert Overlaps(TWO_IMAGES, Sized(st', 2, 0x40), 2, 0) == CheckFailed;
  }

  /* Authentication asked for by the secure world */

  lemma AuthenticatesFirst(mem: Memory) returns (next: Fwu)
    ensures Goes(TWO_IMAGES,
        TwoImages(Desc(Copied, 0x80, 0x80), UNTOUCHED, [1, INVALID_IMAGE_ID], INVALID_IMAGE_ID, NonSecure, mem),
                 AuthImage(1, 0, 0, true, true, true), next)
    ensures next == TwoImages(Desc(Authenticated, 0x80, 0x80), UNTOUCHED, [1, INVALID_IMAGE_ID], INVALID_IMAGE_ID,
        NonSecure, mem)
  {
    next := TwoImages(Desc(Authenticated, 0x80, 0x80), UNTOUCHED, [1, INVALID_IMAGE_ID], INVALID_IMAGE_ID, NonSecure,
        mem);
  }

  lemma StartsFirst(mem: Memory) returns (next: Fwu)
    ensures Goes(TWO_IMAGES,
                 TwoImages(Desc(Authenticated, 0x80, 0x80), UNTOUCHED, [1, INVALID_IMAGE_ID], INVALID_IMAGE_ID,
                     NonSecure, mem),
                 ExecuteImage(1), next)
    ensures next == TwoImages(Desc(Executed, 0x80, 0x80), UNTOUCHED, [1, INVALID_IMAGE_ID], 1, Secure, mem)
  {
    next := TwoImages(Desc(Executed, 0x80, 0x80), UNTOUCHED, [1, INVALID_IMAGE_ID], 1, Secure, mem);
  }

  lemma AuthenticatesSecond(mem: Memory) returns (next: Fwu)
    ensures Goes(TWO_IMAGES, TwoImages(Desc(Executed, 0x80, 0x80), UNTOUCHED, [1, INVALID_IMAGE_ID], 1, Secure, mem),
                 AuthImage(2, 0x1000, 0x40, true, true, true), next)
    ensures !Disjoint(TWO_IMAGES, next.desc)
  {
    var st := TwoImages(Desc(Executed, 0x80, 0x80), UNTOUCHED, [1, INVALID_IMAGE_ID], 1, Secure, mem);
    assert Find(st.loaded, INVALID_IMAGE_ID, 0) == 1 && Find(st.loaded, 2, 0) == 2;
    assert AddLoaded(st.loaded, 2) == Table([1, 2]);
    next := Step(TWO_IMAGES, st, AuthImage(2, 0x1000, 0x40, true, true, true)).next;
    assert Rivals(TWO_IMAGES, next.desc, 1, 2) && !Apart(TWO_IMAGES, next.desc, 1, 2);
  }

  /** A run from boot in which image 1 is copied, authenticated and started, and then has image 2
      authenticated in place: both are registered, and they overlap. */
  lemma SecureAuthOverlaps(mem: Memory) returns (st1: Fwu, st2: Fwu, st3: Fwu, st4: Fwu)
    ensures Initial(TWO_IMAGES, Boot(mem))
    ensures Goes(TWO_IMAGES, Boot(mem), CopyAll(1, 0x80, true), st1)
    ensures Goes(TWO_IMAGES, st1, AuthImage(1, 0, 0, true, true, true), st2)
    ensures Goes(TWO_IMAGES, st2, ExecuteImage(1), st3)
    ensures Goes(TWO_IMAGES, st3, AuthImage(2, 0x1000, 0x40, true, true, true), st4)
    ensures !Disjoint(TWO_IMAGES, st4.desc)
  {
    BootChecks(mem, 0x80, true);
    st1 := CopiesFirst(mem, 0x80);
    st2 := AuthenticatesFirst(st1.mem);
    st3 := StartsFirst(st1.mem);
    st4 := AuthenticatesSecond(st1.mem);
  }

  /* A reset of the interrupted image */

  /** Image 1 is registered and was the last one started. */
  function Started(state: ImageState, world: World, mem: Memory): Fwu {
    TwoImages(Desc(state, 0x80, 0x80), UNTOUCHED, [1, INVALID_IMAGE_ID], 1, world, mem)
  }

  lemma Interrupts(mem: Memory)
    ensures Goes(TWO_IMAGES, Started(Executed, Secure, mem), ResumeImage, Started(Interrupted, NonSecure, mem))
  {
    var st := Started(Executed, Secure, mem);
    assert st.desc[1 := Desc(Interrupted, 0x80, 0x80)] == Started(Interrupted, NonSecure, mem).desc;
  }

  /** What `StartsFirst` leads to keeps the invariant. */
  lemma StartedInv(mem: Memory)
    ensures Inv(TWO_IMAGES, Started(Interrupted, NonSecure, mem))
  {
    var st := Started(Interrupted, NonSecure, mem);
    assert st.loaded[0] == 1;
    assert Active(TWO_IMAGES, st.desc, 1);
  }

  lemma ResetAndResume(p: Platform, st: Fwu) returns (next: Fwu)
    requires Inv(p, st) && st.world == NonSecure && st.sec in p.images && st.desc[st.sec].state == Interrupted
    ensures Goes(p, st, ResetImage(st.sec), next) && Step(p, next, ResumeImage).Stop?
  {
    ResetThenResumeStops(p, st);
    next := ResetTo(p, st, st.sec).next;
  }

  lemma ResetsFirst(mem: Memory) returns (next: Fwu)
    ensures Goes(TWO_IMAGES, Started(Interrupted, NonSecure, mem), ResetImage(1), next)
    ensures Step(TWO_IMAGES, next, ResumeImage).Stop?
  {
    StartedInv(mem);
    next := ResetAndResume(TWO_IMAGES, Started(Interrupted, NonSecure, mem));
  }

  /** A run from boot in which image 1 is copied, authenticated, started and interrupted: the normal world
      can then reset it, and its next resume request stops the machine. */
  lemma ResumeStops(mem: Memory) returns (st1: Fwu, st2: Fwu, st3: Fwu, st4: Fwu, st5: Fwu)
    ensures Initial(TWO_IMAGES, Boot(mem))
    ensures Goes(TWO_IMAGES, Boot(mem), CopyAll(1, 0x80, true), st1)
    ensures Goes(TWO_IMAGES, st1, AuthImage(1, 0, 0, true, true, true), st2)
    ensures Goes(TWO_IMAGES, st2, ExecuteImage(1), st3)
    ensures Goes(TWO_IMAGES, st3, ResumeImage, st4) && st4.desc[1].state == Interrupted
    ensures Goes(TWO_IMAGES, st4, ResetImage(1), st5)
    ensures Step(TWO_IMAGES, st5, ResumeImage).Stop?
  {
    BootChecks(mem, 0x80, true);
    st1 := CopiesFirst(mem, 0x80);
    st2 := AuthenticatesFirst(st1.mem);
    st3 := StartsFirst(st1.mem);
    Interrupts(st1.mem);
    st4 := Started(Interrupted, NonSecure, st1.mem);
    st5 := ResetsFirst(st1.mem);
  }
}
