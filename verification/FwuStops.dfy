/** When the machine stops: which of the assertions and panics of the firmware update code can be
    reached, and what happens when the assumptions made about its callers do not hold. */
module FwuStops {
  import opened ImageIds
  import opened FwuModel
  import opened FwuSafety
  import FwuContents

  /* The overlap check */

  /** Slot `j` holds another image with contents. */
  predicate Other(st: Fwu, id: nat, j: nat) {
    && j < |st.loaded| && st.loaded[j] != INVALID_IMAGE_ID && st.loaded[j] != id
    && st.loaded[j] in st.desc && st.desc[st.loaded[j]].size > 0
  }

  /** The image in slot `j` has one byte, or wraps around the end of the address space. */
  predicate Degenerate(p: Platform, st: Fwu, id: nat, j: nat) {
    && Other(st, id, j) && st.loaded[j] in p.images
    && LastAddr(p, p.images[st.loaded[j]].base, st.desc[st.loaded[j]].size) <= p.images[st.loaded[j]].base
  }

  predicate Hit(p: Platform, st: Fwu, id: nat, j: nat)
    requires id in p.images && id in st.desc && st.desc[id].size > 0
  {
    && Other(st, id, j) && st.loaded[j] in p.images && !Degenerate(p, st, id, j)
    && !NoOverlap(p, st.desc, id, st.loaded[j])
  }

  /** The first degenerate image comes before the first overlapping one. */
  ghost predicate FailsFrom(p: Platform, st: Fwu, id: nat, i: nat)
    requires id in p.images && id in st.desc && st.desc[id].size > 0
  {
    exists k: nat {:trigger Degenerate(p, st, id, k)} ::
      i <= k && Degenerate(p, st, id, k) && forall j: nat {:trigger Hit(p, st, id, j)} :: i <= j < k ==>
          !Hit(p, st, id, j)
  }

  ghost predicate HitsFrom(p: Platform, st: Fwu, id: nat, i: nat)
    requires id in p.images && id in st.desc && st.desc[id].size > 0
  {
    exists k: nat {:trigger Hit(p, st, id, k)} ::
      i <= k && Hit(p, st, id, k) && forall j: nat {:trigger Degenerate(p, st, id, j)} :: i <= j < k ==>
          !Degenerate(p, st, id, j)
  }

  /** Every filled slot names an image that is not in RESET. */
  predicate SlotsOk(p: Platform, st: Fwu) {
    forall j :: 0 <= j < |st.loaded| && st.loaded[j] != INVALID_IMAGE_ID ==>
      st.loaded[j] in p.images && st.loaded[j] in st.desc && st.desc[st.loaded[j]].state != Reset
  }

  /** What the overlap check finds out. */
  lemma {:induction false} OverlapsIs(p: Platform, st: Fwu, id: nat, i: nat)
    requires id in p.images && id in st.desc && st.desc[id].size > 0 && i <= |st.loaded| && SlotsOk(p, st)
    ensures Overlaps(p, st, id, i) == CheckFailed <==> FailsFrom(p, st, id, i)
    ensures Overlaps(p, st, id, i) == Overlap <==> HitsFrom(p, st, id, i)
    decreases |st.loaded| - i
  {
    if i < |st.loaded| {
      OverlapsIs(p, st, id, i + 1);
      FromNext(p, st, id, i);
    }
  }

  lemma FromNext(p: Platform, st: Fwu, id: nat, i: nat)
    requires id in p.images && id in st.desc && st.desc[id].size > 0 && i < |st.loaded|
    ensures FailsFrom(p, st, id, i) <==> Degenerate(p, st, id, i) || (!Hit(p, st, id, i) && FailsFrom(p, st, id, i + 1))
    ensures HitsFrom(p, st, id, i) <==> Hit(p, st, id, i) || (!Degenerate(p, st, id, i) && HitsFrom(p, st, id, i + 1))
  {
    if FailsFrom(p, st, id, i) {
      var k: nat :| i <= k && Degenerate(p, st, id, k) && forall j: nat {:trigger Hit(p, st, id, j)} :: i <= j < k ==>
          !Hit(p, st, id, j);
      assert k == i || (!Hit(p, st, id, i) && i + 1 <= k);
    }
    if HitsFrom(p, st, id, i) {
      var k: nat :| i <= k && Hit(p, st, id, k) && forall j: nat {:trigger Degenerate(p, st, id, j)} :: i <= j < k ==>
          !Degenerate(p, st, id, j);
      assert k == i || (!Degenerate(p, st, id, i) && i + 1 <= k);
    }
  }

  /** With images of at least two bytes that do not wrap, the check cannot fail, and it finds an overlap
      just when the range of the image meets the range of another loaded one. */
  lemma OverlapExact(p: Platform, st: Fwu, id: nat)
    requires id in p.images && id in st.desc && st.desc[id].size > 0 && SlotsOk(p, st)
    requires p.images[id].base + st.desc[id].size <= p.top + 1
    requires forall j: nat {:trigger Other(st, id, j)} :: Other(st, id, j) ==>
               st.desc[st.loaded[j]].size >= 2 && p.images[st.loaded[j]].base + st.desc[st.loaded[j]].size <= p.top + 1
    ensures Overlaps(p, st, id, 0) != CheckFailed
    ensures Overlaps(p, st, id, 0) == Overlap <==>
              exists j: nat {:trigger Other(st, id, j)} :: Other(st, id, j) && !Apart(p, st.desc, id, st.loaded[j])
  {
    OverlapsIs(p, st, id, 0);
    forall j: nat | Other(st, id, j)
      ensures !Degenerate(p, st, id, j)
      ensures Hit(p, st, id, j) <==> !Apart(p, st.desc, id, st.loaded[j])
    {
      LastAddrIs(p, p.images[st.loaded[j]].base, st.desc[st.loaded[j]].size);
      LastAddrIs(p, p.images[id].base, st.desc[id].size);
    }
    if j: nat :| Other(st, id, j) && !Apart(p, st.desc, id, st.loaded[j]) {
      assert Hit(p, st, id, j);
    }
  }

  /* Stops */

  /** The authentication request gets as far as the authentication module. */
  predicate Reaches(p: Platform, st: Fwu, call: Call) {
    && call.AuthImage? && call.id in p.images && call.id in st.desc
    && if st.world == NonSecure && IsSecure(p, call.id) then st.desc[call.id].state == Copied
       else
         && st.desc[call.id].state == Reset && call.mapped && call.src != 0 && call.size != 0
         && !PtrOverflow(p, call.src, call.size - 1)
         && (call.id in st.loaded || INVALID_IMAGE_ID in st.loaded)
  }

  /** Why a request stops the machine. */
  ghost predicate StopReason(p: Platform, st: Fwu, call: Call)
    requires st.desc.Keys == p.images.Keys
  {
    match call
    case CopyImage(id, _, _, size, _, _) => FirstCopy(p, st, call) && FailsFrom(p, Sized(st, id, size), id, 0)
    case AuthImage(_, _, _, _, verified, postLoad) => Reaches(p, st, call) && verified && !postLoad
    case ResumeImage => st.world == NonSecure && st.sec in p.images && st.desc[st.sec].state != Interrupted
    case ResetImage(id) => st.world == NonSecure && id in p.images && st.desc[id].state == Executed
    case UpdateDone => true
    case ExecuteImage(_) => false
    case SecImageDone => false
    case Poke(_, _) => false
  }

  lemma FindsIffIn(loaded: seq<nat>, x: nat)
    ensures Find(loaded, x, 0) < |loaded| <==> x in loaded
  {
  }

  lemma CopyStops(p: Platform, st: Fwu, call: Call)
    requires Inv(p, st) && call.CopyImage?
    ensures Step(p, st, call).Stop? <==> StopReason(p, st, call)
  {
    if call.id in p.images {
      assert DescOk(p, st.desc, call.id);
      if FirstCopy(p, st, call) {
        OverlapsIs(p, Sized(st, call.id, call.size), call.id, 0);
      }
    }
  }

  lemma AuthStops(p: Platform, st: Fwu, call: Call)
    requires Inv(p, st) && call.AuthImage?
    ensures Step(p, st, call).Stop? <==> StopReason(p, st, call)
  {
    FindsIffIn(st.loaded, call.id);
    FindsIffIn(st.loaded, INVALID_IMAGE_ID);
  }

  lemma DoneStops(p: Platform, st: Fwu)
    requires Inv(p, st)
    ensures Done(p, st).Ret?
  {
    if st.world == Secure {
      assert Active(p, st.desc, st.sec);
      FindsIffIn(st.loaded, st.sec);
    }
  }

  lemma ResetStops(p: Platform, st: Fwu, id: nat)
    requires Inv(p, st)
    ensures ResetTo(p, st, id).Stop? <==> StopReason(p, st, ResetImage(id))
  {
    if id in p.images {
      assert DescOk(p, st.desc, id);
    }
  }

  /** A reachable state stops the machine for these reasons only; in particular the assertions that a
      caller from the secure world passes in resume and sec_image_done always hold. */
  lemma StopsExactly(p: Platform, st: Fwu, call: Call)
    requires Inv(p, st)
    ensures Step(p, st, call).Stop? <==> StopReason(p, st, call)
    ensures st.world == Secure && (call.ResumeImage? || call.SecImageDone?) ==> Step(p, st, call).Ret?
  {
    match call
    case CopyImage(_, _, _, _, _, _) => CopyStops(p, st, call);
    case AuthImage(_, _, _, _, _, _) => AuthStops(p, st, call);
    case SecImageDone => DoneStops(p, st);
    case ResetImage(id) => ResetStops(p, st, id);
    case _ =>
  }

  /** The normal world can bring the machine to a stop: it resets the interrupted secure image, which
      is allowed, and resumes it. */
  lemma ResetThenResumeStops(p: Platform, st: Fwu)
    requires Inv(p, st) && st.world == NonSecure && st.sec in p.images && st.desc[st.sec].state == Interrupted
    ensures var r := ResetTo(p, st, st.sec);
            r.Ret? && r.code == Success && r.next.desc.Keys == p.images.Keys && Resume(p, r.next).Stop?
  {
    ResetStops(p, st, st.sec);
    assert Active(p, st.desc, st.sec) && DescOk(p, st.desc, st.sec);
    FindsIffIn(st.loaded, st.sec);
  }

  /* A failing pre-load handler */

  lemma AddsId(loaded: seq<nat>, id: nat)
    requires AddLoaded(loaded, id).Table?
    ensures id in AddLoaded(loaded, id).loaded
  {
    var k := Find(loaded, id, 0);
    if k == |loaded| {
      assert AddLoaded(loaded, id).loaded[Find(loaded, INVALID_IMAGE_ID, 0)] == id;
    } else {
      assert loaded[k] == id;
    }
  }

  /** A slot that names an image in RESET keeps the overlap check of any other image from passing. */
  lemma {:induction false} ResetSlotBlocks(p: Platform, st: Fwu, id: nat, i: nat, j: nat)
    requires id in p.images && id in st.desc && st.desc[id].size > 0 && i <= j < |st.loaded|
    requires st.loaded[j] != INVALID_IMAGE_ID && st.loaded[j] != id
    requires st.loaded[j] in p.images && st.loaded[j] in st.desc && st.desc[st.loaded[j]].state == Reset
    ensures Overlaps(p, st, id, i) != Clear
    decreases j - i
  {
    if i < j {
      ResetSlotBlocks(p, st, id, i + 1, j);
    }
  }

  /** A failing pre-load handler leaves an image registered that is in RESET. A first copy of another image
      is not accepted in this state: it is refused, or it stops the machine. */
  lemma FailedPreLoadBlocks(p: Platform, st: Fwu, call: Call, next: Call)
    requires Inv(p, st) && FailsPreLoad(p, st, call)
    requires next.CopyImage? && next.id != call.id && FirstCopy(p, st, next)
    ensures var r := Step(p, st, call);
            && r.Ret? && r.code == Eperm && r.next.desc.Keys == p.images.Keys
            && call.id in r.next.loaded && r.next.desc[call.id].state == Reset
            && !TableOk(p, r.next.desc, r.next.loaded)
            && var again := Step(p, r.next, next);
               again.Stop? || again.code == Eperm
  {
    var st' := Step(p, st, call).next;
    AddsId(st.loaded, call.id);
    assert call.id in st'.loaded && !Active(p, st'.desc, call.id);
    var j :| 0 <= j < |st'.loaded| && st'.loaded[j] == call.id;
    ResetSlotBlocks(p, Sized(st', next.id, next.size), next.id, 0, j);
  }

  /** A copy request that is answered keeps the invariant just when it does not end in a failure of the
      pre-load handler. */
  lemma CopyKeepsExactly(p: Platform, st: Fwu, call: Call)
    requires Inv(p, st) && call.CopyImage? && Step(p, st, call).Ret?
    ensures Inv(p, Step(p, st, call).next) <==> !FailsPreLoad(p, st, call)
  {
    if FailsPreLoad(p, st, call) {
      var next := Step(p, st, call).next;
      AddsId(st.loaded, call.id);
      assert call.id in next.loaded && !Active(p, next.desc, call.id);
    } else {
      CopyInv(p, st, call);
    }
  }

  /** An image that is added to the table does not change its own overlap check. */
  lemma {:induction false} OwnSlotSkipped(p: Platform, st: Fwu, st': Fwu, id: nat, k: nat, i: nat)
    requires id in p.images && id in st.desc && st.desc[id].size > 0 && i <= |st.loaded|
    requires k < |st.loaded| && st.loaded[k] == INVALID_IMAGE_ID && st' == st.(loaded := st.loaded[k := id])
    ensures Overlaps(p, st', id, i) == Overlaps(p, st, id, i)
    decreases |st.loaded| - i
  {
    if i < |st.loaded| {
      OwnSlotSkipped(p, st, st', id, k, i + 1);
    }
  }

  /** What a failing pre-load handler leaves behind. */
  lemma FailedPreLoad(p: Platform, st: Fwu, call: Call)
    requires DescsOk(p, st.desc) && FailsPreLoad(p, st, call)
    ensures Step(p, st, call)
         == Ret(SetDesc(st, call.id, Desc(Reset, call.size, 0)).(loaded := AddLoaded(st.loaded, call.id).loaded), Eperm)
  {
    assert DescOk(p, st.desc, call.id);
    assert SetDesc(st, call.id, st.desc[call.id].(size := call.size)) == Sized(st, call.id, call.size);
  }

  /** A second try with a handler that succeeds makes up for the failure: it leads to the state that the
      first try would have led to. */
  lemma RetryMakesUp(p: Platform, st: Fwu, call: Call)
    requires Inv(p, st) && FailsPreLoad(p, st, call)
    ensures var again, r := call.(preLoad := true), Step(p, st, call);
            && r.Ret? && DescsOk(p, r.next.desc)
            && Step(p, r.next, again) == Step(p, st, again)
            && Step(p, st, again).Ret? && Step(p, st, again).code == Success && Inv(p, Step(p, st, again).next)
  {
    var again, id := call.(preLoad := true), call.id;
    FailedPreLoad(p, st, call);
    DescsSet(p, st.desc, id, Desc(Reset, call.size, 0));
    var st' := Step(p, st, call).next;
    RetryChecks(p, st, st', call);
    FirstCopyIs(p, st, again);
    FirstCopyIs(p, st', again);
    FwuContents.SetTwice(st.desc, id, Desc(Reset, call.size, 0),
        Advanced(Desc(Reset, call.size, 0), Clipped(Desc(Reset, call.size, 0), call.block)));
    CopyInv(p, st, again);
  }

  /** The table check and the overlap check of the second try. */
  lemma RetryChecks(p: Platform, st: Fwu, st': Fwu, call: Call)
    requires DescsOk(p, st.desc) && FailsPreLoad(p, st, call)
    requires st' == SetDesc(st, call.id, Desc(Reset, call.size, 0)).(loaded := AddLoaded(st.loaded, call.id).loaded)
    ensures AddLoaded(st'.loaded, call.id) == AddLoaded(st.loaded, call.id)
    ensures Overlaps(p, Sized(st', call.id, call.size), call.id, 0) == Clear
  {
    var id := call.id;
    AddsId(st.loaded, id);
    FindsIffIn(st'.loaded, id);
    var k := Find(st.loaded, INVALID_IMAGE_ID, 0);
    if Find(st.loaded, id, 0) == |st.loaded| {
      SameSizes(p, Sized(st, id, call.size), Sized(st', id, call.size).(loaded := st.loaded), id, 0);
      OwnSlotSkipped(p, Sized(st', id, call.size).(loaded := st.loaded), Sized(st', id, call.size), id, k, 0);
    } else {
      SameSizes(p, Sized(st, id, call.size), Sized(st', id, call.size), id, 0);
    }
  }

  /** The overlap check looks at the size of its own image only. */
  lemma {:induction false} SameSizes(p: Platform, st: Fwu, st': Fwu, id: nat, i: nat)
    requires id in p.images && id in st.desc && st.desc[id].size > 0 && i <= |st.loaded|
    requires st'.loaded == st.loaded && id in st'.desc && st'.desc == st.desc[id := st'.desc[id]]
    requires st'.desc[id].size == st.desc[id].size
    ensures Overlaps(p, st', id, i) == Overlaps(p, st, id, i)
    decreases |st.loaded| - i
  {
    if i < |st.loaded| {
      SameSizes(p, st, st', id, i + 1);
    }
  }

  /** A first copy that passes all checks. */
  lemma FirstCopyIs(p: Platform, st: Fwu, call: Call)
    requires DescsOk(p, st.desc) && FirstCopy(p, st, call) && call.mapped && call.preLoad
    requires Overlaps(p, Sized(st, call.id, call.size), call.id, 0) == Clear && AddLoaded(st.loaded, call.id).Table?
    ensures var e := Desc(Reset, call.size, 0);
            var next := st.(loaded := AddLoaded(st.loaded, call.id).loaded,
                            mem := WriteMem(st.mem, p.images[call.id].base,
                                ReadMem(st.mem, call.src, Clipped(e, call.block))),
                            desc := st.desc[call.id := Advanced(e, Clipped(e, call.block))]);
            Step(p, st, call) == Ret(next, Success)
  {
    var e := Desc(Reset, call.size, 0);
    FwuContents.SetTwice(st.desc, call.id, e, Advanced(e, Clipped(e, call.block)));
  }

  /* Authentication asked for by the secure world */

  /** Image `b` leaves the range of `size` bytes at the base of image `id` free. */
  predicate Leaves(p: Platform, ds: Descs, id: nat, size: nat, b: nat)
    requires id in p.images && ds.Keys == p.images.Keys
  {
    IsSecure(p, b) && b != id && Active(p, ds, b) ==>
      p.images[id].base + size <= p.images[b].base || p.images[b].base + ds[b].size <= p.images[id].base
  }

  /** A secure image that the secure world has authenticated in place is registered without an overlap
      check: the images stay disjoint just when the range at its base happens to be free. */
  lemma SecureAuthDisjoint(p: Platform, st: Fwu, call: Call)
    requires Inv(p, st) && st.world == Secure && call.AuthImage? && IsSecure(p, call.id)
    requires var r := Step(p, st, call); r.Ret? && r.code == Success
    ensures var ds := Step(p, st, call).next.desc;
            && ds == st.desc[call.id := st.desc[call.id].(state := Authenticated, size := call.size)]
            && (Disjoint(p, ds) <==> forall b :: Leaves(p, st.desc, call.id, call.size, b))
  {
    var id, d := call.id, st.desc[call.id].(state := Authenticated, size := call.size);
    var ds := Step(p, st, call).next.desc;
    assert ds == st.desc[id := d];
    DisjointAfter(p, st.desc, id, d);
  }

  lemma DisjointAfter(p: Platform, ds: Descs, id: nat, d: Desc)
    requires ds.Keys == p.images.Keys && Disjoint(p, ds) && IsSecure(p, id) && d.state == Authenticated
    ensures Disjoint(p, ds[id := d]) <==> forall b :: Leaves(p, ds, id, d.size, b)
  {
    var ds' := ds[id := d];
    if Disjoint(p, ds') {
      forall b ensures Leaves(p, ds, id, d.size, b) {
        assert Rivals(p, ds', id, b) ==> Apart(p, ds', id, b);
      }
    }
    if forall b :: Leaves(p, ds, id, d.size, b) {
      forall a, b {:trigger Rivals(p, ds', a, b)} | Rivals(p, ds', a, b)
        ensures Apart(p, ds', a, b)
      {
        assert Leaves(p, ds, id, d.size, a) && Leaves(p, ds, id, d.size, b);
        assert a != id && b != id ==> Rivals(p, ds, a, b);
      }
    }
  }
}
