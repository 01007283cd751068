/** Exactly when each request of the firmware update protocol is answered how, and what it changes. */
module FwuMeaning {
  import opened ImageIds
  import opened FwuModel
  import opened FwuSafety
  import opened FwuStops

  /* Conditions */

  /** The image can be copied: by the normal world, to the secure world, before it is complete. */
  predicate CanCopy(p: Platform, st: Fwu, id: nat) {
    && id in p.images && id in st.desc && st.world == NonSecure && p.images[id].security == Secure
    && (st.desc[id].state == Reset || st.desc[id].state == Copying)
  }

  /** The bytes are at an address other than 0 and do not reach beyond the last address. */
  predicate BytesOk(p: Platform, src: nat, n: nat) {
    src > 0 && n > 0 && src + n - 1 <= p.top
  }

  predicate SizeOk(p: Platform, id: nat, size: nat) {
    id in p.images && 0 < size <= p.images[id].maxSize
  }

  /** The image is in the table, or there is a slot for it. */
  predicate Room(st: Fwu, id: nat) {
    id in st.loaded || INVALID_IMAGE_ID in st.loaded
  }

  /** Slot `j` holds another image that is not empty. */
  predicate HoldsOther(p: Platform, st: Fwu, id: nat, j: nat) {
    && j < |st.loaded| && st.loaded[j] != id && st.loaded[j] in p.images && st.loaded[j] in st.desc
    && st.desc[st.loaded[j]].size > 0
  }

  /** The last address of the image, in addresses that wrap around. */
  function EndOf(p: Platform, st: Fwu, id: nat): int
    requires id in p.images && id in st.desc
  {
    (p.images[id].base + st.desc[id].size - 1) % (p.top + 1)
  }

  /** The image in slot `j` does not end behind its base. */
  predicate Odd(p: Platform, st: Fwu, id: nat, j: nat) {
    HoldsOther(p, st, id, j) && EndOf(p, st, st.loaded[j]) <= p.images[st.loaded[j]].base
  }

  /** The image in slot `j` has an address in common with `size` bytes at the base of image `id`. */
  predicate Meets(p: Platform, st: Fwu, id: nat, size: nat, j: nat) {
    && HoldsOther(p, st, id, j) && !Odd(p, st, id, j) && id in p.images
    && p.images[id].base <= EndOf(p, st, st.loaded[j])
    && p.images[st.loaded[j]].base < p.images[id].base + size
  }

  /** No other image is in the way. */
  ghost predicate IsFree(p: Platform, st: Fwu, id: nat, size: nat) {
    forall j: nat :: !Odd(p, st, id, j) && !Meets(p, st, id, size, j)
  }

  /** An image is in the way, and none before it in the table is odd. */
  ghost predicate IsTaken(p: Platform, st: Fwu, id: nat, size: nat) {
    exists j: nat :: Meets(p, st, id, size, j) && forall i: nat :: i < j ==> !Odd(p, st, id, i)
  }

  /** An odd image is in the table, and none before it is in the way. */
  ghost predicate IsOdd(p: Platform, st: Fwu, id: nat, size: nat) {
    exists j: nat :: Odd(p, st, id, j) && forall i: nat :: i < j ==> !Meets(p, st, id, size, i)
  }

  lemma SlotIs(p: Platform, st: Fwu, id: nat, size: nat, j: nat)
    requires Inv(p, st) && IsSecure(p, id) && SizeOk(p, id, size)
    ensures Degenerate(p, Sized(st, id, size), id, j) <==> Odd(p, st, id, j)
    ensures Hit(p, Sized(st, id, size), id, j) <==> Meets(p, st, id, size, j)
  {
    LastAddrIs(p, p.images[id].base, size);
  }

  /** The overlap check of a first copy. */
  lemma CheckMeaning(p: Platform, st: Fwu, id: nat, size: nat)
    requires Inv(p, st) && IsSecure(p, id) && SizeOk(p, id, size)
    ensures var check := Overlaps(p, Sized(st, id, size), id, 0);
            && (check == CheckFailed <==> IsOdd(p, st, id, size))
            && (check == Overlap <==> IsTaken(p, st, id, size))
            && (check == Clear <==> IsFree(p, st, id, size))
  {
    var sized := Sized(st, id, size);
    assert DescOk(p, st.desc, id);
    if st.desc[id].state == Reset {
      NotLoaded(p, st.desc, st.loaded, id);
    }
    OverlapsIs(p, sized, id, 0);
    forall j: nat
      ensures Degenerate(p, sized, id, j) <==> Odd(p, st, id, j)
      ensures Hit(p, sized, id, j) <==> Meets(p, st, id, size, j)
    {
      SlotIs(p, st, id, size, j);
    }
    FirstOf(p, st, id, size);
  }

  /** What is first in the table decides. */
  lemma FirstOf(p: Platform, st: Fwu, id: nat, size: nat)
    ensures IsFree(p, st, id, size) <==> !IsOdd(p, st, id, size) && !IsTaken(p, st, id, size)
  {
    if !IsFree(p, st, id, size) {
      var j: nat :| Odd(p, st, id, j) || Meets(p, st, id, size, j);
      FirstTrouble(p, st, id, size, j);
    }
  }

  lemma {:induction false} FirstTrouble(p: Platform, st: Fwu, id: nat, size: nat, j: nat)
    requires Odd(p, st, id, j) || Meets(p, st, id, size, j)
    ensures IsOdd(p, st, id, size) || IsTaken(p, st, id, size)
    decreases j
  {
    if i: nat :| i < j && (Odd(p, st, id, i) || Meets(p, st, id, size, i)) {
      FirstTrouble(p, st, id, size, i);
    }
  }

  /* Copying */

  /** A first copy of an image with a size it can have. */
  predicate First(p: Platform, st: Fwu, call: Call) {
    && call.CopyImage? && CanCopy(p, st, call.id) && st.desc[call.id].state == Reset
    && BytesOk(p, call.src, call.block) && SizeOk(p, call.id, call.size)
  }

  /** A copy of a further block. */
  predicate Further(p: Platform, st: Fwu, call: Call) {
    && call.CopyImage? && CanCopy(p, st, call.id) && st.desc[call.id].state == Copying
    && BytesOk(p, call.src, call.block)
  }

  lemma RoomIs(st: Fwu, id: nat)
    ensures AddLoaded(st.loaded, id).Table? <==> Room(st, id)
  {
    FindsIffIn(st.loaded, id);
    FindsIffIn(st.loaded, INVALID_IMAGE_ID);
  }

  lemma FurtherAnswer(p: Platform, st: Fwu, call: Call)
    requires Inv(p, st) && Further(p, st, call)
    ensures var r := Step(p, st, call);
            r.Ret? && r.code == if call.mapped && Room(st, call.id) then Success else Enomem
  {
    assert DescOk(p, st.desc, call.id);
    RoomIs(st, call.id);
  }

  lemma FirstAnswer(p: Platform, st: Fwu, call: Call)
    requires Inv(p, st) && First(p, st, call)
    ensures var r := Step(p, st, call);
            && (r.Stop? <==> IsOdd(p, st, call.id, call.size))
            && (r.Ret? && r.code == Success <==>
                  IsFree(p, st, call.id, call.size) && call.mapped && Room(st, call.id) && call.preLoad)
            && (r.Ret? && r.code == Enomem <==>
                  IsFree(p, st, call.id, call.size) && !(call.mapped && Room(st, call.id)))
            && (r.Ret? && r.code == Eperm <==>
                  || IsTaken(p, st, call.id, call.size)
                  || (IsFree(p, st, call.id, call.size) && call.mapped && Room(st, call.id) && !call.preLoad))
  {
    var id := call.id;
    assert DescOk(p, st.desc, id);
    RoomIs(st, id);
    CheckMeaning(p, st, id, call.size);
    FirstOf(p, st, id, call.size);
    assert Sized(st, id, call.size) == SetDesc(st, id, st.desc[id].(size := call.size));
  }

  /** A copy request that is refused because of its arguments changes nothing. */
  lemma NeitherAnswer(p: Platform, st: Fwu, call: Call)
    requires Inv(p, st) && call.CopyImage? && !First(p, st, call) && !Further(p, st, call)
    ensures Step(p, st, call) == Ret(st, if CanCopy(p, st, call.id) then Enomem else Eperm)
  {
  }

  /** A copy request succeeds just when the normal world asks for a secure image that is not complete, the
      block is sound and mapped, there is room in the table and, for the first block, the size is sound, no
      other image is in the way and the pre-load handler succeeds. */
  lemma CopyAccepted(p: Platform, st: Fwu, call: Call)
    requires Inv(p, st) && call.CopyImage?
    ensures var r := Step(p, st, call);
            r.Ret? && r.code == Success <==>
              && CanCopy(p, st, call.id) && BytesOk(p, call.src, call.block) && call.mapped && Room(st, call.id)
              && (st.desc[call.id].state == Reset ==>
                    SizeOk(p, call.id, call.size) && IsFree(p, st, call.id, call.size) && call.preLoad)
  {
    if First(p, st, call) {
      FirstAnswer(p, st, call);
    } else if Further(p, st, call) {
      FurtherAnswer(p, st, call);
    } else {
      NeitherAnswer(p, st, call);
    }
  }

  /** The codes of all refusals of a copy request, and when it stops the machine. */
  lemma CopyRefused(p: Platform, st: Fwu, call: Call)
    requires Inv(p, st) && call.CopyImage?
    ensures var r := Step(p, st, call);
            && (r.Stop? <==> First(p, st, call) && IsOdd(p, st, call.id, call.size))
            && (r.Ret? && r.code == Eperm <==>
                  || !CanCopy(p, st, call.id)
                  || (First(p, st, call) && IsTaken(p, st, call.id, call.size))
                  || (First(p, st, call) && IsFree(p, st, call.id, call.size)
                      && call.mapped && Room(st, call.id) && !call.preLoad))
            && (r.Ret? && r.code == Enomem <==>
                  && CanCopy(p, st, call.id)
                  && (First(p, st, call) ==> IsFree(p, st, call.id, call.size))
                  && ((!First(p, st, call) && !Further(p, st, call)) || !call.mapped || !Room(st, call.id)))
            && !(r.Ret? && r.code == Eauth)
  {
    if First(p, st, call) {
      FirstAnswer(p, st, call);
      FirstOf(p, st, call.id, call.size);
    } else if Further(p, st, call) {
      FurtherAnswer(p, st, call);
    } else {
      NeitherAnswer(p, st, call);
    }
  }

  /* What requests change */

  /** Nothing is different but the descriptor of `id`. */
  ghost predicate OthersSame(st: Fwu, st': Fwu, id: nat) {
    && st'.desc.Keys == st.desc.Keys
    && forall b :: b in st.desc && b != id ==> st'.desc[b] == st.desc[b]
  }

  ghost predicate MemSame(m: Memory, m': Memory) {
    forall a: nat {:trigger Peek(m', a)} :: Peek(m', a) == Peek(m, a)
  }

  /** `n` bytes are moved from `src` to `dst`, and no others change. */
  ghost predicate Moved(m: Memory, m': Memory, src: nat, dst: nat, n: nat) {
    forall a: nat {:trigger Peek(m', a)} ::
      Peek(m', a) == if dst <= a < dst + n then Peek(m, src + (a - dst)) else Peek(m, a)
  }

  /** `n` bytes are cleared, and no others change. */
  ghost predicate Wiped(m: Memory, m': Memory, dst: nat, n: nat) {
    forall a: nat {:trigger Peek(m', a)} :: Peek(m', a) == if dst <= a < dst + n then 0 else Peek(m, a)
  }

  /** The image is in the table: it stays where it is, or takes the first free slot. */
  ghost predicate Entered(loaded: seq<nat>, loaded': seq<nat>, id: nat) {
    if id in loaded then loaded' == loaded
    else
      exists k :: 0 <= k < |loaded| && loaded[k] == INVALID_IMAGE_ID && loaded' == loaded[k := id]
                  && forall j :: 0 <= j < k ==> loaded[j] != INVALID_IMAGE_ID
  }

  /** The slot of the image is free. */
  ghost predicate Left(loaded: seq<nat>, loaded': seq<nat>, id: nat) {
    exists k :: 0 <= k < |loaded| && loaded[k] == id && loaded' == loaded[k := INVALID_IMAGE_ID]
                && forall j :: 0 <= j < |loaded| && j != k ==> loaded[j] != id
  }

  ghost predicate WorldSame(st: Fwu, st': Fwu) { st'.sec == st.sec && st'.world == st.world }

  lemma AddMeaning(loaded: seq<nat>, id: nat)
    ensures AddLoaded(loaded, id).Table? ==> Entered(loaded, AddLoaded(loaded, id).loaded, id)
  {
    var k, free := Find(loaded, id, 0), Find(loaded, INVALID_IMAGE_ID, 0);
    if id in loaded {
      FindsIffIn(loaded, id);
    }
  }

  lemma RemoveMeaning(p: Platform, ds: Descs, loaded: seq<nat>, id: nat)
    requires TableOk(p, ds, loaded) && id != INVALID_IMAGE_ID && id in loaded
    ensures RemoveLoaded(loaded, id).Table? && Left(loaded, RemoveLoaded(loaded, id).loaded, id)
  {
    FindsIffIn(loaded, id);
    var k := Find(loaded, id, 0);
    assert loaded[k] == id;
  }

  /** The smaller of what is asked for and what is missing. */
  predicate Part(n: nat, block: nat, missing: nat) {
    n <= block && n <= missing && (n == block || n == missing)
  }

  /** What an accepted copy does: it moves the block, as far as it is missing, behind what has been copied,
      and completes the image if nothing is missing then. */
  ghost predicate BlockMoved(p: Platform, st: Fwu, st': Fwu, call: Call, size: nat, done: nat, n: nat)
    requires call.CopyImage? && call.id in p.images
  {
    && done <= size && Part(n, call.block, size - done)
    && Moved(st.mem, st'.mem, call.src, p.images[call.id].base + done, n)
    && call.id in st'.desc
    && st'.desc[call.id] == Desc(if done + n == size then Copied else Copying, size, done + n)
  }

  lemma MovedIs(p: Platform, m: Memory, src: nat, dst: nat, n: nat)
    ensures Moved(m, WriteMem(m, dst, ReadMem(m, src, n)), src, dst, n)
  {
  }

  lemma CopyChanges(p: Platform, st: Fwu, call: Call)
    requires Inv(p, st) && call.CopyImage? && Step(p, st, call).Ret? && Step(p, st, call).code == Success
    ensures var st' := Step(p, st, call).next;
            && OthersSame(st, st', call.id) && WorldSame(st, st') && Entered(st.loaded, st'.loaded, call.id)
            && call.id in p.images && call.id in st.desc
            && if st.desc[call.id].state == Reset then exists n: nat :: BlockMoved(p, st, st', call, call.size, 0, n)
               else exists n: nat :: BlockMoved(p, st, st', call, st.desc[call.id].size, st.desc[call.id].copied, n)
  {
    var e := FwuContents.CopyEffect(p, st, call);
    EffectMeaning(p, st, Step(p, st, call).next, call, e);
    CopyTable(p, st, call);
  }

  lemma EffectMeaning(p: Platform, st: Fwu, st': Fwu, call: Call, e: Desc)
    requires call.CopyImage? && call.id in p.images && call.id in st.desc && e.copied < e.size
    requires st'.desc == st.desc[call.id := Advanced(e, Clipped(e, call.block))]
    requires st'.mem
          == WriteMem(st.mem, p.images[call.id].base + e.copied, ReadMem(st.mem, call.src, Clipped(e, call.block)))
    ensures OthersSame(st, st', call.id) && BlockMoved(p, st, st', call, e.size, e.copied, Clipped(e, call.block))
  {
    MovedIs(p, st.mem, call.src, p.images[call.id].base + e.copied, Clipped(e, call.block));
  }

  lemma CopyTable(p: Platform, st: Fwu, call: Call)
    requires Inv(p, st) && call.CopyImage? && Step(p, st, call).Ret? && Step(p, st, call).code == Success
    ensures var st' := Step(p, st, call).next;
            && WorldSame(st, st') && Entered(st.loaded, st'.loaded, call.id)
  {
    AddMeaning(st.loaded, call.id);
  }

  /** A refused copy changes no memory, no other image and no state. Only if its size was accepted is it
      recorded, and only a failing pre-load handler leaves the image in the table. */
  lemma RefusalChanges(p: Platform, st: Fwu, call: Call)
    requires Inv(p, st) && call.CopyImage? && Step(p, st, call).Ret? && Step(p, st, call).code != Success
    ensures var st' := Step(p, st, call).next;
            && OthersSame(st, st', call.id) && WorldSame(st, st') && st'.mem == st.mem
            && (call.id in st.desc ==> st'.desc[call.id].state == st.desc[call.id].state)
            && (!First(p, st, call) ==> st' == st)
            && (First(p, st, call) && !IsFree(p, st, call.id, call.size) ==>
                  st'.loaded == st.loaded && st'.desc[call.id] == st.desc[call.id].(size := 0))
            && (First(p, st, call) && IsFree(p, st, call.id, call.size) ==>
                  && st'.desc[call.id] == Desc(Reset, call.size, 0)
                  && if call.mapped && Room(st, call.id) then Entered(st.loaded, st'.loaded, call.id)
                     else st'.loaded == st.loaded)
  {
    if First(p, st, call) {
      FirstRefusal(p, st, call);
    } else if Further(p, st, call) {
      assert DescOk(p, st.desc, call.id);
    } else {
      NeitherAnswer(p, st, call);
    }
  }

  lemma FirstRefusal(p: Platform, st: Fwu, call: Call)
    requires Inv(p, st) && First(p, st, call) && Step(p, st, call).Ret? && Step(p, st, call).code != Success
    ensures var id, st' := call.id, Step(p, st, call).next;
            if IsFree(p, st, id, call.size) then
              st' == SetDesc(st, id, Desc(Reset, call.size, 0)).(loaded := st'.loaded)
              && if call.mapped && Room(st, id) then Entered(st.loaded, st'.loaded, id) else st'.loaded == st.loaded
            else st' == SetDesc(st, id, st.desc[id].(size := 0))
  {
    var id := call.id;
    AddMeaning(st.loaded, id);
    RoomIs(st, id);
    assert DescOk(p, st.desc, id);
    CheckMeaning(p, st, id, call.size);
    FirstOf(p, st, id, call.size);
    assert Sized(st, id, call.size) == SetDesc(st, id, st.desc[id].(size := call.size));
  }

  /** A sound copy request for image `id` with `size` bytes. */
  predicate Sound(p: Platform, id: nat, size: nat, call: Call) {
    && call.CopyImage? && call.id == id && call.size == size && BytesOk(p, call.src, call.block)
    && call.mapped && call.preLoad
  }

  /** The image has `missing` of its `size` bytes to come, and nothing is in its way. */
  ghost predicate Awaits(p: Platform, st: Fwu, id: nat, size: nat, missing: nat) {
    && CanCopy(p, st, id) && Room(st, id)
    && if st.desc[id].state == Reset then SizeOk(p, id, size) && IsFree(p, st, id, size) && missing == size
       else st.desc[id].size == size && missing == size - st.desc[id].copied
  }

  /** The sum of the sizes of all blocks. */
  function Total(calls: seq<Call>): nat {
    if calls == [] then 0 else (if calls[0].CopyImage? then calls[0].block else 0) + Total(calls[1..])
  }

  /** All the requests succeed, one after the other, and lead to `st'`. */
  ghost predicate AllSucceed(p: Platform, st: Fwu, calls: seq<Call>, st': Fwu)
    requires st.desc.Keys == p.images.Keys
    decreases |calls|
  {
    if calls == [] then st' == st
    else
      var r := Step(p, st, calls[0]);
      StepKeys(p, st, calls[0]);
      r.Ret? && r.code == Success && AllSucceed(p, r.next, calls[1..], st')
  }

  /** One sound block: it completes the image if it is large enough, and otherwise leaves less to come. */
  lemma OneBlock(p: Platform, st: Fwu, id: nat, size: nat, missing: nat, call: Call)
    requires Inv(p, st) && Awaits(p, st, id, size, missing) && Sound(p, id, size, call)
    ensures var r := Step(p, st, call);
            && r.Ret? && r.code == Success && Inv(p, r.next)
            && if call.block >= missing then id in r.next.desc && r.next.desc[id] == Desc(Copied, size, size)
               else Awaits(p, r.next, id, size, missing - call.block)
  {
    CopyAccepted(p, st, call);
    CopyInv(p, st, call);
    CopyChanges(p, st, call);
    assert DescOk(p, st.desc, id);
    var st' := Step(p, st, call).next;
    var done: nat := if st.desc[id].state == Reset then 0 else st.desc[id].copied;
    var n: nat :| BlockMoved(p, st, st', call, size, done, n);
    assert Active(p, st'.desc, id);
  }

  /** Any blocks that together are as large as the image, and would not be without the last one, are all
      accepted and complete it. */
  lemma {:induction false} BlocksComplete(p: Platform, st: Fwu, id: nat, size: nat, missing: nat, calls: seq<Call>)
    returns (st': Fwu)
    requires Inv(p, st) && Awaits(p, st, id, size, missing) && calls != []
    requires forall k :: 0 <= k < |calls| ==> Sound(p, id, size, calls[k])
    requires Total(calls[..|calls| - 1]) < missing <= Total(calls)
    ensures AllSucceed(p, st, calls, st') && Inv(p, st')
    ensures id in st'.desc && st'.desc[id] == Desc(Copied, size, size)
    decreases |calls|
  {
    var call, rest := calls[0], calls[1..];
    OneBlock(p, st, id, size, missing, call);
    var next := Step(p, st, call).next;
    if rest == [] {
      assert Total(calls) == call.block + Total([]);
      st' := next;
    } else {
      assert calls[..|calls| - 1][1..] == rest[..|rest| - 1];
      st' := BlocksComplete(p, next, id, size, missing - call.block, rest);
    }
  }

  /* Authentication */

  /** A secure image is authenticated for the normal world when it has been copied; otherwise an image is
      authenticated in place. */
  predicate CanAuth(p: Platform, st: Fwu, id: nat) {
    && id in p.images && id in st.desc
    && st.desc[id].state == if st.world == NonSecure && p.images[id].security == Secure then Copied else Reset
  }

  /** The arguments of an authentication in place, which do not matter for a copied image. */
  predicate PlaceOk(p: Platform, st: Fwu, call: Call) {
    && call.AuthImage? && call.id in st.desc
    && (st.desc[call.id].state != Copied ==>
          BytesOk(p, call.src, call.size) && call.mapped && Room(st, call.id))
  }

  /** The answers to an authentication request. */
  lemma AuthAnswers(p: Platform, st: Fwu, call: Call)
    requires Inv(p, st) && call.AuthImage?
    ensures var r, reached := Step(p, st, call), CanAuth(p, st, call.id) && PlaceOk(p, st, call);
            && (r.Ret? && r.code == Success <==> reached && call.verified && call.postLoad)
            && (r.Stop? <==> reached && call.verified && !call.postLoad)
            && (r.Ret? && r.code == Eauth <==> reached && !call.verified)
            && (r.Ret? && r.code == Enomem <==> CanAuth(p, st, call.id) && !PlaceOk(p, st, call))
            && (r.Ret? && r.code == Eperm <==> !CanAuth(p, st, call.id))
            && (!reached ==> r.Ret? && r.next == st)
  {
    RoomIs(st, call.id);
  }

  /** What an authentication does: on success the image is authenticated. On failure a copied image is
      wiped and back in RESET, and the image is not in the table. */
  lemma AuthChanges(p: Platform, st: Fwu, call: Call)
    requires Inv(p, st) && call.AuthImage? && Step(p, st, call).Ret? && Step(p, st, call).code in {Success, Eauth}
    ensures var r, st' := Step(p, st, call), Step(p, st, call).next;
            && OthersSame(st, st', call.id) && WorldSame(st, st') && call.id in p.images
            && call.id in st.desc && call.id in st'.desc
            && var d, d' := st.desc[call.id], st'.desc[call.id];
               && d'.copied == d.copied && d'.size == (if d.state == Copied then d.size else call.size)
               && d'.state == (if r.code == Success then Authenticated else Reset)
               && if d.state == Copied && r.code == Eauth then Wiped(st.mem, st'.mem, p.images[call.id].base, d.size)
                  else st'.mem == st.mem
  {
    AuthAnswers(p, st, call);
  }

  lemma AuthTable(p: Platform, st: Fwu, call: Call)
    requires Inv(p, st) && call.AuthImage? && Step(p, st, call).Ret? && Step(p, st, call).code in {Success, Eauth}
    ensures var r, st' := Step(p, st, call), Step(p, st, call).next;
            && call.id in st.desc
            && if r.code == Success then Entered(st.loaded, st'.loaded, call.id)
               else if st.desc[call.id].state == Copied then Left(st.loaded, st'.loaded, call.id)
               else st'.loaded == st.loaded
  {
    var id := call.id;
    AuthAnswers(p, st, call);
    assert DescOk(p, st.desc, id);
    AddMeaning(st.loaded, id);
    if st.desc[id].state == Copied {
      assert Active(p, st.desc, id);
      RemoveMeaning(p, st.desc, st.loaded, id);
    } else {
      NotLoaded(p, st.desc, st.loaded, id);
      AddThenRemove(st.loaded, id);
    }
  }

  /* Running */

  /** Starting an image succeeds just when the normal world asks for an authenticated secure executable
      one, and switches to it. Otherwise it is refused, and changes nothing. */
  lemma ExecuteAnswers(p: Platform, st: Fwu, id: nat)
    requires Inv(p, st)
    ensures var r := Step(p, st, ExecuteImage(id));
            && r.Ret?
            && if && id in p.images && st.world == NonSecure && p.images[id].security == Secure
                  && p.images[id].executable && st.desc[id].state == Authenticated
               then
                 && r.code == Success && OthersSame(st, r.next, id) && r.next.mem == st.mem
                 && r.next.loaded == st.loaded && r.next.sec == id && r.next.world == Secure
                 && r.next.desc[id] == Desc(Executed, st.desc[id].size, st.desc[id].copied)
               else r.code == Eperm && r.next == st
  {
  }

  /** Resuming switches the world. For the secure world it always succeeds. For the normal world it is
      refused if no secure image was started, and stops the machine if that image is not interrupted. */
  lemma ResumeAnswers(p: Platform, st: Fwu)
    requires Inv(p, st)
    ensures var r, sec := Step(p, st, ResumeImage), st.sec;
            && (st.world == NonSecure && sec !in p.images ==> r == Ret(st, Eperm))
            && (st.world == NonSecure && sec in p.images ==>
                  if st.desc[sec].state != Interrupted then r.Stop?
                  else
                    && r.Ret? && r.code == Success && OthersSame(st, r.next, sec) && r.next.mem == st.mem
                    && r.next.loaded == st.loaded && r.next.sec == sec && r.next.world == Secure
                    && r.next.desc[sec] == Desc(Executed, st.desc[sec].size, st.desc[sec].copied))
            && (st.world == Secure ==>
                  && sec in p.images && r.Ret? && r.code == Success && OthersSame(st, r.next, sec)
                  && r.next.mem == st.mem && r.next.loaded == st.loaded && r.next.sec == sec
                  && r.next.world == NonSecure
                  && r.next.desc[sec] == Desc(Interrupted, st.desc[sec].size, st.desc[sec].copied))
  {
  }

  /** The end of a secure image: the normal world is refused. For the secure world the image goes back to
      RESET and out of the table, no image is started any more, and the normal world goes on. */
  lemma DoneAnswers(p: Platform, st: Fwu)
    requires Inv(p, st)
    ensures var r := Step(p, st, SecImageDone);
            && r.Ret?
            && if st.world == NonSecure then r == Ret(st, Eperm)
               else
                 && st.sec in p.images && r.code == Success && OthersSame(st, r.next, st.sec) && r.next.mem == st.mem
                 && Left(st.loaded, r.next.loaded, st.sec) && r.next.sec !in p.images && r.next.world == NonSecure
                 && r.next.desc[st.sec] == Desc(Reset, st.desc[st.sec].size, st.desc[st.sec].copied)
  {
    if st.world == Secure {
      assert Active(p, st.desc, st.sec);
      RemoveMeaning(p, st.desc, st.loaded, st.sec);
    }
  }

  /** After the end of a secure image the normal world cannot resume it. */
  lemma NotResumed(p: Platform, st: Fwu)
    requires Inv(p, st) && st.world == Secure
    ensures var r := Step(p, st, SecImageDone);
            r.Ret? && Inv(p, r.next) && Step(p, r.next, ResumeImage) == Ret(r.next, Eperm)
  {
    DoneAnswers(p, st);
    DoneInv(p, st);
    ResumeAnswers(p, Step(p, st, SecImageDone).next);
  }

  /* Resetting */

  /** A reset succeeds just when the normal world asks for an image that is not executing. It wipes what has
      been copied and takes the image out of the table, unless it is in RESET already. */
  lemma ResetAnswers(p: Platform, st: Fwu, id: nat)
    requires Inv(p, st)
    ensures var r := Step(p, st, ResetImage(id));
            if !(id in p.images && st.world == NonSecure) then r == Ret(st, Eperm)
            else if st.desc[id].state == Executed then r.Stop?
            else if st.desc[id].state == Reset then r == Ret(st, Success)
            else
              && r.Ret? && r.code == Success && OthersSame(st, r.next, id) && WorldSame(st, r.next)
              && r.next.desc[id] == Desc(Reset, 0, 0) && Left(st.loaded, r.next.loaded, id)
              && Wiped(st.mem, r.next.mem, p.images[id].base, st.desc[id].copied)
  {
    if id in p.images && st.world == NonSecure && st.desc[id].state != Reset && st.desc[id].state != Executed {
      assert DescOk(p, st.desc, id);
      assert Active(p, st.desc, id);
      RemoveMeaning(p, st.desc, st.loaded, id);
    }
  }
}
