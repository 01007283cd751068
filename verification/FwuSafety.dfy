/** What every run of the firmware update protocol keeps. */
module FwuSafety {
  import opened ImageIds
  import opened FwuModel

  type Descs = map<nat, Desc>

  /* The invariant */

  /** INVALID_IMAGE_ID names no image, and no secure image reaches beyond the last address. */
  ghost predicate PlatformOk(p: Platform) {
    && INVALID_IMAGE_ID !in p.images
    && forall id :: IsSecure(p, id) ==> p.images[id].base + p.images[id].maxSize <= p.top + 1
  }

  predicate IsSecure(p: Platform, id: nat) {
    id in p.images && p.images[id].security == Secure
  }

  /** The image takes part in the update: it is neither in RESET nor the normal-world image that was
      started at boot, which is executing without having been loaded. */
  predicate Active(p: Platform, ds: Descs, id: nat) {
    id in p.images && id in ds && ds[id].state != Reset
    && !(p.images[id].security == NonSecure && ds[id].state == Executed)
  }

  /** The states an image can be in, and the sizes that go with them. */
  predicate DescOk(p: Platform, ds: Descs, id: nat)
    requires id in p.images
  {
    && id in ds
    && var d := ds[id];
       if p.images[id].security == NonSecure then d.state in {Reset, Authenticated, Executed} && d.copied == 0
       else
         match d.state
         case Reset => true
         case Copying => 0 < d.copied < d.size <= p.images[id].maxSize
         case Copied => 0 < d.copied == d.size <= p.images[id].maxSize
         case Authenticated => 0 < d.copied == d.size <= p.images[id].maxSize
         case Executed => 0 < d.copied == d.size <= p.images[id].maxSize && p.images[id].executable
         case Interrupted => 0 < d.copied == d.size <= p.images[id].maxSize && p.images[id].executable
  }

  ghost predicate DescsOk(p: Platform, ds: Descs) {
    ds.Keys == p.images.Keys && forall id {:trigger DescOk(p, ds, id)} :: id in p.images ==> DescOk(p, ds, id)
  }

  /** Every active image fills exactly one slot and every filled slot names an active image. */
  ghost predicate TableOk(p: Platform, ds: Descs, loaded: seq<nat>) {
    && |loaded| == p.slots
    && (forall i :: 0 <= i < |loaded| && loaded[i] != INVALID_IMAGE_ID ==> Active(p, ds, loaded[i]))
    && (forall i, j :: 0 <= i < j < |loaded| && loaded[i] == loaded[j] ==> loaded[i] == INVALID_IMAGE_ID)
    && (forall id {:trigger Active(p, ds, id)} :: Active(p, ds, id) ==> id in loaded)
  }

  /** The ranges of two images have no address in common. */
  predicate Apart(p: Platform, ds: Descs, a: nat, b: nat)
    requires a in p.images && b in p.images && a in ds && b in ds
  {
    || p.images[a].base + ds[a].size <= p.images[b].base
    || p.images[b].base + ds[b].size <= p.images[a].base
  }

  predicate Rivals(p: Platform, ds: Descs, a: nat, b: nat) {
    a != b && IsSecure(p, a) && IsSecure(p, b) && Active(p, ds, a) && Active(p, ds, b)
  }

  /** The active secure images occupy pairwise disjoint ranges. */
  ghost predicate Disjoint(p: Platform, ds: Descs) {
    forall a, b {:trigger Rivals(p, ds, a, b)} :: Rivals(p, ds, a, b) ==> Apart(p, ds, a, b)
  }

  /** The secure world runs just when the last executed secure image is EXECUTED, and no other secure
      image is EXECUTED. */
  ghost predicate WorldOk(p: Platform, ds: Descs, sec: nat, world: World)
    requires ds.Keys == p.images.Keys
  {
    && (sec in p.images ==> p.images[sec].security == Secure && p.images[sec].executable)
    && (world == Secure <==> sec in p.images && ds[sec].state == Executed)
    && (forall id {:trigger IsSecure(p, id)} :: IsSecure(p, id) && ds[id].state == Executed ==> id == sec)
  }

  ghost predicate Inv(p: Platform, st: Fwu) {
    && PlatformOk(p)
    && DescsOk(p, st.desc)
    && TableOk(p, st.desc, st.loaded)
    && Disjoint(p, st.desc)
    && WorldOk(p, st.desc, st.sec, st.world)
  }

  /** Boot: nothing is loaded, and at most normal-world images are running. */
  ghost predicate Initial(p: Platform, st: Fwu) {
    && PlatformOk(p)
    && st.desc.Keys == p.images.Keys
    && (forall id :: id in p.images ==>
          if p.images[id].security == Secure then st.desc[id].state == Reset
          else st.desc[id].state in {Reset, Executed} && st.desc[id].copied == 0)
    && |st.loaded| == p.slots
    && (forall i :: 0 <= i < |st.loaded| ==> st.loaded[i] == INVALID_IMAGE_ID)
    && st.sec == INVALID_IMAGE_ID && st.world == NonSecure
  }

  lemma InitialInv(p: Platform, st: Fwu)
    requires Initial(p, st)
    ensures Inv(p, st)
  {
  }

  /* The table */

  lemma TableAdd(p: Platform, ds: Descs, loaded: seq<nat>, id: nat, d: Desc, loaded': seq<nat>)
    requires TableOk(p, ds, loaded) && INVALID_IMAGE_ID !in p.images
    requires AddLoaded(loaded, id) == Table(loaded') && Active(p, ds[id := d], id)
    ensures TableOk(p, ds[id := d], loaded')
  {
    var k := Find(loaded, id, 0);
    var free := Find(loaded, INVALID_IMAGE_ID, 0);
    assert if k < |loaded| then loaded' == loaded && loaded'[k] == id
           else loaded' == loaded[free := id] && loaded'[free] == id;
    forall x | Active(p, ds[id := d], x) && x != id
      ensures x in loaded'
    {
      assert Active(p, ds, x);
      var i :| 0 <= i < |loaded| && loaded[i] == x;
      assert loaded'[i] == x;
    }
  }

  lemma TableRemove(p: Platform, ds: Descs, loaded: seq<nat>, id: nat, d: Desc)
    requires TableOk(p, ds, loaded) && INVALID_IMAGE_ID !in p.images
    requires Active(p, ds, id) && !Active(p, ds[id := d], id)
    ensures RemoveLoaded(loaded, id).Table?
    ensures TableOk(p, ds[id := d], RemoveLoaded(loaded, id).loaded)
  {
    var k := Find(loaded, id, 0);
    assert id in loaded;
    var loaded' := loaded[k := INVALID_IMAGE_ID];
    forall x | Active(p, ds[id := d], x)
      ensures x in loaded'
    {
      assert Active(p, ds, x);
      var i :| 0 <= i < |loaded| && loaded[i] == x;
      assert loaded'[i] == x;
    }
  }

  lemma TableSame(p: Platform, ds: Descs, loaded: seq<nat>, id: nat, d: Desc)
    requires TableOk(p, ds, loaded) && id in ds
    requires Active(p, ds, id) <==> Active(p, ds[id := d], id)
    ensures TableOk(p, ds[id := d], loaded)
  {
    forall x | Active(p, ds[id := d], x)
      ensures x in loaded
    {
      assert Active(p, ds, x);
    }
  }

  /** Removing an image that was not in the table before it was added restores the table. */
  lemma AddThenRemove(loaded: seq<nat>, id: nat)
    requires id !in loaded && id != INVALID_IMAGE_ID && AddLoaded(loaded, id).Table?
    ensures RemoveLoaded(AddLoaded(loaded, id).loaded, id) == Table(loaded)
  {
    var k := Find(loaded, INVALID_IMAGE_ID, 0);
    var loaded' := loaded[k := id];
    assert loaded'[k] == id && Find(loaded', id, 0) == k;
    assert loaded'[k := INVALID_IMAGE_ID] == loaded;
  }

  lemma NotLoaded(p: Platform, ds: Descs, loaded: seq<nat>, id: nat)
    requires TableOk(p, ds, loaded) && id != INVALID_IMAGE_ID && !Active(p, ds, id)
    ensures id !in loaded
  {
  }

  /* Overlaps */

  /** The image passes the overlap check against `other`. */
  predicate NoOverlap(p: Platform, ds: Descs, id: nat, other: nat)
    requires id in p.images && other in p.images && id in ds && other in ds
    requires ds[id].size > 0 && ds[other].size > 0
  {
    || LastAddr(p, p.images[other].base, ds[other].size) < p.images[id].base
    || LastAddr(p, p.images[id].base, ds[id].size) < p.images[other].base
  }

  lemma {:induction false} ClearMeansApart(p: Platform, st: Fwu, id: nat, i: nat)
    requires st.desc.Keys == p.images.Keys && id in p.images && st.desc[id].size > 0 && i <= |st.loaded|
    requires Overlaps(p, st, id, i) == Clear
    ensures forall j :: i <= j < |st.loaded| && st.loaded[j] in p.images && st.loaded[j] != id
                        && st.loaded[j] != INVALID_IMAGE_ID && st.desc[st.loaded[j]].size > 0
                        ==> NoOverlap(p, st.desc, id, st.loaded[j])
    decreases |st.loaded| - i
  {
    if i < |st.loaded| {
      ClearMeansApart(p, st, id, i + 1);
    }
  }

  /** The last address of a range that does not wrap. */
  lemma LastAddrIs(p: Platform, base: nat, size: nat)
    requires size > 0
    ensures base + size <= p.top + 1 ==> LastAddr(p, base, size) == base + size - 1
  {
  }

  /** An accepted first copy finds the image apart from every active secure image. */
  lemma ClearIsApart(p: Platform, st: Fwu, id: nat, size: nat, b: nat)
    requires Inv(p, st) && IsSecure(p, id) && st.desc[id].state == Reset && 0 < size <= p.images[id].maxSize
    requires Overlaps(p, SetDesc(st, id, st.desc[id].(size := size)), id, 0) == Clear
    requires IsSecure(p, b) && Active(p, st.desc, b)
    ensures p.images[id].base + size <= p.images[b].base || p.images[b].base + st.desc[b].size <= p.images[id].base
  {
    var sized := SetDesc(st, id, st.desc[id].(size := size));
    ClearMeansApart(p, sized, id, 0);
    assert DescOk(p, st.desc, b);
    var j :| 0 <= j < |st.loaded| && st.loaded[j] == b;
    assert sized.loaded[j] == b;
    assert NoOverlap(p, sized.desc, id, b);
    LastAddrIs(p, p.images[b].base, st.desc[b].size);
    LastAddrIs(p, p.images[id].base, size);
  }

  lemma ClearKeepsDisjoint(p: Platform, st: Fwu, id: nat, size: nat, d: Desc)
    requires Inv(p, st) && IsSecure(p, id) && st.desc[id].state == Reset && 0 < size <= p.images[id].maxSize
    requires Overlaps(p, SetDesc(st, id, st.desc[id].(size := size)), id, 0) == Clear
    requires d.size == size
    ensures Disjoint(p, st.desc[id := d])
  {
    var ds := st.desc[id := d];
    forall a, b {:trigger Rivals(p, ds, a, b)} | Rivals(p, ds, a, b)
      ensures Apart(p, ds, a, b)
    {
      if a == id {
        ClearIsApart(p, st, id, size, b);
      } else if b == id {
        ClearIsApart(p, st, id, size, a);
      } else {
        assert Rivals(p, st.desc, a, b);
      }
    }
  }

  lemma DisjointShrinks(p: Platform, ds: Descs, id: nat, d: Desc)
    requires Disjoint(p, ds) && id in ds
    requires !Active(p, ds[id := d], id) || (Active(p, ds, id) && d.size <= ds[id].size) || !IsSecure(p, id)
    ensures Disjoint(p, ds[id := d])
  {
    var ds' := ds[id := d];
    forall a, b {:trigger Rivals(p, ds', a, b)} | Rivals(p, ds', a, b)
      ensures Apart(p, ds', a, b)
    {
      assert Rivals(p, ds, a, b);
    }
  }

  lemma DescsSet(p: Platform, ds: Descs, id: nat, d: Desc)
    requires DescsOk(p, ds) && id in p.images && DescOk(p, ds[id := d], id)
    ensures DescsOk(p, ds[id := d])
  {
    forall x | x in p.images && x != id
      ensures DescOk(p, ds[id := d], x)
    {
      assert DescOk(p, ds, x);
    }
  }

  /* Steps */

  /** A secure image between its first copied block and its start. */
  predicate Guarded(p: Platform, ds: Descs, id: nat) {
    IsSecure(p, id) && id in ds && ds[id].state in {Copying, Copied, Authenticated}
  }

  /** The address lies in the range of image `id`. */
  predicate Within(p: Platform, ds: Descs, id: nat, addr: nat)
    requires id in p.images && id in ds
  {
    p.images[id].base <= addr < p.images[id].base + ds[id].size
  }

  /** The state in which the overlap check of a first copy runs. */
  function Sized(st: Fwu, id: nat, size: nat): Fwu
    requires id in st.desc
  {
    SetDesc(st, id, st.desc[id].(size := size))
  }

  /** The copy request is the first one for its image and passes the checks of its parameters. */
  predicate FirstCopy(p: Platform, st: Fwu, call: Call) {
    && call.CopyImage? && st.world == NonSecure && IsSecure(p, call.id)
    && call.id in st.desc && st.desc[call.id].state == Reset
    && call.src != 0 && call.block != 0 && !PtrOverflow(p, call.src, call.block - 1)
    && 0 < call.size <= p.images[call.id].maxSize
  }

  /** The copy request ends in a failure of the pre-load handler. */
  predicate FailsPreLoad(p: Platform, st: Fwu, call: Call)
    requires st.desc.Keys == p.images.Keys
  {
    && FirstCopy(p, st, call) && call.mapped && !call.preLoad
    && Overlaps(p, Sized(st, call.id, call.size), call.id, 0) == Clear
    && AddLoaded(st.loaded, call.id).Table?
  }

  /** Authentication of a secure image is requested by the normal world only, no pre-load handler
      fails, and nobody writes over a secure image that has been loaded and not yet started. */
  ghost predicate Allowed(p: Platform, st: Fwu, call: Call)
    requires st.desc.Keys == p.images.Keys
  {
    match call
    case AuthImage(id, _, _, _, _, _) => st.world == NonSecure || !IsSecure(p, id)
    case CopyImage(_, _, _, _, _, _) => !FailsPreLoad(p, st, call)
    case Poke(addr, _) => forall id :: Guarded(p, st.desc, id) ==> !Within(p, st.desc, id, addr)
    case _ => true
  }

  lemma CopyBlockInv(p: Platform, st: Fwu, id: nat, d: Desc, src: nat, block: nat, mapped: bool)
    requires Inv(p, st) && IsSecure(p, id) && st.world == NonSecure
    requires st.desc[id].state in {Reset, Copying} && d.state == st.desc[id].state
    requires d.copied < d.size <= p.images[id].maxSize && block > 0
    requires if d.state == Reset then d.copied == 0 else d == st.desc[id]
    requires Disjoint(p, st.desc[id := d]) && Disjoint(p, st.desc[id := Advanced(d, Clipped(d, block))])
    ensures var r := CopyBlock(p, SetDesc(st, id, d), id, src, block, mapped, true); r.Ret? && Inv(p, r.next)
  {
    var e := Advanced(d, Clipped(d, block));
    assert DescOk(p, st.desc, id);
    if mapped && AddLoaded(st.loaded, id).Table? {
      TableAdd(p, st.desc, st.loaded, id, e, AddLoaded(st.loaded, id).loaded);
      DescsSet(p, st.desc, id, e);
      assert st.desc[id := d][id := e] == st.desc[id := e];
    } else {
      TableSame(p, st.desc, st.loaded, id, d);
      DescsSet(p, st.desc, id, d);
    }
  }

  /** A copy request with a pre-load handler that would succeed. */
  lemma LoadedInv(p: Platform, st: Fwu, call: Call)
    requires Inv(p, st) && call.CopyImage? && call.preLoad
    ensures var r := Step(p, st, call); r.Ret? ==> Inv(p, r.next)
  {
    var id, size := call.id, call.size;
    if IsSecure(p, id) && st.world == NonSecure && st.desc[id].state in {Reset, Copying} && call.block > 0 {
      var d := st.desc[id];
      assert DescOk(p, st.desc, id);
      if d.state == Copying {
        assert st.desc[id := d] == st.desc;
        DisjointShrinks(p, st.desc, id, Advanced(d, Clipped(d, call.block)));
        CopyBlockInv(p, st, id, d, call.src, call.block, call.mapped);
      } else if 0 < size <= p.images[id].maxSize {
        FirstCopyInv(p, st, call);
      }
    }
  }

  lemma FirstCopyInv(p: Platform, st: Fwu, call: Call)
    requires Inv(p, st) && call.CopyImage? && call.preLoad
    requires IsSecure(p, call.id) && st.world == NonSecure && st.desc[call.id].state == Reset
    requires call.block > 0 && 0 < call.size <= p.images[call.id].maxSize
    ensures var r := Step(p, st, call); r.Ret? ==> Inv(p, r.next)
  {
    var id, size := call.id, call.size;
    var d := st.desc[id];
    match Overlaps(p, SetDesc(st, id, d.(size := size)), id, 0)
    case CheckFailed =>
    case Overlap =>
      TableSame(p, st.desc, st.loaded, id, d.(size := 0));
      DisjointShrinks(p, st.desc, id, d.(size := 0));
      DescsSet(p, st.desc, id, d.(size := 0));
    case Clear =>
      var e := d.(size := size, copied := 0);
      ClearKeepsDisjoint(p, st, id, size, e);
      ClearKeepsDisjoint(p, st, id, size, Advanced(e, Clipped(e, call.block)));
      CopyBlockInv(p, st, id, e, call.src, call.block, call.mapped);
  }

  /** The pre-load handler matters only where it can fail. */
  lemma PreLoadMatters(p: Platform, st: Fwu, call: Call)
    requires DescsOk(p, st.desc) && call.CopyImage? && !FailsPreLoad(p, st, call)
    ensures Step(p, st, call) == Step(p, st, call.(preLoad := true))
  {
    if call.id in p.images {
      assert DescOk(p, st.desc, call.id);
      assert SetDesc(st, call.id, st.desc[call.id].(size := call.size)) == Sized(st, call.id, call.size);
    }
  }

  lemma CopyInv(p: Platform, st: Fwu, call: Call)
    requires Inv(p, st) && call.CopyImage? && Allowed(p, st, call)
    ensures var r := Step(p, st, call); r.Ret? ==> Inv(p, r.next)
  {
    PreLoadMatters(p, st, call);
    LoadedInv(p, st, call.(preLoad := true));
  }

  lemma AuthSecureInv(p: Platform, st: Fwu, call: Call)
    requires Inv(p, st) && call.AuthImage? && st.world == NonSecure && IsSecure(p, call.id)
    ensures var r := Step(p, st, call); r.Ret? ==> Inv(p, r.next)
  {
    var id := call.id;
    var d := st.desc[id];
    assert DescOk(p, st.desc, id);
    if d.state == Copied {
      TableRemove(p, st.desc, st.loaded, id, d.(state := Reset));
      DisjointShrinks(p, st.desc, id, d.(state := Reset));
      DescsSet(p, st.desc, id, d.(state := Reset));
      TableSame(p, st.desc, st.loaded, id, d.(state := Authenticated));
      DisjointShrinks(p, st.desc, id, d.(state := Authenticated));
      DescsSet(p, st.desc, id, d.(state := Authenticated));
    }
  }

  lemma AuthNormalInv(p: Platform, st: Fwu, call: Call)
    requires Inv(p, st) && call.AuthImage? && call.id in p.images && !IsSecure(p, call.id)
    ensures var r := Step(p, st, call); r.Ret? ==> Inv(p, r.next)
  {
    var id := call.id;
    var d := st.desc[id];
    assert DescOk(p, st.desc, id);
    if d.state == Reset && AddLoaded(st.loaded, id).Table? {
      var loaded := AddLoaded(st.loaded, id).loaded;
      var sized := d.(size := call.size);
      var e := sized.(state := Authenticated);
      if call.verified {
        TableAdd(p, st.desc, st.loaded, id, e, loaded);
        DisjointShrinks(p, st.desc, id, e);
        DescsSet(p, st.desc, id, e);
        assert st.desc[id := sized][id := e] == st.desc[id := e];
      } else {
        NotLoaded(p, st.desc, st.loaded, id);
        AddThenRemove(st.loaded, id);
        TableSame(p, st.desc, st.loaded, id, sized);
        DisjointShrinks(p, st.desc, id, sized);
        DescsSet(p, st.desc, id, sized);
      }
    }
  }

  lemma SwitchInv(p: Platform, st: Fwu, call: Call)
    requires Inv(p, st) && (call.ExecuteImage? || call.ResumeImage?)
    ensures var r := Step(p, st, call); r.Ret? ==> Inv(p, r.next)
  {
    var id := if call.ExecuteImage? then call.id else st.sec;
    var r := Step(p, st, call);
    if r.Ret? && r.code == Success {
      assert DescOk(p, st.desc, id);
      var e := r.next.desc[id];
      TableSame(p, st.desc, st.loaded, id, e);
      DisjointShrinks(p, st.desc, id, e);
      DescsSet(p, st.desc, id, e);
      assert r.next.desc == st.desc[id := e];
    }
  }

  lemma DoneInv(p: Platform, st: Fwu)
    requires Inv(p, st)
    ensures var r := Done(p, st); r.Ret? ==> Inv(p, r.next)
  {
    var r := Done(p, st);
    if r.Ret? && r.code == Success {
      var e := st.desc[st.sec].(state := Reset);
      assert DescOk(p, st.desc, st.sec);
      TableRemove(p, st.desc, st.loaded, st.sec, e);
      DisjointShrinks(p, st.desc, st.sec, e);
      DescsSet(p, st.desc, st.sec, e);
    }
  }

  lemma ResetInv(p: Platform, st: Fwu, id: nat)
    requires Inv(p, st)
    ensures var r := ResetTo(p, st, id); r.Ret? ==> Inv(p, r.next)
  {
    if id in p.images && st.world == NonSecure && st.desc[id].state != Reset && st.desc[id].state != Executed {
      assert DescOk(p, st.desc, id);
      TableRemove(p, st.desc, st.loaded, id, Desc(Reset, 0, 0));
      DisjointShrinks(p, st.desc, id, Desc(Reset, 0, 0));
      DescsSet(p, st.desc, id, Desc(Reset, 0, 0));
    }
  }

  /** Every allowed request that does not stop the machine keeps the invariant. */
  lemma StepInv(p: Platform, st: Fwu, call: Call)
    requires Inv(p, st) && Allowed(p, st, call)
    ensures var r := Step(p, st, call); r.Ret? ==> Inv(p, r.next)
  {
    match call
    case CopyImage(_, _, _, _, _, _) => CopyInv(p, st, call);
    case AuthImage(id, _, _, _, _, _) =>
      if IsSecure(p, id) {
        AuthSecureInv(p, st, call);
      } else if id in p.images {
        AuthNormalInv(p, st, call);
      }
    case ExecuteImage(_) => SwitchInv(p, st, call);
    case ResumeImage => SwitchInv(p, st, call);
    case SecImageDone => DoneInv(p, st);
    case ResetImage(id) => ResetInv(p, st, id);
    case UpdateDone =>
    case Poke(_, _) =>
  }
}
