/** The firmware update protocol of the first boot stage: what each request does to the image
    descriptors, the table of loaded images, memory and the running world. A failed assertion or a
    panic stops the machine. */
module FwuModel {
  import opened ImageIds
  import Bitwise

  type Byte = Bitwise.Byte

  /** Bytes that were never written read as zero. */
  datatype Memory = Memory(bytes: map<nat, Byte>)

  datatype ImageState = Reset | Copied | Copying | Authenticated | Executed | Interrupted

  datatype World = Secure | NonSecure

  /** What the platform fixes for an image. */
  datatype Image = Image(base: nat, maxSize: nat, security: World, executable: bool)

  /** The platform: its images, the size of the table of loaded images, and the largest address. */
  datatype Platform = Platform(images: map<nat, Image>, slots: nat, top: nat)

  datatype Desc = Desc(state: ImageState, size: nat, copied: nat)

  datatype Fwu = Fwu(desc: map<nat, Desc>, loaded: seq<nat>, sec: nat, world: World, mem: Memory)

  /** `mapped`, `preLoad`, `verified` and `postLoad` are the answers of the platform and of the
      authentication module. `Poke` is a write to memory by anyone but the monitor. */
  datatype Call =
    | CopyImage(id: nat, src: nat, block: nat, size: nat, mapped: bool, preLoad: bool)
    | AuthImage(id: nat, src: nat, size: nat, mapped: bool, verified: bool, postLoad: bool)
    | ExecuteImage(id: nat)
    | ResumeImage
    | SecImageDone
    | ResetImage(id: nat)
    | UpdateDone
    | Poke(addr: nat, val: Byte)

  datatype Code = Success | Eperm | Enomem | Eauth

  datatype Outcome = Ret(next: Fwu, code: Code) | Stop

  /* Memory */

  function Peek(m: Memory, a: nat): Byte { if a in m.bytes then m.bytes[a] else 0 }

  function ReadMem(m: Memory, a: nat, n: nat): (s: seq<Byte>)
    ensures |s| == n && forall k :: 0 <= k < n ==> s[k] == Peek(m, a + k)
  {
    seq<Byte>(n, k requires 0 <= k < n => Peek(m, a + k))
  }

  function WriteMem(m: Memory, a: nat, data: seq<Byte>): (m': Memory)
    ensures forall k: nat {:trigger Peek(m', k)} ::
              Peek(m', k) == if a <= k < a + |data| then data[k - a] else Peek(m, k)
  {
    if data == [] then m
    else
      var n := |data| - 1;
      var rest := WriteMem(m, a, data[..n]);
      var all := Memory(rest.bytes[a + n := data[n]]);
      assert forall k: nat {:trigger Peek(all, k)} :: Peek(all, k) == if k == a + n then data[n] else Peek(rest, k);
      all
  }

  function Zeros(n: nat): (s: seq<Byte>)
    ensures |s| == n && forall k :: 0 <= k < n ==> s[k] == 0
  {
    seq<Byte>(n, _ => 0)
  }

  /* The table of loaded images */

  /** The first position of `x` from position `i` on. */
  function Find(loaded: seq<nat>, x: nat, i: nat): (k: nat)
    requires i <= |loaded|
    ensures i <= k <= |loaded|
    ensures k < |loaded| ==> loaded[k] == x
    ensures forall j :: i <= j < k ==> loaded[j] != x
    decreases |loaded| - i
  {
    if i == |loaded| || loaded[i] == x then i else Find(loaded, x, i + 1)
  }

  datatype Table = Full | Table(loaded: seq<nat>)

  function AddLoaded(loaded: seq<nat>, id: nat): Table {
    if Find(loaded, id, 0) < |loaded| then Table(loaded)
    else
      var k := Find(loaded, INVALID_IMAGE_ID, 0);
      if k < |loaded| then Table(loaded[k := id]) else Full
  }

  function RemoveLoaded(loaded: seq<nat>, id: nat): Table {
    var k := Find(loaded, id, 0);
    if k < |loaded| then Table(loaded[k := INVALID_IMAGE_ID]) else Full
  }

  /* Overlaps */

  datatype Check = Clear | Overlap | CheckFailed

  /** The last address of an image; addresses wrap around. */
  function LastAddr(p: Platform, base: nat, size: nat): nat
    requires size > 0
  {
    (base + size - 1) % (p.top + 1)
  }

  /** The comparison of an image with the loaded images from position `i` on. */
  function Overlaps(p: Platform, st: Fwu, id: nat, i: nat): Check
    requires id in p.images && id in st.desc && st.desc[id].size > 0 && i <= |st.loaded|
    decreases |st.loaded| - i
  {
    if i == |st.loaded| then Clear
    else
      var other := st.loaded[i];
      if other == INVALID_IMAGE_ID || other == id then Overlaps(p, st, id, i + 1)
      else if other !in p.images || other !in st.desc || st.desc[other].state == Reset then CheckFailed
      else if st.desc[other].size == 0 then Overlaps(p, st, id, i + 1)
      else
        var base, end := p.images[other].base, LastAddr(p, p.images[other].base, st.desc[other].size);
        var checkedBase := p.images[id].base;
        var checkedEnd := LastAddr(p, checkedBase, st.desc[id].size);
        if end <= base then CheckFailed
        else if !(end < checkedBase || checkedEnd < base) then Overlap
        else Overlaps(p, st, id, i + 1)
  }

  /* Requests */

  predicate PtrOverflow(p: Platform, addr: nat, inc: nat) { addr > p.top - inc }

  function SetDesc(st: Fwu, id: nat, d: Desc): Fwu { st.(desc := st.desc[id := d]) }

  /** The number of bytes a copy request moves: a block that is too big is clipped. */
  function Clipped(d: Desc, block: nat): nat
    requires d.copied <= d.size
  {
    if block > d.size - d.copied then d.size - d.copied else block
  }

  /** The descriptor after `len` more bytes. */
  function Advanced(d: Desc, len: nat): Desc
    requires d.copied + len <= d.size
  {
    Desc(if len == d.size - d.copied then Copied else Copying, d.size, d.copied + len)
  }

  /** The part of a copy request that moves data, once the descriptor holds the size of the image. */
  function CopyBlock(p: Platform, st: Fwu, id: nat, src: nat, block: nat, mapped: bool, preLoad: bool): Outcome
    requires id in p.images && id in st.desc && st.desc[id].copied <= st.desc[id].size
  {
    var d := st.desc[id];
    var len := Clipped(d, block);
    if !mapped then Ret(st, Enomem)
    else
      match AddLoaded(st.loaded, id)
      case Full => Ret(st, Enomem)
      case Table(loaded) =>
        if d.state == Reset && !preLoad then Ret(st.(loaded := loaded), Eperm)
        else
          Ret(st.(loaded := loaded,
                  mem := WriteMem(st.mem, p.images[id].base + d.copied, ReadMem(st.mem, src, len)),
                  desc := st.desc[id := Advanced(d, len)]),
              Success)
  }

  function Copy(p: Platform, st: Fwu, id: nat, src: nat, block: nat, size: nat, mapped: bool, preLoad: bool): Outcome
    requires st.desc.Keys == p.images.Keys
  {
    if id !in p.images || st.world == Secure || p.images[id].security == NonSecure then Ret(st, Eperm)
    else
      var d := st.desc[id];
      if d.state != Reset && d.state != Copying then Ret(st, Eperm)
      else if src == 0 || block == 0 || PtrOverflow(p, src, block - 1) then Ret(st, Enomem)
      else if d.state == Copying then
        if d.copied == 0 || d.size == 0 || d.copied >= d.size then Stop
        else CopyBlock(p, st, id, src, block, mapped, preLoad)
      else if size == 0 || size > p.images[id].maxSize then Ret(st, Enomem)
      else
        var sized := SetDesc(st, id, d.(size := size));
        match Overlaps(p, sized, id, 0)
        case CheckFailed => Stop
        case Overlap => Ret(SetDesc(st, id, d.(size := 0)), Eperm)
        case Clear => CopyBlock(p, SetDesc(st, id, d.(size := size, copied := 0)), id, src, block, mapped, preLoad)
  }

  /** The end of an authentication request: the bytes at `addr` have been looked at. */
  function Authenticated'(p: Platform, st: Fwu, id: nat, addr: nat, verified: bool, postLoad: bool): Outcome
    requires id in st.desc
  {
    var d := st.desc[id];
    if !verified then
      var cleared :=
        if d.state == Copied then SetDesc(st.(mem := WriteMem(st.mem, addr, Zeros(d.size))), id, d.(state := Reset))
        else st;
      match RemoveLoaded(cleared.loaded, id)
      case Table(loaded) => Ret(cleared.(loaded := loaded), Eauth)
      case Full => Ret(cleared, Eauth)
    else if !postLoad then Stop
    else Ret(SetDesc(st, id, d.(state := Authenticated)), Success)
  }

  function Auth(p: Platform, st: Fwu, id: nat, src: nat, size: nat, mapped: bool, verified: bool,
          postLoad: bool): Outcome
    requires st.desc.Keys == p.images.Keys
  {
    if id !in p.images then Ret(st, Eperm)
    else
      var d := st.desc[id];
      var needed := if st.world == NonSecure && p.images[id].security == Secure then Copied else Reset;
      if d.state != needed then Ret(st, Eperm)
      else if d.state == Copied then Authenticated'(p, st, id, p.images[id].base, verified, postLoad)
      else if src == 0 || size == 0 || PtrOverflow(p, src, size - 1) || !mapped then Ret(st, Enomem)
      else
        match AddLoaded(st.loaded, id)
        case Full => Ret(st, Enomem)
        case Table(loaded) =>
          Authenticated'(p, SetDesc(st.(loaded := loaded), id, d.(size := size)), id, src, verified, postLoad)
  }

  function Execute(p: Platform, st: Fwu, id: nat): Outcome
    requires st.desc.Keys == p.images.Keys
  {
    if || id !in p.images || st.world == Secure || p.images[id].security == NonSecure
       || !p.images[id].executable || st.desc[id].state != Authenticated
    then Ret(st, Eperm)
    else Ret(SetDesc(st, id, st.desc[id].(state := Executed)).(sec := id, world := Secure), Success)
  }

  function Resume(p: Platform, st: Fwu): Outcome
    requires st.desc.Keys == p.images.Keys
  {
    if st.sec !in p.images then (if st.world == NonSecure then Ret(st, Eperm) else Stop)
    else if p.images[st.sec].security == NonSecure || !p.images[st.sec].executable then Stop
    else
      var d := st.desc[st.sec];
      if st.world == Secure then
        if d.state != Executed then Stop
        else Ret(SetDesc(st, st.sec, d.(state := Interrupted)).(world := NonSecure), Success)
      else if d.state != Interrupted then Stop
      else Ret(SetDesc(st, st.sec, d.(state := Executed)).(world := Secure), Success)
  }

  function Done(p: Platform, st: Fwu): Outcome
    requires st.desc.Keys == p.images.Keys
  {
    if st.world == NonSecure then Ret(st, Eperm)
    else if || st.sec !in p.images || p.images[st.sec].security == NonSecure
            || !p.images[st.sec].executable || st.desc[st.sec].state != Executed
    then Stop
    else
      match RemoveLoaded(st.loaded, st.sec)
      case Full => Stop
      case Table(loaded) =>
        var done := SetDesc(st, st.sec, st.desc[st.sec].(state := Reset));
        Ret(done.(loaded := loaded, sec := INVALID_IMAGE_ID, world := NonSecure), Success)
  }

  function ResetTo(p: Platform, st: Fwu, id: nat): Outcome
    requires st.desc.Keys == p.images.Keys
  {
    if id !in p.images || st.world == Secure then Ret(st, Eperm)
    else
      var d := st.desc[id];
      if d.state == Reset then Ret(st, Success)
      else if d.state == Executed then Stop
      else
        match RemoveLoaded(st.loaded, id)
        case Full => Ret(st, Eperm)
        case Table(loaded) =>
          if d.copied != 0 && p.images[id].security != Secure then Stop
          else
            Ret(st.(loaded := loaded,
                    mem := WriteMem(st.mem, p.images[id].base, Zeros(d.copied)),
                    desc := st.desc[id := Desc(Reset, 0, 0)]),
                Success)
  }

  function Step(p: Platform, st: Fwu, call: Call): Outcome
    requires st.desc.Keys == p.images.Keys
  {
    match call
    case CopyImage(id, src, block, size, mapped, preLoad) => Copy(p, st, id, src, block, size, mapped, preLoad)
    case AuthImage(id, src, size, mapped, verified, postLoad) => Auth(p, st, id, src, size, mapped, verified, postLoad)
    case ExecuteImage(id) => Execute(p, st, id)
    case ResumeImage => Resume(p, st)
    case SecImageDone => Done(p, st)
    case ResetImage(id) => ResetTo(p, st, id)
    case UpdateDone => Stop
    case Poke(addr, val) => Ret(st.(mem := WriteMem(st.mem, addr, [val])), Success)
  }

  /** The descriptors stay those of the images. */
  lemma StepKeys(p: Platform, st: Fwu, call: Call)
    requires st.desc.Keys == p.images.Keys
    ensures Step(p, st, call).Ret? ==> Step(p, st, call).next.desc.Keys == p.images.Keys
  {
  }
}
