/** What is in memory when an image has been copied, and when it is started. */
module FwuContents {
  import opened FwuModel
  import opened FwuSafety

  /* Memory */

  lemma ReadFrame(m: Memory, a: nat, data: seq<Byte>, c: nat, n: nat)
    requires data == [] || a + |data| <= c || c + n <= a
    ensures ReadMem(WriteMem(m, a, data), c, n) == ReadMem(m, c, n)
  {
  }

  lemma ReadExtend(m: Memory, a: nat, k: nat, data: seq<Byte>)
    ensures ReadMem(WriteMem(m, a + k, data), a, k + |data|) == ReadMem(m, a, k) + data
  {
  }

  /* The history of requests */

  /** For each image: the size asked for when it was first copied, the bytes of the blocks accepted
      since then, and the bytes that were last found authentic. */
  datatype History = History(want: map<nat, nat>, blocks: map<nat, seq<Byte>>, verified: map<nat, seq<Byte>>)

  predicate Accepted(p: Platform, st: Fwu, call: Call)
    requires st.desc.Keys == p.images.Keys
  {
    Step(p, st, call).Ret? && Step(p, st, call).code == Success
  }

  /** A block is what the source holds at the time of the request, clipped to what is still missing
      from the `want` bytes asked for. */
  function Block(m: Memory, src: nat, block: nat, want: nat, sofar: seq<Byte>): seq<Byte> {
    ReadMem(m, src, if |sofar| + block <= want then block else if want > |sofar| then want - |sofar| else 0)
  }

  /** What an accepted request adds to the history. The history looks at requests and memory only,
      not at the sizes in the descriptors. */
  function Remember(p: Platform, st: Fwu, call: Call, h: History): History
    requires st.desc.Keys == p.images.Keys
  {
    match call
    case CopyImage(id, src, block, size, _, _) =>
      var first := id !in st.desc || st.desc[id].state == Reset || id !in h.want || id !in h.blocks;
      var want := if first then size else h.want[id];
      var sofar := if first then [] else h.blocks[id];
      h.(want := h.want[id := want], blocks := h.blocks[id := sofar + Block(st.mem, src, block, want, sofar)])
    case AuthImage(id, src, size, _, _, _) =>
      if id !in p.images then h
      else
        h.(verified := h.verified[id := if st.desc[id].state == Copied
                                        then ReadMem(st.mem, p.images[id].base, st.desc[id].size)
                                        else ReadMem(st.mem, src, size)])
    case _ => h
  }

  function NextHistory(p: Platform, st: Fwu, call: Call, h: History): History
    requires st.desc.Keys == p.images.Keys
  {
    if Accepted(p, st, call) then Remember(p, st, call, h) else h
  }

  /** The part of a guarded image that has been copied is the concatenation of its accepted blocks,
      and what has been authenticated is what is in memory. */
  ghost predicate ContentOk(p: Platform, st: Fwu, h: History, id: nat)
    requires id in p.images && id in st.desc
  {
    var d := st.desc[id];
    && id in h.want && h.want[id] == d.size
    && id in h.blocks && |h.blocks[id]| == d.copied
    && ReadMem(st.mem, p.images[id].base, d.copied) == h.blocks[id]
    && (d.state == Authenticated ==> id in h.verified && h.verified[id] == h.blocks[id])
  }

  ghost predicate Contents(p: Platform, st: Fwu, h: History) {
    forall id {:trigger Guarded(p, st.desc, id)} :: Guarded(p, st.desc, id) ==> ContentOk(p, st, h, id)
  }

  /** A write that does not reach a guarded image leaves its contents. */
  lemma ContentFrame(p: Platform, st: Fwu, st': Fwu, h: History, h': History, id: nat, a: nat, data: seq<Byte>)
    requires Guarded(p, st.desc, id) && ContentOk(p, st, h, id)
    requires id in st'.desc && st'.desc[id] == st.desc[id] && st'.mem == WriteMem(st.mem, a, data)
    requires id in h'.want && h'.want[id] == h.want[id] && id in h'.blocks && h'.blocks[id] == h.blocks[id]
    requires id in h.verified ==> id in h'.verified && h'.verified[id] == h.verified[id]
    requires data == [] || a + |data| <= p.images[id].base || p.images[id].base + st.desc[id].copied <= a
    ensures ContentOk(p, st', h', id)
  {
    ReadFrame(st.mem, a, data, p.images[id].base, st.desc[id].copied);
  }

  lemma ContentSame(p: Platform, st: Fwu, st': Fwu, h: History, h': History, id: nat)
    requires Guarded(p, st.desc, id) && ContentOk(p, st, h, id)
    requires id in st'.desc && st'.desc[id] == st.desc[id] && st'.mem == st.mem
    requires id in h'.want && h'.want[id] == h.want[id] && id in h'.blocks && h'.blocks[id] == h.blocks[id]
    requires id in h.verified ==> id in h'.verified && h'.verified[id] == h.verified[id]
    ensures ContentOk(p, st', h', id)
  {
  }

  lemma BlockEffect(p: Platform, st: Fwu, id: nat, src: nat, block: nat, mapped: bool, preLoad: bool)
    requires id in p.images && id in st.desc && st.desc[id].copied <= st.desc[id].size
    requires var r := CopyBlock(p, st, id, src, block, mapped, preLoad); r.Ret? && r.code == Success
    ensures var next, e := CopyBlock(p, st, id, src, block, mapped, preLoad).next, st.desc[id];
            && next.desc == st.desc[id := Advanced(e, Clipped(e, block))]
            && next.mem == WriteMem(st.mem, p.images[id].base + e.copied, ReadMem(st.mem, src, Clipped(e, block)))
  {
  }

  lemma SetTwice(ds: Descs, id: nat, d: Desc, e: Desc)
    ensures ds[id := d][id := e] == ds[id := e]
  {
  }

  /** An accepted copy request starts from a descriptor `e`, which is the image's own when the copy
      goes on, and moves one clipped block. */
  lemma CopyEffect(p: Platform, st: Fwu, call: Call) returns (e: Desc)
    requires DescsOk(p, st.desc) && call.CopyImage? && Accepted(p, st, call)
    ensures IsSecure(p, call.id) && call.block > 0
    ensures || (st.desc[call.id].state == Copying && e == st.desc[call.id])
            || (st.desc[call.id].state == Reset && e == Desc(Reset, call.size, 0))
    ensures e.copied < e.size
    ensures var next := Step(p, st, call).next;
            && next.desc == st.desc[call.id := Advanced(e, Clipped(e, call.block))]
            && next.mem == WriteMem(st.mem, p.images[call.id].base + e.copied,
                  ReadMem(st.mem, call.src, Clipped(e, call.block)))
  {
    var id, d := call.id, st.desc[call.id];
    if d.state == Copying {
      e := d;
      BlockEffect(p, st, id, call.src, call.block, call.mapped, call.preLoad);
    } else {
      e := Desc(Reset, call.size, 0);
      var sized := SetDesc(st, id, d.(size := call.size, copied := 0));
      assert sized.desc[id] == e;
      BlockEffect(p, sized, id, call.src, call.block, call.mapped, call.preLoad);
      SetTwice(st.desc, id, e, Advanced(e, Clipped(e, call.block)));
    }
  }

  /** What the history held before an accepted copy, and what it holds after it. */
  lemma RememberBlock(p: Platform, st: Fwu, call: Call, h: History, e: Desc) returns (sofar: seq<Byte>)
    requires st.desc.Keys == p.images.Keys && call.CopyImage? && call.id in p.images
    requires || (st.desc[call.id].state == Copying && e == st.desc[call.id] && ContentOk(p, st, h, call.id))
             || (st.desc[call.id].state == Reset && e == Desc(Reset, call.size, 0))
    ensures ReadMem(st.mem, p.images[call.id].base, e.copied) == sofar
    ensures Remember(p, st, call, h)
         == h.(want := h.want[call.id := e.size],
               blocks := h.blocks[call.id := sofar + Block(st.mem, call.src, call.block, e.size, sofar)])
  {
    sofar := if st.desc[call.id].state == Copying then h.blocks[call.id] else [];
  }

  /** Writing the clipped block behind the copied part gives the copied part and the block. */
  lemma BlockAppended(m: Memory, base: nat, e: Desc, src: nat, block: nat, sofar: seq<Byte>)
    requires e.copied < e.size && |sofar| == e.copied && ReadMem(m, base, e.copied) == sofar
    ensures var data := ReadMem(m, src, Clipped(e, block));
            && data == Block(m, src, block, e.size, sofar)
            && ReadMem(WriteMem(m, base + e.copied, data), base, e.copied + |data|) == sofar + data
  {
    ReadExtend(m, base, e.copied, ReadMem(m, src, Clipped(e, block)));
  }

  /** The accepted block is appended to the image's contents. */
  lemma CopiedBlock(p: Platform, st': Fwu, id: nat, m: Memory, e: Desc, src: nat, block: nat, h': History,
          sofar: seq<Byte>)
    requires id in p.images && e.copied < e.size && block > 0
    requires ReadMem(m, p.images[id].base, e.copied) == sofar
    requires st'.mem == WriteMem(m, p.images[id].base + e.copied, ReadMem(m, src, Clipped(e, block)))
    requires id in st'.desc && st'.desc[id] == Advanced(e, Clipped(e, block))
    requires id in h'.want && h'.want[id] == e.size
    requires id in h'.blocks && h'.blocks[id] == sofar + Block(m, src, block, e.size, sofar)
    ensures ContentOk(p, st', h', id)
  {
    BlockAppended(m, p.images[id].base, e, src, block, sofar);
  }

  /** The contents of the other images stay. */
  lemma OtherContents(p: Platform, st: Fwu, st': Fwu, h: History, h': History, b: nat, id: nat, e: Desc,
          data: seq<Byte>)
    requires id in p.images && b != id && Guarded(p, st.desc, b) && ContentOk(p, st, h, b) &&
        st.desc[b].copied <= st.desc[b].size
    requires e.copied + |data| <= e.size && id in st'.desc && st'.desc[id].size == e.size
    requires b in st'.desc && st'.desc[b] == st.desc[b] && Apart(p, st'.desc, id, b)
    requires st'.mem == WriteMem(st.mem, p.images[id].base + e.copied, data)
    requires b in h'.want && h'.want[b] == h.want[b] && b in h'.blocks && h'.blocks[b] == h.blocks[b]
    requires h'.verified == h.verified
    ensures ContentOk(p, st', h', b)
  {
    ContentFrame(p, st, st', h, h', b, p.images[id].base + e.copied, data);
  }

  /** After a copy the image holds its blocks, and the other images hold theirs. */
  lemma CopiedContents(p: Platform, st: Fwu, st': Fwu, id: nat, src: nat, block: nat, h: History, h': History,
          e: Desc, sofar: seq<Byte>)
    requires DescsOk(p, st.desc) && Contents(p, st, h)
    requires Disjoint(p, st'.desc) && IsSecure(p, id) && block > 0 && e.copied < e.size
    requires ReadMem(st.mem, p.images[id].base, e.copied) == sofar
    requires st'.desc == st.desc[id := Advanced(e, Clipped(e, block))]
    requires st'.mem == WriteMem(st.mem, p.images[id].base + e.copied, ReadMem(st.mem, src, Clipped(e, block)))
    requires h' == h.(want := h.want[id := e.size],
        blocks := h.blocks[id := sofar + Block(st.mem, src, block, e.size, sofar)])
    ensures Contents(p, st', h')
  {
    assert ContentOk(p, st', h', id) by {
      CopiedBlock(p, st', id, st.mem, e, src, block, h', sofar);
    }
    forall b | Guarded(p, st'.desc, b) && b != id
      ensures ContentOk(p, st', h', b)
    {
      assert Guarded(p, st.desc, b) && DescOk(p, st.desc, b) && Rivals(p, st'.desc, id, b);
      OtherContents(p, st, st', h, h', b, id, e, ReadMem(st.mem, src, Clipped(e, block)));
    }
  }

  /** An accepted copy leaves the images apart. */
  lemma CopyDisjoint(p: Platform, st: Fwu, call: Call)
    requires Inv(p, st) && call.CopyImage? && Allowed(p, st, call) && Step(p, st, call).Ret?
    ensures Disjoint(p, Step(p, st, call).next.desc)
  {
    CopyInv(p, st, call);
  }

  lemma AcceptedContents(p: Platform, st: Fwu, call: Call, h: History)
    requires Inv(p, st) && Contents(p, st, h) && call.CopyImage? && Allowed(p, st, call) && Accepted(p, st, call)
    ensures Contents(p, Step(p, st, call).next, Remember(p, st, call, h))
  {
    CopyDisjoint(p, st, call);
    BlockContents(p, st, Step(p, st, call).next, call, h, Remember(p, st, call, h));
  }

  lemma BlockContents(p: Platform, st: Fwu, st': Fwu, call: Call, h: History, h': History)
    requires DescsOk(p, st.desc) && Contents(p, st, h) && call.CopyImage? && Accepted(p, st, call)
    requires st' == Step(p, st, call).next && Disjoint(p, st'.desc) && h' == Remember(p, st, call, h)
    ensures Contents(p, st', h')
  {
    var e := CopyEffect(p, st, call);
    assert e.state == Copying ==> Guarded(p, st.desc, call.id);
    var sofar := RememberBlock(p, st, call, h, e);
    CopiedContents(p, st, st', call.id, call.src, call.block, h, h', e, sofar);
  }

  lemma CopyContents(p: Platform, st: Fwu, call: Call, h: History)
    requires Inv(p, st) && Contents(p, st, h) && call.CopyImage? && Allowed(p, st, call)
    requires Step(p, st, call).Ret?
    ensures Contents(p, Step(p, st, call).next, NextHistory(p, st, call, h))
  {
    if Accepted(p, st, call) {
      AcceptedContents(p, st, call, h);
    } else {
      RefusedContents(p, st, call, h);
    }
  }

  lemma RefusedContents(p: Platform, st: Fwu, call: Call, h: History)
    requires Inv(p, st) && Contents(p, st, h) && call.CopyImage? && Allowed(p, st, call)
    requires Step(p, st, call).Ret? && !Accepted(p, st, call)
    ensures Contents(p, Step(p, st, call).next, h)
  {
    var st' := Step(p, st, call).next;
    forall b | Guarded(p, st'.desc, b)
      ensures ContentOk(p, st', h, b)
    {
      assert Guarded(p, st.desc, b);
      ContentSame(p, st, st', h, h, b);
    }
  }

  lemma AuthContents(p: Platform, st: Fwu, call: Call, h: History)
    requires Inv(p, st) && Contents(p, st, h) && call.AuthImage? && Allowed(p, st, call)
    requires Step(p, st, call).Ret?
    ensures Contents(p, Step(p, st, call).next, NextHistory(p, st, call, h))
  {
    var r := Step(p, st, call);
    var id, st', h' := call.id, r.next, NextHistory(p, st, call, h);
    forall b | Guarded(p, st'.desc, b)
      ensures ContentOk(p, st', h', b)
    {
      assert Guarded(p, st.desc, b) && DescOk(p, st.desc, b);
      if b != id {
        if r.code == Eauth && st.desc[id].state == Copied {
          assert DescOk(p, st.desc, id) && Rivals(p, st.desc, id, b);
          ContentFrame(p, st, st', h, h', b, p.images[id].base, Zeros(st.desc[id].size));
        } else {
          ContentSame(p, st, st', h, h', b);
        }
      }
    }
  }

  lemma ResetContents(p: Platform, st: Fwu, id: nat, h: History)
    requires Inv(p, st) && Contents(p, st, h) && ResetTo(p, st, id).Ret?
    ensures Contents(p, ResetTo(p, st, id).next, h)
  {
    var st' := ResetTo(p, st, id).next;
    forall b | Guarded(p, st'.desc, b)
      ensures ContentOk(p, st', h, b)
    {
      assert Guarded(p, st.desc, b) && DescOk(p, st.desc, b);
      if st' == st {
      } else {
        assert DescOk(p, st.desc, id);
        assert IsSecure(p, id) ==> Rivals(p, st.desc, id, b);
        ContentFrame(p, st, st', h, h, b, p.images[id].base, Zeros(st.desc[id].copied));
      }
    }
  }

  lemma PokeContents(p: Platform, st: Fwu, call: Call, h: History)
    requires Inv(p, st) && Contents(p, st, h) && call.Poke? && Allowed(p, st, call)
    ensures Contents(p, Step(p, st, call).next, h)
  {
    var st' := Step(p, st, call).next;
    forall b | Guarded(p, st'.desc, b)
      ensures ContentOk(p, st', h, b)
    {
      assert Guarded(p, st.desc, b) && DescOk(p, st.desc, b) && !Within(p, st.desc, b, call.addr);
      ContentFrame(p, st, st', h, h, b, call.addr, [call.val]);
    }
  }

  lemma StepContents(p: Platform, st: Fwu, call: Call, h: History)
    requires Inv(p, st) && Contents(p, st, h) && Allowed(p, st, call) && Step(p, st, call).Ret?
    ensures Contents(p, Step(p, st, call).next, NextHistory(p, st, call, h))
  {
    match call
    case CopyImage(_, _, _, _, _, _) => CopyContents(p, st, call, h);
    case AuthImage(_, _, _, _, _, _) => AuthContents(p, st, call, h);
    case ResetImage(id) => ResetContents(p, st, id, h);
    case Poke(_, _) => PokeContents(p, st, call, h);
    case ExecuteImage(_) => SwitchContents(p, st, call, h);
    case ResumeImage => SwitchContents(p, st, call, h);
    case SecImageDone => SwitchContents(p, st, call, h);
    case UpdateDone =>
  }

  lemma SwitchContents(p: Platform, st: Fwu, call: Call, h: History)
    requires Inv(p, st) && Contents(p, st, h) && Step(p, st, call).Ret?
    requires call.ExecuteImage? || call.ResumeImage? || call.SecImageDone?
    ensures Contents(p, Step(p, st, call).next, h)
  {
    var st' := Step(p, st, call).next;
    forall b | Guarded(p, st'.desc, b)
      ensures ContentOk(p, st', h, b)
    {
      assert Guarded(p, st.desc, b);
    }
  }

  /** No byte of an image survives its reset or its failed authentication. */
  lemma Erased(p: Platform, st: Fwu, call: Call)
    requires Inv(p, st) && (call.ResetImage? || call.AuthImage?) && IsSecure(p, call.id)
    requires st.desc[call.id].state in {Copying, Copied, Authenticated, Interrupted}
    requires Step(p, st, call).Ret? && Step(p, st, call).next.desc[call.id].state == Reset
    ensures ReadMem(Step(p, st, call).next.mem, p.images[call.id].base, st.desc[call.id].copied) ==
        Zeros(st.desc[call.id].copied)
    ensures call.id !in Step(p, st, call).next.loaded
  {
    assert DescOk(p, st.desc, call.id);
    if call.ResetImage? {
      ResetInv(p, st, call.id);
    } else if st.world == NonSecure {
      AuthSecureInv(p, st, call);
    }
    NotLoaded(p, Step(p, st, call).next.desc, Step(p, st, call).next.loaded, call.id);
  }

  /* Runs */

  datatype Run = Stopped | Running(st: Fwu, h: History)

  /** A run from state `st`; what stops the machine stops the run. */
  function RunFrom(p: Platform, st: Fwu, h: History, calls: seq<Call>): Run
    requires st.desc.Keys == p.images.Keys
    decreases |calls|
  {
    if calls == [] then Running(st, h)
    else
      match Step(p, st, calls[0])
      case Stop => Stopped
      case Ret(next, _) =>
        StepKeys(p, st, calls[0]);
        RunFrom(p, next, NextHistory(p, st, calls[0], h), calls[1..])
  }

  /** Every request of the run is allowed in the state it is made in. */
  ghost predicate AllowedRun(p: Platform, st: Fwu, calls: seq<Call>)
    requires st.desc.Keys == p.images.Keys
    decreases |calls|
  {
    if calls == [] then true
    else
      StepKeys(p, st, calls[0]);
      && Allowed(p, st, calls[0])
      && (Step(p, st, calls[0]).Ret? ==> AllowedRun(p, Step(p, st, calls[0]).next, calls[1..]))
  }

  /** Every state of an allowed run meets the invariant, and its images hold their accepted blocks. */
  lemma {:induction false} RunSafe(p: Platform, st: Fwu, h: History, calls: seq<Call>)
    requires Inv(p, st) && Contents(p, st, h) && AllowedRun(p, st, calls)
    ensures var r := RunFrom(p, st, h, calls);
            r.Running? ==> Inv(p, r.st) && Contents(p, r.st, r.h)
    decreases |calls|
  {
    if calls != [] && Step(p, st, calls[0]).Ret? {
      StepInv(p, st, calls[0]);
      StepContents(p, st, calls[0], h);
      RunSafe(p, Step(p, st, calls[0]).next, NextHistory(p, st, calls[0], h), calls[1..]);
    }
  }

  /** In every allowed run from boot, an image that is COPIED holds exactly its accepted blocks, as
      many bytes as its first copy asked for; and an image is started only with the bytes that were
      found authentic. */
  lemma FwuRunCorrect(p: Platform, st: Fwu, calls: seq<Call>, id: nat)
    requires Initial(p, st) && AllowedRun(p, st, calls)
    requires RunFrom(p, st, History(map[], map[], map[]), calls).Running?
    ensures var r := RunFrom(p, st, History(map[], map[], map[]), calls);
            && Inv(p, r.st)
            && (IsSecure(p, id) && r.st.desc[id].state == Copied ==>
                  && id in r.h.blocks && id in r.h.want && |r.h.blocks[id]| == r.h.want[id]
                  && ReadMem(r.st.mem, p.images[id].base, r.st.desc[id].size) == r.h.blocks[id])
            && (Accepted(p, r.st, ExecuteImage(id)) ==>
                  && id in r.h.verified && id in r.h.blocks
                  && var next := Step(p, r.st, ExecuteImage(id)).next;
                     ReadMem(next.mem, p.images[id].base, next.desc[id].size) == r.h.verified[id] == r.h.blocks[id])
  {
    InitialInv(p, st);
    RunSafe(p, st, History(map[], map[], map[]), calls);
    var r := RunFrom(p, st, History(map[], map[], map[]), calls);
    if id in p.images {
      assert DescOk(p, r.st.desc, id);
      assert Guarded(p, r.st.desc, id) ==> ContentOk(p, r.st, r.h, id);
    }
  }
}
