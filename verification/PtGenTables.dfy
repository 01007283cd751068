/** The partition tables as they are generated: GPT entries with their header, and MBR entries. */
module PtGenTables {
  import opened Bitwise
  import opened PtGenChs
  import opened PtGenLayout

  const GPT_ENTRY_MAX: nat := 128
  const MBR_ENTRY_MAX: nat := 4

  /** `bios` tells the entry that fills the gap before the first partition. */
  datatype Entry = Empty | Entry(start: nat, end: nat, guid: seq<Byte>, bios: bool)

  datatype Header = Header(firstUsable: nat, lastUsable: nat, alternate: nat)

  /** `protective` is the number of sectors of the protective MBR entry, which starts at sector 1. */
  datatype GptTable = NoGpt | GptTable(entries: seq<Entry>, header: Header, protective: nat)

  datatype MbrEntry = NoEntry | MbrEntry(active: bool, start: nat, length: nat, chsStart: Chs, chsEnd: Chs)

  datatype MbrTable = NoMbr | MbrTable(entries: seq<MbrEntry>)

  /** The disk's GUID with `n` added to its last byte. */
  function Guid(disk: seq<Byte>, n: nat): seq<Byte>
    requires |disk| == 16
  {
    disk[15 := (disk[15] + n) % 256]
  }

  predicate HasFiller(slots: seq<Slot>) { slots != [] && slots[0].Placed? && slots[0].start > GPT_FIRST_USABLE }

  function PartEntry(slots: seq<Slot>, guid: seq<Byte>, i: nat): Entry
    requires |guid| == 16
  {
    if i < |slots| && slots[i].Placed? && slots[i].next > 0
    then Entry(slots[i].start, slots[i].next - 1, Guid(guid, i + 1), false) else Empty
  }

  function GptEntry(slots: seq<Slot>, guid: seq<Byte>, i: nat): Entry
    requires |guid| == 16
  {
    if i == GPT_ENTRY_MAX - 1 && HasFiller(slots)
    then Entry(GPT_FIRST_USABLE, slots[0].start - 1, Guid(guid, GPT_ENTRY_MAX), true)
    else PartEntry(slots, guid, i)
  }

  function GptOf(cfg: Config, parts: seq<Part>, guid: seq<Byte>): GptTable
    requires ConfigOk(cfg) && cfg.disk.Gpt? && |guid| == 16
  {
    match Place(cfg, parts, GPT_FIRST_USABLE)
    case Rejected => NoGpt
    case Accepted(slots, sect) =>
      if sect == 0 then NoGpt
      else
        GptTable(seq<Entry>(GPT_ENTRY_MAX, i requires 0 <= i => GptEntry(slots, guid, i)),
                 Header(GPT_FIRST_USABLE, sect - 1, sect + GPT_SIZE), sect + GPT_SIZE - 1)
  }

  function MbrEntryOf(cfg: Config, slots: seq<Slot>, active: nat, i: nat): MbrEntry
    requires ConfigOk(cfg) && cfg.disk.Mbr?
  {
    if i < |slots| && slots[i].Placed? && slots[i].start < slots[i].next then
      MbrEntry(i + 1 == active, slots[i].start, slots[i].next - slots[i].start,
               ToChs(slots[i].start, cfg.disk.heads, cfg.disk.sectors),
                   ToChs(slots[i].next - 1, cfg.disk.heads, cfg.disk.sectors))
    else NoEntry
  }

  function MbrOf(cfg: Config, parts: seq<Part>, active: nat): MbrTable
    requires ConfigOk(cfg) && cfg.disk.Mbr?
  {
    match Place(cfg, parts, 0)
    case Rejected => NoMbr
    case Accepted(slots, _) => MbrTable(seq<MbrEntry>(MBR_ENTRY_MAX,
        i requires 0 <= i => MbrEntryOf(cfg, slots, active, i)))
  }

  /* The generators */

  function Prepend(slots: seq<Slot>, l: Layout): Layout {
    match l
    case Rejected => Rejected
    case Accepted(more, sect) => Accepted(slots + more, sect)
  }

  /** One more partition has been placed. */
  lemma OneMore(cfg: Config, parts: seq<Part>, i: nat, sect: nat, slots: seq<Slot>, slot: Slot)
    requires ConfigOk(cfg) && i < |parts| && sect + Gap(cfg) > 0
    requires slot.Skipped? ==> parts[i].size == 0 && cfg.ignoreNull
    requires slot.Placed? ==>
        parts[i].size > 0 && Start(cfg, parts[i], sect) == At(slot.start) &&
            Behind(cfg, parts[i], slot.start) == slot.next
    ensures var next := if slot.Placed? then slot.next else sect;
            next + Gap(cfg) > 0 && Prepend(slots, Place(cfg, parts[i..], sect)) ==
                Prepend(slots + [slot], Place(cfg, parts[i + 1..], next))
  {
    assert parts[i..][0] == parts[i] && parts[i..][1..] == parts[i + 1..];
    var next := if slot.Placed? then slot.next else sect;
    match Place(cfg, parts[i + 1..], next)
    case Rejected =>
    case Accepted(more, _) => assert slots + ([slot] + more) == slots + [slot] + more;
  }

  lemma BehindAfter(cfg: Config, p: Part, start: nat)
    requires ConfigOk(cfg) && p.size > 0
    ensures start < Behind(cfg, p, start)
  {
    if cfg.disk.Mbr? && cfg.align == 0 {
      RoundsToCyl(start + p.size * 2, Cylinder(cfg));
    }
  }

  /** The remaining partitions are rejected. */
  lemma NoMore(cfg: Config, parts: seq<Part>, i: nat, sect: nat, slots: seq<Slot>)
    requires ConfigOk(cfg) && i < |parts| && sect + Gap(cfg) > 0
    requires if parts[i].size == 0 then !cfg.ignoreNull else Start(cfg, parts[i], sect) == TooLow
    ensures Prepend(slots, Place(cfg, parts[i..], sect)) == Rejected
  {
    assert parts[i..][0] == parts[i];
  }

  datatype Verdict = Bad | Skip | Put(start: nat, next: nat)

  /** Checks the size and the start of one partition and places it. */
  method PlacePart(cfg: Config, p: Part, sect: nat) returns (r: Verdict)
    requires ConfigOk(cfg) && sect + Gap(cfg) > 0
    ensures match r
            case Bad => if p.size == 0 then !cfg.ignoreNull else Start(cfg, p, sect) == TooLow
            case Skip => p.size == 0 && cfg.ignoreNull
            case Put(start, next) =>
              p.size > 0 && Start(cfg, p, sect) == At(start) && Behind(cfg, p, start) == next && start < next
  {
    if p.size == 0 {
      return if cfg.ignoreNull then Skip else Bad;
    }
    var start := sect + Gap(cfg);
    if p.start != 0 {
      if p.start * 2 < start {
        return Bad;
      }
      start := p.start * 2;
    } else if cfg.align != 0 {
      start := RoundToKb(start, cfg.align);
    }
    var next := start + p.size * 2;
    if cfg.disk.Mbr? && cfg.align == 0 {
      next := RoundToCyl(next, Cylinder(cfg));
    }
    BehindAfter(cfg, p, start);
    return Put(start, next);
  }

  /** Checks the partition sizes and makes a GUID partition table. */
  method GenGptable(cfg: Config, parts: seq<Part>, guid: seq<Byte>) returns (r: GptTable)
    requires ConfigOk(cfg) && cfg.disk.Gpt? && |guid| == 16 && |parts| <= GPT_ENTRY_MAX
    ensures r == GptOf(cfg, parts, guid)
  {
    var gpte := new Entry[GPT_ENTRY_MAX](_ => Empty);
    var sect: nat := GPT_FIRST_USABLE;
    var actualStart: nat := 0; // of the first partition
    ghost var slots: seq<Slot> := [];
    for i := 0 to |parts|
      invariant |slots| == i && sect > 0
      invariant Place(cfg, parts, GPT_FIRST_USABLE) == Prepend(slots, Place(cfg, parts[i..], sect))
      invariant forall k :: 0 <= k < GPT_ENTRY_MAX ==> gpte[k] == PartEntry(slots, guid, k)
      invariant actualStart == if slots != [] && slots[0].Placed? then slots[0].start else 0
    {
      var verdict := PlacePart(cfg, parts[i], sect);
      match verdict {
        case Bad =>
          NoMore(cfg, parts, i, sect, slots);
          return NoGpt;
        case Skip =>
          OneMore(cfg, parts, i, sect, slots, Skipped);
          slots := slots + [Skipped];
        case Put(start, next) =>
          OneMore(cfg, parts, i, sect, slots, Placed(start, next));
          if i == 0 {
            actualStart := start;
          }
          sect := next;
          slots := slots + [Placed(start, sect)];
          gpte[i] := Entry(start, sect - 1, Guid(guid, i + 1), false);
      }
    }
    assert parts[|parts|..] == [];
    if actualStart > GPT_FIRST_USABLE {
      gpte[GPT_ENTRY_MAX - 1] := Entry(GPT_FIRST_USABLE, actualStart - 1, Guid(guid, GPT_ENTRY_MAX), true);
    }
    var end := sect + GPT_SIZE;
    r := GptTable(gpte[..], Header(GPT_FIRST_USABLE, end - GPT_SIZE - 1, end), end - 1);
  }

  /** One more slot changes its own entry only. */
  lemma MbrEntries(cfg: Config, slots: seq<Slot>, slot: Slot, active: nat)
    requires ConfigOk(cfg) && cfg.disk.Mbr?
    ensures forall k: nat :: k != |slots| ==>
              MbrEntryOf(cfg, slots + [slot], active, k) == MbrEntryOf(cfg, slots, active, k)
    ensures MbrEntryOf(cfg, slots + [slot], active, |slots|)
         == if slot.Placed? && slot.start < slot.next then
              MbrEntry(|slots| + 1 == active, slot.start, slot.next - slot.start,
                       ToChs(slot.start, cfg.disk.heads, cfg.disk.sectors),
                       ToChs(slot.next - 1, cfg.disk.heads, cfg.disk.sectors))
            else NoEntry
  {
  }

  /** Checks the partition sizes and makes an MBR partition table. */
  method GenPtable(cfg: Config, parts: seq<Part>, active: nat) returns (r: MbrTable)
    requires ConfigOk(cfg) && cfg.disk.Mbr? && |parts| <= MBR_ENTRY_MAX
    ensures r == MbrOf(cfg, parts, active)
  {
    var pte := new MbrEntry[MBR_ENTRY_MAX](_ => NoEntry);
    var sect: nat := 0;
    ghost var slots: seq<Slot> := [];
    for i := 0 to |parts|
      invariant |slots| == i
      invariant Place(cfg, parts, 0) == Prepend(slots, Place(cfg, parts[i..], sect))
      invariant forall k :: 0 <= k < MBR_ENTRY_MAX ==> pte[k] == MbrEntryOf(cfg, slots, active, k)
    {
      var verdict := PlacePart(cfg, parts[i], sect);
      match verdict {
        case Bad =>
          NoMore(cfg, parts, i, sect, slots);
          return NoMbr;
        case Skip =>
          OneMore(cfg, parts, i, sect, slots, Skipped);
          MbrEntries(cfg, slots, Skipped, active);
          slots := slots + [Skipped];
        case Put(start, next) =>
          OneMore(cfg, parts, i, sect, slots, Placed(start, next));
          MbrEntries(cfg, slots, Placed(start, next), active);
          sect := next;
          var len := sect - start;
          slots := slots + [Placed(start, sect)];
          pte[i] := MbrEntry(i + 1 == active, start, len, ToChs(start, cfg.disk.heads, cfg.disk.sectors),
                             ToChs(start + len - 1, cfg.disk.heads, cfg.disk.sectors));
      }
    }
    assert parts[|parts|..] == [];
    r := MbrTable(pte[..]);
  }

  /* What the GUID partition tables keep */

  /** Two used entries never overlap: earlier partitions come first, and the filler before all of them. */
  lemma GptDisjoint(cfg: Config, parts: seq<Part>, guid: seq<Byte>, i: nat, j: nat)
    requires ConfigOk(cfg) && cfg.disk.Gpt? && |guid| == 16 && |parts| < GPT_ENTRY_MAX
    requires GptOf(cfg, parts, guid).GptTable? && i < j < GPT_ENTRY_MAX
    requires GptOf(cfg, parts, guid).entries[i].Entry? && GptOf(cfg, parts, guid).entries[j].Entry?
    ensures var e := GptOf(cfg, parts, guid).entries;
            if e[j].bios then j == GPT_ENTRY_MAX - 1 && e[j].end < e[i].start else e[i].end < e[j].start
  {
    var slots := Place(cfg, parts, GPT_FIRST_USABLE).slots;
    AllPlaced(cfg, parts, GPT_FIRST_USABLE);
    if j == GPT_ENTRY_MAX - 1 {
      Disjoint(cfg, parts, GPT_FIRST_USABLE, 0, i);
    } else {
      Disjoint(cfg, parts, GPT_FIRST_USABLE, i, j);
    }
  }

  /** Every used entry lies within the usable sectors, behind the entry table; the usable sectors end with
      the last partition, where the alternate table can follow; and the protective entry covers all of it
      but the alternate header. */
  lemma GptUsable(cfg: Config, parts: seq<Part>, guid: seq<Byte>, i: nat)
    requires ConfigOk(cfg) && cfg.disk.Gpt? && |guid| == 16 && |parts| < GPT_ENTRY_MAX
    requires GptOf(cfg, parts, guid).GptTable? && i < GPT_ENTRY_MAX && GptOf(cfg, parts, guid).entries[i].Entry?
    ensures var t := GptOf(cfg, parts, guid);
            && 2 + GPT_SIZE == t.header.firstUsable <= t.entries[i].start <= t.entries[i].end <= t.header.lastUsable
            && t.header.lastUsable + GPT_SIZE + 1 == t.header.alternate == 1 + t.protective
  {
    var slots := Place(cfg, parts, GPT_FIRST_USABLE).slots;
    AllPlaced(cfg, parts, GPT_FIRST_USABLE);
    if i == GPT_ENTRY_MAX - 1 {
      Disjoint(cfg, parts, GPT_FIRST_USABLE, 0, 0);
    } else {
      Disjoint(cfg, parts, GPT_FIRST_USABLE, 0, i);
    }
  }

  /** Partitions without an explicit start are aligned, and every partition has the size asked for. */
  lemma GptAligned(cfg: Config, parts: seq<Part>, guid: seq<Byte>, i: nat)
    requires ConfigOk(cfg) && cfg.disk.Gpt? && |guid| == 16 && |parts| < GPT_ENTRY_MAX
    requires GptOf(cfg, parts, guid).GptTable? && i < |parts|
    ensures var e := GptOf(cfg, parts, guid).entries[i];
            && (e == Empty <==> parts[i].size == 0)
            && (parts[i].size > 0 ==>
                  && e.end - e.start + 1 == 2 * parts[i].size
                  && (if parts[i].start != 0 then e.start == 2 * parts[i].start else cfg.align != 0 ==>
                        Multiple(e.start, cfg.align)))
  {
    var slots := Place(cfg, parts, GPT_FIRST_USABLE).slots;
    AllPlaced(cfg, parts, GPT_FIRST_USABLE);
    assert PlacedRight(cfg, parts[i], slots[i], Free(slots, GPT_FIRST_USABLE, i));
  }

  /** Used entries have different GUIDs. */
  lemma GuidsDistinct(cfg: Config, parts: seq<Part>, guid: seq<Byte>, i: nat, j: nat)
    requires ConfigOk(cfg) && cfg.disk.Gpt? && |guid| == 16 && |parts| < GPT_ENTRY_MAX
    requires GptOf(cfg, parts, guid).GptTable? && i < j < GPT_ENTRY_MAX
    requires GptOf(cfg, parts, guid).entries[i].Entry? && GptOf(cfg, parts, guid).entries[j].Entry?
    ensures GptOf(cfg, parts, guid).entries[i].guid != GptOf(cfg, parts, guid).entries[j].guid
  {
    var e := GptOf(cfg, parts, guid).entries;
    assert e[i].guid[15] == (guid[15] + i + 1) % 256 && e[j].guid[15] == (guid[15] + j + 1) % 256;
  }

  /** The slot of the first partition that is not skipped. */
  function FirstPlaced(slots: seq<Slot>): (k: nat)
    ensures k <= |slots| && (k < |slots| ==> slots[k].Placed?) && forall j :: 0 <= j < k ==> slots[j].Skipped?
  {
    if slots == [] || slots[0].Placed? then 0 else 1 + FirstPlaced(slots[1..])
  }

  /** The entry covers exactly the usable sectors before `start`. */
  predicate Covers(t: GptTable, i: nat, start: nat)
    requires t.GptTable? && i < |t.entries|
  {
    t.entries[i].Entry? && t.entries[i].start == t.header.firstUsable && t.entries[i].end + 1 == start
  }

  /** There are no usable sectors before the first partition, or some entry covers them. */
  predicate GapCovered(t: GptTable, start: nat)
    requires t.GptTable?
  {
    start == t.header.firstUsable || exists i: nat :: i < |t.entries| && Covers(t, i, start)
  }

  /** The gap before the first partition is covered just when there is none or the first partition asked
      for is that partition: behind a null-sized one the gap is left open. */
  lemma FillerCoversGap(cfg: Config, parts: seq<Part>, guid: seq<Byte>)
    requires ConfigOk(cfg) && cfg.disk.Gpt? && |guid| == 16 && |parts| < GPT_ENTRY_MAX
    requires GptOf(cfg, parts, guid).GptTable? && exists k :: 0 <= k < |parts| && parts[k].size > 0
    ensures var slots, t := Place(cfg, parts, GPT_FIRST_USABLE).slots, GptOf(cfg, parts, guid);
            var f := FirstPlaced(slots);
            && |slots| == |parts| && f < |slots|
            && (GapCovered(t, slots[f].start) <==> slots[f].start == GPT_FIRST_USABLE || parts[0].size > 0)
  {
    var slots, t := Place(cfg, parts, GPT_FIRST_USABLE).slots, GptOf(cfg, parts, guid);
    AllPlaced(cfg, parts, GPT_FIRST_USABLE);
    var k :| 0 <= k < |parts| && parts[k].size > 0;
    assert PlacedRight(cfg, parts[k], slots[k], Free(slots, GPT_FIRST_USABLE, k));
    assert PlacedRight(cfg, parts[0], slots[0], Free(slots, GPT_FIRST_USABLE, 0));
    var f := FirstPlaced(slots);
    Disjoint(cfg, parts, GPT_FIRST_USABLE, 0, f);
    if slots[f].start != GPT_FIRST_USABLE && parts[0].size > 0 {
      assert t.entries[GPT_ENTRY_MAX - 1] == GptEntry(slots, guid, GPT_ENTRY_MAX - 1);
      assert Covers(t, GPT_ENTRY_MAX - 1, slots[f].start);
    }
    if i: nat :| i < |t.entries| && Covers(t, i, slots[f].start) {
      if i < |parts| && i != f {
        Disjoint(cfg, parts, GPT_FIRST_USABLE, f, i);
      }
    }
  }

  /** A null-sized partition followed by one that asks for a start: the gap is left open. */
  lemma GapLeftOpen(guid: seq<Byte>)
    requires |guid| == 16
    ensures var cfg, parts := Config(Gpt, 8, true), [Part(0, 0), Part(100, 4)];
            && ConfigOk(cfg) && Place(cfg, parts, GPT_FIRST_USABLE) == Accepted([Skipped, Placed(200, 208)], 208)
            && GptOf(cfg, parts, guid).GptTable? && !GapCovered(GptOf(cfg, parts, guid), 200)
  {
    var cfg, parts := Config(Gpt, 8, true), [Part(0, 0), Part(100, 4)];
    assert parts[1..][1..] == [] && parts[1..][0] == Part(100, 4);
    assert Place(cfg, parts[1..][1..], 208) == Accepted([], 208);
    assert Place(cfg, parts[1..], GPT_FIRST_USABLE) == Accepted([Placed(200, 208)], 208);
    assert parts[1].size > 0;
    FillerCoversGap(cfg, parts, guid);
  }
}
