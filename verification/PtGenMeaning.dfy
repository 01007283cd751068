/** The entries of the generated partition tables, said in terms of the partitions asked for. */
module PtGenMeaning {
  import opened Bitwise
  import opened PtGenChs
  import opened PtGenLayout
  import opened PtGenTables

  /* One layout */

  lemma OneMultiple(x: nat, y: nat, d: nat, low: nat)
    requires d > 0 && Multiple(x, d) && Multiple(y, d) && low <= x < low + d && low <= y < low + d
    ensures x == y
  {
    var j: nat :| x == j * d;
    var k: nat :| y == k * d;
    if j < k {
      FurtherOff(j, k, d);
    } else if k < j {
      FurtherOff(k, j, d);
    }
  }

  lemma FurtherOff(j: nat, k: nat, d: nat)
    requires j < k
    ensures j * d + d <= k * d
  {
    MulAtMost(j + 1, k, d);
    assert (j + 1) * d == j * d + d;
  }

  /** A partition that is placed right is placed where the generator puts it. */
  lemma RightPlace(cfg: Config, p: Part, slot: Slot, free: nat)
    requires ConfigOk(cfg) && free + Gap(cfg) > 0 && p.size > 0 && PlacedRight(cfg, p, slot, free)
    ensures Start(cfg, p, free) == At(slot.start) && Behind(cfg, p, slot.start) == slot.next
  {
    var first := free + Gap(cfg);
    if p.start == 0 && cfg.align != 0 {
      RoundsToKb(first, cfg.align);
      OneMultiple(slot.start, RoundToKb(first, cfg.align), cfg.align, first);
    }
    if cfg.disk.Mbr? && cfg.align == 0 {
      var end := slot.start + p.size * 2;
      RoundsToCyl(end, Cylinder(cfg));
      OneMultiple(slot.next, RoundToCyl(end, Cylinder(cfg)), Cylinder(cfg), end + 1);
    }
  }

  lemma RightFirst(cfg: Config, parts: seq<Part>, slots: seq<Slot>, sect: nat)
    requires ConfigOk(cfg) && parts != [] && Right(cfg, parts, slots, sect)
    ensures PlacedRight(cfg, parts[0], slots[0], sect)
    ensures Right(cfg, parts[1..], slots[1..], if slots[0].Placed? then slots[0].next else sect)
  {
    assert PlacedRight(cfg, parts[0], slots[0], Free(slots, sect, 0));
    var next := if slots[0].Placed? then slots[0].next else sect;
    var more, rest := parts[1..], slots[1..];
    assert slots == [slots[0]] + rest;
    forall k {:trigger PlacedRight(cfg, more[k], rest[k], Free(rest, next, k))} | 0 <= k < |more|
      ensures PlacedRight(cfg, more[k], rest[k], Free(rest, next, k))
    {
      var i := k + 1;
      FreeShift(slots[0], rest, sect, i);
      assert PlacedRight(cfg, parts[i], slots[i], Free(slots, sect, i));
    }
  }

  /** A layout in which every partition is placed right is the one that the generator finds. */
  lemma {:induction false} RightIsPlaced(cfg: Config, parts: seq<Part>, slots: seq<Slot>, sect: nat)
    requires ConfigOk(cfg) && sect + Gap(cfg) > 0 && Right(cfg, parts, slots, sect)
    ensures Place(cfg, parts, sect).Accepted? && Place(cfg, parts, sect).slots == slots
    decreases |parts|
  {
    if parts != [] {
      RightFirst(cfg, parts, slots, sect);
      var next := if slots[0].Placed? then slots[0].next else sect;
      RightIsPlaced(cfg, parts[1..], slots[1..], next);
      if parts[0].size > 0 {
        RightPlace(cfg, parts[0], slots[0], sect);
      }
    }
  }

  /* MBR tables */

  /** The first free sector before entry `k`: what follows the closest used entry before it. */
  function FreeBefore(es: seq<MbrEntry>, k: nat): nat
    requires k <= |es|
  {
    if k == 0 then 0
    else if es[k - 1].MbrEntry? then es[k - 1].start + es[k - 1].length
    else FreeBefore(es, k - 1)
  }

  /** The sector that a reader finds in the three bytes. */
  predicate Reads(chs: Chs, heads: nat, sectors: nat, sect: int) {
    var head, sector, cylinder := chs.b0, chs.b1 % 64, chs.b2 + 256 * (chs.b1 / 64);
    sect == (cylinder * heads + head) * sectors + sector - 1
  }

  /** The bytes name a head and a sector that the disk has. */
  predicate OnDisk(chs: Chs, heads: nat, sectors: nat) { chs.b0 < heads && 1 <= chs.b1 % 64 <= sectors }

  ghost predicate StartsRight(cfg: Config, p: Part, free: nat, start: nat) {
    && free <= start
    && if p.start != 0 then start == 2 * p.start
       else if cfg.align != 0 then Multiple(start, cfg.align) && start < free + cfg.align
       else start == free
  }

  /** A used entry: it is active if it is the one asked for. It has a track before it and starts where it was
      asked for, or else at the first suitable place. It ends on the first cylinder boundary behind the size
      asked for, or right there if there is an alignment. */
  ghost predicate EntryRight(cfg: Config, p: Part, active: bool, free: nat, e: MbrEntry)
    requires ConfigOk(cfg) && cfg.disk.Mbr?
  {
    && e.MbrEntry? && e.active == active && StartsRight(cfg, p, free + cfg.disk.sectors, e.start)
    && if cfg.align != 0 then e.length == 2 * p.size
       else
         && Multiple(e.start + e.length, cfg.disk.heads * cfg.disk.sectors)
         && 2 * p.size < e.length <= 2 * p.size + cfg.disk.heads * cfg.disk.sectors
  }

  /** Entry `i` is used just when there is a partition for it that is not null-sized. */
  ghost predicate MbrRight(cfg: Config, parts: seq<Part>, active: nat, es: seq<MbrEntry>)
    requires ConfigOk(cfg) && cfg.disk.Mbr?
  {
    && |es| == 4
    && forall i: nat {:trigger es[i]} :: i < 4 ==>
         if i < |parts| && parts[i].size > 0 then EntryRight(cfg, parts[i], i + 1 == active, FreeBefore(es, i), es[i])
         else es[i] == NoEntry && (i < |parts| ==> cfg.ignoreNull)
  }

  lemma {:induction false} SameFree(es: seq<MbrEntry>, slots: seq<Slot>, k: nat)
    requires k <= |es| && k <= |slots|
    requires forall i :: 0 <= i < k ==>
               if slots[i].Placed? then es[i].MbrEntry? && es[i].start + es[i].length == slots[i].next
               else es[i] == NoEntry
    ensures FreeBefore(es, k) == Free(slots, 0, k)
  {
    if k > 0 {
      SameFree(es, slots, k - 1);
    }
  }

  /** The entry of a slot. */
  predicate IsEntryOf(cfg: Config, active: bool, slot: Slot, e: MbrEntry)
    requires ConfigOk(cfg) && cfg.disk.Mbr?
  {
    if slot.Placed? then
      && e.MbrEntry? && e.active == active && e.start == slot.start && e.start + e.length == slot.next
    else e == NoEntry
  }

  lemma RightEntry(cfg: Config, p: Part, active: bool, free: nat, slot: Slot, e: MbrEntry)
    requires ConfigOk(cfg) && cfg.disk.Mbr? && IsEntryOf(cfg, active, slot, e)
    ensures PlacedRight(cfg, p, slot, free) <==>
        if p.size > 0 then EntryRight(cfg, p, active, free, e) else e == NoEntry && cfg.ignoreNull
  {
  }

  lemma MbrEntriesAre(cfg: Config, parts: seq<Part>, active: nat, i: nat)
    requires ConfigOk(cfg) && cfg.disk.Mbr? && |parts| <= 4 && MbrOf(cfg, parts, active).MbrTable? && i < |parts|
    ensures var slots, es := Place(cfg, parts, 0).slots, MbrOf(cfg, parts, active).entries;
            |slots| == |parts| && |es| == 4 && IsEntryOf(cfg, i + 1 == active, slots[i], es[i])
  {
    AllPlaced(cfg, parts, 0);
    Disjoint(cfg, parts, 0, i, i);
  }

  /** The entries of a generated table are right. */
  lemma MbrTableRight(cfg: Config, parts: seq<Part>, active: nat)
    requires ConfigOk(cfg) && cfg.disk.Mbr? && |parts| <= 4 && MbrOf(cfg, parts, active).MbrTable?
    ensures MbrRight(cfg, parts, active, MbrOf(cfg, parts, active).entries)
  {
    var slots, es := Place(cfg, parts, 0).slots, MbrOf(cfg, parts, active).entries;
    AllPlaced(cfg, parts, 0);
    forall i: nat {:trigger es[i]} | i < 4
      ensures if i < |parts| && parts[i].size > 0
              then EntryRight(cfg, parts[i], i + 1 == active, FreeBefore(es, i), es[i])
              else es[i] == NoEntry && (i < |parts| ==> cfg.ignoreNull)
    {
      if i < |parts| {
        forall k: nat | k <= i
          ensures IsEntryOf(cfg, k + 1 == active, slots[k], es[k])
        {
          MbrEntriesAre(cfg, parts, active, k);
        }
        SameFree(es, slots, i);
        assert PlacedRight(cfg, parts[i], slots[i], Free(slots, 0, i));
        RightEntry(cfg, parts[i], i + 1 == active, Free(slots, 0, i), slots[i], es[i]);
      }
    }
  }

  /** A table is generated just when there are entries that are right. */
  lemma MbrAcceptedExactly(cfg: Config, parts: seq<Part>, active: nat)
    requires ConfigOk(cfg) && cfg.disk.Mbr? && |parts| <= 4
    ensures MbrOf(cfg, parts, active).MbrTable? <==> exists es :: MbrRight(cfg, parts, active, es)
  {
    if MbrOf(cfg, parts, active).MbrTable? {
      MbrTableRight(cfg, parts, active);
    }
    if es :| MbrRight(cfg, parts, active, es) {
      RightAccepted(cfg, parts, active, es);
    }
  }

  lemma RightAccepted(cfg: Config, parts: seq<Part>, active: nat, es: seq<MbrEntry>)
    requires ConfigOk(cfg) && cfg.disk.Mbr? && |parts| <= 4 && MbrRight(cfg, parts, active, es)
    ensures Place(cfg, parts, 0).Accepted?
  {
    var slots := seq<Slot>(|parts|, i requires 0 <= i < 4 && |es| == 4 =>
      if es[i].MbrEntry? then Placed(es[i].start, es[i].start + es[i].length) else Skipped);
    forall k {:trigger PlacedRight(cfg, parts[k], slots[k], Free(slots, 0, k))} | 0 <= k < |parts|
      ensures PlacedRight(cfg, parts[k], slots[k], Free(slots, 0, k))
    {
      SameFree(es, slots, k);
      RightEntry(cfg, parts[k], k + 1 == active, Free(slots, 0, k), slots[k], es[k]);
    }
    RightIsPlaced(cfg, parts, slots, 0);
  }

  /** Used entries have a track before each and nothing in common. At most one is active. */
  lemma MbrApart(cfg: Config, parts: seq<Part>, active: nat, j: nat, k: nat)
    requires ConfigOk(cfg) && cfg.disk.Mbr? && |parts| <= 4 && MbrOf(cfg, parts, active).MbrTable? && j < k < 4
    ensures var es := MbrOf(cfg, parts, active).entries;
            |es| == 4 && (es[j].MbrEntry? && es[k].MbrEntry? ==>
                            && es[j].start + es[j].length + cfg.disk.sectors <= es[k].start
                            && !(es[j].active && es[k].active))
  {
    var es := MbrOf(cfg, parts, active).entries;
    MbrTableRight(cfg, parts, active);
    if k < |parts| && es[j].MbrEntry? && es[k].MbrEntry? {
      EntriesApart(cfg, parts, active, j, k);
    }
  }

  lemma EntriesApart(cfg: Config, parts: seq<Part>, active: nat, j: nat, k: nat)
    requires ConfigOk(cfg) && cfg.disk.Mbr? && |parts| <= 4 && MbrOf(cfg, parts, active).MbrTable? && j < k < |parts|
    requires var es := MbrOf(cfg, parts, active).entries; |es| == 4 && es[j].MbrEntry? && es[k].MbrEntry?
    ensures var es := MbrOf(cfg, parts, active).entries;
            es[j].start + es[j].length + cfg.disk.sectors <= es[k].start && !(es[j].active && es[k].active)
  {
    MbrEntriesAre(cfg, parts, active, j);
    MbrEntriesAre(cfg, parts, active, k);
    Disjoint(cfg, parts, 0, j, k);
  }

  /* Cylinders, heads and sectors */

  lemma ReadsIs(chs: Chs, heads: nat, sectors: nat, sect: int)
    ensures Reads(chs, heads, sectors, sect) <==> FromChs(chs, heads, sectors) == sect
  {
  }

  lemma PackedOnDisk(sect: nat, heads: nat, sectors: nat)
    requires 1 <= heads <= 256 && 1 <= sectors <= 63
    ensures OnDisk(ToChs(sect, heads, sectors), heads, sectors)
  {
    var s, h := Remainder(sect, sectors) + 1, Remainder(Quotient(sect, sectors), heads);
    var c := Quotient(Quotient(sect, sectors), heads);
    var chs := ToChs(sect, heads, sectors);
    assert chs.b1 % 64 == s by {
      ChsBytes(s, c);
    }
    assert chs.b0 == h by {
      SmallByte(h);
    }
  }

  lemma SmallByte(x: nat)
    requires x < 256
    ensures ToByte(x) == x
  {
  }

  /** The three bytes name a head and a sector of the disk, and a reader finds the first and the last sector
      of the entry in them just when these are within the first 1024 cylinders. */
  lemma MbrPacked(cfg: Config, parts: seq<Part>, active: nat, i: nat)
    requires ConfigOk(cfg) && cfg.disk.Mbr? && cfg.disk.heads <= 256 && cfg.disk.sectors <= 63 && |parts| <= 4
    requires MbrOf(cfg, parts, active).MbrTable? && i < 4
    ensures var es, heads, sectors := MbrOf(cfg, parts, active).entries, cfg.disk.heads, cfg.disk.sectors;
            |es| == 4 && (es[i].MbrEntry? ==>
                            && es[i].length > 0
                            && OnDisk(es[i].chsStart, heads, sectors) && OnDisk(es[i].chsEnd, heads, sectors)
                            && (Reads(es[i].chsStart, heads, sectors, es[i].start) <==>
                                  es[i].start < 1024 * heads * sectors)
                            && (Reads(es[i].chsEnd, heads, sectors, es[i].start + es[i].length - 1) <==>
                                  es[i].start + es[i].length <= 1024 * heads * sectors))
  {
    var es, heads, sectors := MbrOf(cfg, parts, active).entries, cfg.disk.heads, cfg.disk.sectors;
    if es[i].MbrEntry? {
      var first, last := es[i].start, es[i].start + es[i].length - 1;
      PackedOnDisk(first, heads, sectors);
      PackedOnDisk(last, heads, sectors);
      ChsUndone(first, heads, sectors);
      ChsUndone(last, heads, sectors);
      ReadsIs(es[i].chsStart, heads, sectors, first);
      ReadsIs(es[i].chsEnd, heads, sectors, last);
    }
  }

  /* GUID partition tables */

  /** The first free sector before the entry of partition `k`, behind the header and the entry table. */
  function FreeSector(es: seq<Entry>, k: nat): nat
    requires k <= |es|
  {
    if k == 0 then 34
    else if es[k - 1].Entry? then es[k - 1].end + 1
    else FreeSector(es, k - 1)
  }

  /** The disk's GUID with another last byte, `n` further. */
  predicate GuidFrom(disk: seq<Byte>, n: nat, guid: seq<Byte>) {
    |disk| == 16 && |guid| == 16 && guid[..15] == disk[..15] && guid[15] == (disk[15] + n) % 256
  }

  ghost predicate GptEntryRight(cfg: Config, p: Part, free: nat, guid: seq<Byte>, i: nat, e: Entry) {
    && e.Entry? && StartsRight(cfg, p, free, e.start) && e.end + 1 == e.start + 2 * p.size
    && GuidFrom(guid, i + 1, e.guid) && !e.bios
  }

  /** There is a gap between the entry table and the first partition of the list. */
  predicate GapBefore(parts: seq<Part>, es: seq<Entry>) {
    parts != [] && parts[0].size > 0 && es != [] && es[0].Entry? && es[0].start > 34
  }

  /** Partitions that are not null-sized have entries. */
  ghost predicate PartsRight(cfg: Config, parts: seq<Part>, guid: seq<Byte>, es: seq<Entry>) {
    && |es| == 128 && |parts| < 128
    && forall i: nat {:trigger PartRight(cfg, parts, guid, es, i)} :: i < |parts| ==>
         PartRight(cfg, parts, guid, es, i)
  }

  ghost predicate PartRight(cfg: Config, parts: seq<Part>, guid: seq<Byte>, es: seq<Entry>, i: nat)
    requires i < |parts| && i < |es|
  {
    if parts[i].size > 0 then GptEntryRight(cfg, parts[i], FreeSector(es, i), guid, i, es[i])
    else es[i] == Empty && cfg.ignoreNull
  }

  /** A gap before the first partition has the last entry; the other entries are empty. */
  ghost predicate RestRight(parts: seq<Part>, guid: seq<Byte>, es: seq<Entry>) {
    && |es| == 128
    && (forall i: nat {:trigger es[i]} :: |parts| <= i < 127 ==> es[i] == Empty)
    && if GapBefore(parts, es) then
         && es[127].Entry? && es[127].start == 34 && es[127].end + 1 == es[0].start
         && GuidFrom(guid, 128, es[127].guid) && es[127].bios
       else es[127] == Empty
  }

  /** The usable sectors go from behind the table to the last partition, and the second table follows. */
  predicate HeaderRight(parts: seq<Part>, t: GptTable) {
    && t.GptTable? && |parts| <= |t.entries|
    && t.header.firstUsable == 34 && t.header.lastUsable + 1 == FreeSector(t.entries, |parts|)
    && t.header.alternate == t.header.lastUsable + 33 && t.protective + 1 == t.header.alternate
  }

  ghost predicate GptRight(cfg: Config, parts: seq<Part>, guid: seq<Byte>, t: GptTable) {
    && t.GptTable? && PartsRight(cfg, parts, guid, t.entries) && RestRight(parts, guid, t.entries)
    && HeaderRight(parts, t)
  }

  lemma GptEntriesAre(cfg: Config, parts: seq<Part>, guid: seq<Byte>, i: nat)
    requires ConfigOk(cfg) && cfg.disk.Gpt? && |guid| == 16 && |parts| < 128
    requires GptOf(cfg, parts, guid).GptTable? && i < |parts|
    ensures var slots, es := Place(cfg, parts, GPT_FIRST_USABLE).slots, GptOf(cfg, parts, guid).entries;
            && |slots| == |parts| && |es| == 128
            && if slots[i].Placed? then
                 && es[i].Entry? && es[i].start == slots[i].start && es[i].end + 1 == slots[i].next && !es[i].bios
                 && GuidFrom(guid, i + 1, es[i].guid)
               else es[i] == Empty
  {
    AllPlaced(cfg, parts, GPT_FIRST_USABLE);
    Disjoint(cfg, parts, GPT_FIRST_USABLE, i, i);
  }

  lemma {:induction false} SameFreeSector(es: seq<Entry>, slots: seq<Slot>, k: nat)
    requires k <= |es| && k <= |slots|
    requires forall i :: 0 <= i < k ==>
               if slots[i].Placed? then es[i].Entry? && es[i].end + 1 == slots[i].next else es[i] == Empty
    ensures FreeSector(es, k) == Free(slots, 34, k)
  {
    if k > 0 {
      SameFreeSector(es, slots, k - 1);
    }
  }

  lemma GptFree(cfg: Config, parts: seq<Part>, guid: seq<Byte>, k: nat)
    requires ConfigOk(cfg) && cfg.disk.Gpt? && |guid| == 16 && |parts| < 128
    requires GptOf(cfg, parts, guid).GptTable? && k <= |parts|
    ensures var slots, es := Place(cfg, parts, GPT_FIRST_USABLE).slots, GptOf(cfg, parts, guid).entries;
            |slots| == |parts| && |es| == 128 && FreeSector(es, k) == Free(slots, 34, k)
  {
    var slots, es := Place(cfg, parts, GPT_FIRST_USABLE).slots, GptOf(cfg, parts, guid).entries;
    AllPlaced(cfg, parts, GPT_FIRST_USABLE);
    forall i: nat | i < k
      ensures if slots[i].Placed? then es[i].Entry? && es[i].end + 1 == slots[i].next else es[i] == Empty
    {
      GptEntriesAre(cfg, parts, guid, i);
    }
    SameFreeSector(es, slots, k);
  }

  lemma GptPartRight(cfg: Config, parts: seq<Part>, guid: seq<Byte>, i: nat)
    requires ConfigOk(cfg) && cfg.disk.Gpt? && |guid| == 16 && |parts| < 128
    requires GptOf(cfg, parts, guid).GptTable? && i < |parts|
    ensures var es := GptOf(cfg, parts, guid).entries;
            |es| == 128 && PartRight(cfg, parts, guid, es, i)
  {
    var slots := Place(cfg, parts, GPT_FIRST_USABLE).slots;
    AllPlaced(cfg, parts, GPT_FIRST_USABLE);
    GptEntriesAre(cfg, parts, guid, i);
    GptFree(cfg, parts, guid, i);
    assert PlacedRight(cfg, parts[i], slots[i], Free(slots, 34, i));
  }

  lemma GptPartsRight(cfg: Config, parts: seq<Part>, guid: seq<Byte>)
    requires ConfigOk(cfg) && cfg.disk.Gpt? && |guid| == 16 && |parts| < 128 && GptOf(cfg, parts, guid).GptTable?
    ensures PartsRight(cfg, parts, guid, GptOf(cfg, parts, guid).entries)
  {
    var es := GptOf(cfg, parts, guid).entries;
    GptFree(cfg, parts, guid, 0);
    forall i: nat | i < |parts|
      ensures PartRight(cfg, parts, guid, es, i)
    {
      GptPartRight(cfg, parts, guid, i);
    }
  }

  lemma GptRestRight(cfg: Config, parts: seq<Part>, guid: seq<Byte>)
    requires ConfigOk(cfg) && cfg.disk.Gpt? && |guid| == 16 && |parts| < 128 && GptOf(cfg, parts, guid).GptTable?
    ensures RestRight(parts, guid, GptOf(cfg, parts, guid).entries)
  {
    var slots, es := Place(cfg, parts, GPT_FIRST_USABLE).slots, GptOf(cfg, parts, guid).entries;
    AllPlaced(cfg, parts, GPT_FIRST_USABLE);
    assert es[127] == GptEntry(slots, guid, 127);
    if parts != [] {
      GptEntriesAre(cfg, parts, guid, 0);
      assert PlacedRight(cfg, parts[0], slots[0], Free(slots, 34, 0));
    }
  }

  lemma GptHeaderRight(cfg: Config, parts: seq<Part>, guid: seq<Byte>)
    requires ConfigOk(cfg) && cfg.disk.Gpt? && |guid| == 16 && |parts| < 128 && GptOf(cfg, parts, guid).GptTable?
    ensures HeaderRight(parts, GptOf(cfg, parts, guid))
  {
    AllPlaced(cfg, parts, GPT_FIRST_USABLE);
    GptFree(cfg, parts, guid, |parts|);
  }

  /** The entries and the header of a generated table are right. */
  lemma GptTableRight(cfg: Config, parts: seq<Part>, guid: seq<Byte>)
    requires ConfigOk(cfg) && cfg.disk.Gpt? && |guid| == 16 && |parts| < 128 && GptOf(cfg, parts, guid).GptTable?
    ensures GptRight(cfg, parts, guid, GptOf(cfg, parts, guid))
  {
    GptPartsRight(cfg, parts, guid);
    GptRestRight(cfg, parts, guid);
    GptHeaderRight(cfg, parts, guid);
  }

  /** A table is generated just when there is one that is right. */
  lemma GptAcceptedExactly(cfg: Config, parts: seq<Part>, guid: seq<Byte>)
    requires ConfigOk(cfg) && cfg.disk.Gpt? && |guid| == 16 && |parts| < 128
    ensures GptOf(cfg, parts, guid).GptTable? <==> exists t :: GptRight(cfg, parts, guid, t)
  {
    if GptOf(cfg, parts, guid).GptTable? {
      GptTableRight(cfg, parts, guid);
    }
    if t :| GptRight(cfg, parts, guid, t) {
      GptRightAccepted(cfg, parts, guid, t);
    }
  }

  lemma GptRightAccepted(cfg: Config, parts: seq<Part>, guid: seq<Byte>, t: GptTable)
    requires ConfigOk(cfg) && cfg.disk.Gpt? && |guid| == 16 && GptRight(cfg, parts, guid, t)
    ensures GptOf(cfg, parts, guid).GptTable?
  {
    var es := t.entries;
    var slots := seq<Slot>(|parts|, i requires 0 <= i < 127 && |es| == 128 =>
      if es[i].Entry? then Placed(es[i].start, es[i].end + 1) else Skipped);
    forall k {:trigger PlacedRight(cfg, parts[k], slots[k], Free(slots, 34, k))} | 0 <= k < |parts|
      ensures PlacedRight(cfg, parts[k], slots[k], Free(slots, 34, k))
    {
      SameFreeSector(es, slots, k);
      assert PartRight(cfg, parts, guid, es, k);
    }
    RightIsPlaced(cfg, parts, slots, GPT_FIRST_USABLE);
    AllPlaced(cfg, parts, GPT_FIRST_USABLE);
    InOrderAll(cfg, parts, slots, GPT_FIRST_USABLE);
    FreeGrows(slots, Gap(cfg), GPT_FIRST_USABLE, 0, |parts|);
  }
}
