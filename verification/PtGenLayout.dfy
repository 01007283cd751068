/** Where the partition table generator puts partitions, in sectors of 512 bytes. */
module PtGenLayout {
  import opened PtGenChs

  /** Start and size as given, in kilobytes; start 0 asks for the next free position. */
  datatype Part = Part(start: nat, size: nat)

  datatype Disk = Gpt | Mbr(heads: nat, sectors: nat)

  /** `align` is the alignment in sectors, 0 for none. */
  datatype Config = Config(disk: Disk, align: nat, ignoreNull: bool)

  predicate ConfigOk(cfg: Config) { cfg.disk.Mbr? ==> cfg.disk.heads > 0 && cfg.disk.sectors > 0 }

  /** A partition occupies the sectors from `start` up to `next`, which is the first free one. */
  datatype Slot = Skipped | Placed(start: nat, next: nat)

  datatype Position = TooLow | At(sect: nat)

  datatype Layout = Rejected | Accepted(slots: seq<Slot>, sect: nat)

  const GPT_SIZE: nat := 32
  const GPT_FIRST_USABLE: nat := 34

  /* Rounding */

  function RoundToCyl(sect: nat, cyl: nat): nat
    requires cyl > 0
  {
    sect + cyl - Remainder(sect, cyl)
  }

  function RoundToKb(sect: nat, align: nat): nat
    requires sect > 0 && align > 0
  {
    (Quotient(sect - 1, align) + 1) * align
  }

  ghost predicate Multiple(x: nat, d: nat) { exists k: nat :: x == k * d }

  /** The result is the next multiple strictly above: a position on a boundary moves by a whole cylinder. */
  lemma RoundsToCyl(sect: nat, cyl: nat)
    requires cyl > 0
    ensures Multiple(RoundToCyl(sect, cyl), cyl) && sect < RoundToCyl(sect, cyl) <= sect + cyl
    ensures Multiple(sect, cyl) ==> RoundToCyl(sect, cyl) == sect + cyl
  {
    var q, r := Quotient(sect, cyl), Remainder(sect, cyl);
    assert RoundToCyl(sect, cyl) == (q + 1) * cyl;
    if k: nat :| sect == k * cyl {
      SameQuotient(k, q, r, cyl);
    }
  }

  lemma SameQuotient(k: nat, q: nat, r: nat, d: nat)
    requires d > 0 && r < d && k * d == q * d + r
    ensures k == q && r == 0
  {
    if k > q {
      MulAtMost(q + 1, k, d);
    } else if k < q {
      MulLess(k, q, d);
    }
  }

  /** The result is the first multiple that is not below. */
  lemma RoundsToKb(sect: nat, align: nat)
    requires sect > 0 && align > 0
    ensures Multiple(RoundToKb(sect, align), align) && sect <= RoundToKb(sect, align) < sect + align
  {
    var q, r := Quotient(sect - 1, align), Remainder(sect - 1, align);
    assert RoundToKb(sect, align) == q * align + align;
  }

  /* Placement */

  /** Free sectors demanded before each partition: a track on an MBR disk. */
  function Gap(cfg: Config): nat { if cfg.disk.Mbr? then cfg.disk.sectors else 0 }

  function Cylinder(cfg: Config): nat
    requires ConfigOk(cfg) && cfg.disk.Mbr?
    ensures Cylinder(cfg) > 0
  {
    Product(cfg.disk.heads, cfg.disk.sectors)
  }

  function Product(a: nat, b: nat): (c: nat)
    requires a > 0 && b > 0
    ensures c > 0
  {
    a * b
  }

  /** Where a partition starts when the sectors from `sect` on are free. */
  function Start(cfg: Config, p: Part, sect: nat): Position
    requires ConfigOk(cfg) && sect + Gap(cfg) > 0
  {
    var first := sect + Gap(cfg);
    if p.start != 0 then (if p.start * 2 < first then TooLow else At(p.start * 2))
    else if cfg.align != 0 then At(RoundToKb(first, cfg.align))
    else At(first)
  }

  /** The first free sector behind a partition. */
  function Behind(cfg: Config, p: Part, start: nat): nat
    requires ConfigOk(cfg)
  {
    var end := start + p.size * 2;
    if cfg.disk.Mbr? && cfg.align == 0 then RoundToCyl(end, Cylinder(cfg)) else end
  }

  function Place(cfg: Config, parts: seq<Part>, sect: nat): Layout
    requires ConfigOk(cfg) && sect + Gap(cfg) > 0
    decreases |parts|
  {
    if parts == [] then Accepted([], sect)
    else if parts[0].size == 0 then
      if cfg.ignoreNull then
        match Place(cfg, parts[1..], sect)
        case Rejected => Rejected
        case Accepted(slots, end) => Accepted([Skipped] + slots, end)
      else Rejected
    else
      match Start(cfg, parts[0], sect)
      case TooLow => Rejected
      case At(start) =>
        var next := Behind(cfg, parts[0], start);
        match Place(cfg, parts[1..], next)
        case Rejected => Rejected
        case Accepted(slots, end) => Accepted([Placed(start, next)] + slots, end)
  }

  /* What the layouts keep */

  /** The first free sector before slot `k`, when the sectors from `sect` on were free at first. */
  function Free(slots: seq<Slot>, sect: nat, k: nat): nat
    requires k <= |slots|
  {
    if k == 0 then sect
    else if slots[k - 1].Placed? then slots[k - 1].next else Free(slots, sect, k - 1)
  }

  /** A partition lies behind what was free before it, with the gap. */
  predicate InOrder(slot: Slot, gap: nat, free: nat) { slot.Placed? ==> free + gap <= slot.start < slot.next }

  /** A partition lies behind what was free before it, where it was asked for or at the first suitable
      place, and has the size it was asked for, up to the end of the cylinder on an unaligned MBR disk. */
  ghost predicate PlacedRight(cfg: Config, p: Part, slot: Slot, free: nat)
    requires ConfigOk(cfg)
  {
    if p.size == 0 then slot == Skipped && cfg.ignoreNull
    else
      && slot.Placed? && InOrder(slot, Gap(cfg), free)
      && (if p.start != 0 then slot.start == 2 * p.start
          else if cfg.align != 0 then Multiple(slot.start, cfg.align) && slot.start < free + Gap(cfg) + cfg.align
          else slot.start == free + Gap(cfg))
      && (if cfg.disk.Mbr? && cfg.align == 0
          then Multiple(slot.next, Cylinder(cfg)) &&
              slot.start + 2 * p.size < slot.next <= slot.start + 2 * p.size + Cylinder(cfg)
          else slot.next == slot.start + 2 * p.size)
  }

  lemma OnePlaced(cfg: Config, p: Part, sect: nat)
    requires ConfigOk(cfg) && sect + Gap(cfg) > 0 && p.size > 0 && Start(cfg, p, sect).At?
    ensures var start := Start(cfg, p, sect).sect; PlacedRight(cfg, p, Placed(start, Behind(cfg, p, start)), sect)
  {
    var first, start := sect + Gap(cfg), Start(cfg, p, sect).sect;
    if p.start == 0 && cfg.align != 0 {
      RoundsToKb(first, cfg.align);
    }
    if cfg.disk.Mbr? && cfg.align == 0 {
      RoundsToCyl(start + p.size * 2, Cylinder(cfg));
    }
  }

  lemma {:induction false} FreeShift(slot: Slot, slots: seq<Slot>, sect: nat, k: nat)
    requires 0 < k <= |slots| + 1
    ensures Free([slot] + slots, sect, k) == Free(slots, if slot.Placed? then slot.next else sect, k - 1)
  {
    if k > 1 {
      assert ([slot] + slots)[k - 1] == slots[k - 2];
      FreeShift(slot, slots, sect, k - 1);
    } else {
      assert ([slot] + slots)[0] == slot;
    }
  }

  /** All partitions are placed right. */
  ghost predicate Right(cfg: Config, parts: seq<Part>, slots: seq<Slot>, sect: nat)
    requires ConfigOk(cfg)
  {
    |slots| == |parts| && forall k {:trigger PlacedRight(cfg, parts[k], slots[k], Free(slots, sect, k))} ::
      0 <= k < |parts| ==> PlacedRight(cfg, parts[k], slots[k], Free(slots, sect, k))
  }

  lemma RightShift(cfg: Config, parts: seq<Part>, slot: Slot, slots: seq<Slot>, sect: nat)
    requires ConfigOk(cfg) && parts != [] && PlacedRight(cfg, parts[0], slot, sect)
    requires Right(cfg, parts[1..], slots, if slot.Placed? then slot.next else sect)
    ensures Right(cfg, parts, [slot] + slots, sect)
  {
    var all, next := [slot] + slots, if slot.Placed? then slot.next else sect;
    forall k {:trigger PlacedRight(cfg, parts[k], all[k], Free(all, sect, k))} | 0 <= k < |parts|
      ensures PlacedRight(cfg, parts[k], all[k], Free(all, sect, k))
    {
      if k > 0 {
        FreeShift(slot, slots, sect, k);
        assert PlacedRight(cfg, parts[1..][k - 1], slots[k - 1], Free(slots, next, k - 1));
      }
    }
  }

  /** In an accepted layout every partition is placed right, and what is free at the end lies behind all. */
  lemma {:induction false} AllPlaced(cfg: Config, parts: seq<Part>, sect: nat)
    requires ConfigOk(cfg) && sect + Gap(cfg) > 0 && Place(cfg, parts, sect).Accepted?
    ensures var l := Place(cfg, parts, sect); Right(cfg, parts, l.slots, sect) && l.sect == Free(l.slots, sect, |parts|)
    decreases |parts|
  {
    if parts != [] {
      var l := Place(cfg, parts, sect);
      var slot := l.slots[0];
      var next := if slot.Placed? then slot.next else sect;
      assert PlacedRight(cfg, parts[0], slot, sect) by {
        if parts[0].size > 0 {
          OnePlaced(cfg, parts[0], sect);
        }
      }
      var rest := Place(cfg, parts[1..], next);
      assert rest.Accepted? && l.slots == [slot] + rest.slots && l.sect == rest.sect;
      AllPlaced(cfg, parts[1..], next);
      RightShift(cfg, parts, slot, rest.slots, sect);
      FreeShift(slot, rest.slots, sect, |parts|);
    }
  }

  ghost predicate AllInOrder(slots: seq<Slot>, gap: nat, sect: nat) {
    forall i {:trigger InOrder(slots[i], gap, Free(slots, sect, i))} ::
      0 <= i < |slots| ==> InOrder(slots[i], gap, Free(slots, sect, i))
  }

  /** What is free grows. */
  lemma {:induction false} FreeGrows(slots: seq<Slot>, gap: nat, sect: nat, j: nat, k: nat)
    requires j <= k <= |slots|
    requires AllInOrder(slots, gap, sect)
    ensures Free(slots, sect, j) <= Free(slots, sect, k)
    decreases k - j
  {
    if j < k {
      FreeGrows(slots, gap, sect, j, k - 1);
      assert InOrder(slots[k - 1], gap, Free(slots, sect, k - 1));
    }
  }

  lemma InOrderAll(cfg: Config, parts: seq<Part>, slots: seq<Slot>, sect: nat)
    requires ConfigOk(cfg) && Right(cfg, parts, slots, sect)
    ensures AllInOrder(slots, Gap(cfg), sect)
  {
    forall i {:trigger InOrder(slots[i], Gap(cfg), Free(slots, sect, i))} | 0 <= i < |slots|
      ensures InOrder(slots[i], Gap(cfg), Free(slots, sect, i))
    {
      assert PlacedRight(cfg, parts[i], slots[i], Free(slots, sect, i));
    }
  }

  /** In every accepted layout the partitions increase and are pairwise disjoint, with the demanded gap
      before each, and lie between the first sector and the end. */
  lemma Disjoint(cfg: Config, parts: seq<Part>, sect: nat, j: nat, k: nat)
    requires ConfigOk(cfg) && sect + Gap(cfg) > 0 && Place(cfg, parts, sect).Accepted?
    requires j < |parts| && k < |parts|
    ensures var l := Place(cfg, parts, sect);
            && |l.slots| == |parts|
            && (l.slots[k].Placed? ==> sect + Gap(cfg) <= l.slots[k].start < l.slots[k].next <= l.sect)
            && (j < k && l.slots[j].Placed? && l.slots[k].Placed? ==> l.slots[j].next + Gap(cfg) <= l.slots[k].start)
  {
    AllPlaced(cfg, parts, sect);
    var slots := Place(cfg, parts, sect).slots;
    InOrderAll(cfg, parts, slots, sect);
    Between(slots, Gap(cfg), sect, k);
    if j < k {
      Between(slots, Gap(cfg), sect, j);
      FreeGrows(slots, Gap(cfg), sect, j + 1, k);
    }
  }

  /** A partition lies between what was free at first and what is free at the end. */
  lemma Between(slots: seq<Slot>, gap: nat, sect: nat, k: nat)
    requires k < |slots| && AllInOrder(slots, gap, sect)
    ensures slots[k].Placed? ==>
              && sect + gap <= Free(slots, sect, k) + gap <= slots[k].start < slots[k].next <= Free(slots, sect,
                    |slots|)
              && Free(slots, sect, k + 1) == slots[k].next
  {
    assert InOrder(slots[k], gap, Free(slots, sect, k));
    FreeGrows(slots, gap, sect, 0, k);
    FreeGrows(slots, gap, sect, k + 1, |slots|);
  }

  /** The packed bytes of the first and the last sector of a partition determine them. */
  predicate PackedOk(disk: Disk, slot: Slot)
    requires disk.Mbr? && disk.heads > 0 && disk.sectors > 0 && slot.Placed? && slot.start < slot.next
  {
    && FromChs(ToChs(slot.start, disk.heads, disk.sectors), disk.heads, disk.sectors) == slot.start
    && FromChs(ToChs(slot.next - 1, disk.heads, disk.sectors), disk.heads, disk.sectors) == slot.next - 1
  }

  /** On an MBR disk every partition has a track before it; without alignment it ends on a cylinder
      boundary; and its packed bytes determine it just when it ends within the first 1024 cylinders. */
  lemma MbrPartition(cfg: Config, parts: seq<Part>, k: nat)
    requires ConfigOk(cfg) && cfg.disk.Mbr? && k < |parts| && Place(cfg, parts, 0).Accepted?
    requires |Place(cfg, parts, 0).slots| == |parts| && Place(cfg, parts, 0).slots[k].Placed?
    ensures var slot := Place(cfg, parts, 0).slots[k];
            && cfg.disk.sectors <= slot.start < slot.next
            && (cfg.align == 0 ==> Multiple(slot.next, Cylinder(cfg)))
            && (cfg.disk.heads <= 256 && cfg.disk.sectors <= 63 ==>
                  (PackedOk(cfg.disk, slot) <==> slot.next <= 1024 * cfg.disk.heads * cfg.disk.sectors))
  {
    var slots := Place(cfg, parts, 0).slots;
    assert PlacedRight(cfg, parts[k], slots[k], Free(slots, 0, k)) by {
      AllPlaced(cfg, parts, 0);
    }
    assert cfg.disk.sectors <= slots[k].start < slots[k].next by {
      Disjoint(cfg, parts, 0, k, k);
    }
    if cfg.disk.heads <= 256 && cfg.disk.sectors <= 63 {
      ChsUndone(slots[k].start, cfg.disk.heads, cfg.disk.sectors);
      ChsUndone(slots[k].next - 1, cfg.disk.heads, cfg.disk.sectors);
    }
  }
}
