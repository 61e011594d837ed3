/** The partition layout of make-fuchsia-vol: each partition is placed after the one before it by
    an alignment computation on block addresses. Sizes are far below 2^63, so the arithmetic is
    that of the natural numbers. */
module GptLayout {

  /** Byte sizes of the disk's blocks, and what is asked for. */
  datatype Config = Config(logical: nat, physical: nat, optimal: nat, firstUsable: nat, lastUsable: nat,
                           efiSize: nat, abr: bool, abrSize: nat, fvmSize: nat, ramdiskOnly: bool)

  /** Both block addresses belong to the partition. */
  datatype Partition = Partition(start: nat, end: nat)

  /** Quotient and remainder of natural numbers, by taking away; DivModExact ties them to `/` and `%`. */
  function Div(a: nat, b: nat): nat
    requires b > 0
    decreases a
  {
    if a < b then 0 else Div(a - b, b) + 1
  }

  function Mod(a: nat, b: nat): (r: nat)
    requires b > 0
    ensures r < b
    decreases a
  {
    if a < b then a else Mod(a - b, b)
  }

  /** The greatest of the three block sizes. */
  function AlignTo(c: Config): (a: nat)
    ensures a >= c.logical && a >= c.physical && a >= c.optimal
    ensures a in {c.logical, c.physical, c.optimal}
  {
    var a := if c.physical > c.logical then c.physical else c.logical;
    if c.optimal > a then c.optimal else a
  }

  /** The alignment in logical blocks. */
  function BlockAlign(c: Config): (l: nat)
    requires c.logical > 0
    ensures l > 0
  {
    Div(AlignTo(c), c.logical)
  }

  /** The block range for `byteSize` bytes at or after `first`, as the tool computes it: an address
      that is already aligned gives zero, and a whole number of blocks gets one more. */
  function Place(c: Config, first: nat, byteSize: nat): Partition
    requires c.logical > 0
  {
    var l := BlockAlign(c);
    var d := Mod(first, l);
    var start := if d != 0 then first + l - d else 0;
    Partition(start, start + Blocks(c, byteSize))
  }

  function Blocks(c: Config, byteSize: nat): nat
    requires c.logical > 0
  {
    Div(byteSize, c.logical) + if Mod(byteSize, c.logical) == 0 then 1 else 0
  }

  const SIZE_ALIGNMENT: int := 32256
  const TWO_TO_THE_63: int := 0x8000_0000_0000_0000
  const TWO_TO_THE_64: int := 0x1_0000_0000_0000_0000

  function ToUint64(x: int): nat {
    if x >= 0 then x else x % TWO_TO_THE_64
  }

  /** Shrinks to a whole number of FAT tracks; Go's remainder has the sign of the dividend. */
  function FitFat(total: int): (r: int)
    ensures r % SIZE_ALIGNMENT == 0
    ensures total >= 0 ==> r >= 0 && total - SIZE_ALIGNMENT < r <= total
    ensures total < 0 ==> total <= r < total + SIZE_ALIGNMENT
  {
    if total >= 0 then total / SIZE_ALIGNMENT * SIZE_ALIGNMENT else -((-total) / SIZE_ALIGNMENT * SIZE_ALIGNMENT)
  }

  /** `fatEnd` is the last block of the FAT geometry in the EFI partition. */
  datatype Layout = Layout(partitions: seq<Partition>, fatSize: int, fatEnd: int)

  function EfiPart(c: Config): Partition
    requires c.logical > 0
  {
    Place(c, c.firstUsable, c.efiSize)
  }

  /** The A, B and R partitions, after a partition ending at `end`. */
  function AbrParts(c: Config, end: nat): seq<Partition>
    requires c.logical > 0
  {
    if !c.abr then []
    else
      var a := Place(c, end, c.abrSize);
      var b := Place(c, a.end, c.abrSize);
      var r := Place(c, b.end, c.abrSize);
      [a, b, r]
  }

  function FvmPart(c: Config, end: nat): Partition
    requires c.logical > 0
  {
    var p := Place(c, end + 1, c.fvmSize);
    if c.fvmSize == 0 then p.(end := c.lastUsable) else p
  }

  function Last(ps: seq<Partition>): Partition
    requires ps != []
  {
    ps[|ps| - 1]
  }

  function FatSize(c: Config, efi: Partition): int {
    FitFat((efi.end - 1 - efi.start) * c.logical)
  }

  function FatEnd(c: Config, efi: Partition): int
    requires c.logical > 0
  {
    efi.start + Div(ToUint64(FatSize(c, efi)), c.logical) - 1
  }

  function LayoutOf(c: Config): Layout
    requires c.logical > 0
  {
    var efi := EfiPart(c);
    var ps := [efi] + AbrParts(c, efi.end);
    Layout(if c.ramdiskOnly then ps else ps + [FvmPart(c, Last(ps).end)],
           FatSize(c, efi), FatEnd(c, efi))
  }

  /** The part of `main` that threads the end of the last partition through the chain. */
  method MakeLayout(c: Config) returns (layout: Layout)
    requires c.logical > 0
    ensures layout == LayoutOf(c)
  {
    var ps := [];
    var p := Place(c, c.firstUsable, c.efiSize);
    var efiStart, end := p.start, p.end;
    var fatSize := FitFat((end - 1 - efiStart) * c.logical);
    var fatEnd := efiStart + Div(ToUint64(fatSize), c.logical) - 1;
    ps := ps + [Partition(efiStart, end)];
    if c.abr {
      p := Place(c, end, c.abrSize);
      end := p.end;
      ps := ps + [p];
      p := Place(c, end, c.abrSize);
      end := p.end;
      ps := ps + [p];
      p := Place(c, end, c.abrSize);
      end := p.end;
      ps := ps + [p];
    }
    p := Place(c, end + 1, c.fvmSize);
    end := p.end;
    if !c.ramdiskOnly {
      if c.fvmSize == 0 {
        end := c.lastUsable;
      }
      ps := ps + [Partition(p.start, end)];
    }
    layout := Layout(ps, fatSize, fatEnd);
  }

  // ------------------------------------------------------------------ what a layout has to be

  ghost predicate Aligned(c: Config, p: Partition)
    requires c.logical > 0
  {
    Mod(p.start, BlockAlign(c)) == 0
  }

  /** Aligned partitions from the first usable block on, in order and without a block in common. */
  ghost predicate Proper(c: Config, ps: seq<Partition>)
    requires c.logical > 0
  {
    && (forall i :: 0 <= i < |ps| ==> Aligned(c, ps[i]) && ps[i].start <= ps[i].end)
    && (forall i, j :: 0 <= i < j < |ps| ==> ps[i].end < ps[j].start)
    && (ps != [] ==> ps[0].start >= c.firstUsable)
  }

  function Capacity(c: Config, p: Partition): int {
    (p.end - p.start + 1) * c.logical
  }

  // ------------------------------------------------------------------ arithmetic

  lemma AtLeast(k: nat, l: nat)
    requires k >= 1
    ensures k * l >= l
  {
    Distribute(k - 1, 1, l);
  }

  lemma {:induction false} DivMod(a: nat, b: nat)
    requires b > 0
    ensures a == Div(a, b) * b + Mod(a, b)
    decreases a
  {
    if a >= b {
      DivMod(a - b, b);
      Distribute(Div(a - b, b), 1, b);
    }
  }

  lemma {:induction false} Remainder(q: nat, l: nat, r: nat)
    requires r < l
    ensures Mod(q * l + r, l) == r && Div(q * l + r, l) == q
    decreases q
  {
    if q > 0 {
      Distribute(q - 1, 1, l);
      Remainder(q - 1, l, r);
    }
  }

  lemma DivModExact(a: nat, b: nat)
    requires b > 0
    ensures Div(a, b) == a / b && Mod(a, b) == a % b
  {
    var q, r := a / b, a % b;
    Remainder(q, b, r);
    assert a == q * b + r;
  }

  lemma Distribute(a: nat, b: nat, l: nat)
    ensures (a + b) * l == a * l + b * l
  {
  }

  lemma Regroup(n: nat, l: nat, g: nat)
    ensures n * (l * g) == (n * l) * g
  {
  }

  lemma Whole(a: nat, g: nat)
    requires g > 0 && Mod(a, g) == 0
    ensures a == Div(a, g) * g && (a > 0 ==> Div(a, g) > 0)
  {
    DivMod(a, g);
  }

  /** Whole units before a block do not change its place in its unit. */
  lemma UnitsBefore(u: nat, b: nat, l: nat)
    requires l > 0
    ensures Mod(u * l + b, l) == Mod(b, l) && u * l + b == (u + Div(b, l)) * l + Mod(b, l)
  {
    DivMod(b, l);
    Distribute(u, Div(b, l), l);
    Remainder(u + Div(b, l), l, Mod(b, l));
  }

  // ------------------------------------------------------------------ one partition

  /** A partition holds the bytes asked for with less than a block to spare; with exactly two, if they are a whole
      number of blocks. */
  ghost predicate Holds(c: Config, p: Partition, size: nat)
    requires c.logical > 0
  {
    var spare := Capacity(c, p) - size;
    if Mod(size, c.logical) == 0 then spare == 2 * c.logical else 0 < spare < c.logical
  }

  /** Whatever the size, a partition holds it. */
  lemma PlaceHolds(c: Config, first: nat, size: nat)
    requires c.logical > 0
    ensures Holds(c, Place(c, first, size), size)
  {
    BlocksHold(c, Place(c, first, size), size);
  }

  lemma BlocksHold(c: Config, p: Partition, size: nat)
    requires c.logical > 0 && p.end == p.start + Blocks(c, size)
    ensures Holds(c, p, size)
  {
    var g, q := c.logical, Div(size, c.logical);
    DivMod(size, g);
    Distribute(q, 1, g);
    Distribute(q, 2, g);
    assert Capacity(c, p) == (Blocks(c, size) + 1) * g;
  }

  /** A partition of `size` bytes placed `b` blocks after the beginning of unit `u` starts at the next
      unit, unless these blocks are whole units: then it starts at block zero. */
  lemma PlaceAfter(c: Config, u: nat, b: nat, size: nat)
    requires c.logical > 0
    ensures var l := BlockAlign(c);
            Place(c, u * l + b, size).start == if Mod(b, l) != 0 then (u + Div(b, l) + 1) * l else 0
  {
    var l := BlockAlign(c);
    UnitsBefore(u, b, l);
    Distribute(u + Div(b, l), 1, l);
  }

  lemma NextIsBehind(u: nat, b: nat, l: nat)
    requires l > 0
    ensures u * l + b < (u + Div(b, l) + 1) * l
  {
    UnitsBefore(u, b, l);
    Distribute(u + Div(b, l), 1, l);
  }

  lemma StartAligned(c: Config, q: nat, p: Partition)
    requires c.logical > 0 && p.start == q * BlockAlign(c)
    ensures Aligned(c, p)
  {
    Remainder(q, BlockAlign(c), 0);
  }

  // ------------------------------------------------------------------ the chain

  /** The first usable block is not aligned, or is block zero. */
  predicate FirstOk(c: Config)
    requires c.logical > 0
  {
    Mod(c.firstUsable, BlockAlign(c)) != 0 || c.firstUsable == 0
  }

  /** After `blocks` blocks the next partition is not sent back to block zero. */
  predicate NextOk(c: Config, blocks: nat)
    requires c.logical > 0
  {
    Mod(blocks, BlockAlign(c)) != 0
  }

  /** The number of the unit that the EFI partition starts at, and of the next one after a number of
      blocks from the beginning of a unit. */
  function EfiUnit(c: Config): nat
    requires c.logical > 0
  {
    if c.firstUsable == 0 then 0 else Div(c.firstUsable, BlockAlign(c)) + 1
  }

  function UnitAfter(c: Config, u: nat, blocks: nat): nat
    requires c.logical > 0
  {
    u + Div(blocks, BlockAlign(c)) + 1
  }

  /** The partition of `blocks` blocks at the beginning of unit `u`. */
  function At(c: Config, u: nat, blocks: nat): Partition
    requires c.logical > 0
  {
    Partition(u * BlockAlign(c), u * BlockAlign(c) + blocks)
  }

  lemma EfiPlaced(c: Config)
    requires c.logical > 0
    ensures FirstOk(c) ==> EfiPart(c) == At(c, EfiUnit(c), Blocks(c, c.efiSize)) && EfiPart(c).start >= c.firstUsable
    ensures !FirstOk(c) ==> EfiPart(c).start == 0 < c.firstUsable
  {
    PlaceAfter(c, 0, c.firstUsable, c.efiSize);
    if c.firstUsable > 0 {
      NextIsBehind(0, c.firstUsable, BlockAlign(c));
    }
  }

  lemma NextPlaced(c: Config, u: nat, blocks: nat, size: nat)
    requires c.logical > 0
    ensures var p := Place(c, At(c, u, blocks).end, size);
            && (NextOk(c, blocks) ==> p == At(c, UnitAfter(c, u, blocks), Blocks(c, size)) && At(c, u, blocks).end < p.start)
            && (!NextOk(c, blocks) ==> p.start == 0)
  {
    PlaceAfter(c, u, blocks, size);
    NextIsBehind(u, blocks, BlockAlign(c));
  }

  lemma AtAligned(c: Config, u: nat, blocks: nat)
    requires c.logical > 0
    ensures Aligned(c, At(c, u, blocks)) && At(c, u, blocks).start <= At(c, u, blocks).end
  {
    StartAligned(c, u, At(c, u, blocks));
  }

  /** Appending to a proper chain. */
  lemma AppendProper(c: Config, ps: seq<Partition>, p: Partition)
    requires c.logical > 0 && ps != []
    ensures Proper(c, ps + [p]) <==> Proper(c, ps) && Aligned(c, p) && Last(ps).end < p.start <= p.end
  {
    var qs := ps + [p];
    assert qs[|ps|] == p && qs[|ps| - 1] == Last(ps);
    if Proper(c, ps) && Aligned(c, p) && Last(ps).end < p.start <= p.end {
      forall i, j | 0 <= i < j < |qs| ensures qs[i].end < qs[j].start {
        if j == |ps| && i < |ps| - 1 {
          assert ps[i].end < ps[|ps| - 1].start <= Last(ps).end;
        }
      }
    }
    if Proper(c, qs) {
      FrontProper(c, qs);
      assert qs[..|ps|] == ps;
    }
  }

  lemma FrontProper(c: Config, qs: seq<Partition>)
    requires c.logical > 0 && |qs| > 1 && Proper(c, qs)
    ensures Proper(c, qs[..|qs| - 1])
  {
  }

  /** A partition of `size` bytes appended right after a chain that ends with `blocks` blocks from the
      beginning of unit `u` keeps it proper if and only if it is not sent back to block zero. */
  lemma ChainStep(c: Config, ps: seq<Partition>, u: nat, blocks: nat, size: nat)
    requires c.logical > 0 && ps != [] && Proper(c, ps) && Last(ps) == At(c, u, blocks)
    ensures var p := Place(c, Last(ps).end, size);
            && (Proper(c, ps + [p]) <==> NextOk(c, blocks))
            && (NextOk(c, blocks) ==> p == At(c, UnitAfter(c, u, blocks), Blocks(c, size)))
  {
    var p := Place(c, Last(ps).end, size);
    NextPlaced(c, u, blocks, size);
    AppendProper(c, ps, p);
    if NextOk(c, blocks) {
      AtAligned(c, UnitAfter(c, u, blocks), Blocks(c, size));
    }
  }

  /** The chain of EFI, A, B and R as far as it goes. */
  function Chain(c: Config): seq<Partition>
    requires c.logical > 0
  {
    [EfiPart(c)] + AbrParts(c, EfiPart(c).end)
  }

  /** The condition on the chain; below, the size of its last partition and the unit that starts at. */
  predicate ChainOk(c: Config)
    requires c.logical > 0
  {
    FirstOk(c) && (c.abr ==> NextOk(c, Blocks(c, c.efiSize)) && NextOk(c, Blocks(c, c.abrSize)))
  }

  function LastSize(c: Config): nat {
    if c.abr then c.abrSize else c.efiSize
  }

  function LastUnit(c: Config): nat
    requires c.logical > 0
  {
    if !c.abr then EfiUnit(c)
    else
      var b := Blocks(c, c.abrSize);
      UnitAfter(c, UnitAfter(c, UnitAfter(c, EfiUnit(c), Blocks(c, c.efiSize)), b), b)
  }

  lemma EfiProper(c: Config)
    requires c.logical > 0
    ensures Proper(c, [EfiPart(c)]) <==> FirstOk(c)
    ensures FirstOk(c) ==> EfiPart(c) == At(c, EfiUnit(c), Blocks(c, c.efiSize))
  {
    EfiPlaced(c);
    if FirstOk(c) {
      AtAligned(c, EfiUnit(c), Blocks(c, c.efiSize));
    }
  }

  lemma AbrProper(c: Config)
    requires c.logical > 0 && c.abr && FirstOk(c)
    ensures Proper(c, Chain(c)) <==> ChainOk(c)
    ensures ChainOk(c) ==> Last(Chain(c)) == At(c, LastUnit(c), Blocks(c, c.abrSize))
  {
    var be, ba := Blocks(c, c.efiSize), Blocks(c, c.abrSize);
    var efi := EfiPart(c);
    var ps := AbrParts(c, efi.end);
    var p1, p2 := [efi, ps[0]], [efi, ps[0], ps[1]];
    EfiProper(c);
    ChainStep(c, [efi], EfiUnit(c), be, c.abrSize);
    assert p1 == [efi] + [ps[0]] && p2 == p1 + [ps[1]] && Chain(c) == p2 + [ps[2]];
    if NextOk(c, be) {
      var u := UnitAfter(c, EfiUnit(c), be);
      ChainStep(c, p1, u, ba, c.abrSize);
      if NextOk(c, ba) {
        ChainStep(c, p2, UnitAfter(c, u, ba), ba, c.abrSize);
      }
    }
    AppendProper(c, p1, ps[1]);
    AppendProper(c, p2, ps[2]);
  }

  /** For every configuration: EFI, A, B and R are proper if and only if the first usable block is not
      aligned and no partition before another one takes up whole units. */
  lemma ChainProper(c: Config)
    requires c.logical > 0
    ensures Proper(c, Chain(c)) <==> ChainOk(c)
    ensures ChainOk(c) ==> Last(Chain(c)) == At(c, LastUnit(c), Blocks(c, LastSize(c)))
  {
    EfiProper(c);
    if !c.abr {
      assert Chain(c) == [EfiPart(c)];
    } else if FirstOk(c) {
      AbrProper(c);
    } else {
      EfiPlaced(c);
      assert Chain(c)[0] == EfiPart(c);
    }
  }

  // ------------------------------------------------------------------ the FVM partition

  /** The number of the unit that the FVM partition starts at: it is placed one block further on. */
  function FvmUnit(c: Config): nat
    requires c.logical > 0
  {
    UnitAfter(c, LastUnit(c), Blocks(c, LastSize(c)) + 1)
  }

  /** An FVM partition that fills the disk starts before the last usable block. */
  predicate HasRoom(c: Config)
    requires c.logical > 0
  {
    c.fvmSize == 0 ==> FvmUnit(c) * BlockAlign(c) <= c.lastUsable
  }

  predicate FvmOk(c: Config)
    requires c.logical > 0
  {
    NextOk(c, Blocks(c, LastSize(c)) + 1) && HasRoom(c)
  }

  lemma FvmPlaced(c: Config)
    requires c.logical > 0 && ChainOk(c)
    ensures var p := FvmPart(c, Last(Chain(c)).end);
            && p.start == (if NextOk(c, Blocks(c, LastSize(c)) + 1) then FvmUnit(c) * BlockAlign(c) else 0)
            && (c.fvmSize > 0 ==> p.start <= p.end && Holds(c, p, c.fvmSize))
            && (c.fvmSize == 0 ==> p.end == c.lastUsable)
            && Last(Chain(c)).end < FvmUnit(c) * BlockAlign(c)
  {
    var u, b := LastUnit(c), Blocks(c, LastSize(c));
    ChainProper(c);
    PlaceAfter(c, u, b + 1, c.fvmSize);
    PlaceHolds(c, Last(Chain(c)).end + 1, c.fvmSize);
    NextIsBehind(u, b + 1, BlockAlign(c));
  }

  lemma FvmProper(c: Config)
    requires c.logical > 0 && ChainOk(c)
    ensures Proper(c, Chain(c) + [FvmPart(c, Last(Chain(c)).end)]) <==> FvmOk(c)
  {
    var p := FvmPart(c, Last(Chain(c)).end);
    ChainProper(c);
    FvmPlaced(c);
    AppendProper(c, Chain(c), p);
    if NextOk(c, Blocks(c, LastSize(c)) + 1) {
      StartAligned(c, FvmUnit(c), p);
    }
  }

  /** For every configuration, exactly when the layout is proper, that is aligned, in order and without
      overlaps: the first usable block is not aligned (an aligned one sends the EFI partition to block
      zero); with A, B and R neither the EFI partition's number of blocks nor theirs is a whole
      number of units; and with an FVM partition one more block than the last one's is none either,
      and there is room. */
  lemma ProperIff(c: Config)
    requires c.logical > 0
    ensures Proper(c, LayoutOf(c).partitions) <==> ChainOk(c) && (c.ramdiskOnly || FvmOk(c))
  {
    ChainProper(c);
    if !c.ramdiskOnly {
      if ChainOk(c) {
        FvmProper(c);
      } else {
        AppendProper(c, Chain(c), FvmPart(c, Last(Chain(c)).end));
      }
    }
  }

  // ------------------------------------------------------------------ what the partitions hold

  /** In every layout, proper or not, EFI, A, B, R and an FVM partition of a given size hold the bytes asked for, and
      little more; one of no given size ends with the last usable block. */
  lemma AllHold(c: Config)
    requires c.logical > 0
    ensures var ps := LayoutOf(c).partitions;
            && |ps| == 1 + (if c.abr then 3 else 0) + (if c.ramdiskOnly then 0 else 1)
            && Holds(c, ps[0], c.efiSize)
            && (c.abr ==> Holds(c, ps[1], c.abrSize) && Holds(c, ps[2], c.abrSize) && Holds(c, ps[3], c.abrSize))
            && (!c.ramdiskOnly && c.fvmSize > 0 ==> Holds(c, Last(ps), c.fvmSize))
            && (!c.ramdiskOnly && c.fvmSize == 0 ==> Last(ps).end == c.lastUsable)
  {
    var efi := EfiPart(c);
    var ps := AbrParts(c, efi.end);
    PlaceHolds(c, c.firstUsable, c.efiSize);
    if c.abr {
      PlaceHolds(c, efi.end, c.abrSize);
      PlaceHolds(c, ps[0].end, c.abrSize);
      PlaceHolds(c, ps[1].end, c.abrSize);
    }
    PlaceHolds(c, Last([efi] + ps).end + 1, c.fvmSize);
  }

  /** Where the FVM partition of a proper layout starts. */
  lemma FvmStart(c: Config)
    requires c.logical > 0 && !c.ramdiskOnly && Proper(c, LayoutOf(c).partitions)
    ensures Last(LayoutOf(c).partitions).start == FvmUnit(c) * BlockAlign(c)
  {
    ProperIff(c);
    FvmPlaced(c);
  }

  lemma FatBlocks(c: Config)
    requires c.logical > 0
    ensures var efi := EfiPart(c);
            && efi.end == efi.start + Blocks(c, c.efiSize)
            && FatSize(c, efi) == FitFat((Blocks(c, c.efiSize) - 1) * c.logical)
  {
    FatOf(c, EfiPart(c), Blocks(c, c.efiSize));
  }

  lemma FatOf(c: Config, efi: Partition, blocks: nat)
    requires efi.end == efi.start + blocks
    ensures FatSize(c, efi) == FitFat((blocks - 1) * c.logical)
  {
    assert efi.end - 1 - efi.start == blocks - 1;
  }

  lemma FewerBlocks(size: nat, blocks: nat, logical: nat)
    requires logical > 0 && size <= blocks * logical
    ensures Div(size, logical) <= blocks
  {
    var k := Div(size, logical);
    DivMod(size, logical);
    if k > blocks {
      AtLeast(k - blocks, logical);
      Distribute(blocks, k - blocks, logical);
    }
  }

  /** The bytes that the FAT geometry is fitted into, if the EFI partition has a block beyond its first. */
  lemma FatRoom(c: Config, size: nat)
    requires c.logical > 0 && Blocks(c, size) > 0
    ensures var room := (Blocks(c, size) - 1) * c.logical;
            && 0 <= room <= size < room + 2 * c.logical
            && (Mod(size, c.logical) == 0 ==> room == size)
  {
    var g, q := c.logical, Div(size, c.logical);
    DivMod(size, g);
    if Mod(size, g) != 0 {
      Distribute(q - 1, 1, g);
    }
  }

  /** The FAT geometry is a whole number of tracks, no more than was asked for, and less than a track
      and two blocks short of it; with a size in whole blocks, less than a track. */
  lemma FatFits(c: Config)
    requires c.logical > 0
    ensures var fat := LayoutOf(c).fatSize;
            && fat % (63 * 512) == 0
            && c.efiSize - 2 * c.logical - 63 * 512 < fat <= c.efiSize
            && (Mod(c.efiSize, c.logical) == 0 ==> c.efiSize - 63 * 512 < fat)
  {
    FatBlocks(c);
    if Blocks(c, c.efiSize) > 0 {
      FatRoom(c, c.efiSize);
    } else {
      SmallSize(c.efiSize, c.logical);
      assert (0 - 1) * c.logical == 0 - c.logical;
    }
  }

  /** The last block of the FAT geometry is the last one that it fills. */
  lemma FatEndIs(c: Config)
    requires c.logical > 0 && LayoutOf(c).fatSize >= 0
    ensures var layout := LayoutOf(c);
            var blocks := layout.fatEnd + 1 - EfiPart(c).start;
            blocks * c.logical <= layout.fatSize < (blocks + 1) * c.logical
  {
    var fat := LayoutOf(c).fatSize;
    DivMod(fat, c.logical);
    Distribute(Div(fat, c.logical), 1, c.logical);
    assert LayoutOf(c).fatEnd + 1 - EfiPart(c).start == Div(fat, c.logical);
  }

  lemma SmallSize(size: nat, logical: nat)
    requires logical > 0 && Div(size, logical) == 0
    ensures size < logical && (Mod(size, logical) == 0 ==> size == 0)
  {
    DivMod(size, logical);
  }

  /** For all block sizes, exactly when the FAT geometry ends inside the EFI partition: the partition
      has a block beyond its first one, or a block is smaller than a track. */
  lemma FatInsideIff(c: Config)
    requires 0 < c.logical <= TWO_TO_THE_63
    ensures var layout := LayoutOf(c);
            EfiPart(c).start - 1 <= layout.fatEnd < EfiPart(c).end <==>
              Blocks(c, c.efiSize) > 0 || c.logical < 63 * 512
  {
    var b := Blocks(c, c.efiSize);
    FatBlocks(c);
    if b > 0 {
      FatRoom(c, c.efiSize);
      FewerBlocks(FatSize(c, EfiPart(c)), b - 1, c.logical);
    } else {
      NegativeFat(c.logical);
    }
  }

  lemma NegativeFat(logical: nat)
    requires 0 < logical <= TWO_TO_THE_63
    ensures var x := ToUint64(FitFat((0 - 1) * logical)); Div(x, logical) == 0 <==> logical < SIZE_ALIGNMENT
  {
    assert (0 - 1) * logical == 0 - logical;
  }

  // ------------------------------------------------------------------ whole units

  /** The block sizes nest, and the sizes asked for are whole numbers of alignment units. */
  ghost predicate Regular(c: Config) {
    && c.logical > 0 && Mod(AlignTo(c), c.logical) == 0
    && Mod(c.efiSize, AlignTo(c)) == 0 && Mod(c.abrSize, AlignTo(c)) == 0
  }

  lemma UnitBlocks(c: Config, size: nat)
    requires c.logical > 0 && Mod(AlignTo(c), c.logical) == 0 && Mod(size, AlignTo(c)) == 0
    ensures Blocks(c, size) == Div(size, AlignTo(c)) * BlockAlign(c) + 1
  {
    var a, g := AlignTo(c), c.logical;
    Whole(a, g);
    Whole(size, a);
    Regroup(Div(size, a), Div(a, g), g);
    Remainder(Div(size, a) * Div(a, g), g, 0);
  }

  lemma UnitsNext(c: Config, size: nat)
    requires c.logical > 0 && Mod(AlignTo(c), c.logical) == 0 && Mod(size, AlignTo(c)) == 0
    ensures NextOk(c, Blocks(c, size)) <==> BlockAlign(c) >= 2
    ensures NextOk(c, Blocks(c, size) + 1) <==> BlockAlign(c) >= 3
  {
    var l, n := BlockAlign(c), Div(size, AlignTo(c));
    UnitBlocks(c, size);
    UnitsBefore(n, 1, l);
    UnitsBefore(n, 2, l);
    if l == 2 {
      Remainder(1, 2, 0);
    } else if l == 1 {
      Remainder(1, 1, 0);
      Remainder(2, 1, 0);
    }
  }

  /** With sizes in whole units the conditions on them come down to the alignment: an unaligned first
      usable block, and with an FVM partition at least three blocks in a unit, and room. */
  lemma RegularProperIff(c: Config)
    requires Regular(c) && c.firstUsable > 0
    ensures Proper(c, LayoutOf(c).partitions) <==>
            Mod(c.firstUsable, BlockAlign(c)) != 0 && (c.ramdiskOnly || (BlockAlign(c) >= 3 && HasRoom(c)))
  {
    ProperIff(c);
    UnitsNext(c, c.efiSize);
    UnitsNext(c, c.abrSize);
    if BlockAlign(c) == 1 {
      DivModExact(c.firstUsable, 1);
    }
  }

  // ------------------------------------------------------------------ layouts that go wrong

  /** 512-byte blocks, alignment to 4096 bytes, A, B and R of 16M, no FVM partition. */
  function Sample(firstUsable: nat, efiSize: nat): Config {
    Config(512, 4096, 0, firstUsable, 0x10_0000, efiSize, true, 0x100_0000, 0, true)
  }

  /** An aligned first usable block: the EFI partition starts at block zero. */
  lemma AlignedFirstBlock()
    ensures var c := Sample(40, 0x3f0_0000); EfiPart(c).start == 0 && !Proper(c, LayoutOf(c).partitions)
  {
    var c := Sample(40, 0x3f0_0000);
    DivModExact(4096, 512);
    DivModExact(40, 8);
    EfiPlaced(c);
    ProperIff(c);
  }

  /** An EFI size of seven blocks: with its extra block it fills a unit, and A starts at block zero. */
  lemma SevenBlocks()
    ensures var c := Sample(34, 3584);
            FirstOk(c) && LayoutOf(c).partitions[1].start == 0 && !Proper(c, LayoutOf(c).partitions)
  {
    var c := Sample(34, 3584);
    DivModExact(4096, 512);
    DivModExact(34, 8);
    DivModExact(3584, 512);
    DivModExact(8, 8);
    EfiPlaced(c);
    NextPlaced(c, EfiUnit(c), 8, c.abrSize);
    ProperIff(c);
  }
}
