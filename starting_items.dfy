/**
  The randomizer's starting inventory: the record, its packed 36-bit integer
  form (`StartingItems::from_u64`), its copy into a save-station spawn point
  (`update_spawn_point`), `is_empty` and the default inventory.
 */
module StartingItems {
  import opened Bits

  datatype StartingItems = StartingItems(
    combatVisor: bool,
    powerBeam: bool,
    scanVisor: bool,
    missiles: i32,
    energyTanks: i8,
    powerBombs: i8,
    wave: bool,
    ice: bool,
    plasma: bool,
    charge: bool,
    morphBall: bool,
    bombs: bool,
    spiderBall: bool,
    boostBall: bool,
    powerSuit: u32,
    variaSuit: bool,
    gravitySuit: bool,
    phazonSuit: bool,
    thermalVisor: bool,
    xray: bool,
    spaceJump: bool,
    grapple: bool,
    superMissile: bool,
    wavebuster: bool,
    iceSpreader: bool,
    flamethrower: bool,
    unknownItem1: u32,
    unlimitedMissiles: bool,
    unlimitedPowerBombs: bool,
    missileLauncher: bool,
    powerBombLauncher: bool,
    springBall: bool)

  /** `Default::default()`: the three starting beam/visor items and both launchers. */
  function Default(): (r: StartingItems)
    ensures !IsEmpty(r)
  {
    StartingItems(
      combatVisor := true, powerBeam := true, scanVisor := true,
      missiles := 0, energyTanks := 0, powerBombs := 0,
      wave := false, ice := false, plasma := false, charge := false,
      morphBall := false, bombs := false, spiderBall := false, boostBall := false,
      powerSuit := 0,
      variaSuit := false, gravitySuit := false, phazonSuit := false,
      thermalVisor := false, xray := false, spaceJump := false, grapple := false,
      superMissile := false, wavebuster := false, iceSpreader := false, flamethrower := false,
      unknownItem1 := 0,
      unlimitedMissiles := false, unlimitedPowerBombs := false,
      missileLauncher := true, powerBombLauncher := true, springBall := false)
  }

  /** Width of the packed form: bits at or above this position are never read. */
  const PackedWidth: nat := 36

  /** The single-bit flag at position `k` of the packed form. */
  predicate Flag(x: nat, k: nat)
  {
    Field(x, k, 1) == 1
  }

  /**
    The packed layout stated by position: scan visor at bit 0, missiles in
    bits 1-8, energy tanks in bits 9-12, power bombs in bits 13-16, then one
    bit each from wave (bit 17) to flamethrower (bit 35) in field order.
   */
  function Layout(x: u64): StartingItems
  {
    StartingItems(
      combatVisor := true, powerBeam := true,
      scanVisor := Flag(x, 0),
      missiles := Field(x, 1, 8) as i32,
      energyTanks := Field(x, 9, 4) as i8,
      powerBombs := Field(x, 13, 4) as i8,
      wave := Flag(x, 17), ice := Flag(x, 18), plasma := Flag(x, 19), charge := Flag(x, 20),
      morphBall := Flag(x, 21), bombs := Flag(x, 22), spiderBall := Flag(x, 23), boostBall := Flag(x, 24),
      powerSuit := 0,
      variaSuit := Flag(x, 25), gravitySuit := Flag(x, 26), phazonSuit := Flag(x, 27),
      thermalVisor := Flag(x, 28), xray := Flag(x, 29), spaceJump := Flag(x, 30), grapple := Flag(x, 31),
      superMissile := Flag(x, 32), wavebuster := Flag(x, 33), iceSpreader := Flag(x, 34),
      flamethrower := Flag(x, 35),
      unknownItem1 := 0,
      unlimitedMissiles := false, unlimitedPowerBombs := false,
      missileLauncher := true, powerBombLauncher := true, springBall := false)
  }

  /**
    One call of the `fetch_bits` closure, which owns the packed integer and
    hands out its low bits, least significant first:
    `starting_items & ((1 << bits) - 1)` as `u8`, then `starting_items >>= bits`.
    The closure's captured integer is `state` before the call and `next`
    after it; `origin` and `pos` are the original integer and the number of
    bits handed out so far.
   */
  method FetchBits(state: u64, bits: nat, ghost origin: nat, ghost pos: nat) returns (ret: u8, next: u64)
    requires bits < 64 && state == origin / Pow2(pos)
    ensures next == origin / Pow2(pos + bits)
    ensures ret == Field(origin, pos, bits) % 0x100
    ensures bits <= 8 ==> ret == Field(origin, pos, bits)
  {
    ret := And(state, Pow2(bits) - 1) % 0x100;
    assert ret == Field(origin, pos, bits) % 0x100 by {
      AndLowMask(state, bits);
    }
    if bits <= 8 {
      assert ret == Field(origin, pos, bits) by {
        NarrowFieldIsByte(origin, pos, bits);
      }
    }
    assert state / Pow2(bits) == origin / Pow2(pos + bits) by {
      ShiftShift(origin, pos, bits);
    }
    next := ShiftRight(state, bits);
  }

  /** `x >> k` on `u64`: bit `j` of the result is bit `j + k` of `x`, and nothing is shifted in. */
  function ShiftRight(x: u64, k: nat): (r: u64)
    ensures r == x / Pow2(k)
    ensures forall j: nat {:trigger Field(r, j, 1)} :: Field(r, j, 1) == Field(x, j + k, 1)
    ensures r <= x
  {
    var d := Pow2(k);
    DivShrinks(x, d);
    ShiftedBits(x, k, x / d);
    x / d
  }

  lemma ShiftedBits(x: nat, k: nat, r: nat)
    requires r == x / Pow2(k)
    ensures forall j: nat {:trigger Field(r, j, 1)} :: Field(r, j, 1) == Field(x, j + k, 1)
  {
    forall j: nat ensures Field(r, j, 1) == Field(x, j + k, 1) {
      ShiftShift(x, k, j);
    }
  }

  lemma DivShrinks(a: nat, d: nat)
    requires d > 0
    ensures 0 <= a / d <= a
  {
    var q := a / d;
    assert a == q * d + a % d;
    if q < 0 {
      MulMono(q, -1, d);
      assert false;
    }
    if q > 0 {
      MulMono(1, d, q);
    }
  }

  /** A field at most 8 bits wide fits in a byte. */
  lemma NarrowFieldIsByte(x: nat, lo: nat, width: nat)
    requires width <= 8
    ensures Field(x, lo, width) < 0x100 && Field(x, lo, width) % 0x100 == Field(x, lo, width)
  {
    Pow2Monotone(width, 8);
    Pow2Eight();
  }

  /** Shifting right by `a` and then by `b` is shifting right by `a + b`. */
  lemma ShiftShift(x: nat, a: nat, b: nat)
    ensures x / Pow2(a) / Pow2(b) == x / Pow2(a + b)
  {
    Pow2Add(a, b);
    DivDiv(x, Pow2(a), Pow2(b));
  }

  /** `u8 as i8`: reinterpret the byte as two's complement. */
  function U8AsI8(v: u8): (r: i8)
    ensures v < 0x80 ==> r == v
    ensures v >= 0x80 ==> r < 0 && r + 0x100 == v
  {
    if v < 0x80 then v else v - 0x100
  }

  /**
    `StartingItems::from_u64`: the struct literal's fields are evaluated in
    the order written, so the cursor hands out the bits in that order.
   */
  method FromU64(startingItems: u64) returns (r: StartingItems)
    ensures r == Layout(startingItems)
  {
    var state := startingItems;
    var scanVisor, missiles, energyTanks, powerBombs: u8;
    scanVisor, state := FetchBits(state, 1, startingItems, 0);
    missiles, state := FetchBits(state, 8, startingItems, 1);
    energyTanks, state := FetchBits(state, 4, startingItems, 9);
    powerBombs, state := FetchBits(state, 4, startingItems, 13);
    var wave, ice, plasma, charge, morphBall, bombs, spiderBall, boostBall: u8;
    var variaSuit, gravitySuit, phazonSuit, thermalVisor, xray, spaceJump, grapple, superMissile, wavebuster, iceSpreader, flamethrower: u8;
    wave, state := FetchBits(state, 1, startingItems, 17);
    ice, state := FetchBits(state, 1, startingItems, 18);
    plasma, state := FetchBits(state, 1, startingItems, 19);
    charge, state := FetchBits(state, 1, startingItems, 20);
    morphBall, state := FetchBits(state, 1, startingItems, 21);
    bombs, state := FetchBits(state, 1, startingItems, 22);
    spiderBall, state := FetchBits(state, 1, startingItems, 23);
    boostBall, state := FetchBits(state, 1, startingItems, 24);
    variaSuit, state := FetchBits(state, 1, startingItems, 25);
    gravitySuit, state := FetchBits(state, 1, startingItems, 26);
    phazonSuit, state := FetchBits(state, 1, startingItems, 27);
    thermalVisor, state := FetchBits(state, 1, startingItems, 28);
    xray, state := FetchBits(state, 1, startingItems, 29);
    spaceJump, state := FetchBits(state, 1, startingItems, 30);
    grapple, state := FetchBits(state, 1, startingItems, 31);
    superMissile, state := FetchBits(state, 1, startingItems, 32);
    wavebuster, state := FetchBits(state, 1, startingItems, 33);
    iceSpreader, state := FetchBits(state, 1, startingItems, 34);
    flamethrower, state := FetchBits(state, 1, startingItems, 35);
    Pow2Four();
    r := StartingItems(
      combatVisor := true, powerBeam := true,
      scanVisor := scanVisor == 1,
      missiles := missiles as i32,
      energyTanks := U8AsI8(energyTanks),
      powerBombs := U8AsI8(powerBombs),
      wave := wave == 1, ice := ice == 1, plasma := plasma == 1, charge := charge == 1,
      morphBall := morphBall == 1, bombs := bombs == 1, spiderBall := spiderBall == 1,
      boostBall := boostBall == 1,
      powerSuit := 0,
      variaSuit := variaSuit == 1, gravitySuit := gravitySuit == 1, phazonSuit := phazonSuit == 1,
      thermalVisor := thermalVisor == 1, xray := xray == 1, spaceJump := spaceJump == 1,
      grapple := grapple == 1, superMissile := superMissile == 1, wavebuster := wavebuster == 1,
      iceSpreader := iceSpreader == 1, flamethrower := flamethrower == 1,
      unknownItem1 := 0,
      unlimitedMissiles := false, unlimitedPowerBombs := false,
      missileLauncher := true, powerBombLauncher := true, springBall := false);
  }

  /** The counters a packed integer can describe: up to 255 missiles, 15 energy tanks, 15 power bombs. */
  lemma LayoutRanges(x: u64)
    ensures 0 <= Layout(x).missiles <= 255
    ensures 0 <= Layout(x).energyTanks <= 15 && 0 <= Layout(x).powerBombs <= 15
  {
    Pow2Constants();
  }

  /** Fields the packed form cannot express always take the same values. */
  lemma LayoutFixedFields(x: u64)
    ensures var r := Layout(x);
      && r.powerBeam && r.combatVisor && r.missileLauncher && r.powerBombLauncher
      && !r.unlimitedMissiles && !r.unlimitedPowerBombs && !r.springBall
      && r.powerSuit == 0 && r.unknownItem1 == 0
  {
  }

  /** Bits at position 36 and above are ignored. */
  lemma LayoutIgnoresHighBits(x: u64)
    ensures x % Pow2(PackedWidth) < 0x1_0000_0000_0000_0000
    ensures Layout(x) == Layout(x % Pow2(PackedWidth))
  {
    TruncatedFieldsAgree(x);
    SameFieldsSameLayout(x, x % Pow2(PackedWidth));
  }

  /** Truncating to the packed width keeps every field the layout reads. */
  lemma TruncatedFieldsAgree(x: u64)
    ensures var y := x % Pow2(PackedWidth);
      && y <= x
      && Field(y, 0, 1) == Field(x, 0, 1) && Field(y, 1, 8) == Field(x, 1, 8)
      && Field(y, 9, 4) == Field(x, 9, 4) && Field(y, 13, 4) == Field(x, 13, 4)
      && forall k: nat :: 17 <= k < 36 ==> Field(y, k, 1) == Field(x, k, 1)
  {
    var n := PackedWidth;
    var y := x % Pow2(n);
    assert y <= x by {
      DivModUnique(x, Pow2(n), x / Pow2(n), y);
      if x / Pow2(n) < 0 {
        MulMono(x / Pow2(n), -1, Pow2(n));
        assert false;
      }
    }
    FieldOfTruncated(x, n, 0, 1);
    FieldOfTruncated(x, n, 1, 8);
    FieldOfTruncated(x, n, 9, 4);
    FieldOfTruncated(x, n, 13, 4);
    forall k: nat | 17 <= k < 36
      ensures Field(y, k, 1) == Field(x, k, 1)
    {
      FieldOfTruncated(x, n, k, 1);
    }
  }

  /** Two packed values that agree on every field the layout reads unpack alike. */
  lemma SameFieldsSameLayout(x: u64, y: u64)
    requires Field(y, 0, 1) == Field(x, 0, 1) && Field(y, 1, 8) == Field(x, 1, 8)
    requires Field(y, 9, 4) == Field(x, 9, 4) && Field(y, 13, 4) == Field(x, 13, 4)
    requires forall k: nat :: 17 <= k < 36 ==> Field(y, k, 1) == Field(x, k, 1)
    ensures Layout(x) == Layout(y)
  {
  }

  /** A field above bit 0 of the integer 1 is empty. */
  lemma FieldOfOne(lo: nat, width: nat)
    requires lo >= 1
    ensures Field(1, lo, width) == 0
  {
    Pow2Monotone(1, lo);
    assert Pow2(1) == 2;
    DivModUnique(1, Pow2(lo), 0, 1);
  }

  /** The packed value 1 (only the scan visor) is the default inventory. */
  lemma LayoutOfOneIsDefault()
    ensures Layout(1) == Default()
  {
    assert Pow2(1) == 2;
    assert Field(1, 0, 1) == 1;
    FieldOfOne(1, 8);
    FieldOfOne(9, 4);
    FieldOfOne(13, 4);
    forall k: nat | 17 <= k < 36
      ensures Field(1, k, 1) == 0
    {
      FieldOfOne(k, 1);
    }
    OnlyScanVisorIsDefault(1);
  }

  lemma OnlyScanVisorIsDefault(x: u64)
    requires Flag(x, 0) && Field(x, 1, 8) == 0 && Field(x, 9, 4) == 0 && Field(x, 13, 4) == 0
    requires forall k: nat :: 17 <= k < 36 ==> Field(x, k, 1) == 0
    ensures Layout(x) == Default()
  {
  }

  /**
    `is_empty`: nothing at all is granted. It holds exactly of the inventories
    that equal `Nothing`, whatever the three fields it does not consult hold.
   */
  predicate IsEmpty(s: StartingItems)
    ensures IsEmpty(s) <==> s == Nothing(s.combatVisor, s.powerSuit, s.unknownItem1)
  {
    !s.powerBeam
    && !s.scanVisor
    && s.missiles == 0
    && s.energyTanks == 0
    && s.powerBombs == 0
    && !s.wave
    && !s.ice
    && !s.plasma
    && !s.charge
    && !s.morphBall
    && !s.bombs
    && !s.spiderBall
    && !s.boostBall
    && !s.variaSuit
    && !s.gravitySuit
    && !s.phazonSuit
    && !s.thermalVisor
    && !s.xray
    && !s.spaceJump
    && !s.grapple
    && !s.superMissile
    && !s.wavebuster
    && !s.iceSpreader
    && !s.flamethrower
    && !s.unlimitedMissiles
    && !s.unlimitedPowerBombs
    && !s.missileLauncher
    && !s.powerBombLauncher
    && !s.springBall
  }

  /** The empty inventory, apart from the three fields `is_empty` does not look at. */
  function Nothing(combatVisor: bool, powerSuit: u32, unknownItem1: u32): StartingItems
  {
    StartingItems(
      combatVisor := combatVisor, powerBeam := false, scanVisor := false,
      missiles := 0, energyTanks := 0, powerBombs := 0,
      wave := false, ice := false, plasma := false, charge := false,
      morphBall := false, bombs := false, spiderBall := false, boostBall := false,
      powerSuit := powerSuit,
      variaSuit := false, gravitySuit := false, phazonSuit := false,
      thermalVisor := false, xray := false, spaceJump := false, grapple := false,
      superMissile := false, wavebuster := false, iceSpreader := false, flamethrower := false,
      unknownItem1 := unknownItem1,
      unlimitedMissiles := false, unlimitedPowerBombs := false,
      missileLauncher := false, powerBombLauncher := false, springBall := false)
  }

  /** Neither the default inventory nor any unpacked one is empty: both grant the power beam. */
  lemma DefaultAndUnpackedAreNotEmpty(x: u64)
    ensures !IsEmpty(Default()) && !IsEmpty(Layout(x))
  {
  }

  /**
    The values `PickupType::custom_item_value` gives the five item kinds that
    have no slot of their own in a spawn point; they are ORed into
    `unknown_item_2`.
   */
  datatype CustomItemValues = CustomItemValues(
    unlimitedMissiles: u32,
    unlimitedPowerBombs: u32,
    missileLauncher: u32,
    powerBombLauncher: u32,
    springBall: u32)

  /** The five flags, in the order `update_spawn_point` tests them. */
  function ExtraFlags(s: StartingItems): (r: seq<bool>)
    ensures |r| == 5
  {
    [s.unlimitedMissiles, s.unlimitedPowerBombs, s.missileLauncher, s.powerBombLauncher, s.springBall]
  }

  /** The matching custom item values, in the same order. */
  function ExtraValues(v: CustomItemValues): (r: seq<nat>)
    ensures |r| == 5 && forall i :: 0 <= i < 5 ==> r[i] < 0x1_0000_0000
  {
    [v.unlimitedMissiles, v.unlimitedPowerBombs, v.missileLauncher, v.powerBombLauncher, v.springBall]
  }

  /** The bitwise or of the values whose flag is set (0 when none is). */
  function OrOfSelected(flags: seq<bool>, values: seq<nat>): nat
    requires |flags| == |values|
    decreases |flags|
  {
    if |flags| == 0 then 0
    else
      var n := |flags| - 1;
      var acc := OrOfSelected(flags[..n], values[..n]);
      if flags[n] then Or(acc, values[n]) else acc
  }

  /**
    A loadout unpacked by `from_u64` has exactly the two launchers among the
    five slotless items, so its spawn point's `unknown_item_2` is the or of
    the two launcher values and nothing else.
   */
  lemma UnpackedExtraItemBits(x: u64, values: CustomItemValues)
    ensures OrOfSelected(ExtraFlags(Layout(x)), ExtraValues(values))
         == Or(values.missileLauncher, values.powerBombLauncher)
  {
    LaunchersOnly(ExtraFlags(Layout(x)), ExtraValues(values));
  }

  lemma LaunchersOnly(flags: seq<bool>, values: seq<nat>)
    requires flags == [false, false, true, true, false] && |values| == 5
    ensures OrOfSelected(flags, values) == Or(values[2], values[3])
  {
    OrOfSelectedNone(flags[..2], values[..2]);
    assert flags[..3][..2] == flags[..2] && values[..3][..2] == values[..2];
    OrZero(values[2]);
    assert OrOfSelected(flags[..3], values[..3]) == values[2];
    assert flags[..4][..3] == flags[..3] && values[..4][..3] == values[..3];
    assert OrOfSelected(flags[..4], values[..4]) == Or(values[2], values[3]);
    assert flags[..5][..4] == flags[..4] && values[..5][..4] == values[..4];
    assert flags[..5] == flags && values[..5] == values;
  }

  /** Every bit of every selected value is set in the result. */
  lemma {:induction false} OrOfSelectedCovers(flags: seq<bool>, values: seq<nat>, i: nat)
    requires |flags| == |values| && i < |flags| && flags[i]
    ensures And(OrOfSelected(flags, values), values[i]) == values[i]
    decreases |flags|
  {
    var n := |flags| - 1;
    var acc := OrOfSelected(flags[..n], values[..n]);
    if i == n {
      OrCovers(acc, values[n]);
    } else {
      assert flags[..n][i] == flags[i] && values[..n][i] == values[i];
      OrOfSelectedCovers(flags[..n], values[..n], i);
      if flags[n] {
        OrKeeps(acc, values[n], values[i]);
      }
    }
  }

  lemma AndZeroLeft(m: int)
    ensures And(0, m) == 0
  {
  }

  /** A mask disjoint from every selected value is disjoint from the result: no other bit is set. */
  lemma {:induction false} OrOfSelectedOnly(flags: seq<bool>, values: seq<nat>, m: nat)
    requires |flags| == |values|
    requires forall i :: 0 <= i < |flags| && flags[i] ==> And(values[i], m) == 0
    ensures And(OrOfSelected(flags, values), m) == 0
    decreases |flags|
  {
    if |flags| == 0 {
      AndZeroLeft(m);
    } else {
      var n := |flags| - 1;
      forall i | 0 <= i < n && flags[..n][i]
        ensures And(values[..n][i], m) == 0
      {
        assert flags[..n][i] == flags[i] && values[..n][i] == values[i];
      }
      OrOfSelectedOnly(flags[..n], values[..n], m);
      if flags[n] {
        OrDisjoint(OrOfSelected(flags[..n], values[..n]), values[n], m);
      }
    }
  }

  /** With no flag set the result is 0. */
  lemma {:induction false} OrOfSelectedNone(flags: seq<bool>, values: seq<nat>)
    requires |flags| == |values| && forall i :: 0 <= i < |flags| ==> !flags[i]
    ensures OrOfSelected(flags, values) == 0
    decreases |flags|
  {
    if |flags| > 0 {
      var n := |flags| - 1;
      assert forall i :: 0 <= i < n ==> flags[..n][i] == flags[i];
      OrOfSelectedNone(flags[..n], values[..n]);
    }
  }

  /** Or of `k`-bit values is a `k`-bit value, so the 32-bit field can hold it. */
  lemma {:induction false} OrOfSelectedBound(flags: seq<bool>, values: seq<nat>, k: nat)
    requires |flags| == |values| && forall i :: 0 <= i < |values| ==> values[i] < Pow2(k)
    ensures OrOfSelected(flags, values) < Pow2(k)
    decreases |flags|
  {
    if |flags| > 0 {
      var n := |flags| - 1;
      assert forall i :: 0 <= i < n ==> values[..n][i] == values[i];
      OrOfSelectedBound(flags[..n], values[..n], k);
      if flags[n] {
        OrBound(OrOfSelected(flags[..n], values[..n]), values[n], k);
      }
    }
  }

  /** `bool as u32`. */
  function BoolAsU32(b: bool): (r: u32)
    ensures r <= 1 && (r == 1 <==> b)
  {
    if b then 1 else 0
  }

  /** `i32 as u32`: the same 32 bits, read unsigned. */
  function I32AsU32(v: i32): (r: u32)
    ensures v >= 0 ==> r == v
    ensures v < 0 ==> r >= 0x8000_0000 && r - 0x1_0000_0000 == v
  {
    v % 0x1_0000_0000
  }

  /** `i8 as u32`: sign-extend to 32 bits, then read unsigned. */
  function I8AsU32(v: i8): (r: u32)
    ensures v >= 0 ==> r == v
    ensures v < 0 ==> r / 0x100 == 0xFF_FFFF && r % 0x100 == v + 0x100
  {
    v % 0x1_0000_0000
  }

  /**
    The inventory slots of a spawn point (the game's `SpawnPoint` script
    object), one 32-bit word per item, in the game's slot order.
   */
  datatype SpawnSlots = SpawnSlots(
    combatVisor: u32,
    power: u32,
    scanVisor: u32,
    missiles: u32,
    energyTanks: u32,
    powerBombs: u32,
    wave: u32,
    ice: u32,
    plasma: u32,
    charge: u32,
    morphBall: u32,
    bombs: u32,
    spiderBall: u32,
    boostBall: u32,
    powerSuit: u32,
    variaSuit: u32,
    gravitySuit: u32,
    phazonSuit: u32,
    thermalVisor: u32,
    xray: u32,
    spaceJump: u32,
    grapple: u32,
    superMissile: u32,
    wavebuster: u32,
    iceSpreader: u32,
    flamethrower: u32,
    unknownItem1: u32,
    unknownItem2: u32)

  /**
    A spawn point: its item slots, and its other fields (name, position,
    layer data, ...) kept as bytes, which `update_spawn_point` does not touch.
   */
  class SpawnPoint {
    var slots: SpawnSlots
    var others: seq<u8>

    constructor(slots: SpawnSlots, others: seq<u8>)
      ensures this.slots == slots && this.others == others
    {
      this.slots := slots;
      this.others := others;
    }
  }

  /**
    `update_spawn_point`: copy the inventory into the spawn point's slots,
    and OR the custom values of the five slotless items that are set into
    `unknown_item_2`.
   */
  method UpdateSpawnPoint(s: StartingItems, sp: SpawnPoint, values: CustomItemValues)
    modifies sp
    ensures sp.slots.combatVisor == BoolAsU32(s.combatVisor) && sp.slots.power == BoolAsU32(s.powerBeam)
    ensures sp.slots.scanVisor == BoolAsU32(s.scanVisor)
    ensures sp.slots.missiles == I32AsU32(s.missiles)
    ensures sp.slots.energyTanks == I8AsU32(s.energyTanks) && sp.slots.powerBombs == I8AsU32(s.powerBombs)
    ensures sp.slots.wave == BoolAsU32(s.wave) && sp.slots.ice == BoolAsU32(s.ice)
    ensures sp.slots.plasma == BoolAsU32(s.plasma) && sp.slots.charge == BoolAsU32(s.charge)
    ensures sp.slots.morphBall == BoolAsU32(s.morphBall) && sp.slots.bombs == BoolAsU32(s.bombs)
    ensures sp.slots.spiderBall == BoolAsU32(s.spiderBall) && sp.slots.boostBall == BoolAsU32(s.boostBall)
    ensures sp.slots.powerSuit == 0
    ensures sp.slots.variaSuit == BoolAsU32(s.variaSuit) && sp.slots.gravitySuit == BoolAsU32(s.gravitySuit)
    ensures sp.slots.phazonSuit == BoolAsU32(s.phazonSuit) && sp.slots.thermalVisor == BoolAsU32(s.thermalVisor)
    ensures sp.slots.xray == BoolAsU32(s.xray) && sp.slots.spaceJump == BoolAsU32(s.spaceJump)
    ensures sp.slots.grapple == BoolAsU32(s.grapple) && sp.slots.superMissile == BoolAsU32(s.superMissile)
    ensures sp.slots.wavebuster == BoolAsU32(s.wavebuster) && sp.slots.iceSpreader == BoolAsU32(s.iceSpreader)
    ensures sp.slots.flamethrower == BoolAsU32(s.flamethrower)
    ensures sp.slots.unknownItem1 == s.unknownItem1
    ensures sp.slots.unknownItem2 == OrOfSelected(ExtraFlags(s), ExtraValues(values))
    ensures sp.others == old(sp.others)
  {
    var unknownItem2 := ExtraItemBits(s, values);
    sp.slots := SpawnSlots(
      combatVisor := BoolAsU32(s.combatVisor),
      power := BoolAsU32(s.powerBeam),
      scanVisor := BoolAsU32(s.scanVisor),
      missiles := I32AsU32(s.missiles),
      energyTanks := I8AsU32(s.energyTanks),
      powerBombs := I8AsU32(s.powerBombs),
      wave := BoolAsU32(s.wave),
      ice := BoolAsU32(s.ice),
      plasma := BoolAsU32(s.plasma),
      charge := BoolAsU32(s.charge),
      morphBall := BoolAsU32(s.morphBall),
      bombs := BoolAsU32(s.bombs),
      spiderBall := BoolAsU32(s.spiderBall),
      boostBall := BoolAsU32(s.boostBall),
      powerSuit := 0,
      variaSuit := BoolAsU32(s.variaSuit),
      gravitySuit := BoolAsU32(s.gravitySuit),
      phazonSuit := BoolAsU32(s.phazonSuit),
      thermalVisor := BoolAsU32(s.thermalVisor),
      xray := BoolAsU32(s.xray),
      spaceJump := BoolAsU32(s.spaceJump),
      grapple := BoolAsU32(s.grapple),
      superMissile := BoolAsU32(s.superMissile),
      wavebuster := BoolAsU32(s.wavebuster),
      iceSpreader := BoolAsU32(s.iceSpreader),
      flamethrower := BoolAsU32(s.flamethrower),
      unknownItem1 := s.unknownItem1,
      unknownItem2 := unknownItem2);
  }

  /**
    The `unknown_item_2 |= …` chain of `update_spawn_point`: the custom values
    of the slotless items that are set, ORed together in the order tested.
   */
  method ExtraItemBits(s: StartingItems, values: CustomItemValues) returns (unknownItem2: u32)
    ensures unknownItem2 == OrOfSelected(ExtraFlags(s), ExtraValues(values))
  {
    var flags, vals := ExtraFlags(s), ExtraValues(values);
    unknownItem2 := 0;
    if s.unlimitedMissiles {
      unknownItem2 := OrU32(unknownItem2, values.unlimitedMissiles);
    }
    assert unknownItem2 == OrOfSelected(flags[..1], vals[..1]);
    if s.unlimitedPowerBombs {
      unknownItem2 := OrU32(unknownItem2, values.unlimitedPowerBombs);
    }
    assert flags[..2][..1] == flags[..1] && vals[..2][..1] == vals[..1];
    assert unknownItem2 == OrOfSelected(flags[..2], vals[..2]);
    if s.missileLauncher {
      unknownItem2 := OrU32(unknownItem2, values.missileLauncher);
    }
    assert flags[..3][..2] == flags[..2] && vals[..3][..2] == vals[..2];
    assert unknownItem2 == OrOfSelected(flags[..3], vals[..3]);
    if s.powerBombLauncher {
      unknownItem2 := OrU32(unknownItem2, values.powerBombLauncher);
    }
    assert flags[..4][..3] == flags[..3] && vals[..4][..3] == vals[..3];
    assert unknownItem2 == OrOfSelected(flags[..4], vals[..4]);
    if s.springBall {
      unknownItem2 := OrU32(unknownItem2, values.springBall);
    }
    assert flags[..5] == flags && vals[..5] == vals;
  }

  /** `a | b` on `u32`: exactly the bits set in `a` or in `b`. */
  function OrU32(a: u32, b: u32): (r: u32)
    ensures And(r, a) == a && And(r, b) == b
    ensures forall m: nat {:trigger And(r, m)} :: And(a, m) == 0 && And(b, m) == 0 ==> And(r, m) == 0
  {
    OrNoOtherBits(a, b);
    Pow2Constants();
    OrBound(a, b, 32);
    OrCovers(b, a);
    OrCommutes(a, b);
    OrCovers(a, b);
    Or(a, b)
  }

  lemma OrNoOtherBits(a: nat, b: nat)
    ensures forall m: nat {:trigger And(Or(a, b), m)} :: And(a, m) == 0 && And(b, m) == 0 ==> And(Or(a, b), m) == 0
  {
    forall m: nat | And(a, m) == 0 && And(b, m) == 0
      ensures And(Or(a, b), m) == 0
    {
      OrDisjoint(a, b, m);
    }
  }

  lemma {:induction false} OrCommutes(a: nat, b: nat)
    ensures Or(a, b) == Or(b, a)
  {
    if a != 0 || b != 0 {
      OrCommutes(a / 2, b / 2);
    }
  }
}
