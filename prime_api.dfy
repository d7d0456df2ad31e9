/**
  The load-time patcher of the injected module (`primeapi-rs`): the game
  version check, the table of build-string suffixes, the encoding of the
  PowerPC relative branch that redirects a call or a return, and the
  prolog loop that rewrites one instruction word per patch record.

  Instruction words are 32-bit unsigned integers. Fields follow the I-form
  of the PowerPC User Instruction Set Architecture, Book I, section 2.4:
  the primary opcode is the top 6 bits, LI the next 24 bits, then AA and LK.
 */
module PrimeApi {
  import opened Bits
  import opened Wrappers

  datatype PatchKind = Call | Return

  datatype GameVersion = Any | Ntsc0_00 | Ntsc0_01 | Ntsc0_02 | NtscK | NtscJ | Pal

  /** Two versions are compatible when equal or when either is the wildcard `Any`. */
  predicate Matches(self: GameVersion, other: GameVersion)
    ensures Matches(self, other) <==> (self != Any && other != Any ==> self == other)
  {
    self == other || self == Any || other == Any
  }

  lemma MatchesIsCompatibility(a: GameVersion, b: GameVersion)
    ensures Matches(a, a)
    ensures Matches(a, b) <==> Matches(b, a)
    ensures Matches(Any, b) && Matches(a, Any)
    ensures a != Any && b != Any ==> (Matches(a, b) <==> a == b)
  {
  }

  // ---------------------------------------------------------------------
  // Build-information lookup

  /** `__build_info` is 36 bytes: the prefix "!#$MetroidBuildInfo!#$Build " and an 8-byte suffix. */
  const BuildInfoLength := 36
  const BuildInfoPrefixLength := 28

  /** The version a build suffix names; `None` is the `unreachable!()` arm. */
  function VersionOfSuffix(suffix: string): (r: Option<GameVersion>)
    ensures r.Some? ==> r.value != Any && |suffix| == BuildInfoLength - BuildInfoPrefixLength
  {
    if suffix == "v1.088 1" then Some(Ntsc0_00)
    else if suffix == "v1.093 1" then Some(Ntsc0_01)
    else if suffix == "v1.097 1" then Some(NtscK)
    else if suffix == "v1.110 2" then Some(Pal)
    else if suffix == "v1.111 3" then Some(Ntsc0_02)
    else if suffix == "v1.111 2" then Some(NtscJ)
    else None
  }

  /** The reverse table: the build suffix of each concrete version. */
  function SuffixOf(v: GameVersion): (r: Option<string>)
    ensures r.Some? <==> v != Any
    ensures r.Some? ==> |r.value| == BuildInfoLength - BuildInfoPrefixLength
  {
    match v
    case Any => None
    case Ntsc0_00 => Some("v1.088 1")
    case Ntsc0_01 => Some("v1.093 1")
    case NtscK => Some("v1.097 1")
    case Pal => Some("v1.110 2")
    case Ntsc0_02 => Some("v1.111 3")
    case NtscJ => Some("v1.111 2")
  }

  /** The lookup is a bijection between the six suffixes and the six concrete versions. */
  lemma SuffixTableIsBijection(suffix: string, v: GameVersion)
    ensures VersionOfSuffix(suffix) == Some(v) <==> SuffixOf(v) == Some(suffix)
    ensures VersionOfSuffix(suffix) != Some(Any)
    ensures v != Any <==> SuffixOf(v).Some?
  {
  }

  /** `GameVersion::current` without its cache: the version named by bytes 28..36 of the build information. */
  function VersionFromBuildInfo(buildInfo: string): (r: Option<GameVersion>)
    requires |buildInfo| >= BuildInfoLength
    ensures r.Some? ==> r.value != Any && SuffixOf(r.value) == Some(buildInfo[BuildInfoPrefixLength..BuildInfoLength])
    ensures r.None? ==> forall v :: SuffixOf(v) != Some(buildInfo[BuildInfoPrefixLength..BuildInfoLength])
  {
    var suffix := buildInfo[BuildInfoPrefixLength..BuildInfoLength];
    SuffixTableIsBijection(suffix, Any);
    VersionOfSuffix(suffix)
  }

  // ---------------------------------------------------------------------
  // Patch records

  datatype Patch = Patch(
    fnPtrToPatch: u32,
    patchOffset: u32,
    targetFnPtr: u32,
    kind: PatchKind,
    version: GameVersion)

  function CallPatch(fnPtrToPatch: u32, patchOffset: u32, targetFnPtr: u32, version: GameVersion): (p: Patch)
    ensures p.kind == Call
    ensures p.fnPtrToPatch == fnPtrToPatch && p.patchOffset == patchOffset
    ensures p.targetFnPtr == targetFnPtr && p.version == version
  {
    Patch(fnPtrToPatch, patchOffset, targetFnPtr, Call, version)
  }

  function ReturnPatch(fnPtrToPatch: u32, patchOffset: u32, targetFnPtr: u32, version: GameVersion): (p: Patch)
    ensures p.kind == Return
    ensures p.fnPtrToPatch == fnPtrToPatch && p.patchOffset == patchOffset
    ensures p.targetFnPtr == targetFnPtr && p.version == version
  {
    Patch(fnPtrToPatch, patchOffset, targetFnPtr, Return, version)
  }

  /** The two constructors agree on everything but the kind. */
  lemma PatchConstructorsDifferOnlyInKind(f: u32, o: u32, t: u32, v: GameVersion)
    ensures ReturnPatch(f, o, t, v) == CallPatch(f, o, t, v).(kind := Return)
    ensures CallPatch(f, o, t, v) != ReturnPatch(f, o, t, v)
  {
  }

  /** The address of the patched instruction: `fn_ptr_to_patch.add(patch_offset)`. */
  function Site(p: Patch): nat
  {
    p.fnPtrToPatch + p.patchOffset
  }

  // ---------------------------------------------------------------------
  // I-form branch fields

  function Opcode(w: u32): nat { w / 0x400_0000 }
  function LI(w: u32): nat { (w / 4) % 0x100_0000 }
  function AA(w: u32): nat { (w / 2) % 2 }
  function LK(w: u32): nat { w % 2 }

  /** An I-form relative branch: opcode 18 (`b`, `bl`) with the absolute-address bit AA clear. */
  predicate RelativeBranch(w: u32) { Opcode(w) == 18 && AA(w) == 0 }

  /** The branch displacement: `LI || 0b00` sign-extended from 26 bits. */
  function Displacement(w: u32): int
  {
    var d := LI(w) * 4;
    if d >= 0x200_0000 then d - 0x400_0000 else d
  }

  /** `b target` (opcode 18) and the `blr` it replaces in a return patch. */
  const UnconditionalBranch: u32 := 0x4800_0000
  /** `instr & 0xfc000003` keeps the opcode and the AA and LK bits. */
  const OpcodeAndLinkMask: u32 := 0xfc00_0003

  /**
    The condition `bounds_check_and_mask` debug-asserts for `len == 24`:
    the offset is a multiple of 4 that fits in 26 signed bits.
   */
  predicate BranchOffsetAsserted(addr: int)
  {
    !(addr > 0x200_0000 - 1 || addr < -0x200_0000 || And(addr % 0x1_0000_0000_0000_0000, 3) != 0)
  }

  lemma BranchOffsetAssertedMeans(addr: int)
    ensures BranchOffsetAsserted(addr) <==> -0x200_0000 <= addr <= 0x1FF_FFFF && addr % 4 == 0
  {
    Pow2Constants();
    AndLowMask(addr % 0x1_0000_0000_0000_0000, 2);
    ModMod(addr, 4, 0x4000_0000_0000_0000);
  }

  /**
    `bounds_check_and_mask(24, addr)`: `(addr as u64 & ((1 << 26) - 1)) as u32`,
    the low 26 bits of the two's-complement offset.
   */
  function BoundsCheckAndMask(addr: i64): (imm: u32)
    ensures imm == addr % 0x400_0000
  {
    MaskIsLow26Bits(addr);
    And(addr % 0x1_0000_0000_0000_0000, 0x400_0000 - 1) % 0x1_0000_0000
  }

  lemma MaskIsLow26Bits(addr: int)
    ensures And(addr % 0x1_0000_0000_0000_0000, 0x400_0000 - 1) % 0x1_0000_0000 == addr % 0x400_0000
  {
    LowBitsOfU64(addr);
    U64LowBits(addr);
    var m := addr % 0x400_0000;
    DivModUnique(m, 0x1_0000_0000, 0, m);
  }

  lemma LowBitsOfU64(addr: int)
    ensures And(addr % 0x1_0000_0000_0000_0000, 0x400_0000 - 1) == addr % 0x1_0000_0000_0000_0000 % 0x400_0000
  {
    Pow2Constants();
    AndLowMask(addr % 0x1_0000_0000_0000_0000, 26);
  }

  lemma U64LowBits(addr: int)
    ensures addr % 0x1_0000_0000_0000_0000 % 0x400_0000 == addr % 0x400_0000
  {
    ModMod(addr, 0x400_0000, 0x40_0000_0000);
  }

  /** An asserted offset survives the mask: sign-extending the 26 bits gives it back. */
  lemma MaskRoundTrip(addr: i64)
    requires BranchOffsetAsserted(addr)
    ensures BoundsCheckAndMask(addr) % 4 == 0
    ensures var imm := BoundsCheckAndMask(addr);
      (if imm >= 0x200_0000 then imm - 0x400_0000 else imm) == addr
  {
    BranchOffsetAssertedMeans(addr);
    ModMod(addr, 4, 0x100_0000);
    if addr >= 0 {
      DivModUnique(addr, 0x400_0000, 0, addr);
    } else {
      DivModUnique(addr, 0x400_0000, -1, addr + 0x400_0000);
    }
  }

  /** `instr & 0xfc000003` is the opcode shifted back into place plus the AA and LK bits. */
  lemma MaskedInstruction(instr: u32)
    ensures And(instr, OpcodeAndLinkMask) == Opcode(instr) * 0x400_0000 + instr % 4
  {
    Pow2Constants();
    AndSplit(instr, OpcodeAndLinkMask, 26);
    assert OpcodeAndLinkMask / Pow2(26) == 63 && OpcodeAndLinkMask % Pow2(26) == 3;
    OpcodeBitsKept(instr);
    LinkBitsKept(instr);
  }

  lemma OpcodeBitsKept(instr: u32)
    ensures And(instr / 0x400_0000, 63) == instr / 0x400_0000
  {
    Pow2Constants();
    AndLowMask(instr / 0x400_0000, 6);
    DivModUnique(instr, 0x400_0000, instr / 0x400_0000, instr % 0x400_0000);
    DivModUnique(instr / 0x400_0000, 64, 0, instr / 0x400_0000);
  }

  lemma LinkBitsKept(instr: u32)
    ensures And(instr % 0x400_0000, 3) == instr % 4
  {
    Pow2Constants();
    AndLowMask(instr % 0x400_0000, 2);
    ModMod(instr, 4, 0x100_0000);
  }

  /** Or-ing a 26-bit immediate above bit 26 changes nothing there; below, it splits at bit 2. */
  lemma OrImmediate(hi: nat, low: nat, imm: nat)
    requires low < 4 && imm < 0x400_0000
    ensures Or(hi * 0x400_0000 + low, imm) == hi * 0x400_0000 + (imm / 4) * 4 + Or(low, imm % 4)
    ensures Or(low, imm % 4) < 4
  {
    Pow2Constants();
    var x := hi * 0x400_0000 + low;
    OrSplit(x, imm, 26);
    DivModUnique(x, 0x400_0000, hi, low);
    DivModUnique(imm, 0x400_0000, 0, imm);
    OrZero(hi);
    assert Or(x, imm) == hi * 0x400_0000 + Or(low, imm);
    OrSplit(low, imm, 2);
    DivModUnique(low, 4, 0, low);
    OrZero(imm / 4);
    assert Or(low, imm) == (imm / 4) * 4 + Or(low, imm % 4);
    OrBound(low, imm % 4, 2);
  }

  /** Or-ing a 26-bit immediate into `instr & 0xfc000003` replaces LI and ors the low two bits. */
  lemma CallPatchLayout(instr: u32, imm: nat)
    requires imm < 0x400_0000
    ensures Or(And(instr, OpcodeAndLinkMask), imm)
         == Opcode(instr) * 0x400_0000 + (imm / 4) * 4 + Or(instr % 4, imm % 4)
    ensures Or(instr % 4, imm % 4) < 4
  {
    MaskedInstruction(instr);
    OrImmediate(Opcode(instr), instr % 4, imm);
  }

  /** Reading the fields back from a word assembled field by field. */
  lemma DecodeIForm(op: nat, li: nat, low: nat)
    requires op < 64 && li < 0x100_0000 && low < 4
    ensures var w := op * 0x400_0000 + li * 4 + low;
      && w < 0x1_0000_0000
      && Opcode(w) == op && LI(w) == li && w % 4 == low
  {
    var w := op * 0x400_0000 + li * 4 + low;
    DivModUnique(w, 0x400_0000, op, li * 4 + low);
    DivModUnique(w, 4, op * 0x100_0000 + li, low);
    DivModUnique(op * 0x100_0000 + li, 0x100_0000, op, li);
  }

  /** AA and LK are the two bits of `w & 3`. */
  lemma LinkBits(w: u32)
    ensures AA(w) == (w % 4) / 2 && LK(w) == (w % 4) % 2
  {
    DivDiv(w, 2, 2);
    ModMod(w, 2, 2);
  }

  /** The displacement of a word whose LI field holds the top 24 bits of a 26-bit immediate. */
  lemma DisplacementOfImmediate(w: u32, imm: nat)
    requires imm < 0x400_0000 && imm % 4 == 0 && LI(w) == imm / 4
    ensures Displacement(w) == if imm >= 0x200_0000 then imm - 0x400_0000 else imm
  {
  }

  /** The word a call patch writes: `(instr & 0xfc000003) | imm`. */
  function CallPatchWord(instr: u32, relAddr: i64): (r: u32)
    ensures Opcode(r) == Opcode(instr)
    ensures LI(r) == (relAddr % 0x400_0000) / 4
    ensures BranchOffsetAsserted(relAddr) ==>
      AA(r) == AA(instr) && LK(r) == LK(instr) && Displacement(r) == relAddr
  {
    CallPatchFields(instr, relAddr);
    Or(And(instr, OpcodeAndLinkMask), BoundsCheckAndMask(relAddr))
  }

  lemma CallPatchFields(instr: u32, relAddr: i64)
    ensures var r := Or(And(instr, OpcodeAndLinkMask), BoundsCheckAndMask(relAddr));
      && r < 0x1_0000_0000
      && Opcode(r) == Opcode(instr)
      && LI(r) == (relAddr % 0x400_0000) / 4
      && (BranchOffsetAsserted(relAddr) ==>
            AA(r) == AA(instr) && LK(r) == LK(instr) && Displacement(r) == relAddr)
  {
    var imm := BoundsCheckAndMask(relAddr);
    CallPatchDecode(instr, imm);
    if BranchOffsetAsserted(relAddr) {
      MaskRoundTrip(relAddr);
      OrZero(instr % 4);
      var r := Or(And(instr, OpcodeAndLinkMask), imm);
      LinkBits(r);
      LinkBits(instr);
      DisplacementOfImmediate(r, imm);
    }
  }

  lemma CallPatchDecode(instr: u32, imm: nat)
    requires imm < 0x400_0000
    ensures var r := Or(And(instr, OpcodeAndLinkMask), imm);
      && r < 0x1_0000_0000 && r % 4 == Or(instr % 4, imm % 4)
      && Opcode(r) == Opcode(instr) && LI(r) == imm / 4
  {
    CallPatchLayout(instr, imm);
    DivModUnique(instr, 0x400_0000, instr / 0x400_0000, instr % 0x400_0000);
    DecodeIForm(Opcode(instr), imm / 4, Or(instr % 4, imm % 4));
  }

  /** The word a return patch writes: `0x48000000 | imm`, an unconditional `b`. */
  function ReturnPatchWord(relAddr: i64): (r: u32)
    ensures Opcode(r) == 18
    ensures LI(r) == (relAddr % 0x400_0000) / 4
    ensures BranchOffsetAsserted(relAddr) ==> AA(r) == 0 && LK(r) == 0 && Displacement(r) == relAddr
  {
    ReturnPatchFields(relAddr);
    Or(UnconditionalBranch, BoundsCheckAndMask(relAddr))
  }

  lemma ReturnPatchFields(relAddr: i64)
    ensures var r := Or(UnconditionalBranch, BoundsCheckAndMask(relAddr));
      && r < 0x1_0000_0000
      && Opcode(r) == 18
      && LI(r) == (relAddr % 0x400_0000) / 4
      && (BranchOffsetAsserted(relAddr) ==> AA(r) == 0 && LK(r) == 0 && Displacement(r) == relAddr)
  {
    var imm := BoundsCheckAndMask(relAddr);
    ReturnPatchLayout(imm);
    if BranchOffsetAsserted(relAddr) {
      MaskRoundTrip(relAddr);
      var r := Or(UnconditionalBranch, imm);
      LinkBits(r);
      DisplacementOfImmediate(r, imm);
    }
  }

  lemma ReturnPatchLayout(imm: nat)
    requires imm < 0x400_0000
    ensures var r := Or(UnconditionalBranch, imm);
      && r < 0x1_0000_0000 && r % 4 == imm % 4
      && Opcode(r) == 18 && LI(r) == imm / 4
  {
    OrImmediate(18, 0, imm);
    OrZero(imm % 4);
    DecodeIForm(18, imm / 4, imm % 4);
  }

  // ---------------------------------------------------------------------
  // The patch loop of `__rel_prolog`

  /** The instruction word one applicable patch record writes over `instr`. */
  function PatchedWord(p: Patch, instr: u32): (r: u32)
    requires Site(p) < 0x1_0000_0000
    ensures p.kind == Call ==> Opcode(r) == Opcode(instr)
    ensures p.kind == Return ==> Opcode(r) == 18
    ensures LI(r) == ((p.targetFnPtr - Site(p)) % 0x400_0000) / 4
  {
    var relAddr := p.targetFnPtr - Site(p);
    match p.kind
    case Call => CallPatchWord(instr, relAddr)
    case Return => ReturnPatchWord(relAddr)
  }

  /** A record applies when its version matches the running one. */
  predicate Applies(p: Patch, version: GameVersion)
  {
    Matches(version, p.version)
  }

  /**
    Every applicable record points at a mapped, 4-byte aligned instruction
    word: `ptr::read` and `ptr::write` on a `*mut u32` demand both.
   */
  predicate SitesMapped(mem: map<u32, u32>, patches: seq<Patch>, version: GameVersion)
  {
    forall i :: 0 <= i < |patches| && Applies(patches[i], version) ==>
      Site(patches[i]) in mem && Site(patches[i]) % 4 == 0
  }

  /**
    In a table whose sites are mapped and aligned, two applicable records with
    different sites name non-overlapping 4-byte words `[Site, Site + 4)`, so the
    words of the memory map keyed by them are independent.
   */
  lemma AlignedSitesDisjoint(mem: map<u32, u32>, patches: seq<Patch>, version: GameVersion, i: nat, j: nat)
    requires SitesMapped(mem, patches, version)
    requires i < |patches| && Applies(patches[i], version)
    requires j < |patches| && Applies(patches[j], version)
    requires Site(patches[i]) != Site(patches[j])
    ensures Site(patches[i]) + 4 <= Site(patches[j]) || Site(patches[j]) + 4 <= Site(patches[i])
  {
    var a, b := Site(patches[i]), Site(patches[j]);
    assert a % 4 == 0 && b % 4 == 0;
    var qa, qb := a / 4, b / 4;
    assert a == 4 * qa && b == 4 * qb;
    if qa < qb {
      assert qa + 1 <= qb;
    } else {
      assert qb + 1 <= qa;
    }
  }

  predicate IsPatchedSite(addr: int, patches: seq<Patch>, version: GameVersion)
  {
    exists i :: 0 <= i < |patches| && Applies(patches[i], version) && Site(patches[i]) == addr
  }

  /** One iteration of the loop: skip a record for another version, otherwise rewrite its site. */
  function ApplyPatch(mem: map<u32, u32>, p: Patch, version: GameVersion): (r: map<u32, u32>)
    requires Applies(p, version) ==> Site(p) in mem
    ensures r.Keys == mem.Keys
    ensures forall a :: a in mem && !(Applies(p, version) && a == Site(p)) ==> r[a] == mem[a]
    ensures Applies(p, version) ==> r[Site(p)] == PatchedWord(p, mem[Site(p)])
  {
    if !Applies(p, version) then mem
    else
      var site := Site(p);
      mem[site := PatchedWord(p, mem[site])]
  }

  /** The memory after the loop has run over `patches` in order. */
  function ApplyPatches(mem: map<u32, u32>, patches: seq<Patch>, version: GameVersion): (r: map<u32, u32>)
    requires SitesMapped(mem, patches, version)
    ensures r.Keys == mem.Keys
    decreases |patches|
  {
    if patches == [] then mem
    else
      var n := |patches| - 1;
      ApplyPatch(ApplyPatches(mem, patches[..n], version), patches[n], version)
  }

  /** The loop changes no address that no applicable record names. */
  lemma {:induction false} ApplyPatchesFrame(mem: map<u32, u32>, patches: seq<Patch>, version: GameVersion, a: u32)
    requires SitesMapped(mem, patches, version)
    requires a in mem && !IsPatchedSite(a, patches, version)
    ensures ApplyPatches(mem, patches, version)[a] == mem[a]
    decreases |patches|
  {
    if patches != [] {
      var n := |patches| - 1;
      ApplyPatchesStep(mem, patches, version, n);
      assert patches[..n + 1] == patches;
      forall j | 0 <= j < n && Applies(patches[..n][j], version)
        ensures Site(patches[..n][j]) != a
      {
        assert patches[..n][j] == patches[j];
      }
      ApplyPatchesFrame(mem, patches[..n], version, a);
      ApplyPatchElsewhere(ApplyPatches(mem, patches[..n], version), patches[n], version, a);
    }
  }

  /** The records whose versions apply name pairwise different sites. */
  predicate DistinctSites(patches: seq<Patch>, version: GameVersion)
  {
    forall i, j :: 0 <= i < j < |patches| && Applies(patches[i], version) && Applies(patches[j], version)
      ==> Site(patches[i]) != Site(patches[j])
  }

  /** With distinct sites, each applicable record's site ends up holding that record's patched word. */
  lemma {:induction false} PatchedSiteHolds(mem: map<u32, u32>, patches: seq<Patch>, version: GameVersion, i: nat)
    requires SitesMapped(mem, patches, version) && DistinctSites(patches, version)
    requires i < |patches| && Applies(patches[i], version)
    ensures Site(patches[i]) in mem
    ensures ApplyPatches(mem, patches, version)[Site(patches[i])] == PatchedWord(patches[i], mem[Site(patches[i])])
    decreases |patches|
  {
    var n := |patches| - 1;
    ApplyPatchesStep(mem, patches, version, n);
    assert patches[..n + 1] == patches;
    var before := ApplyPatches(mem, patches[..n], version);
    if i == n {
      LastSiteFresh(patches, version);
      ApplyPatchesFrame(mem, patches[..n], version, Site(patches[i]));
    } else {
      PrefixDistinct(patches, version, i);
      PatchedSiteHolds(mem, patches[..n], version, i);
      ApplyPatchElsewhere(before, patches[n], version, Site(patches[i]));
    }
  }

  /** The last applicable record's site is not patched by any record before it. */
  lemma LastSiteFresh(patches: seq<Patch>, version: GameVersion)
    requires DistinctSites(patches, version)
    requires |patches| > 0 && Applies(patches[|patches| - 1], version)
    ensures !IsPatchedSite(Site(patches[|patches| - 1]), patches[..|patches| - 1], version)
  {
    var n := |patches| - 1;
    forall j | 0 <= j < n && Applies(patches[..n][j], version)
      ensures Site(patches[..n][j]) != Site(patches[n])
    {
      assert patches[..n][j] == patches[j];
    }
  }

  /** Dropping the last record keeps the sites distinct and the earlier records in place. */
  lemma PrefixDistinct(patches: seq<Patch>, version: GameVersion, i: nat)
    requires DistinctSites(patches, version) && i < |patches| - 1
    ensures DistinctSites(patches[..|patches| - 1], version)
    ensures patches[..|patches| - 1][i] == patches[i]
    ensures Applies(patches[i], version) && Applies(patches[|patches| - 1], version)
            ==> Site(patches[i]) != Site(patches[|patches| - 1])
  {
  }

  /** Applying a record rewrites its site with the record's patched word. */
  lemma ApplyPatchAtSite(m: map<u32, u32>, p: Patch, version: GameVersion)
    requires Applies(p, version) && Site(p) in m
    ensures ApplyPatch(m, p, version) == m[Site(p) := PatchedWord(p, m[Site(p)])]
  {
  }

  /** Applying a record leaves every other address alone. */
  lemma ApplyPatchElsewhere(m: map<u32, u32>, p: Patch, version: GameVersion, a: u32)
    requires Applies(p, version) ==> Site(p) in m
    requires a in m && (Applies(p, version) ==> Site(p) != a)
    ensures ApplyPatch(m, p, version)[a] == m[a]
  {
  }

  /** Running the loop one record further applies that record to the memory so far. */
  lemma ApplyPatchesStep(mem: map<u32, u32>, patches: seq<Patch>, version: GameVersion, i: nat)
    requires SitesMapped(mem, patches, version) && i < |patches|
    ensures SitesMapped(mem, patches[..i], version) && SitesMapped(mem, patches[..i + 1], version)
    ensures Applies(patches[i], version) ==> Site(patches[i]) in ApplyPatches(mem, patches[..i], version)
    ensures ApplyPatches(mem, patches[..i + 1], version)
         == ApplyPatch(ApplyPatches(mem, patches[..i], version), patches[i], version)
  {
    assert patches[..i + 1][..i] == patches[..i];
  }

  /** The word a record writes, spelled out by kind as the loop computes it. */
  lemma PatchedWordByKind(p: Patch, instr: u32)
    requires Site(p) < 0x1_0000_0000
    ensures p.kind == Call ==> PatchedWord(p, instr) == CallPatchWord(instr, p.targetFnPtr - Site(p))
    ensures p.kind == Return ==> PatchedWord(p, instr) == ReturnPatchWord(p.targetFnPtr - Site(p))
  {
  }

  /** Memory as the prolog sees it: a map from each mapped instruction address to its word. */
  class Memory {
    var words: map<u32, u32>

    constructor (words: map<u32, u32>)
      ensures this.words == words
    {
      this.words := words;
    }
  }

  /**
    `__rel_prolog`'s patch loop: for each record in table order whose version
    matches, rewrite the word at its site with the branch to its target.
    The running version is a parameter (`GameVersion::current()`).
   */
  method RelProlog(mem: Memory, patches: seq<Patch>, version: GameVersion)
    requires SitesMapped(mem.words, patches, version)
    modifies mem
    ensures mem.words == ApplyPatches(old(mem.words), patches, version)
  {
    ghost var initial := mem.words;
    for i := 0 to |patches|
      invariant SitesMapped(initial, patches[..i], version)
      invariant mem.words == ApplyPatches(initial, patches[..i], version)
    {
      ApplyPatchesStep(initial, patches, version, i);
      ghost var before := mem.words;
      var patch := patches[i];
      if !Matches(version, patch.version) {
        continue;
      }
      var instrPtr := patch.fnPtrToPatch + patch.patchOffset;
      assert Applies(patch, version) && instrPtr == Site(patch);
      var instr := mem.words[instrPtr];
      var relAddr := patch.targetFnPtr - instrPtr;
      var newInstr := match patch.kind
        case Call => CallPatchWord(instr, relAddr)
        case Return => ReturnPatchWord(relAddr);
      assert newInstr == PatchedWord(patch, instr) by {
        PatchedWordByKind(patch, instr);
      }
      mem.words := mem.words[instrPtr := newInstr];
      assert mem.words == ApplyPatch(before, patch, version) by {
        ApplyPatchAtSite(before, patch, version);
      }
    }
    assert patches[..|patches|] == patches;
  }

  /**
    What the prolog achieves, under two hypotheses: the applicable records
    name distinct sites, and record `i`'s offset passes the range check. Then
    the word at record `i`'s site ends up with the record's target as its
    I-form displacement. A call site keeps the opcode and the AA and LK bits
    of the word it held, so it is a relative branch to the target exactly
    when it was a relative branch (`b`/`bl`, opcode 18, AA clear) before; a
    return site (`blr`) always becomes the plain relative branch `b target`.
   */
  lemma PrologBranchesToTargets(mem: map<u32, u32>, patches: seq<Patch>, version: GameVersion, i: nat)
    requires SitesMapped(mem, patches, version) && DistinctSites(patches, version)
    requires i < |patches| && Applies(patches[i], version)
    requires BranchOffsetAsserted(patches[i].targetFnPtr - Site(patches[i]))
    ensures Site(patches[i]) in mem
    ensures var p, before := patches[i], mem[Site(patches[i])];
      var w := ApplyPatches(mem, patches, version)[Site(p)];
      && Site(p) + Displacement(w) == p.targetFnPtr
      && (p.kind == Call ==> Opcode(w) == Opcode(before) && AA(w) == AA(before) && LK(w) == LK(before))
      && (p.kind == Call ==> (RelativeBranch(w) <==> RelativeBranch(before)))
      && (p.kind == Return ==> RelativeBranch(w) && LK(w) == 0)
  {
    PatchedSiteHolds(mem, patches, version, i);
    PatchedWordByKind(patches[i], mem[Site(patches[i])]);
  }
}
