# randomprime core, modelled in Dafny

This project models three parts of the randomprime Metroid Prime randomizer.

**1. The load-time patcher of the injected code (`primeapi-rs`).**
- Running version: `GameVersion::matches` and the table that maps build-string suffixes to versions.
- Patch records: `Patch::call_patch` and `Patch::return_patch`.
- Branch encoding: `bounds_check_and_mask`, and the PowerPC I-form branch encoding (User Instruction Set Architecture, Book I, section 2.4) used to redirect a `bl` or a `blr`.
- The patch loop of `__rel_prolog`. It rewrites one instruction word per applicable record.
- Memory is a class holding a map from word address to 32-bit word. The loop is a method over that map, proved equal to a fold (`ApplyPatches`) over the patch table. Every applicable site must be mapped and 4-byte aligned. Separate lemmas about the fold give, when the applicable records name distinct sites and a record's offset passes the range check:
  - that record's site ends up with the record's target as its branch displacement;
  - a return site becomes the relative branch `b target`; a call site keeps the opcode and AA/LK bits it had, so it is a relative branch to the target exactly when it was a relative `b`/`bl` before;
  - no other word changes (this last one needs neither of the two conditions).

**2. The starting inventory (`StartingItems`).**
- `from_u64` is a method that threads the `fetch_bits` closure's captured integer through 23 calls.
- That method is proved equal to `Layout`, a by-position statement of the 36-bit packed format.
- `update_spawn_point` writes the spawn point's item slots. It uses the exact `as u32` cast semantics and ORs the custom values of the five slotless items.
- Also modelled: `is_empty` and `Default`.

**3. Three script objects.**
- `Drone` (type 0x43) and `Water` (type 0x20) are classes. Their damage, vulnerability and health accessors are getter functions plus setter methods that update fields in place.
- `SpecialFunction` (type 0x3A) is a value. It has two constructors: `layer_change_fn` and `ice_trap_fn`.

Shared conventions:
- Fixed-width integers are subset types of `int` (module `Bits`).
- Bitwise `&` and `|` are the recursive functions `And` and `Or`.
- `x >> k` is `x / Pow2(k)`, and a low mask is `x % Pow2(k)`.
- `f32` values are carried as bit patterns and never computed with.

Files:
- `bits.dfy`: integer widths and bit arithmetic.
- `wrappers.dfy`: `Option`.
- `prime_api.dfy`: `compile_to_ppc/primeapi-rs/src/lib.rs`.
- `starting_items.dfy`: `src/starting_items.rs`.
- `scly_types.dfy`: floats, C strings and sub-records shared by the script objects.
- `drone.dfy`, `water.dfy`, `special_function.dfy`: the three script objects.

Constants modelled as `const` declarations:
- `Drone.ObjectType` is 0x43, and the drone's three `SUPPORTS_*` flags are true.
- `Water.ObjectType` is 0x20, and `Water.SupportsDamageInfos` is true.
- `SpecialFunction.ObjectType` is 0x3A.

## Model

| member | source | states |
|---|---|---|
| PrimeApi.Matches | compile_to_ppc/primeapi-rs/src/lib.rs:180-182 | Two versions are compatible unless both are concrete and different. |
| PrimeApi.MatchesIsCompatibility | compile_to_ppc/primeapi-rs/src/lib.rs:180-182 | `matches` is reflexive and symmetric. `Any` matches everything. Two concrete versions match exactly when they are equal. |
| PrimeApi.VersionOfSuffix | compile_to_ppc/primeapi-rs/src/lib.rs:164-172 | A recognised suffix is 8 bytes long (bytes 28..36 of the build information) and names a concrete version, never `Any`. |
| PrimeApi.SuffixOf | compile_to_ppc/primeapi-rs/src/lib.rs:164-172 | The reverse of the match arms: a version has a suffix exactly when it is concrete, and the suffix is 8 bytes long. |
| PrimeApi.SuffixTableIsBijection | compile_to_ppc/primeapi-rs/src/lib.rs:164-172 | The suffix lookup and the per-version suffix table are inverse. No suffix maps to `Any`, and exactly the six concrete versions have a suffix. |
| PrimeApi.VersionFromBuildInfo | compile_to_ppc/primeapi-rs/src/lib.rs:162-172 | Bytes 28..36 of the build information determine the version: a concrete version whose suffix they are. When they are none of the six suffixes, the result is `None` (the `unreachable!()` arm). |
| PrimeApi.CallPatch | compile_to_ppc/primeapi-rs/src/lib.rs:195-208 | The record has kind `Call` and passes pointer, offset, target and version through. |
| PrimeApi.ReturnPatch | compile_to_ppc/primeapi-rs/src/lib.rs:210-223 | The record has kind `Return` and passes pointer, offset, target and version through. |
| PrimeApi.PatchConstructorsDifferOnlyInKind | compile_to_ppc/primeapi-rs/src/lib.rs:195-223 | The two constructors build the same record except for `kind`, and never the same record. |
| PrimeApi.BranchOffsetAssertedMeans | compile_to_ppc/primeapi-rs/src/lib.rs:248-250 | The debug-asserted condition with `len = 24` holds exactly for multiples of 4 in [-2^25, 2^25-1]. |
| PrimeApi.BoundsCheckAndMask | compile_to_ppc/primeapi-rs/src/lib.rs:246-253 | `(addr as u64 & ((1 << 26) - 1)) as u32` equals `addr mod 2^26`. That is the low 26 bits of the two's-complement offset, so it is below 2^26. |
| PrimeApi.MaskIsLow26Bits | compile_to_ppc/primeapi-rs/src/lib.rs:252 | The mask through the `u64` reinterpretation and the `u32` truncation is `addr mod 2^26`. |
| PrimeApi.MaskRoundTrip | compile_to_ppc/primeapi-rs/src/lib.rs:246-253 | For an offset meeting the asserted condition, the mask's low two bits are 0, and sign-extending the 26 bits gives the offset back. |
| PrimeApi.MaskedInstruction | compile_to_ppc/primeapi-rs/src/lib.rs:259 | `instr & 0xfc000003` is the opcode, shifted into place, plus the AA and LK bits. |
| PrimeApi.CallPatchLayout | compile_to_ppc/primeapi-rs/src/lib.rs:259 | OR-ing a 26-bit immediate into the masked word puts its top 24 bits in LI and ORs its low 2 bits into AA/LK. |
| PrimeApi.CallPatchWord | compile_to_ppc/primeapi-rs/src/lib.rs:256-260 | The call patch keeps the opcode and puts the offset's bits 2-25 in LI. For an asserted offset, it also keeps AA and LK, and the branch displacement equals the offset. |
| PrimeApi.CallPatchFields | compile_to_ppc/primeapi-rs/src/lib.rs:256-260 | The same facts about `(instr & 0xfc000003) OR imm` itself, including that it fits in 32 bits. |
| PrimeApi.ReturnPatchWord | compile_to_ppc/primeapi-rs/src/lib.rs:261-268 | The return patch is opcode 18 (`b`) with LI the offset's bits 2-25. For an asserted offset, AA = LK = 0 and the displacement equals the offset. |
| PrimeApi.ReturnPatchFields | compile_to_ppc/primeapi-rs/src/lib.rs:261-268 | The same facts about `0x48000000 OR imm` itself, including that it fits in 32 bits. |
| PrimeApi.PatchedWord | compile_to_ppc/primeapi-rs/src/lib.rs:255-269 | The word a record writes: a call patch keeps the original opcode, a return patch has opcode 18, and both put the offset's bits 2-25 in LI. |
| PrimeApi.ApplyPatch | compile_to_ppc/primeapi-rs/src/lib.rs:240-271 | One loop iteration: a record for another version changes nothing; an applicable one replaces the word at its site by its patched word and leaves every other address and the set of addresses as they were. |
| PrimeApi.AlignedSitesDisjoint | compile_to_ppc/primeapi-rs/src/lib.rs:243-271 | In a table meeting `SitesMapped`, two applicable records with different sites name disjoint 4-byte ranges `[Site, Site + 4)`, so the `u32` words read and written at them do not overlap. |
| PrimeApi.ApplyPatches | compile_to_ppc/primeapi-rs/src/lib.rs:239-272 | The loop, as a fold over the table, writes only mapped words: the set of addresses is unchanged. |
| PrimeApi.ApplyPatchesFrame | compile_to_ppc/primeapi-rs/src/lib.rs:239-272 | A word at an address that no applicable record names is left unchanged. |
| PrimeApi.PatchedSiteHolds | compile_to_ppc/primeapi-rs/src/lib.rs:239-272 | With pairwise distinct sites, every applicable record's site ends up holding that record's patched word, computed from the original word. |
| PrimeApi.RelProlog | compile_to_ppc/primeapi-rs/src/lib.rs:236-272 | The imperative loop skips non-matching records, reads and writes each site in table order, and leaves memory equal to the fold `ApplyPatches` of the initial memory. |
| PrimeApi.PrologBranchesToTargets | compile_to_ppc/primeapi-rs/src/lib.rs:239-272 | Assuming distinct sites and an offset that passes the range check, the word at an applicable record's site ends up with displacement site + displacement = target. A call site keeps its opcode, AA and LK, so it is a relative branch (opcode 18, AA = 0) exactly when the original word was one. A return site always becomes the relative branch `b` with LK = 0. |
| StartingItems.FetchBits | src/starting_items.rs:80-84 | One `fetch_bits(bits)` call returns the next `bits`-bit field of the original integer, as a `u8`. It leaves the captured integer shifted past that field. |
| StartingItems.ShiftRight | src/starting_items.rs:82 | `starting_items >>= bits` moves bit `j + bits` to bit `j` for every `j`, shifts nothing in (the result is at most the input), and stays a `u64`. |
| StartingItems.Default | src/starting_items.rs:222-258 | The default inventory is not empty in the sense of `is_empty`. |
| StartingItems.U8AsI8 | src/starting_items.rs:91-92 | `u8 as i8` keeps values below 0x80 and wraps the others to `v - 256`. |
| StartingItems.FromU64 | src/starting_items.rs:79-120 | Unpacking in field-evaluation order gives `Layout(x)`: scan visor at bit 0, missiles at bits 1-8, energy tanks at bits 9-12, power bombs at bits 13-16, then wave to flamethrower at bits 17-35, and fixed values elsewhere. |
| StartingItems.LayoutRanges | src/starting_items.rs:80-92 | Unpacked missiles are in 0..=255. Energy tanks and power bombs are in 0..=15. |
| StartingItems.LayoutFixedFields | src/starting_items.rs:86-118 | Unpacking always grants power beam, combat visor and both launchers. It never grants unlimited missiles, unlimited power bombs or spring ball. Power suit and unknown item 1 are 0. |
| StartingItems.LayoutIgnoresHighBits | src/starting_items.rs:79-120 | Bits 36 and above are never read: `from_u64(x) == from_u64(x mod 2^36)`. |
| StartingItems.LayoutOfOneIsDefault | src/starting_items.rs:79-120 | `from_u64(1)` is `StartingItems::default()`. |
| StartingItems.IsEmpty | src/starting_items.rs:189-219 | `is_empty` holds exactly when the inventory equals `Nothing`, which grants nothing. It ignores combat visor, power suit and unknown item 1. |
| StartingItems.DefaultAndUnpackedAreNotEmpty | src/starting_items.rs:189-219 | Neither the default nor any unpacked inventory is empty. |
| StartingItems.BoolAsU32 | src/starting_items.rs:123-125 | `bool as u32` is 1 for true and 0 for false. |
| StartingItems.I32AsU32 | src/starting_items.rs:126 | `i32 as u32` keeps non-negative values and reinterprets negative ones as `v + 2^32`. |
| StartingItems.I8AsU32 | src/starting_items.rs:127-128 | `i8 as u32` sign-extends: for a negative value the top 24 bits are all ones and the low byte is `v + 256`. |
| StartingItems.UpdateSpawnPoint | src/starting_items.rs:122-167 | Every slot of the spawn point gets the cast of its item. Power suit is 0, unknown item 1 is copied, and unknown item 2 is the OR of the selected custom values. The spawn point's other fields are unchanged. |
| StartingItems.ExtraItemBits | src/starting_items.rs:149-166 | The chain of `unknown_item_2` OR-assignments equals `OrOfSelected` over the five flags and their custom values, in the order tested. |
| StartingItems.OrU32 | src/starting_items.rs:151 | `a OR b` has exactly the bits of `a` and of `b`: every bit of either is set, and a bit clear in both is clear in the result. |
| StartingItems.OrOfSelectedCovers | src/starting_items.rs:150-166 | Every bit of every selected item's value is set in `unknown_item_2`. |
| StartingItems.OrOfSelectedOnly | src/starting_items.rs:150-166 | A bit that no selected value has is clear in `unknown_item_2`. |
| StartingItems.OrOfSelectedNone | src/starting_items.rs:150-166 | With none of the five flags set, `unknown_item_2` is 0. |
| StartingItems.OrOfSelectedBound | src/starting_items.rs:150-166 | The OR of `k`-bit values is a `k`-bit value, so the final `as u32` loses nothing. |
| StartingItems.UnpackedExtraItemBits | src/starting_items.rs:150-166 | For an unpacked inventory, `unknown_item_2` is exactly the OR of the `MissileLauncher` and `PowerBombLauncher` values. |
| SclyTypes.AsCStr | structs/src/scly_props/special_function.rs:51 | `as_cstr` on a NUL-terminated literal gives the bytes before the terminator, and appending the NUL gives the literal back. |
| SclyTypes.EmptyLiteralIsEmpty | structs/src/scly_props/special_function.rs:51 | `b"\0".as_cstr()` is the empty C string. |
| Drone.Drone.constructor | structs/src/scly_props/drone.rs:8-29 | A drone holds exactly the given field values. |
| Drone.Drone.DamageInfos | structs/src/scly_props/drone.rs:42-48 | The getter always returns three damage infos. |
| Drone.Drone.Vulnerabilities | structs/src/scly_props/drone.rs:58-60 | The getter always returns one vulnerability. |
| Drone.Drone.HealthInfos | structs/src/scly_props/drone.rs:68-70 | The getter always returns one health info. |
| Drone.Drone.SetDamageInfos | structs/src/scly_props/drone.rs:42-54 | Requires at least three entries. Afterwards the getter returns `x[..3]`: contact damage, then damage info 1, then damage info 2. Only those three fields change, the vulnerability and health getters are unaffected, and writing back what the getter returned changes nothing. |
| Drone.Drone.SetVulnerabilities | structs/src/scly_props/drone.rs:58-64 | Requires at least one entry. Afterwards the getter returns `[x[0]]`. Only the patterned info's vulnerability changes, and writing back the getter's value changes nothing. |
| Drone.Drone.SetHealthInfos | structs/src/scly_props/drone.rs:68-74 | Requires at least one entry. Afterwards the getter returns `[x[0]]`. Only the patterned info's health info changes, and writing back the getter's value changes nothing. |
| Water.Water.constructor | structs/src/scly_props/water.rs:9-74 | A water volume holds exactly the given field values. |
| Water.Water.DamageInfos | structs/src/scly_props/water.rs:104-106 | The getter always returns one damage info. |
| Water.Water.SetDamageInfos | structs/src/scly_props/water.rs:104-110 | Requires at least one entry. Afterwards the getter returns `[x[0]]`. Nothing else changes, and writing back the getter's value changes nothing. |
| SpecialFunction.LayerChangeFn | structs/src/scly_props/special_function.rs:45-64 | The result has type 16 with the given name, room and layer. It has the common defaults: origin, no rotation, empty `unknown0`, zero floats, item 0, `unknown4 = 1`, `unknown6..8 = 0xFFFFFFFF`. |
| SpecialFunction.IceTrapFn | structs/src/scly_props/special_function.rs:66-85 | The result has type 33 with the given name, room 0 and layer `u32::MAX`, plus the same defaults. |
| SpecialFunction.LayerChangeFnCharacterised | structs/src/scly_props/special_function.rs:45-64 | A special function is a `layer_change_fn` result exactly when it has type 16 and the common defaults. |
| SpecialFunction.IceTrapFnCharacterised | structs/src/scly_props/special_function.rs:66-85 | A special function is an `ice_trap_fn` result exactly when it has type 33, room 0, layer `u32::MAX` and the common defaults. |
| SpecialFunction.IceTrapIsRetypedLayerChange | structs/src/scly_props/special_function.rs:45-85 | `ice_trap_fn(n)` is `layer_change_fn(n, 0, u32::MAX)` with type 33. It is never a layer change. |
| SpecialFunction.LayerChangeFnInjective | structs/src/scly_props/special_function.rs:45-64 | Different arguments give different layer-change functions. |

## Left out

- The allocator, `malloc`/`free`, `Mp1Stdout`, the panic handler and `halt` in `lib.rs` are foreign calls and raw pointers.
- The `cpp_field!` macro and the `extern "C"` declarations in `lib.rs` are also left out, for the same reason.
- The `distributed_slice` linker tables are link-time machinery. The patch table is an input sequence instead.
- The calls to `PROLOG_FUNCS` after the loop (`lib.rs:274-277`) are calls into code that is not visible.
- `GameVersion::current` keeps a `static mut` cache and reads `__build_info` through a raw pointer. Only the suffix lookup is modelled, and the running version is a parameter of `RelProlog`.
- PrimeApi.ReturnPatchWord: does not take the original word, and the `debug_assert_eq!(instr, 0x4e800020)` is not enforced. The model follows release builds, where debug assertions are compiled out and the return patch writes its branch whatever the site held.
- PrimeApi.BoundsCheckAndMask: the range check is a debug assertion, so the mask is total here. The asserted condition is the predicate `BranchOffsetAsserted`, which is a hypothesis of the round-trip lemmas.
- PrimeApi.BoundsCheckAndMask: the closure is modelled only for `len = 24`, the only value it is called with.
- PrimeApi.RelProlog: pointers are 32-bit addresses. `ptr::read` on an unmapped or misaligned site is excluded by the precondition `SitesMapped`.
- PrimeApi.RelProlog: memory is word-granular. Each key stands for the aligned 4-byte word at that address; a byte-level view, in which words at keys less than 4 apart would overlap, is not modelled.
- PrimeApi.PrologBranchesToTargets: does not promise that a call site becomes a relative branch when the word it held was not one (for example an absolute `bla`); the patch keeps that word's opcode and AA bit.
- `custom_deserialize` (`starting_items.rs:171-187`) is serde plumbing. Its integer branch is `from_u64`.
- The serde attributes and field defaults of `StartingItems` are also serde plumbing.
- `PickupType::custom_item_value` is defined outside the modelled files. The five values it returns are the record parameter `CustomItemValues`.
- The fields of `SpawnPoint` that `update_spawn_point` does not write are kept as opaque bytes (`others`). `pickup_meta` is not part of this model.
- `f32` fields are carried as bit patterns only.
- The contents of `DamageInfo`, `DamageVulnerability`, `HealthInfo`, `ActorParameters` and the rest of `PatternedInfo` are kept as opaque encoded bytes. They are declared in files that are not part of this model.
- The `Readable`/`Writable` binary layouts and the `prop_count` checks of every script object come from `auto_struct` macros that are not part of this model.
- The position, rotation, scale and patterned-info accessor macros (`impl_position!` and the others) are defined elsewhere and are not part of this model.
- `Water`'s fields after `damage_info` are opaque bytes, because no modelled operation reads or writes them.
- SclyTypes.AsCStr: `as_cstr` belongs to the `reader_writer` crate, which is not part of this model. Its use on a literal with a single trailing NUL is modelled as dropping the terminator.
- `debris.rs`, `hud_memo.rs` and `random_relay.rs` hold only layouts and an `OBJECT_TYPE` constant.
