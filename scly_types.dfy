/**
  Values shared by the script-object (`SCLY` property) records: 32-bit
  floats, C strings, and the sub-records whose layouts are defined outside
  this model. Floats are carried as their IEEE-754 bit patterns and never
  computed with; the sub-records carry their encoded bytes.
 */
module SclyTypes {
  import opened Bits

  /** An `f32`, as its IEEE-754 single-precision bit pattern. */
  datatype F32 = F32(bits: u32)

  /** `0.0_f32`: the all-zero bit pattern. */
  const Zero: F32 := F32(0)

  /** `GenericArray<f32, U3>`: a position, rotation or scale. */
  datatype Vec3 = Vec3(x: F32, y: F32, z: F32)

  /** `[0., 0., 0.].into()` */
  const Origin: Vec3 := Vec3(Zero, Zero, Zero)

  /** A C string: its bytes up to, not including, the terminating NUL. */
  type CStr = s: seq<u8> | forall i :: 0 <= i < |s| ==> s[i] != 0

  /**
    `as_cstr` on a byte literal that ends in its only NUL: the string is the
    bytes before the terminator.
   */
  function AsCStr(b: seq<u8>): (r: CStr)
    requires |b| > 0 && b[|b| - 1] == 0
    requires forall i :: 0 <= i < |b| - 1 ==> b[i] != 0
    ensures r + [0] == b
  {
    b[..|b| - 1]
  }

  /** `b"\0".as_cstr()`: the empty C string. */
  lemma EmptyLiteralIsEmpty()
    ensures AsCStr([0]) == []
  {
  }

  /** A `DamageInfo` record, as its encoded bytes. */
  datatype DamageInfo = DamageInfo(encoded: seq<u8>)

  /** A `DamageVulnerability` record, as its encoded bytes. */
  datatype DamageVulnerability = DamageVulnerability(encoded: seq<u8>)

  /** A `HealthInfo` record, as its encoded bytes. */
  datatype HealthInfo = HealthInfo(encoded: seq<u8>)

  /** An `ActorParameters` record, as its encoded bytes. */
  datatype ActorParameters = ActorParameters(encoded: seq<u8>)

  /**
    A `PatternedInfo` record: the three sub-records the damage, vulnerability
    and health accessors reach, and its other fields as bytes.
   */
  datatype PatternedInfo = PatternedInfo(
    contactDamage: DamageInfo,
    damageVulnerability: DamageVulnerability,
    healthInfo: HealthInfo,
    others: seq<u8>)
}
