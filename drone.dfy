/**
  The `Drone` script object (type 0x43) and its accessors for the damage,
  vulnerability and health sub-records that the randomizer rewrites.
 */
module Drone {
  import opened Bits
  import opened SclyTypes

  const ObjectType: u8 := 0x43
  const SupportsDamageInfos: bool := true
  const SupportsVulnerabilities: bool := true
  const SupportsHealthInfos: bool := true

  class Drone {
    var name: CStr
    var unknown1: u32
    var position: Vec3
    var rotation: Vec3
    var scale: Vec3
    var unknown2: F32
    var patternedInfo: PatternedInfo
    var actorParams: ActorParameters
    var damageInfo1: DamageInfo
    var unknown3: F32
    var damageInfo2: DamageInfo
    var dontCare: seq<u8>

    constructor(name: CStr, unknown1: u32, position: Vec3, rotation: Vec3, scale: Vec3,
                unknown2: F32, patternedInfo: PatternedInfo, actorParams: ActorParameters,
                damageInfo1: DamageInfo, unknown3: F32, damageInfo2: DamageInfo, dontCare: seq<u8>)
      ensures this.name == name && this.unknown1 == unknown1
      ensures this.position == position && this.rotation == rotation && this.scale == scale
      ensures this.unknown2 == unknown2 && this.patternedInfo == patternedInfo
      ensures this.actorParams == actorParams && this.damageInfo1 == damageInfo1
      ensures this.unknown3 == unknown3 && this.damageInfo2 == damageInfo2
      ensures this.dontCare == dontCare
    {
      this.name := name;
      this.unknown1 := unknown1;
      this.position := position;
      this.rotation := rotation;
      this.scale := scale;
      this.unknown2 := unknown2;
      this.patternedInfo := patternedInfo;
      this.actorParams := actorParams;
      this.damageInfo1 := damageInfo1;
      this.unknown3 := unknown3;
      this.damageInfo2 := damageInfo2;
      this.dontCare := dontCare;
    }

    /** `impl_get_damage_infos`: the contact damage, then the two attack damages. */
    function DamageInfos(): (r: seq<DamageInfo>)
      reads this
      ensures |r| == 3
    {
      [patternedInfo.contactDamage, damageInfo1, damageInfo2]
    }

    /** `impl_get_vulnerabilities` */
    function Vulnerabilities(): (r: seq<DamageVulnerability>)
      reads this
      ensures |r| == 1
    {
      [patternedInfo.damageVulnerability]
    }

    /** `impl_get_health_infos` */
    function HealthInfos(): (r: seq<HealthInfo>)
      reads this
      ensures |r| == 1
    {
      [patternedInfo.healthInfo]
    }

    /**
      `impl_set_damage_infos`: stores `x[0]`, `x[1]`, `x[2]` where the getter
      reads them (the source indexes `x[2]`, so shorter vectors panic). The
      other sub-records and fields are untouched, and writing back what the
      getter returned changes nothing.
     */
    method SetDamageInfos(x: seq<DamageInfo>)
      requires |x| >= 3
      modifies this
      ensures DamageInfos() == x[..3]
      ensures patternedInfo == old(patternedInfo).(contactDamage := x[0])
      ensures Vulnerabilities() == old(Vulnerabilities()) && HealthInfos() == old(HealthInfos())
      ensures unchanged(this`name, this`unknown1, this`position, this`rotation, this`scale)
      ensures unchanged(this`unknown2, this`actorParams, this`unknown3, this`dontCare)
      ensures x[..3] == old(DamageInfos()) ==> unchanged(this)
    {
      patternedInfo := patternedInfo.(contactDamage := x[0]);
      damageInfo1 := x[1];
      damageInfo2 := x[2];
    }

    /** `impl_set_vulnerabilities`: stores `x[0]` (an empty vector panics). */
    method SetVulnerabilities(x: seq<DamageVulnerability>)
      requires |x| >= 1
      modifies this
      ensures Vulnerabilities() == [x[0]]
      ensures patternedInfo == old(patternedInfo).(damageVulnerability := x[0])
      ensures DamageInfos() == old(DamageInfos()) && HealthInfos() == old(HealthInfos())
      ensures unchanged(this`name, this`unknown1, this`position, this`rotation, this`scale)
      ensures unchanged(this`unknown2, this`actorParams, this`damageInfo1, this`unknown3)
      ensures unchanged(this`damageInfo2, this`dontCare)
      ensures [x[0]] == old(Vulnerabilities()) ==> unchanged(this)
    {
      patternedInfo := patternedInfo.(damageVulnerability := x[0]);
    }

    /** `impl_set_health_infos`: stores `x[0]` (an empty vector panics). */
    method SetHealthInfos(x: seq<HealthInfo>)
      requires |x| >= 1
      modifies this
      ensures HealthInfos() == [x[0]]
      ensures patternedInfo == old(patternedInfo).(healthInfo := x[0])
      ensures DamageInfos() == old(DamageInfos()) && Vulnerabilities() == old(Vulnerabilities())
      ensures unchanged(this`name, this`unknown1, this`position, this`rotation, this`scale)
      ensures unchanged(this`unknown2, this`actorParams, this`damageInfo1, this`unknown3)
      ensures unchanged(this`damageInfo2, this`dontCare)
      ensures [x[0]] == old(HealthInfos()) ==> unchanged(this)
    {
      patternedInfo := patternedInfo.(healthInfo := x[0]);
    }
  }
}
