/**
  The `Water` script object (type 0x20) and its damage accessor: a fluid
  volume hurts what is inside it with one `DamageInfo`.
 */
module Water {
  import opened Bits
  import opened SclyTypes

  const ObjectType: u8 := 0x20
  const SupportsDamageInfos: bool := true

  class Water {
    var name: CStr
    var position: Vec3
    var scale: Vec3
    var damageInfo: DamageInfo
    /** `unknown1` through `crash_the_game`, as bytes. */
    var others: seq<u8>

    constructor(name: CStr, position: Vec3, scale: Vec3, damageInfo: DamageInfo, others: seq<u8>)
      ensures this.name == name && this.position == position && this.scale == scale
      ensures this.damageInfo == damageInfo && this.others == others
    {
      this.name := name;
      this.position := position;
      this.scale := scale;
      this.damageInfo := damageInfo;
      this.others := others;
    }

    /** `impl_get_damage_infos` */
    function DamageInfos(): (r: seq<DamageInfo>)
      reads this
      ensures |r| == 1
    {
      [damageInfo]
    }

    /**
      `impl_set_damage_infos`: stores `x[0]` (an empty vector panics); writing
      back what the getter returned changes nothing.
     */
    method SetDamageInfos(x: seq<DamageInfo>)
      requires |x| >= 1
      modifies this
      ensures DamageInfos() == [x[0]]
      ensures unchanged(this`name, this`position, this`scale, this`others)
      ensures [x[0]] == old(DamageInfos()) ==> unchanged(this)
    {
      damageInfo := x[0];
    }
  }
}
