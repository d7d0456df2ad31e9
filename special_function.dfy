/**
  The `SpecialFunction` script object (type 0x3A) and the two instances the
  patcher builds from scratch: a layer-change trigger and an ice trap.
 */
module SpecialFunction {
  import opened Bits
  import opened SclyTypes

  const ObjectType: u8 := 0x3A

  /** The `type_` of a function that switches a room layer on or off. */
  const LayerChangeType: u32 := 16
  /** The `type_` of the ice-trap function. */
  const IceTrapType: u32 := 33

  datatype SpecialFunction = SpecialFunction(
    name: CStr,
    position: Vec3,
    rotation: Vec3,
    type_: u32,
    unknown0: CStr,
    unknown1: F32,
    unknown2: F32,
    unknown3: F32,
    layerChangeRoomId: u32,
    layerChangeLayerId: u32,
    itemId: u32,
    unknown4: u8,
    unknown5: F32,
    unknown6: u32,
    unknown7: u32,
    unknown8: u32)

  /**
    The fields both constructors fill in the same way: at the origin with no
    rotation, an empty `unknown0`, zero floats, no item, `unknown4` set and
    the three spinner-controller words all ones.
   */
  predicate HasPatcherDefaults(f: SpecialFunction)
  {
    && f.position == Origin && f.rotation == Origin
    && f.unknown0 == [] && f.unknown1 == Zero && f.unknown2 == Zero && f.unknown3 == Zero
    && f.itemId == 0 && f.unknown4 == 1 && f.unknown5 == Zero
    && f.unknown6 == 0xFFFF_FFFF && f.unknown7 == 0xFFFF_FFFF && f.unknown8 == 0xFFFF_FFFF
  }

  /** `layer_change_fn(name, room_id, layer_num)` */
  function LayerChangeFn(name: CStr, roomId: u32, layerNum: u32): (r: SpecialFunction)
    ensures HasPatcherDefaults(r) && r.type_ == LayerChangeType
    ensures r.name == name && r.layerChangeRoomId == roomId && r.layerChangeLayerId == layerNum
  {
    EmptyLiteralIsEmpty();
    SpecialFunction(
      name := name,
      position := Origin,
      rotation := Origin,
      type_ := 16,
      unknown0 := AsCStr([0]),
      unknown1 := Zero,
      unknown2 := Zero,
      unknown3 := Zero,
      layerChangeRoomId := roomId,
      layerChangeLayerId := layerNum,
      itemId := 0,
      unknown4 := 1,
      unknown5 := Zero,
      unknown6 := 0xFFFF_FFFF,
      unknown7 := 0xFFFF_FFFF,
      unknown8 := 0xFFFF_FFFF)
  }

  /** `ice_trap_fn(name)` */
  function IceTrapFn(name: CStr): (r: SpecialFunction)
    ensures HasPatcherDefaults(r) && r.type_ == IceTrapType
    ensures r.name == name && r.layerChangeRoomId == 0 && r.layerChangeLayerId == 0xFFFF_FFFF
  {
    EmptyLiteralIsEmpty();
    SpecialFunction(
      name := name,
      position := Origin,
      rotation := Origin,
      type_ := 33,
      unknown0 := AsCStr([0]),
      unknown1 := Zero,
      unknown2 := Zero,
      unknown3 := Zero,
      layerChangeRoomId := 0,
      layerChangeLayerId := 0xFFFF_FFFF,
      itemId := 0,
      unknown4 := 1,
      unknown5 := Zero,
      unknown6 := 0xFFFF_FFFF,
      unknown7 := 0xFFFF_FFFF,
      unknown8 := 0xFFFF_FFFF)
  }

  /**
    `layer_change_fn` builds exactly the layer-change functions with the
    patcher's defaults: nothing else, and each of them from its own fields.
   */
  lemma LayerChangeFnCharacterised(f: SpecialFunction)
    ensures HasPatcherDefaults(f) && f.type_ == LayerChangeType
        <==> f == LayerChangeFn(f.name, f.layerChangeRoomId, f.layerChangeLayerId)
  {
  }

  /** `ice_trap_fn` builds exactly the ice traps with the patcher's defaults, room 0 and layer `u32::MAX`. */
  lemma IceTrapFnCharacterised(f: SpecialFunction)
    ensures HasPatcherDefaults(f) && f.type_ == IceTrapType
            && f.layerChangeRoomId == 0 && f.layerChangeLayerId == 0xFFFF_FFFF
        <==> f == IceTrapFn(f.name)
  {
  }

  /** An ice trap is the layer change of room 0, layer `u32::MAX`, retyped to 33. */
  lemma IceTrapIsRetypedLayerChange(name: CStr)
    ensures IceTrapFn(name) == LayerChangeFn(name, 0, 0xFFFF_FFFF).(type_ := IceTrapType)
    ensures forall room: u32, layer: u32 :: IceTrapFn(name) != LayerChangeFn(name, room, layer)
  {
  }

  /** Different arguments give different layer-change functions. */
  lemma LayerChangeFnInjective(n1: CStr, r1: u32, l1: u32, n2: CStr, r2: u32, l2: u32)
    ensures LayerChangeFn(n1, r1, l1) == LayerChangeFn(n2, r2, l2) <==> n1 == n2 && r1 == r2 && l1 == l2
  {
  }
}
