/**
 * The decoder of src/forza.rs: the Forza Motorsport 7 "Data Out" packet
 * ("sled" plus "dash" fields) as one flat record, and `parse`, which reads
 * every field from a constant byte range of the buffer.
 *
 * The constant ranges `parse` hard-codes are written out once, as the table
 * `LAYOUT`, one row per field in declaration order. `Parse` reads the rows
 * in that order, each with the reader its kind calls for, and assembles the
 * record from the values by position.
 *
 * Both ways `parse` can panic become an `Err`: slicing `&buffer[lo..hi]`
 * past the end of the buffer, and a length mismatch in an extractor. As in
 * the source, the first read that fails decides the error.
 */
module Forza {
  import opened Wrappers
  import opened Utils
  import opened LittleEndian

  /** The number of bytes `parse` consumes. */
  const MESSAGE_SIZE: nat := 323

  /**
   * One telemetry tick. Integer fields hold their numeric value, `f32`
   * fields their bit pattern. The fields `tireSlipAngle*` are spelled
   * `trire_slip_angle_*` in the source.
   */
  datatype TelemetryData = TelemetryData(
    isRaceOn: I32,
    timestampMs: U32,
    engineMaxRpm: F32Bits,
    engineIdleRpm: F32Bits,
    currentEngineRpm: F32Bits,
    accelerationX: F32Bits,
    accelerationY: F32Bits,
    accelerationZ: F32Bits,
    velocityX: F32Bits,
    velocityY: F32Bits,
    velocityZ: F32Bits,
    angularVelocityX: F32Bits,
    angularVelocityY: F32Bits,
    angularVelocityZ: F32Bits,
    yaw: F32Bits,
    pitch: F32Bits,
    roll: F32Bits,
    normalizedSuspensionTravelFrontLeft: F32Bits,
    normalizedSuspensionTravelFrontRight: F32Bits,
    normalizedSuspensionTravelRearLeft: F32Bits,
    normalizedSuspensionTravelRearRight: F32Bits,
    tireSlipRatioFrontLeft: F32Bits,
    tireSlipRatioFrontRight: F32Bits,
    tireSlipRatioRearLeft: F32Bits,
    tireSlipRatioRearRight: F32Bits,
    wheelRotationSpeedFrontLeft: F32Bits,
    wheelRotationSpeedFrontRight: F32Bits,
    wheelRotationSpeedRearLeft: F32Bits,
    wheelRotationSpeedRearRight: F32Bits,
    wheelOnRumbleStripFrontLeft: I32,
    wheelOnRumbleStripFrontRight: I32,
    wheelOnRumbleStripRearLeft: I32,
    wheelOnRumbleStripRearRight: I32,
    wheelInPuddleDepthFrontLeft: F32Bits,
    wheelInPuddleDepthFrontRight: F32Bits,
    wheelInPuddleDepthRearLeft: F32Bits,
    wheelInPuddleDepthRearRight: F32Bits,
    surfaceRumbleFrontLeft: F32Bits,
    surfaceRumbleFrontRight: F32Bits,
    surfaceRumbleRearLeft: F32Bits,
    surfaceRumbleRearRight: F32Bits,
    tireSlipAngleFrontLeft: F32Bits,
    tireSlipAngleFrontRight: F32Bits,
    tireSlipAngleRearLeft: F32Bits,
    tireSlipAngleRearRight: F32Bits,
    tireCombinedSlipFrontLeft: F32Bits,
    tireCombinedSlipFrontRight: F32Bits,
    tireCombinedSlipRearLeft: F32Bits,
    tireCombinedSlipRearRight: F32Bits,
    suspensionTravelMetersFrontLeft: F32Bits,
    suspensionTravelMetersFrontRight: F32Bits,
    suspensionTravelMetersRearLeft: F32Bits,
    suspensionTravelMetersRearRight: F32Bits,
    carOrdinal: I32,
    carClass: I32,
    carPerformanceIndex: I32,
    drivetrainType: I32,
    numCylinders: I32,
    positionX: F32Bits,
    positionY: F32Bits,
    positionZ: F32Bits,
    speed: F32Bits,
    power: F32Bits,
    torque: F32Bits,
    tireTempFrontLeft: F32Bits,
    tireTempFrontRight: F32Bits,
    tireTempRearLeft: F32Bits,
    tireTempRearRight: F32Bits,
    boost: F32Bits,
    fuel: F32Bits,
    distanceTraveled: F32Bits,
    bestLap: F32Bits,
    lastLap: F32Bits,
    currentLap: F32Bits,
    currentRaceTime: F32Bits,
    lapNumber: U16,
    racePosition: U8,
    accel: U8,
    brake: U8,
    clutch: U8,
    handBrake: U8,
    gear: U8,
    steer: I8,
    normalizedDrivingLine: I8,
    normalizedAiBrakeDifference: I8
  )

  /** Why decoding stopped. */
  datatype ParseError =
    | SliceOutOfRange(lo: int, hi: int, len: int)
    | Extract(cause: ExtractError)

  /** `&buffer[lo..hi]`: panics unless `lo <= hi <= buffer.len()`. */
  function Slice(buffer: seq<U8>, lo: int, hi: int): (r: Result<seq<U8>, ParseError>)
    ensures r.Ok? <==> 0 <= lo <= hi <= |buffer|
    ensures r.Ok? ==> r.value == buffer[lo..hi]
    ensures r.Err? ==> r.error == SliceOutOfRange(lo, hi, |buffer|)
  {
    if 0 <= lo <= hi <= |buffer| then Ok(buffer[lo..hi]) else Err(SliceOutOfRange(lo, hi, |buffer|))
  }

  /** How a read of a `width`-byte value from `buffer[lo..hi]` fails: at the slice, else in the extractor. */
  function ReadError(buffer: seq<U8>, lo: int, hi: int, width: nat): ParseError
  {
    if 0 <= lo <= hi <= |buffer| then Extract(LengthMismatch(width, hi - lo)) else SliceOutOfRange(lo, hi, |buffer|)
  }

  /** `i32::from_le_bytes(utils::get32(&buffer[lo..hi]))` */
  function ReadI32(buffer: seq<U8>, lo: int, hi: int): (r: Result<I32, ParseError>)
    ensures r.Ok? <==> 0 <= lo <= hi <= |buffer| && hi - lo == 4
    ensures r.Ok? ==> r.value == I32FromLe(buffer[lo..hi])
    ensures r.Err? ==> r.error == ReadError(buffer, lo, hi, 4)
  {
    var s :- Slice(buffer, lo, hi);
    var a := Get32(s);
    if a.Err? then Err(Extract(a.error)) else Ok(I32FromLe(a.value))
  }

  /** `u32::from_le_bytes(utils::get32(&buffer[lo..hi]))` */
  function ReadU32(buffer: seq<U8>, lo: int, hi: int): (r: Result<U32, ParseError>)
    ensures r.Ok? <==> 0 <= lo <= hi <= |buffer| && hi - lo == 4
    ensures r.Ok? ==> r.value == U32FromLe(buffer[lo..hi])
    ensures r.Err? ==> r.error == ReadError(buffer, lo, hi, 4)
  {
    var s :- Slice(buffer, lo, hi);
    var a := Get32(s);
    if a.Err? then Err(Extract(a.error)) else Ok(U32FromLe(a.value))
  }

  /** `f32::from_le_bytes(utils::get32(&buffer[lo..hi]))`, as a bit pattern */
  function ReadF32(buffer: seq<U8>, lo: int, hi: int): (r: Result<F32Bits, ParseError>)
    ensures r.Ok? <==> 0 <= lo <= hi <= |buffer| && hi - lo == 4
    ensures r.Ok? ==> r.value == F32FromLe(buffer[lo..hi])
    ensures r.Err? ==> r.error == ReadError(buffer, lo, hi, 4)
  {
    var s :- Slice(buffer, lo, hi);
    var a := Get32(s);
    if a.Err? then Err(Extract(a.error)) else Ok(F32FromLe(a.value))
  }

  /** `u16::from_le_bytes(utils::get16(&buffer[lo..hi]))` */
  function ReadU16(buffer: seq<U8>, lo: int, hi: int): (r: Result<U16, ParseError>)
    ensures r.Ok? <==> 0 <= lo <= hi <= |buffer| && hi - lo == 2
    ensures r.Ok? ==> r.value == U16FromLe(buffer[lo..hi])
    ensures r.Err? ==> r.error == ReadError(buffer, lo, hi, 2)
  {
    var s :- Slice(buffer, lo, hi);
    var a := Get16(s);
    if a.Err? then Err(Extract(a.error)) else Ok(U16FromLe(a.value))
  }

  /** `u8::from_le_bytes(utils::get8(&buffer[lo..hi]))` */
  function ReadU8(buffer: seq<U8>, lo: int, hi: int): (r: Result<U8, ParseError>)
    ensures r.Ok? <==> 0 <= lo <= hi <= |buffer| && hi - lo == 1
    ensures r.Ok? ==> r.value == U8FromLe(buffer[lo..hi])
    ensures r.Err? ==> r.error == ReadError(buffer, lo, hi, 1)
  {
    var s :- Slice(buffer, lo, hi);
    var a := Get8(s);
    if a.Err? then Err(Extract(a.error)) else Ok(U8FromLe(a.value))
  }

  /** `i8::from_le_bytes(utils::get8(&buffer[lo..hi]))` */
  function ReadI8(buffer: seq<U8>, lo: int, hi: int): (r: Result<I8, ParseError>)
    ensures r.Ok? <==> 0 <= lo <= hi <= |buffer| && hi - lo == 1
    ensures r.Ok? ==> r.value == I8FromLe(buffer[lo..hi])
    ensures r.Err? ==> r.error == ReadError(buffer, lo, hi, 1)
  {
    var s :- Slice(buffer, lo, hi);
    var a := Get8(s);
    if a.Err? then Err(Extract(a.error)) else Ok(I8FromLe(a.value))
  }

  /** The numeric interpretation of a field. */
  datatype Kind = Int32 | UInt32 | Float32 | UInt16 | UInt8 | Int8

  /** The number of bytes a field of the kind occupies. */
  function Width(k: Kind): nat {
    match k
    case Int32 | UInt32 | Float32 => 4
    case UInt16 => 2
    case UInt8 | Int8 => 1
  }

  /** One field of the wire format: it occupies bytes [offset, offset + width). */
  datatype FieldSpec = FieldSpec(offset: nat, width: nat, kind: Kind)

  function End(f: FieldSpec): nat {
    f.offset + f.width
  }

  /** The number of fields. */
  const FIELD_COUNT: nat := 85

  /**
   * Every field `parse` reads, in declaration order, with the slice bounds
   * the source gives it (wire name and line of src/forza.rs in the comment).
   */
  const LAYOUT: seq<FieldSpec> :=
    [
      FieldSpec(0, 4, Int32),  // is_race_on, line 121
      FieldSpec(4, 4, UInt32),  // timestamp_ms, line 122
      FieldSpec(8, 4, Float32),  // engine_max_rpm, line 123
      FieldSpec(12, 4, Float32),  // engine_idle_rpm, line 124
      FieldSpec(16, 4, Float32),  // current_engine_rpm, line 125
      FieldSpec(20, 4, Float32),  // acceleration_x, line 126
      FieldSpec(24, 4, Float32),  // acceleration_y, line 127
      FieldSpec(28, 4, Float32)  // acceleration_z, line 128
    ] +
    [
      FieldSpec(32, 4, Float32),  // velocity_x, line 129
      FieldSpec(36, 4, Float32),  // velocity_y, line 130
      FieldSpec(40, 4, Float32),  // velocity_z, line 131
      FieldSpec(44, 4, Float32),  // angular_velocity_x, line 132
      FieldSpec(48, 4, Float32),  // angular_velocity_y, line 133
      FieldSpec(52, 4, Float32),  // angular_velocity_z, line 134
      FieldSpec(56, 4, Float32),  // yaw, line 135
      FieldSpec(60, 4, Float32)  // pitch, line 136
    ] +
    [
      FieldSpec(64, 4, Float32),  // roll, line 137
      FieldSpec(68, 4, Float32),  // normalized_suspension_travel_front_left, line 138
      FieldSpec(72, 4, Float32),  // normalized_suspension_travel_front_right, line 139
      FieldSpec(76, 4, Float32),  // normalized_suspension_travel_rear_left, line 140
      FieldSpec(80, 4, Float32),  // normalized_suspension_travel_rear_right, line 141
      FieldSpec(84, 4, Float32),  // tire_slip_ratio_front_left, line 142
      FieldSpec(88, 4, Float32),  // tire_slip_ratio_front_right, line 143
      FieldSpec(92, 4, Float32)  // tire_slip_ratio_rear_left, line 144
    ] +
    [
      FieldSpec(96, 4, Float32),  // tire_slip_ratio_rear_right, line 145
      FieldSpec(100, 4, Float32),  // wheel_rotation_speed_front_left, line 146
      FieldSpec(104, 4, Float32),  // wheel_rotation_speed_front_right, line 147
      FieldSpec(108, 4, Float32),  // wheel_rotation_speed_rear_left, line 148
      FieldSpec(112, 4, Float32),  // wheel_rotation_speed_rear_right, line 149
      FieldSpec(116, 4, Int32),  // wheel_on_rumble_strip_front_left, line 150
      FieldSpec(120, 4, Int32),  // wheel_on_rumble_strip_front_right, line 151
      FieldSpec(124, 4, Int32)  // wheel_on_rumble_strip_rear_left, line 152
    ] +
    [
      FieldSpec(128, 4, Int32),  // wheel_on_rumble_strip_rear_right, line 153
      FieldSpec(132, 4, Float32),  // wheel_in_puddle_depth_front_left, line 154
      FieldSpec(136, 4, Float32),  // wheel_in_puddle_depth_front_right, line 155
      FieldSpec(140, 4, Float32),  // wheel_in_puddle_depth_rear_left, line 156
      FieldSpec(144, 4, Float32),  // wheel_in_puddle_depth_rear_right, line 157
      FieldSpec(148, 4, Float32),  // surface_rumble_front_left, line 158
      FieldSpec(152, 4, Float32),  // surface_rumble_front_right, line 159
      FieldSpec(156, 4, Float32)  // surface_rumble_rear_left, line 160
    ] +
    [
      FieldSpec(160, 4, Float32),  // surface_rumble_rear_right, line 161
      FieldSpec(164, 4, Float32),  // trire_slip_angle_front_left, line 162
      FieldSpec(168, 4, Float32),  // trire_slip_angle_front_right, line 163
      FieldSpec(172, 4, Float32),  // trire_slip_angle_rear_left, line 164
      FieldSpec(176, 4, Float32),  // trire_slip_angle_rear_right, line 165
      FieldSpec(180, 4, Float32),  // tire_combined_slip_front_left, line 166
      FieldSpec(184, 4, Float32),  // tire_combined_slip_front_right, line 167
      FieldSpec(188, 4, Float32)  // tire_combined_slip_rear_left, line 168
    ] +
    [
      FieldSpec(192, 4, Float32),  // tire_combined_slip_rear_right, line 169
      FieldSpec(196, 4, Float32),  // suspension_travel_meters_front_left, line 170
      FieldSpec(200, 4, Float32),  // suspension_travel_meters_front_right, line 171
      FieldSpec(204, 4, Float32),  // suspension_travel_meters_rear_left, line 172
      FieldSpec(208, 4, Float32),  // suspension_travel_meters_rear_right, line 173
      FieldSpec(212, 4, Int32),  // car_ordinal, line 174
      FieldSpec(216, 4, Int32),  // car_class, line 175
      FieldSpec(220, 4, Int32)  // car_performance_index, line 176
    ] +
    [
      FieldSpec(224, 4, Int32),  // drivetrain_type, line 177
      FieldSpec(228, 4, Int32),  // num_cylinders, line 178
      FieldSpec(244, 4, Float32),  // position_x, line 179
      FieldSpec(248, 4, Float32),  // position_y, line 180
      FieldSpec(252, 4, Float32),  // position_z, line 181
      FieldSpec(256, 4, Float32),  // speed, line 182
      FieldSpec(260, 4, Float32),  // power, line 183
      FieldSpec(264, 4, Float32)  // torque, line 184
    ] +
    [
      FieldSpec(268, 4, Float32),  // tire_temp_front_left, line 185
      FieldSpec(272, 4, Float32),  // tire_temp_front_right, line 186
      FieldSpec(276, 4, Float32),  // tire_temp_rear_left, line 187
      FieldSpec(280, 4, Float32),  // tire_temp_rear_right, line 188
      FieldSpec(284, 4, Float32),  // boost, line 189
      FieldSpec(288, 4, Float32),  // fuel, line 190
      FieldSpec(292, 4, Float32),  // distance_traveled, line 191
      FieldSpec(296, 4, Float32)  // best_lap, line 192
    ] +
    [
      FieldSpec(300, 4, Float32),  // last_lap, line 193
      FieldSpec(304, 4, Float32),  // current_lap, line 194
      FieldSpec(308, 4, Float32),  // current_race_time, line 195
      FieldSpec(312, 2, UInt16),  // lap_number, line 196
      FieldSpec(314, 1, UInt8),  // race_position, line 197
      FieldSpec(315, 1, UInt8),  // accel, line 198
      FieldSpec(316, 1, UInt8),  // brake, line 199
      FieldSpec(317, 1, UInt8)  // clutch, line 200
    ] +
    [
      FieldSpec(318, 1, UInt8),  // hand_brake, line 201
      FieldSpec(319, 1, UInt8),  // gear, line 202
      FieldSpec(320, 1, Int8),  // steer, line 203
      FieldSpec(321, 1, Int8),  // normalized_driving_line, line 204
      FieldSpec(322, 1, Int8)  // normalized_ai_brake_difference, line 205
    ]

  /** A decoded field, tagged with its Rust type. */
  datatype Value =
    | I32Value(i32: I32)
    | U32Value(u32: U32)
    | F32Value(f32: F32Bits)
    | U16Value(u16: U16)
    | U8Value(u8: U8)
    | I8Value(i8: I8)

  predicate HasKind(v: Value, k: Kind) {
    match k
    case Int32 => v.I32Value?
    case UInt32 => v.U32Value?
    case Float32 => v.F32Value?
    case UInt16 => v.U16Value?
    case UInt8 => v.U8Value?
    case Int8 => v.I8Value?
  }

  /** Values that have, one by one, the kinds of `fields`. */
  predicate HaveKinds(vs: seq<Value>, fields: seq<FieldSpec>) {
    |vs| == |fields| && forall k :: 0 <= k < |vs| ==> HasKind(vs[k], fields[k].kind)
  }

  /** One field of the struct expression: the reader of the field's type applied to the field's slice. */
  function DecodeField(buffer: seq<U8>, f: FieldSpec): (r: Result<Value, ParseError>)
    ensures r.Ok? <==> End(f) <= |buffer| && f.width == Width(f.kind)
    ensures r.Ok? ==> HasKind(r.value, f.kind)
    ensures r.Err? ==> r.error == ReadError(buffer, f.offset, End(f), Width(f.kind))
  {
    match f.kind
    case Int32 => var x :- ReadI32(buffer, f.offset, End(f)); Ok(I32Value(x))
    case UInt32 => var x :- ReadU32(buffer, f.offset, End(f)); Ok(U32Value(x))
    case Float32 => var x :- ReadF32(buffer, f.offset, End(f)); Ok(F32Value(x))
    case UInt16 => var x :- ReadU16(buffer, f.offset, End(f)); Ok(U16Value(x))
    case UInt8 => var x :- ReadU8(buffer, f.offset, End(f)); Ok(U8Value(x))
    case Int8 => var x :- ReadI8(buffer, f.offset, End(f)); Ok(I8Value(x))
  }

  /** The fields read one after the other; the first read that fails is the error. */
  function DecodeFields(buffer: seq<U8>, fields: seq<FieldSpec>): (r: Result<seq<Value>, ParseError>)
    ensures r.Ok? ==> HaveKinds(r.value, fields)
  {
    if fields == [] then Ok([])
    else
      var v :- DecodeField(buffer, fields[0]);
      var rest :- DecodeFields(buffer, fields[1..]);
      Ok([v] + rest)
  }

  /** The payload of a value of each kind; 0 for a value of another kind, which decoding never yields. */
  function AsI32(v: Value): I32 { if v.I32Value? then v.i32 else 0 }
  function AsU32(v: Value): U32 { if v.U32Value? then v.u32 else 0 }
  function AsF32(v: Value): F32Bits { if v.F32Value? then v.f32 else 0 }
  function AsU16(v: Value): U16 { if v.U16Value? then v.u16 else 0 }
  function AsU8(v: Value): U8 { if v.U8Value? then v.u8 else 0 }
  function AsI8(v: Value): I8 { if v.I8Value? then v.i8 else 0 }

  /** The record whose fields, in declaration order, are `vs`. */
  function FromFields(vs: seq<Value>): TelemetryData
    requires |vs| == FIELD_COUNT
  {
    TelemetryData(
      AsI32(vs[0]),
      AsU32(vs[1]),
      AsF32(vs[2]),
      AsF32(vs[3]),
      AsF32(vs[4]),
      AsF32(vs[5]),
      AsF32(vs[6]),
      AsF32(vs[7]),
      AsF32(vs[8]),
      AsF32(vs[9]),
      AsF32(vs[10]),
      AsF32(vs[11]),
      AsF32(vs[12]),
      AsF32(vs[13]),
      AsF32(vs[14]),
      AsF32(vs[15]),
      AsF32(vs[16]),
      AsF32(vs[17]),
      AsF32(vs[18]),
      AsF32(vs[19]),
      AsF32(vs[20]),
      AsF32(vs[21]),
      AsF32(vs[22]),
      AsF32(vs[23]),
      AsF32(vs[24]),
      AsF32(vs[25]),
      AsF32(vs[26]),
      AsF32(vs[27]),
      AsF32(vs[28]),
      AsI32(vs[29]),
      AsI32(vs[30]),
      AsI32(vs[31]),
      AsI32(vs[32]),
      AsF32(vs[33]),
      AsF32(vs[34]),
      AsF32(vs[35]),
      AsF32(vs[36]),
      AsF32(vs[37]),
      AsF32(vs[38]),
      AsF32(vs[39]),
      AsF32(vs[40]),
      AsF32(vs[41]),
      AsF32(vs[42]),
      AsF32(vs[43]),
      AsF32(vs[44]),
      AsF32(vs[45]),
      AsF32(vs[46]),
      AsF32(vs[47]),
      AsF32(vs[48]),
      AsF32(vs[49]),
      AsF32(vs[50]),
      AsF32(vs[51]),
      AsF32(vs[52]),
      AsI32(vs[53]),
      AsI32(vs[54]),
      AsI32(vs[55]),
      AsI32(vs[56]),
      AsI32(vs[57]),
      AsF32(vs[58]),
      AsF32(vs[59]),
      AsF32(vs[60]),
      AsF32(vs[61]),
      AsF32(vs[62]),
      AsF32(vs[63]),
      AsF32(vs[64]),
      AsF32(vs[65]),
      AsF32(vs[66]),
      AsF32(vs[67]),
      AsF32(vs[68]),
      AsF32(vs[69]),
      AsF32(vs[70]),
      AsF32(vs[71]),
      AsF32(vs[72]),
      AsF32(vs[73]),
      AsF32(vs[74]),
      AsU16(vs[75]),
      AsU8(vs[76]),
      AsU8(vs[77]),
      AsU8(vs[78]),
      AsU8(vs[79]),
      AsU8(vs[80]),
      AsU8(vs[81]),
      AsI8(vs[82]),
      AsI8(vs[83]),
      AsI8(vs[84])
    )
  }

  /** The kind of field `k`, by the runs of equal types in declaration order. */
  function KindOf(k: int): Kind {
    if k == 0 then Int32
    else if k == 1 then UInt32
    else if k < 29 then Float32
    else if k < 33 then Int32
    else if k < 53 then Float32
    else if k < 58 then Int32
    else if k < 75 then Float32
    else if k == 75 then UInt16
    else if k < 82 then UInt8
    else Int8
  }

  /** The `i32` field at index `k` (`KindOf(k) == Int32`). */
  function I32At(t: TelemetryData, k: int): I32
  {
    match k
    case 0 => t.isRaceOn
    case 29 => t.wheelOnRumbleStripFrontLeft
    case 30 => t.wheelOnRumbleStripFrontRight
    case 31 => t.wheelOnRumbleStripRearLeft
    case 32 => t.wheelOnRumbleStripRearRight
    case 53 => t.carOrdinal
    case 54 => t.carClass
    case 55 => t.carPerformanceIndex
    case 56 => t.drivetrainType
    case _ => t.numCylinders
  }

  /** The `f32` field at index `k` (`KindOf(k) == Float32`). */
  function F32At(t: TelemetryData, k: int): F32Bits
  {
    match k
    case 2 => t.engineMaxRpm
    case 3 => t.engineIdleRpm
    case 4 => t.currentEngineRpm
    case 5 => t.accelerationX
    case 6 => t.accelerationY
    case 7 => t.accelerationZ
    case 8 => t.velocityX
    case 9 => t.velocityY
    case 10 => t.velocityZ
    case 11 => t.angularVelocityX
    case 12 => t.angularVelocityY
    case 13 => t.angularVelocityZ
    case 14 => t.yaw
    case 15 => t.pitch
    case 16 => t.roll
    case 17 => t.normalizedSuspensionTravelFrontLeft
    case 18 => t.normalizedSuspensionTravelFrontRight
    case 19 => t.normalizedSuspensionTravelRearLeft
    case 20 => t.normalizedSuspensionTravelRearRight
    case 21 => t.tireSlipRatioFrontLeft
    case 22 => t.tireSlipRatioFrontRight
    case 23 => t.tireSlipRatioRearLeft
    case 24 => t.tireSlipRatioRearRight
    case 25 => t.wheelRotationSpeedFrontLeft
    case 26 => t.wheelRotationSpeedFrontRight
    case 27 => t.wheelRotationSpeedRearLeft
    case 28 => t.wheelRotationSpeedRearRight
    case 33 => t.wheelInPuddleDepthFrontLeft
    case 34 => t.wheelInPuddleDepthFrontRight
    case 35 => t.wheelInPuddleDepthRearLeft
    case 36 => t.wheelInPuddleDepthRearRight
    case 37 => t.surfaceRumbleFrontLeft
    case 38 => t.surfaceRumbleFrontRight
    case 39 => t.surfaceRumbleRearLeft
    case 40 => t.surfaceRumbleRearRight
    case 41 => t.tireSlipAngleFrontLeft
    case 42 => t.tireSlipAngleFrontRight
    case 43 => t.tireSlipAngleRearLeft
    case 44 => t.tireSlipAngleRearRight
    case 45 => t.tireCombinedSlipFrontLeft
    case 46 => t.tireCombinedSlipFrontRight
    case 47 => t.tireCombinedSlipRearLeft
    case 48 => t.tireCombinedSlipRearRight
    case 49 => t.suspensionTravelMetersFrontLeft
    case 50 => t.suspensionTravelMetersFrontRight
    case 51 => t.suspensionTravelMetersRearLeft
    case 52 => t.suspensionTravelMetersRearRight
    case 58 => t.positionX
    case 59 => t.positionY
    case 60 => t.positionZ
    case 61 => t.speed
    case 62 => t.power
    case 63 => t.torque
    case 64 => t.tireTempFrontLeft
    case 65 => t.tireTempFrontRight
    case 66 => t.tireTempRearLeft
    case 67 => t.tireTempRearRight
    case 68 => t.boost
    case 69 => t.fuel
    case 70 => t.distanceTraveled
    case 71 => t.bestLap
    case 72 => t.lastLap
    case 73 => t.currentLap
    case _ => t.currentRaceTime
  }

  /** The `u8` field at index `k` (`KindOf(k) == UInt8`). */
  function U8At(t: TelemetryData, k: int): U8
  {
    match k
    case 76 => t.racePosition
    case 77 => t.accel
    case 78 => t.brake
    case 79 => t.clutch
    case 80 => t.handBrake
    case _ => t.gear
  }

  /** The `i8` field at index `k` (`KindOf(k) == Int8`). */
  function I8At(t: TelemetryData, k: int): I8
  {
    match k
    case 82 => t.steer
    case 83 => t.normalizedDrivingLine
    case _ => t.normalizedAiBrakeDifference
  }

  /** Field `k` of the record, in declaration order, tagged with its kind. */
  function FieldAt(t: TelemetryData, k: int): (v: Value)
    ensures HasKind(v, KindOf(k))
  {
    match KindOf(k)
    case Int32 => I32Value(I32At(t, k))
    case UInt32 => U32Value(t.timestampMs)
    case Float32 => F32Value(F32At(t, k))
    case UInt16 => U16Value(t.lapNumber)
    case UInt8 => U8Value(U8At(t, k))
    case Int8 => I8Value(I8At(t, k))
  }

  /** The fields of a record in declaration order, the order of `LAYOUT`. */
  function Fields(t: TelemetryData): (vs: seq<Value>)
    ensures |vs| == FIELD_COUNT
    ensures forall k :: 0 <= k < FIELD_COUNT ==> vs[k] == FieldAt(t, k)
  {
    seq(FIELD_COUNT, k => FieldAt(t, k))
  }

  /** `parse`: every field of `LAYOUT` read in order, then the record built from the values. */
  function Parse(buffer: seq<U8>): Result<TelemetryData, ParseError>
  {
    var vs :- DecodeFields(buffer, LAYOUT);
    Ok(FromFields(vs))
  }

  /** `FromFields` inverts `Fields`. */
  lemma FromFieldsFields(t: TelemetryData)
    ensures FromFields(Fields(t)) == t
  {
  }

  /** `Fields` inverts `FromFields` on value lists whose kinds are those of `KindOf`. */
  lemma FieldsFromFields(vs: seq<Value>)
    requires |vs| == FIELD_COUNT
    requires forall k :: 0 <= k < FIELD_COUNT ==> HasKind(vs[k], KindOf(k))
    ensures Fields(FromFields(vs)) == vs
  {
  }

  /** A record is determined by its fields. */
  lemma FieldsDetermine(t: TelemetryData, u: TelemetryData)
    requires forall k :: 0 <= k < FIELD_COUNT ==> FieldAt(t, k) == FieldAt(u, k)
    ensures t == u
  {
    FromFieldsFields(t);
    FromFieldsFields(u);
    assert Fields(t) == Fields(u);
  }

  /** Replacing `speed` (field 61) changes field 61 of the record and no other. */
  lemma SpeedUpdate(t: TelemetryData, x: F32Bits)
    ensures FieldAt(t.(speed := x), 61) == F32Value(x)
    ensures forall j :: 0 <= j < FIELD_COUNT && j != 61 ==> FieldAt(t.(speed := x), j) == FieldAt(t, j)
  {
  }

  /** The positions in declaration order of the fields that are singled out elsewhere. */
  lemma NamedFields(t: TelemetryData)
    ensures FieldAt(t, 0) == I32Value(t.isRaceOn)
    ensures FieldAt(t, 1) == U32Value(t.timestampMs)
    ensures FieldAt(t, 54) == I32Value(t.carClass)
    ensures FieldAt(t, 61) == F32Value(t.speed)
    ensures FieldAt(t, 75) == U16Value(t.lapNumber)
    ensures FieldAt(t, 81) == U8Value(t.gear)
    ensures FieldAt(t, 82) == I8Value(t.steer)
    ensures FieldAt(t, 83) == I8Value(t.normalizedDrivingLine)
    ensures FieldAt(t, 84) == I8Value(t.normalizedAiBrakeDifference)
  {
  }

  /** A record that differs from `t` at most in field 61 is `t` with a new `speed`. */
  lemma SpeedChange(t: TelemetryData, u: TelemetryData, x: F32Bits)
    requires FieldAt(u, 61) == F32Value(x)
    requires forall j :: 0 <= j < FIELD_COUNT && j != 61 ==> FieldAt(u, j) == FieldAt(t, j)
    ensures u == t.(speed := x)
  {
    SpeedUpdate(t, x);
    FieldsDetermine(u, t.(speed := x));
  }
}
