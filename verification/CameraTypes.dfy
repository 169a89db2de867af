// Settings types shared by the video and the still camera, and how they are encoded for the
// device.

module CameraTypes {

  /** Each enumeration also has the codes it does not list, which the encoders map to a default. */
  datatype Exposure =
    | ExposureOff | ExposureAuto | Night | NightPreview | Backlight | Spotlight | Sports | Snow
    | Beach | VeryLong | FixedFps | Antishake | Fireworks | ExposureCode(code: int)

  datatype Metering = Average | Spot | Backlit | Matrix | MeteringCode(code: int)

  datatype Awb =
    | AwbOff | AwbAuto | Sunlight | Cloudy | Shade | Tungsten | Fluorescent | Incandescent
    | Flash | Horizon | AwbCode(code: int)

  datatype Effect =
    | NoEffect | Negative | Solarize | Sketch | Denoise | Emboss | Oilpaint | Hatch | Gpen
    | Pastel | Watercolor | Film | Blur | SaturationEffect | ColorSwap | WashedOut | Posterise
    | ColorPoint | ColorBalance | Cartoon | EffectCode(code: int)

  datatype Mirror = MirrorNone | MirrorHorizontal | MirrorVertical | MirrorBoth

  function ConvertExposure(e: Exposure): Exposure { if e.ExposureCode? then ExposureAuto else e }

  function ConvertMetering(m: Metering): Metering { if m.MeteringCode? then Average else m }

  function ConvertAwb(a: Awb): Awb { if a.AwbCode? then AwbAuto else a }

  function ConvertEffect(e: Effect): Effect { if e.EffectCode? then NoEffect else e }

  function ConvertFlips(h: bool, v: bool): Mirror {
    if h && v then MirrorBoth else if h then MirrorHorizontal else if v then MirrorVertical else MirrorNone
  }

  /** A mode the library lists is sent as itself, and any other code as the default. */
  lemma ListedModesAreKept(e: Exposure, m: Metering, a: Awb, f: Effect)
    ensures if e.ExposureCode? then ConvertExposure(e) == ExposureAuto else ConvertExposure(e) == e
    ensures if m.MeteringCode? then ConvertMetering(m) == Average else ConvertMetering(m) == m
    ensures if a.AwbCode? then ConvertAwb(a) == AwbAuto else ConvertAwb(a) == a
    ensures if f.EffectCode? then ConvertEffect(f) == NoEffect else ConvertEffect(f) == f
  {
  }

  /** The device mirrors left and right exactly if h is set, and top and bottom exactly if v is. */
  lemma FlipsAreKept(h: bool, v: bool)
    ensures ConvertFlips(h, v) in {MirrorHorizontal, MirrorBoth} <==> h
    ensures ConvertFlips(h, v) in {MirrorVertical, MirrorBoth} <==> v
  {
  }

  lemma MirrorsDiffer(m: Mirror, k: Mirror)
    requires m in {MirrorHorizontal, MirrorBoth} <==> k in {MirrorHorizontal, MirrorBoth}
    requires m in {MirrorVertical, MirrorBoth} <==> k in {MirrorVertical, MirrorBoth}
    ensures m == k
  {
  }

  /** r is n, or the end of the range that n lies beyond. */
  predicate Nearest(lo: int, hi: int, n: int, r: int) {
    (lo <= n <= hi ==> r == n) && (n < lo ==> r == lo) && (n > hi ==> r == hi)
  }

  function Clamp(lo: int, hi: int, x: int): int
  {
    if x < lo then lo else if x > hi then hi else x
  }

  // ------------------------------------------------------------------------------------
  // Rotation

  /** The loop of setRotation: the angle's residue modulo a full turn. */
  method NormalizeRotation(angle: int) returns (r: int)
    ensures 0 <= r < 360 && r == angle % 360
  {
    r := angle;
    while r < 0
      invariant r < 360 || r == angle
      invariant r % 360 == angle % 360
      decreases -r
    {
      r := r + 360;
    }
    if r >= 360 {
      r := r % 360;
    }
  }

  /** What commitRotation sends: the angle floored to a quarter turn. */
  function QuarterTurns(rotation: nat): nat {
    rotation / 90 * 90
  }

  lemma QuarterTurnFloor(angle: int)
    ensures var r := angle % 360;
      QuarterTurns(r) in {0, 90, 180, 270} && QuarterTurns(r) <= r < QuarterTurns(r) + 90
  {
  }
}
