// The still camera's settings cache: setters only store and mark, and the next capture sends
// everything if the mark is set.

module StillSettings {
  import opened Common
  import opened CameraTypes

  datatype Encoding = Jpeg | Bmp | Gif | Png | Rgb | EncodingCode(code: int)

  /** What the encoder port is told; plain RGB is taken from a bitmap. */
  datatype PortEncoding = PortJpeg | PortBmp | PortGif | PortPng | PortInvalid

  function ConvertEncoding(e: Encoding): PortEncoding {
    match e
    case Jpeg => PortJpeg
    case Bmp => PortBmp
    case Gif => PortGif
    case Png => PortPng
    case Rgb => PortBmp
    case EncodingCode(_) => PortInvalid
  }

  datatype Settings = Settings(
    width: nat, height: nat, rotation: nat, brightness: nat, quality: nat, iso: int, sharpness: int,
    contrast: int, saturation: int, encoding: Encoding, exposure: Exposure, awb: Awb, effect: Effect,
    metering: Metering, hflip: bool, vflip: bool)

  const DEFAULTS: Settings :=
    Settings(640, 480, 0, 50, 85, 400, 0, 0, 0, Bmp, ExposureAuto, AwbAuto, NoEffect, Average, false, false)

  /** The camera component's parameters that commitParameters sends. */
  datatype CameraParams = CameraParams(
    sharpness: int, contrast: int, brightness: int, saturation: int, iso: int, exposure: Exposure,
    metering: Metering, awb: Awb, effect: Effect, rotation: int, mirror: Mirror, fixed: FixedParams)

  /** Parameters that are sent along and never differ. The crop is in 65536ths of the sensor. */
  datatype FixedParams = FixedParams(stabilisation: bool, compensation: int, colour: Colour, crop: Crop)

  datatype Colour = Colour(enabled: bool, u: nat, v: nat)

  datatype Crop = Crop(x: nat, y: nat, width: nat, height: nat)

  const FIXED: FixedParams := FixedParams(false, 0, Colour(false, 128, 128), Crop(0, 0, 65536, 65536))

  function Encode(s: Settings): CameraParams {
    CameraParams(s.sharpness, s.contrast, s.brightness, s.saturation, Wrap32(s.iso),
                 ConvertExposure(s.exposure), ConvertMetering(s.metering), ConvertAwb(s.awb),
                 ConvertEffect(s.effect), QuarterTurns(s.rotation), ConvertFlips(s.hflip, s.vflip), FIXED)
  }

  /** A component as created has no parameters sent; the encoder's port may not exist yet. */
  datatype Still = Still(
    settings: Settings,
    changed: bool,                              // changedSettings
    camera: Option<Option<CameraParams>>,       // the component, and what it has been sent
    encoderPort: bool,                          // encoder_output_port != NULL
    portEncoding: Option<PortEncoding>,
    portQuality: Option<nat>,
    initialized: bool)

  datatype Setting =
    | Width(u: nat) | Height(u: nat) | Brightness(u: nat) | Quality(u: nat) | Rotation(n: int)
    | Iso(n: int) | Sharpness(n: int) | Contrast(n: int) | Saturation(n: int) | SetEncoding(e: Encoding)
    | SetExposure(x: Exposure) | SetAwb(a: Awb) | SetEffect(f: Effect) | SetMetering(m: Metering)
    | HorizontalFlip(b: bool) | VerticalFlip(b: bool)

  function Change(s: Settings, c: Setting): Settings {
    match c
    case Width(u) => s.(width := u)
    case Height(u) => s.(height := u)
    case Brightness(u) => s.(brightness := if u > 100 then u % 100 else u)
    case Quality(u) => s.(quality := if u > 100 then 100 else u)
    case Rotation(n) => s.(rotation := n % 360)
    case Iso(n) => s.(iso := n)
    case Sharpness(n) => s.(sharpness := Clamp(-100, 100, n))
    case Contrast(n) => s.(contrast := Clamp(-100, 100, n))
    case Saturation(n) => s.(saturation := Clamp(-100, 100, n))
    case SetEncoding(e) => s.(encoding := e)
    case SetExposure(x) => s.(exposure := x)
    case SetAwb(a) => s.(awb := a)
    case SetEffect(f) => s.(effect := f)
    case SetMetering(m) => s.(metering := m)
    case HorizontalFlip(b) => s.(hflip := b)
    case VerticalFlip(b) => s.(vflip := b)
  }

  function Commit(c: Still): Still
    requires c.camera.Some?
  {
    if !c.changed then c
    else
      c.(changed := false,
         camera := Some(Some(Encode(c.settings))),
         portQuality := if c.encoderPort then Some(c.settings.quality) else c.portQuality,
         portEncoding := if c.encoderPort then Some(ConvertEncoding(c.settings.encoding)) else c.portEncoding)
  }

  /** How far an attempt to initialize comes. */
  datatype Outcome =
    | Refused        // no camera component, or it fails before the parameters are sent
    | FailsLate      // the camera fails after they have been sent, and is destroyed
    | Succeeds

  function Initialize(c: Still, o: Outcome): Still {
    if c.initialized then c
    else if o.Refused? then c.(camera := None)
    else
      var sent := Commit(c.(camera := Some(None)));
      if o.FailsLate? then sent.(camera := None)
      else sent.(encoderPort := true, portEncoding := Some(ConvertEncoding(c.settings.encoding)), initialized := true)
  }

  function Created(): Still {
    Still(DEFAULTS, true, None, false, None, None, false)
  }

  datatype Event =
    | Set(setting: Setting)
    | Init(outcome: Outcome)
    | Capture                // startCapture, which commits first
    | CommitCall             // commitParameters called by the client

  /** What the program can be asked for: nothing is sent before there is a camera. */
  predicate Allowed(c: Still, e: Event) {
    match e
    case Set(_) => true
    case Init(_) => true
    case Capture => c.initialized && c.camera.Some?
    case CommitCall => c.camera.Some?
  }

  function Step(c: Still, e: Event): Still
    requires Allowed(c, e)
  {
    match e
    case Set(x) => c.(settings := Change(c.settings, x), changed := true)
    case Init(o) => Initialize(c, o)
    case Capture => Commit(c)
    case CommitCall => Commit(c)
  }

  ghost predicate Reaches(c: Still, events: seq<Event>, t: Still)
    decreases |events|
  {
    if events == [] then c == t
    else Allowed(c, events[0]) && Reaches(Step(c, events[0]), events[1..], t)
  }

  // ------------------------------------------------------------------------------------

  /** The device has every camera-side field, and the encoder port the encoding. */
  predicate CameraAgrees(c: Still) {
    c.camera == Some(Some(Encode(c.settings))) && c.portEncoding == Some(ConvertEncoding(c.settings.encoding))
  }

  predicate Ready(c: Still) {
    c.initialized && c.encoderPort && c.camera.Some?
  }

  /** What the parameters sent mean for the settings, one by one. */
  ghost predicate Follows(p: CameraParams, s: Settings) {
    && p.sharpness == s.sharpness && p.contrast == s.contrast && p.brightness == s.brightness
    && p.saturation == s.saturation
    && 0 <= p.iso < 0x1_0000_0000 && (p.iso - s.iso) % 0x1_0000_0000 == 0
    && p.exposure == (if s.exposure.ExposureCode? then ExposureAuto else s.exposure)
    && p.metering == (if s.metering.MeteringCode? then Average else s.metering)
    && p.awb == (if s.awb.AwbCode? then AwbAuto else s.awb)
    && p.effect == (if s.effect.EffectCode? then NoEffect else s.effect)
    && p.rotation % 90 == 0 && p.rotation <= s.rotation < p.rotation + 90
    && (p.mirror in {MirrorHorizontal, MirrorBoth} <==> s.hflip)
    && (p.mirror in {MirrorVertical, MirrorBoth} <==> s.vflip)
    && !p.fixed.stabilisation && p.fixed.compensation == 0
    && !p.fixed.colour.enabled && p.fixed.colour.u == p.fixed.colour.v == 128
    && p.fixed.crop.x == p.fixed.crop.y == 0 && p.fixed.crop.width == p.fixed.crop.height == 0x1_0000
  }

  /** The encoding is what follows the settings, and nothing else does. */
  lemma EncodeIff(s: Settings, p: CameraParams)
    ensures p == Encode(s) <==> Follows(p, s)
  {
    EncodeFollows(s);
    if Follows(p, s) {
      FollowsOne(s, p, Encode(s));
    }
  }

  lemma EncodeFollows(s: Settings)
    ensures Follows(Encode(s), s)
  {
    assert Wrap32(s.iso) - s.iso == -(s.iso / UINT32_RANGE) * UINT32_RANGE;
  }

  lemma FollowsOne(s: Settings, p: CameraParams, q: CameraParams)
    requires Follows(p, s) && Follows(q, s)
    ensures p == q
  {
    assert p.rotation == q.rotation && p.iso == q.iso && p.fixed == q.fixed;
    MirrorsDiffer(p.mirror, q.mirror);
  }

  /** Plain RGB is taken from a bitmap; each listed format is its own; no other is encoded. */
  lemma EncodingsAreKept(e: Encoding)
    ensures ConvertEncoding(e).PortBmp? <==> e.Bmp? || e.Rgb?
    ensures ConvertEncoding(e).PortJpeg? <==> e.Jpeg?
    ensures ConvertEncoding(e).PortGif? <==> e.Gif?
    ensures ConvertEncoding(e).PortPng? <==> e.Png?
    ensures ConvertEncoding(e).PortInvalid? <==> e.EncodingCode?
  {
  }

  /** What each setter stores, and that it leaves the other settings alone. */
  lemma SetterStores(s: Settings, c: Setting)
    ensures var t := Change(s, c);
      match c
      case Width(u) => t == s.(width := u)
      case Height(u) => t == s.(height := u)
      case Brightness(u) =>
        t == s.(brightness := t.brightness) && t.brightness <= 100 && (u <= 100 ==> t.brightness == u)
        && (u > 100 ==> t.brightness < 100 && (u - t.brightness) % 100 == 0)
      case Quality(u) => t == s.(quality := t.quality) && Nearest(0, 100, u, t.quality)
      case Rotation(n) => t == s.(rotation := t.rotation) && t.rotation < 360 && (n - t.rotation) % 360 == 0
      case Iso(n) => t == s.(iso := n)
      case Sharpness(n) => t == s.(sharpness := t.sharpness) && Nearest(-100, 100, n, t.sharpness)
      case Contrast(n) => t == s.(contrast := t.contrast) && Nearest(-100, 100, n, t.contrast)
      case Saturation(n) => t == s.(saturation := t.saturation) && Nearest(-100, 100, n, t.saturation)
      case SetEncoding(e) => t == s.(encoding := e)
      case SetExposure(x) => t == s.(exposure := x)
      case SetAwb(a) => t == s.(awb := a)
      case SetEffect(f) => t == s.(effect := f)
      case SetMetering(m) => t == s.(metering := m)
      case HorizontalFlip(b) => t == s.(hflip := b)
      case VerticalFlip(b) => t == s.(vflip := b)
  {
  }

  function SettingsAfter(s: Settings, events: seq<Event>): Settings
    decreases |events|
  {
    if events == [] then s
    else SettingsAfter(if events[0].Set? then Change(s, events[0].setting) else s, events[1..])
  }

  /** Only setters change settings: no attempt to initialize, commit or capture does. */
  lemma {:induction false} SettersDecide(c: Still, events: seq<Event>, t: Still)
    requires Reaches(c, events, t)
    ensures t.settings == SettingsAfter(c.settings, events)
    decreases |events|
  {
    if events == [] {
    } else {
      SettersDecide(Step(c, events[0]), events[1..], t);
    }
  }

  lemma CommitMakesAgree(c: Still)
    requires Ready(c) && (c.changed || CameraAgrees(c))
    ensures CameraAgrees(Commit(c)) && !Commit(c).changed
  {
  }

  lemma {:induction false} ReadyRun(c: Still, events: seq<Event>, t: Still)
    requires Ready(c) && (c.changed || CameraAgrees(c)) && Reaches(c, events, t)
    ensures Ready(t) && (t.changed || CameraAgrees(t))
    decreases |events|
  {
    if events == [] {
    } else {
      ReadyRun(Step(c, events[0]), events[1..], t);
    }
  }

  /** Before the first attempt to initialize the mark stays set. */
  lemma {:induction false} BeforeInit(c: Still, events: seq<Event>, t: Still)
    requires c.changed && !c.initialized && c.camera == None
    requires Reaches(c, events, t) && forall e :: e in events ==> !e.Init?
    ensures t.changed && !t.initialized && t.camera == None
    decreases |events|
  {
    if events == [] {
    } else {
      BeforeInit(Step(c, events[0]), events[1..], t);
    }
  }

  /**
   * If the first attempt to initialize succeeds, then whatever is set before or after it, at
   * every capture the device agrees with all camera-side fields and the encoding.
   */
  lemma CaptureAgrees(earlier: seq<Event>, before: Still, events: seq<Event>, t: Still)
    requires Reaches(Created(), earlier, before) && forall e :: e in earlier ==> !e.Init?
    requires Reaches(Step(before, Init(Succeeds)), events, t)
    ensures Allowed(t, Capture) && CameraAgrees(Step(t, Capture))
    ensures var d := Step(t, Capture).camera;
      d.Some? && d.value.Some? && Follows(d.value.value, SettingsAfter(before.settings, events))
  {
    BeforeInit(Created(), earlier, before);
    ReadyRun(Step(before, Init(Succeeds)), events, t);
    CommitMakesAgree(t);
    SettersDecide(Step(before, Init(Succeeds)), events, t);
    EncodeFollows(t.settings);
  }

  /**
   * After any attempts that failed: at every capture the device agrees exactly if the mark was
   * still set when the attempt that succeeded began, or something has been set since.
   */
  lemma RetryAgreesIff(before: Still, events: seq<Event>, t: Still)
    requires !before.initialized && Reaches(Step(before, Init(Succeeds)), events, t)
    ensures Allowed(t, Capture)
    ensures CameraAgrees(Step(t, Capture)) <==> before.changed || exists e :: e in events && e.Set?
  {
    RetryRun(Step(before, Init(Succeeds)), before.changed, events, t);
  }

  /** The device agrees or will with the next commit; or nothing has been sent and nothing will be. */
  ghost predicate RetryInv(c: Still, good: bool) {
    && Ready(c)
    && (if good then c.changed || CameraAgrees(c) else !c.changed && c.camera == Some(None))
  }

  lemma {:induction false} RetryRun(c: Still, good: bool, events: seq<Event>, t: Still)
    requires RetryInv(c, good) && Reaches(c, events, t)
    ensures RetryInv(t, good || exists e :: e in events && e.Set?)
    decreases |events|
  {
    if events == [] {
    } else {
      RetryRun(Step(c, events[0]), good || events[0].Set?, events[1..], t);
      SetsAnything(events);
    }
  }

  lemma SetsAnything(events: seq<Event>)
    requires events != []
    ensures (exists e :: e in events && e.Set?) <==> events[0].Set? || exists e :: e in events[1..] && e.Set?
  {
    assert events == [events[0]] + events[1..];
  }

  /** A late failure clears the mark, so a plain retry leaves the new camera without settings. */
  lemma RetryForgetsSettings()
    ensures var c := Initialize(Initialize(Created(), FailsLate), Succeeds);
      Allowed(c, Capture) && Step(c, Capture).camera == Some(None)
  {
  }

  // ------------------------------------------------------------------------------------
  // The JPEG quality

  ghost predicate QualityInv(c: Still, setSince: bool) {
    && Ready(c)
    && (if !setSince then !c.changed && c.portQuality == None
        else c.changed || c.portQuality == Some(c.settings.quality))
  }

  lemma {:induction false} QualityRun(c: Still, setSince: bool, events: seq<Event>, t: Still)
    requires QualityInv(c, setSince) && Reaches(c, events, t)
    ensures QualityInv(t, setSince || exists e :: e in events && e.Set?)
    decreases |events|
  {
    if events == [] {
    } else {
      var since := setSince || events[0].Set?;
      QualityRun(Step(c, events[0]), since, events[1..], t);
      SetsAnything(events);
    }
  }

  /** Until an attempt to initialize succeeds there is no encoder port, and no quality is sent. */
  lemma {:induction false} NoPortYet(c: Still, events: seq<Event>, t: Still)
    requires c.initialized || (!c.encoderPort && c.portQuality == None)
    requires Reaches(c, events, t) && !t.initialized
    ensures !t.encoderPort && t.portQuality == None
    decreases |events|
  {
    if events == [] {
    } else {
      NoPortYet(Step(c, events[0]), events[1..], t);
    }
  }

  /**
   * The quality reaches the encoder only with a commit made after its port exists: at a capture,
   * whatever attempts failed before, the port has the quality if any setter has run since the
   * attempt that succeeded, and otherwise has never been told any.
   */
  lemma QualityAtCapture(earlier: seq<Event>, before: Still, events: seq<Event>, t: Still)
    requires Reaches(Created(), earlier, before) && !before.initialized
    requires Reaches(Step(before, Init(Succeeds)), events, t)
    ensures Allowed(t, Capture)
    ensures Step(t, Capture).portQuality
         == if exists e :: e in events && e.Set? then Some(t.settings.quality) else None
  {
    NoPortYet(Created(), earlier, before);
    QualityRun(Step(before, Init(Succeeds)), false, events, t);
  }

  // ------------------------------------------------------------------------------------

  class StillCamera {
    var settings: Settings
    var changedSettings: bool
    var camera: Option<Option<CameraParams>>
    var encoderPort: bool
    var portEncoding: Option<PortEncoding>
    var portQuality: Option<nat>
    var isInitialized: bool

    constructor ()
      ensures View() == Created()
    {
      settings, changedSettings := DEFAULTS, true;
      camera, encoderPort, portEncoding, portQuality := None, false, None, None;
      isInitialized := false;
    }

    ghost function View(): Still
      reads this
    {
      Still(settings, changedSettings, camera, encoderPort, portEncoding, portQuality, isInitialized)
    }

    method CommitParameters()
      requires camera.Some?
      modifies this`changedSettings, this`camera, this`portQuality, this`portEncoding
      ensures View() == Commit(old(View()))
    {
      if !changedSettings {
        return;
      }
      if encoderPort {
        portQuality := Some(settings.quality);
      }
      camera := Some(Some(CameraParams(
        settings.sharpness, settings.contrast, settings.brightness, settings.saturation,
        Wrap32(settings.iso), ConvertExposure(settings.exposure), ConvertMetering(settings.metering),
        ConvertAwb(settings.awb), ConvertEffect(settings.effect), settings.rotation / 90 * 90,
        ConvertFlips(settings.hflip, settings.vflip),
        FixedParams(false, 0, Colour(false, 128, 128), Crop(0, 0, 65536, 65536)))));
      if encoderPort {
        portEncoding := Some(ConvertEncoding(settings.encoding));
      }
      changedSettings := false;
    }

    method CreateCamera(o: Outcome) returns (ok: bool)
      modifies this`changedSettings, this`camera, this`portQuality, this`portEncoding
      ensures ok == o.Succeeds?
      ensures View() == if o.Refused? then old(View()).(camera := None)
                        else var c := Commit(old(View()).(camera := Some(None)));
                          if ok then c else c.(camera := None)
    {
      camera := None;
      if o.Refused? {
        return false;
      }
      camera := Some(None);
      CommitParameters();
      if o.FailsLate? {
        camera := None;
        return false;
      }
      return true;
    }

    method Initialize(o: Outcome) returns (ok: bool)
      modifies this`changedSettings, this`camera, this`portQuality, this`portEncoding
      modifies this`encoderPort, this`isInitialized
      ensures View() == Step(old(View()), Init(o))
      ensures ok == isInitialized
    {
      if isInitialized {
        return true;
      }
      ok := CreateCamera(o);
      if !ok {
        return;
      }
      encoderPort := true;
      portEncoding := Some(ConvertEncoding(settings.encoding));
      isInitialized := true;
    }

    method StartCapture()
      requires Allowed(View(), Capture)
      modifies this`changedSettings, this`camera, this`portQuality, this`portEncoding
      ensures View() == Step(old(View()), Capture)
    {
      CommitParameters();
    }

    method SetBrightness(brightness: nat)
      modifies this`settings, this`changedSettings
      ensures View() == Step(old(View()), Set(Brightness(brightness)))
    {
      var b := brightness;
      if b > 100 {
        b := b % 100;
      }
      settings := settings.(brightness := b);
      changedSettings := true;
    }

    method SetQuality(quality: nat)
      modifies this`settings, this`changedSettings
      ensures View() == Step(old(View()), Set(Quality(quality)))
    {
      var q := quality;
      if q > 100 {
        q := 100;
      }
      settings := settings.(quality := q);
      changedSettings := true;
    }

    method SetRotation(rotation: int)
      modifies this`settings, this`changedSettings
      ensures View() == Step(old(View()), Set(Rotation(rotation)))
    {
      var r := NormalizeRotation(rotation);
      settings := settings.(rotation := r);
      changedSettings := true;
    }
  }
}
