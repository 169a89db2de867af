// The video camera's settings cache: setters clamp, store, and, once the camera is open, write
// through to the device.

module VideoSettings {
  import opened Common
  import opened CameraTypes

  type Gain = r: real | 0.0 <= r

  datatype Settings = Settings(
    sharpness: int, contrast: int, brightness: int, saturation: int, iso: int,
    stabilisation: bool, compensation: int, shutter: int, exposure: Exposure, metering: Metering,
    awb: Awb, effect: Effect, rotation: int, hflip: bool, vflip: bool, red: Gain, blue: Gain)

  /** The device's parameters. Sharpness, contrast, brightness and saturation are hundredths. */
  datatype Device = Device(
    sharpness: int, contrast: int, brightness: int, saturation: int, iso: int,
    stabilisation: bool, compensation: int, shutter: int, exposure: Exposure, metering: Metering,
    awb: Awb, effect: Effect, rotation: int, mirror: Mirror, redGain: int, blueGain: int)

  const DEFAULTS: Settings :=
    Settings(0, 0, 50, 0, 400, false, 0, 0, ExposureAuto, Average, AwbAuto, NoEffect, 0, false, false, 1.0, 1.0)

  /** A gain in 65536ths. */
  function GainCode(g: Gain): int {
    (g * 65536.0).Floor
  }

  function Rotation(r: int): int {
    if r >= 0 then QuarterTurns(r) else 0
  }

  /** Every parameter as it follows from the settings. */
  function Encode(s: Settings): Device {
    Device(s.sharpness, s.contrast, s.brightness, s.saturation, Wrap32(s.iso),
           s.stabilisation, s.compensation, Wrap32(s.shutter), ConvertExposure(s.exposure),
           ConvertMetering(s.metering), ConvertAwb(s.awb), ConvertEffect(s.effect),
           Rotation(s.rotation), ConvertFlips(s.hflip, s.vflip), GainCode(s.red), GainCode(s.blue))
  }

  datatype Setting =
    | Sharpness(n: int) | Contrast(n: int) | Brightness(u: nat) | Saturation(n: int) | Iso(n: int)
    | Stabilisation(b: bool) | Compensation(n: int) | Shutter(u: nat) | SetExposure(e: Exposure)
    | SetMetering(m: Metering) | SetAwb(a: Awb) | SetEffect(f: Effect) | SetRotation(n: int)
    | HorizontalFlip(b: bool) | VerticalFlip(b: bool) | AwbGains(red: Gain, blue: Gain)

  /** The cached settings after a setter. */
  function Change(s: Settings, c: Setting): Settings {
    match c
    case Sharpness(n) => s.(sharpness := Clamp(-100, 100, n))
    case Contrast(n) => s.(contrast := Clamp(-100, 100, n))
    case Brightness(u) => s.(brightness := if u > 100 then 100 else u)
    case Saturation(n) => s.(saturation := Clamp(-100, 100, n))
    case Iso(n) => s.(iso := n)
    case Stabilisation(b) => s.(stabilisation := b)
    case Compensation(n) => s.(compensation := Clamp(-10, 10, n))
    case Shutter(u) => s.(shutter := if u > 330000 then 330000 else u)
    case SetExposure(e) => s.(exposure := e)
    case SetMetering(m) => s.(metering := m)
    case SetAwb(a) => s.(awb := a)
    case SetEffect(f) => s.(effect := f)
    case SetRotation(n) => s.(rotation := n % 360)
    case HorizontalFlip(b) => s.(hflip := b)
    case VerticalFlip(b) => s.(vflip := b)
    case AwbGains(r, b) => s.(red := r, blue := b)
  }

  /** The one parameter, or group of parameters, the setter's commit writes. */
  function Commit(d: Device, s: Settings, c: Setting): Device {
    match c
    case Sharpness(_) => d.(sharpness := s.sharpness)
    case Contrast(_) => d.(contrast := s.contrast)
    case Brightness(_) => d.(brightness := s.brightness)
    case Saturation(_) => d.(saturation := s.saturation)
    case Iso(_) => d.(iso := Wrap32(s.iso))
    case Stabilisation(_) => d.(stabilisation := s.stabilisation)
    case Compensation(_) => d.(compensation := s.compensation)
    case Shutter(_) => d.(shutter := Wrap32(s.shutter))
    case SetExposure(_) => d.(exposure := ConvertExposure(s.exposure))
    case SetMetering(_) => d.(metering := ConvertMetering(s.metering))
    case SetAwb(_) => d.(awb := ConvertAwb(s.awb))
    case SetEffect(_) => d.(effect := ConvertEffect(s.effect))
    case SetRotation(_) => d.(rotation := Rotation(s.rotation))
    case HorizontalFlip(_) => d.(mirror := ConvertFlips(s.hflip, s.vflip))
    case VerticalFlip(_) => d.(mirror := ConvertFlips(s.hflip, s.vflip))
    case AwbGains(_, _) => d.(redGain := GainCode(s.red), blueGain := GainCode(s.blue))
  }

  // ------------------------------------------------------------------------------------

  datatype Camera = Camera(
    settings: Settings,
    device: Device,
    isOpen: bool,
    shutterSent: bool)   // history: a shutter speed has been committed since the camera was opened

  function Created(unset: Device): Camera {
    Camera(DEFAULTS, unset, false, false)
  }

  datatype Event =
    | Set(setting: Setting)
    | Open(unset: Device)     // the parameters a newly created camera component has
    | Release
    | Callback                // the frame callback renews the shutter speed

  /** Opening with a shutter speed set switches the exposure mode to a fixed frame rate. */
  function OpenedSettings(s: Settings): Settings {
    if s.shutter != 0 then s.(exposure := FixedFps) else s
  }

  /** commitParameters on a new component: everything but, with automatic shutter, its speed. */
  function OpenedDevice(s: Settings, unset: Device): Device {
    var e := Encode(OpenedSettings(s));
    if s.shutter != 0 then e else e.(shutter := unset.shutter)
  }

  function Step(c: Camera, e: Event): Camera {
    match e
    case Set(x) =>
      var s := Change(c.settings, x);
      Camera(s, if c.isOpen then Commit(c.device, s, x) else c.device, c.isOpen,
             c.shutterSent || (c.isOpen && x.Shutter?))
    case Open(unset) =>
      if c.isOpen then c
      else
        Camera(OpenedSettings(c.settings), OpenedDevice(c.settings, unset), true, c.settings.shutter != 0)
    case Release => c.(isOpen := false)
    case Callback =>
      if c.isOpen && c.settings.shutter != 0 && c.settings.exposure == FixedFps then
        c.(device := c.device.(shutter := Wrap32(c.settings.shutter)), shutterSent := true)
      else c
  }

  function Run(c: Camera, events: seq<Event>): Camera {
    if events == [] then c else Step(Run(c, events[..|events| - 1]), events[|events| - 1])
  }

  predicate InRange(s: Settings) {
    && -100 <= s.sharpness <= 100 && -100 <= s.contrast <= 100 && -100 <= s.saturation <= 100
    && 0 <= s.brightness <= 100 && -10 <= s.compensation <= 10
    && 0 <= s.shutter <= 330000 && 0 <= s.rotation < 360
  }

  /**
   * Every device parameter is the encoding of its setting; but with an automatic shutter that
   * has not been committed, the shutter parameter is the component's own.
   */
  predicate Coherent(c: Camera) {
    && InRange(c.settings)
    && (c.isOpen ==>
          && c.device == Encode(c.settings).(shutter := c.device.shutter)
          && (if c.shutterSent then c.device.shutter == Wrap32(c.settings.shutter) else c.settings.shutter == 0))
  }

  /** What the device's parameters mean for the settings, one by one. */
  ghost predicate Follows(d: Device, s: Settings) {
    && d.sharpness == s.sharpness && d.contrast == s.contrast && d.brightness == s.brightness
    && d.saturation == s.saturation && d.compensation == s.compensation && d.stabilisation == s.stabilisation
    && 0 <= d.iso < 0x1_0000_0000 && (d.iso - s.iso) % 0x1_0000_0000 == 0
    && d.shutter == s.shutter
    && d.exposure == (if s.exposure.ExposureCode? then ExposureAuto else s.exposure)
    && d.metering == (if s.metering.MeteringCode? then Average else s.metering)
    && d.awb == (if s.awb.AwbCode? then AwbAuto else s.awb)
    && d.effect == (if s.effect.EffectCode? then NoEffect else s.effect)
    && d.rotation % 90 == 0 && d.rotation <= s.rotation < d.rotation + 90
    && (d.mirror in {MirrorHorizontal, MirrorBoth} <==> s.hflip)
    && (d.mirror in {MirrorVertical, MirrorBoth} <==> s.vflip)
    && d.redGain as real <= s.red * 65536.0 < (d.redGain + 1) as real
    && d.blueGain as real <= s.blue * 65536.0 < (d.blueGain + 1) as real
  }

  /** The encoding is the one device that follows the settings. */
  lemma EncodeIff(s: Settings, d: Device)
    requires InRange(s)
    ensures d == Encode(s) <==> Follows(d, s)
  {
    EncodeFollows(s);
    if Follows(d, s) {
      FollowsOne(s, d, Encode(s));
    }
  }

  lemma EncodeFollows(s: Settings)
    requires InRange(s)
    ensures Follows(Encode(s), s)
  {
    var iso := s.iso;
    assert Wrap32(iso) - iso == -(iso / UINT32_RANGE) * UINT32_RANGE;
  }

  lemma FollowsOne(s: Settings, d: Device, e: Device)
    requires InRange(s) && Follows(d, s) && Follows(e, s)
    ensures d == e
  {
    assert d.redGain == e.redGain && d.blueGain == e.blueGain;
    assert d.rotation == e.rotation && d.iso == e.iso;
    MirrorsDiffer(d.mirror, e.mirror);
  }

  /** What each setter stores, and that it leaves the other settings alone. */
  lemma SetterStores(s: Settings, c: Setting)
    ensures var t := Change(s, c);
      match c
      case Sharpness(n) => t == s.(sharpness := t.sharpness) && Nearest(-100, 100, n, t.sharpness)
      case Contrast(n) => t == s.(contrast := t.contrast) && Nearest(-100, 100, n, t.contrast)
      case Brightness(u) => t == s.(brightness := t.brightness) && Nearest(0, 100, u, t.brightness)
      case Saturation(n) => t == s.(saturation := t.saturation) && Nearest(-100, 100, n, t.saturation)
      case Iso(n) => t == s.(iso := n)
      case Stabilisation(b) => t == s.(stabilisation := b)
      case Compensation(n) => t == s.(compensation := t.compensation) && Nearest(-10, 10, n, t.compensation)
      case Shutter(u) => t == s.(shutter := t.shutter) && Nearest(0, 330000, u, t.shutter)
      case SetExposure(e) => t == s.(exposure := e)
      case SetMetering(m) => t == s.(metering := m)
      case SetAwb(a) => t == s.(awb := a)
      case SetEffect(f) => t == s.(effect := f)
      case SetRotation(n) => t == s.(rotation := t.rotation) && 0 <= t.rotation < 360 && (n - t.rotation) % 360 == 0
      case HorizontalFlip(b) => t == s.(hflip := b)
      case VerticalFlip(b) => t == s.(vflip := b)
      case AwbGains(r, b) => t == s.(red := r, blue := b)
  {
  }

  lemma ChangeInRange(s: Settings, c: Setting)
    requires InRange(s)
    ensures InRange(Change(s, c))
  {
  }

  /** A setter's commit is all that the device needs to follow the setting. */
  lemma CommitFollowsChange(s: Settings, c: Setting)
    ensures Commit(Encode(s), Change(s, c), c) == Encode(Change(s, c))
  {
  }

  /** A commit leaves the shutter parameter alone, unless it is the shutter's own. */
  lemma CommitSparesShutter(d: Device, s: Settings, c: Setting, shutter: int)
    requires !c.Shutter?
    ensures Commit(d.(shutter := shutter), s, c) == Commit(d, s, c).(shutter := shutter)
  {
  }

  lemma StepKeepsCoherent(c: Camera, e: Event)
    requires Coherent(c)
    ensures Coherent(Step(c, e))
  {
    if e.Set? {
      SetKeepsCoherent(c, e.setting);
    }
  }

  lemma SetKeepsCoherent(c: Camera, x: Setting)
    requires Coherent(c)
    ensures Coherent(Step(c, Set(x)))
  {
    ChangeInRange(c.settings, x);
    CommitFollowsChange(c.settings, x);
    if !x.Shutter? {
      CommitSparesShutter(Encode(c.settings), Change(c.settings, x), x, c.device.shutter);
    }
  }

  lemma StepMayKeepCoherent(c: Camera, e: Event)
    ensures Coherent(c) ==> Coherent(Step(c, e))
  {
    if Coherent(c) {
      StepKeepsCoherent(c, e);
    }
  }

  lemma {:induction false} RunKeepsCoherent(c: Camera, events: seq<Event>)
    requires Coherent(c)
    ensures Coherent(Run(c, events))
  {
    if events == [] {
    } else {
      RunKeepsCoherent(c, events[..|events| - 1]);
      StepKeepsCoherent(Run(c, events[..|events| - 1]), events[|events| - 1]);
    }
  }

  /**
   * In every reachable state the settings are in range and, while the camera is open, every
   * device parameter is the encoding of its setting, the shutter once it has been committed
   * since opening. Before that the shutter is set to automatic.
   */
  lemma EveryRunCoherent(unset: Device, events: seq<Event>)
    ensures var c := Run(Created(unset), events);
      && InRange(c.settings)
      && (c.isOpen ==> c.device == Encode(c.settings).(shutter := c.device.shutter))
      && (c.isOpen && c.shutterSent ==> c.device == Encode(c.settings))
      && (c.isOpen && !c.shutterSent ==> c.settings.shutter == 0)
      && (c.isOpen ==> Follows(c.device.(shutter := c.settings.shutter), c.settings))
  {
    var c := Run(Created(unset), events);
    RunKeepsCoherent(Created(unset), events);
    EncodeIff(c.settings, Encode(c.settings));
  }

  /** Whether the camera is open: the last event that opens or releases it decides. */
  function OpenAfter(events: seq<Event>): bool {
    events != [] &&
    (var last := events[|events| - 1]; last.Open? || (!last.Release? && OpenAfter(events[..|events| - 1])))
  }

  /** The settings after the events: what the setters made of them, and what opening did to the mode. */
  function SettingsAfter(s: Settings, events: seq<Event>): Settings {
    if events == [] then s
    else
      var before, last := SettingsAfter(s, events[..|events| - 1]), events[|events| - 1];
      if last.Set? then Change(before, last.setting)
      else if last.Open? && !OpenAfter(events[..|events| - 1]) && before.shutter > 0 then before.(exposure := FixedFps)
      else before
  }

  /** Releasing the camera and its callbacks leave the settings alone, and while it is closed the device, too. */
  lemma {:induction false} EventsDecide(unset: Device, events: seq<Event>)
    ensures var c := Run(Created(unset), events);
      && c.isOpen == OpenAfter(events)
      && c.settings == SettingsAfter(DEFAULTS, events)
      && (events != [] && !c.isOpen ==> c.device == Run(Created(unset), events[..|events| - 1]).device)
  {
    if events == [] {
    } else {
      EventsDecide(unset, events[..|events| - 1]);
      RunKeepsCoherent(Created(unset), events[..|events| - 1]);
    }
  }

  // ------------------------------------------------------------------------------------
  // Setters before or after opening

  function SetAll(c: Camera, settings: seq<Setting>): Camera {
    if settings == [] then c else Step(SetAll(c, settings[..|settings| - 1]), Set(settings[|settings| - 1]))
  }

  predicate SetsExposure(settings: seq<Setting>) {
    exists x :: x in settings && x.SetExposure?
  }

  lemma ChangeSparesExposure(s: Settings, e: Exposure, x: Setting)
    ensures x.SetExposure? ==> Change(s.(exposure := e), x) == Change(s, x)
    ensures !x.SetExposure? ==>
      Change(s.(exposure := e), x) == Change(s, x).(exposure := e) && Change(s, x).exposure == s.exposure
  {
  }

  /** Setters run on settings that differ in the exposure mode keep the difference until one sets it. */
  lemma {:induction false} SetAllSettings(c: Camera, d: Camera, settings: seq<Setting>)
    requires d.settings == c.settings.(exposure := d.settings.exposure)
    ensures var s, t := SetAll(c, settings), SetAll(d, settings);
      && s.isOpen == c.isOpen && t.isOpen == d.isOpen
      && t.settings == s.settings.(exposure := t.settings.exposure)
      && (if SetsExposure(settings) then t.settings == s.settings
          else s.settings.exposure == c.settings.exposure && t.settings.exposure == d.settings.exposure)
  {
    if settings == [] {
    } else {
      var init, last := settings[..|settings| - 1], settings[|settings| - 1];
      var s, t := SetAll(c, init).settings, SetAll(d, init).settings;
      SetAllSettings(c, d, init);
      ChangeSparesExposure(s, t.exposure, last);
      assert t == s.(exposure := t.exposure);
      assert SetAll(c, settings).settings == Change(s, last) && SetAll(d, settings).settings == Change(t, last);
      SetsMore(settings);
    }
  }

  lemma SetsMore(settings: seq<Setting>)
    requires settings != []
    ensures var init, last := settings[..|settings| - 1], settings[|settings| - 1];
      && (SetsExposure(settings) <==> SetsExposure(init) || last.SetExposure?)
      && (SetsShutter(settings) <==> SetsShutter(init) || last.Shutter?)
  {
    assert settings == settings[..|settings| - 1] + [settings[|settings| - 1]];
  }

  lemma {:induction false} SetAllCoherent(c: Camera, settings: seq<Setting>)
    requires Coherent(c)
    ensures Coherent(SetAll(c, settings))
  {
    if settings == [] {
    } else {
      SetAllCoherent(c, settings[..|settings| - 1]);
      SetKeepsCoherent(SetAll(c, settings[..|settings| - 1]), settings[|settings| - 1]);
    }
  }

  predicate SetsShutter(settings: seq<Setting>) {
    exists x :: x in settings && x.Shutter?
  }

  lemma {:induction false} SetAllShutter(c: Camera, settings: seq<Setting>)
    requires c.isOpen
    ensures SetAll(c, settings).isOpen
    ensures SetAll(c, settings).shutterSent <==> c.shutterSent || SetsShutter(settings)
    ensures !SetsShutter(settings) ==> SetAll(c, settings).device.shutter == c.device.shutter
  {
    if settings == [] {
    } else {
      var init, last := settings[..|settings| - 1], settings[|settings| - 1];
      SetAllShutter(c, init);
      SetsMore(settings);
    }
  }

  /**
   * What the closed camera c and the new component must be like, and the setters do, for the
   * device to end up the same whether they run before or after open. If c has stored no shutter
   * speed: the setters leave the shutter automatic, and do not set it at all or the component's
   * is automatic too; or they choose a speed and the fixed-frame-rate mode themselves. If it
   * has, opening it first switches the mode: then the setters must not choose another mode
   * for a shutter speed, and must choose one, or c have it, for an automatic shutter.
   */
  predicate OrderDoesNotMatter(c: Camera, unset: Device, settings: seq<Setting>) {
    var final := SetAll(c, settings).settings;
    if c.settings.shutter == 0 then
      if final.shutter == 0 then unset.shutter == 0 || !SetsShutter(settings)
      else ConvertExposure(final.exposure) == FixedFps
    else
      if final.shutter == 0 then
        unset.shutter == 0 && (SetsExposure(settings) || ConvertExposure(c.settings.exposure) == FixedFps)
      else !SetsExposure(settings) || ConvertExposure(final.exposure) == FixedFps
  }

  lemma SettersBeforeOrAfterOpen(c: Camera, unset: Device, settings: seq<Setting>)
    requires Coherent(c) && !c.isOpen
    ensures Step(SetAll(c, settings), Open(unset)).device == SetAll(Step(c, Open(unset)), settings).device
       <==> OrderDoesNotMatter(c, unset, settings)
  {
    var atOpen := Step(c, Open(unset));
    SetAllSettings(c, atOpen, settings);
    SetAllCoherent(c, settings);
    SetAllCoherent(atOpen, settings);
    SetAllShutter(atOpen, settings);
  }

  /**
   * So it can matter although the shutter ends up automatic: a camera that stored a speed and
   * is set back to automatic before it is opened keeps its exposure mode, after it does not.
   */
  lemma StoredShutterMatters(unset: Device)
    requires unset.shutter == 0
    ensures var c := Run(Created(unset), [Set(Shutter(5000))]);
      var before := Step(SetAll(c, [Shutter(0)]), Open(unset));
      var after := SetAll(Step(c, Open(unset)), [Shutter(0)]);
      && before.device.shutter == after.device.shutter == 0
      && before.device.exposure == ExposureAuto && after.device.exposure == FixedFps
  {
    var c := Run(Created(unset), [Set(Shutter(5000))]);
    assert [Set(Shutter(5000))][..0] == [] && [Shutter(0)][..0] == [];
    assert Run(Created(unset), []) == Created(unset);
    assert c == Step(Created(unset), Set(Shutter(5000)));
    assert SetAll(c, [Shutter(0)]) == Step(c, Set(Shutter(0)));
    assert SetAll(Step(c, Open(unset)), [Shutter(0)]) == Step(Step(c, Open(unset)), Set(Shutter(0)));
  }

  // ------------------------------------------------------------------------------------

  class VideoCamera {
    var state: Settings
    var device: Device
    var isOpen: bool
    ghost var shutterSent: bool

    constructor (unset: Device)
      ensures View() == Created(unset) && Coherent(View())
    {
      state, device, isOpen, shutterSent := DEFAULTS, unset, false, false;
    }

    ghost function View(): Camera
      reads this
    {
      Camera(state, device, isOpen, shutterSent)
    }

    method CommitExposure()
      modifies this`device
      ensures device == old(device).(exposure := ConvertExposure(state.exposure))
    {
      device := device.(exposure := ConvertExposure(state.exposure));
    }

    method CommitShutterSpeed()
      modifies this`device, this`shutterSent
      ensures device == old(device).(shutter := Wrap32(state.shutter)) && shutterSent
    {
      device, shutterSent := device.(shutter := Wrap32(state.shutter)), true;
    }

    method CommitRotation()
      requires state.rotation >= 0
      modifies this`device
      ensures device == old(device).(rotation := QuarterTurns(state.rotation))
    {
      device := device.(rotation := state.rotation / 90 * 90);
    }

    method CommitFlips()
      modifies this`device
      ensures device == old(device).(mirror := ConvertFlips(state.hflip, state.vflip))
    {
      var mirror := MirrorNone;
      if state.hflip && state.vflip {
        mirror := MirrorBoth;
      } else if state.hflip {
        mirror := MirrorHorizontal;
      } else if state.vflip {
        mirror := MirrorVertical;
      }
      device := device.(mirror := mirror);
    }

    /** The shutter speed, if one is set, and the exposure mode, which it then switches. */
    method CommitMode()
      modifies this`state, this`device, this`shutterSent
      ensures state == OpenedSettings(old(state))
      ensures device == old(device).(
        exposure := ConvertExposure(state.exposure),
        shutter := if state.shutter != 0 then Wrap32(state.shutter) else old(device).shutter)
      ensures shutterSent == (state.shutter != 0 || old(shutterSent))
    {
      if state.shutter != 0 {
        CommitShutterSpeed();
        state := state.(exposure := FixedFps);
        CommitExposure();
      } else {
        CommitExposure();
      }
    }

    /** All parameters, in the program's order. */
    method CommitParameters()
      requires state.rotation >= 0
      modifies this`state, this`device, this`shutterSent
      ensures state == OpenedSettings(old(state))
      ensures device == OpenedDevice(old(state), old(device))
      ensures shutterSent == (old(state).shutter != 0 || old(shutterSent))
    {
      device := device.(saturation := state.saturation);
      device := device.(sharpness := state.sharpness);
      device := device.(contrast := state.contrast);
      device := device.(brightness := state.brightness);
      device := device.(iso := Wrap32(state.iso));
      CommitMode();
      device := device.(compensation := state.compensation);
      device := device.(metering := ConvertMetering(state.metering));
      device := device.(effect := ConvertEffect(state.effect));
      CommitRotation();
      CommitFlips();
      device := device.(stabilisation := state.stabilisation);
      device := device.(awb := ConvertAwb(state.awb));
      device := device.(redGain := GainCode(state.red), blueGain := GainCode(state.blue));
    }

    method Open(unset: Device) returns (ok: bool)
      requires Coherent(View())
      modifies this
      ensures ok == !old(isOpen)
      ensures View() == Step(old(View()), Event.Open(unset))
    {
      if isOpen {
        return false;
      }
      device, shutterSent := unset, false;
      CommitParameters();
      isOpen := true;
      return true;
    }

    method SetBrightness(brightness: nat)
      modifies this`state, this`device
      ensures View() == Step(old(View()), Set(Brightness(brightness)))
    {
      var b := brightness;
      if b > 100 {
        b := 100;
      }
      state := state.(brightness := b);
      if isOpen {
        device := device.(brightness := state.brightness);
      }
    }

    method SetShutterSpeed(shutter: nat)
      modifies this`state, this`device, this`shutterSent
      ensures View() == Step(old(View()), Set(Shutter(shutter)))
    {
      var s := shutter;
      if s > 330000 {
        s := 330000;
      }
      state := state.(shutter := s);
      if isOpen {
        CommitShutterSpeed();
      }
    }

    method ChangeRotation(rotation: int)
      modifies this`state, this`device
      ensures View() == Step(old(View()), Set(SetRotation(rotation)))
    {
      var r := NormalizeRotation(rotation);
      state := state.(rotation := r);
      if isOpen {
        CommitRotation();
      }
    }

    method SetContrast(contrast: int)
      modifies this`state, this`device
      ensures View() == Step(old(View()), Set(Contrast(contrast)))
    {
      var c := contrast;
      if c < -100 {
        c := -100;
      }
      if c > 100 {
        c := 100;
      }
      state := state.(contrast := c);
      if isOpen {
        device := device.(contrast := state.contrast);
      }
    }

    method SetSaturation(saturation: int)
      modifies this`state, this`device
      ensures View() == Step(old(View()), Set(Saturation(saturation)))
    {
      var s := saturation;
      if s < -100 {
        s := -100;
      }
      if s > 100 {
        s := 100;
      }
      state := state.(saturation := s);
      if isOpen {
        device := device.(saturation := state.saturation);
      }
    }

    method SetISO(iso: int)
      modifies this`state, this`device
      ensures View() == Step(old(View()), Set(Iso(iso)))
    {
      state := state.(iso := iso);
      if isOpen {
        device := device.(iso := Wrap32(state.iso));
      }
    }

    /** The frame callback's renewal of the shutter speed. */
    method OnFrame()
      modifies this`device, this`shutterSent
      ensures View() == Step(old(View()), Callback)
    {
      if isOpen && state.shutter != 0 && state.exposure == FixedFps {
        CommitShutterSpeed();
      }
    }

    method ChangeExposure(exposure: Exposure)
      modifies this`state, this`device
      ensures View() == Step(old(View()), Set(SetExposure(exposure)))
    {
      state := state.(exposure := exposure);
      if isOpen {
        CommitExposure();
      }
    }

    method SetHorizontalFlip(flip: bool)
      modifies this`state, this`device
      ensures View() == Step(old(View()), Set(HorizontalFlip(flip)))
    {
      state := state.(hflip := flip);
      if isOpen {
        CommitFlips();
      }
    }
  }
}
