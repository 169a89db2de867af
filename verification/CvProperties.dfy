// The OpenCV-style properties of the video camera: a linear scale between the caller's range
// and the device's, over real numbers.

module CvProperties {
  import opened CameraTypes
  import V = VideoSettings

  class Scaler {
    var inMin: real
    var inMax: real
    var outMin: real
    var outMax: real
    var slope: real       // aa; never used when the input range is a single point
    var intercept: real   // bb

    constructor (inMin: real, inMax: real, outMin: real, outMax: real)
      ensures this.inMin == inMin && this.inMax == inMax && this.outMin == outMin && this.outMax == outMax
      ensures Valid()
    {
      this.inMin, this.inMax, this.outMin, this.outMax := inMin, inMax, outMin, outMax;
      if inMax - inMin != 0.0 {
        slope := (outMax - outMin) / (inMax - inMin);
        intercept := outMax - (outMax - outMin) / (inMax - inMin) * inMax;
      } else {
        slope, intercept := 0.0, 0.0;
      }
    }

    ghost predicate Valid()
      reads this
    {
      inMin < inMax ==>
        slope == (outMax - outMin) / (inMax - inMin) && intercept == outMax - slope * inMax
    }

    method Apply(v: real) returns (r: real)
      requires Valid()
      ensures r == Scale(inMin, inMax, outMin, outMax, v)
    {
      if v <= inMin {
        return outMin;
      } else if v >= inMax {
        return outMax;
      }
      r := v * slope + intercept;
      LineThroughEnds(inMin, inMax, outMin, outMax, v);
    }
  }

  /** The line through (inMin, outMin) and (inMax, outMax), cut off at both ends. */
  function Scale(inMin: real, inMax: real, outMin: real, outMax: real, v: real): real {
    if v <= inMin then outMin
    else if v >= inMax then outMax
    else outMin + (v - inMin) * (outMax - outMin) / (inMax - inMin)
  }

  lemma LineThroughEnds(inMin: real, inMax: real, outMin: real, outMax: real, v: real)
    requires inMin < inMax
    ensures var slope := (outMax - outMin) / (inMax - inMin);
      v * slope + (outMax - slope * inMax) == outMin + (v - inMin) * (outMax - outMin) / (inMax - inMin)
  {
  }

  function ClampReal(lo: real, hi: real, v: real): real
  {
    if v <= lo then lo else if v >= hi then hi else v
  }

  lemma OrderedQuotient(x: real, i: real, o: real)
    requires 0.0 < x < i && 0.0 < o
    ensures 0.0 < x * o / i < o
  {
  }

  /** Scaling back undoes scaling, up to the cut. */
  lemma ScaleInverse(inMin: real, inMax: real, outMin: real, outMax: real, v: real)
    requires inMin < inMax && outMin < outMax
    ensures Scale(outMin, outMax, inMin, inMax, Scale(inMin, inMax, outMin, outMax, v)) == ClampReal(inMin, inMax, v)
  {
    if inMin < v < inMax {
      var i, o, x := inMax - inMin, outMax - outMin, v - inMin;
      var y := x * o / i;
      assert y * i == x * o;
      OrderedQuotient(x, i, o);
      assert y * i / o == x;
    }
  }

  /** Conversion to an integer drops the fraction. */
  function Truncate(r: real): int {
    if r >= 0.0 then r.Floor else -((-r).Floor)
  }

  datatype Property = Brightness | Contrast | Saturation | Gain | Exposure

  /** A number stored as unsigned. C leaves negative ones undefined; here they become 0. */
  function Unsigned(n: int): nat { if n >= 0 then n else 0 }

  /** The settings a set leaves behind. */
  function SetProperty(s: V.Settings, p: Property, v: real): V.Settings {
    match p
    case Brightness => V.Change(s, V.Brightness(Unsigned(Truncate(v))))
    case Contrast => V.Change(s, V.Contrast(Truncate(Scale(0.0, 100.0, -100.0, 100.0, v))))
    case Saturation => V.Change(s, V.Saturation(Truncate(Scale(0.0, 100.0, -100.0, 100.0, v))))
    case Gain => V.Change(s, V.Iso(Truncate(Scale(0.0, 100.0, 0.0, 800.0, v))))
    case Exposure =>
      if 0.0 < v <= 100.0 then
        V.Change(s, V.Shutter(Unsigned(Truncate(Scale(0.0, 100.0, 0.0, 330000.0, v)))))
      else V.Change(V.Change(s, V.SetExposure(ExposureAuto)), V.Shutter(0))
  }

  function GetProperty(s: V.Settings, p: Property): real {
    match p
    case Brightness => s.brightness as real
    case Contrast => Scale(-100.0, 100.0, 0.0, 100.0, s.contrast as real)
    case Saturation => Scale(-100.0, 100.0, 0.0, 100.0, s.saturation as real)
    case Gain => Scale(0.0, 800.0, 0.0, 100.0, s.iso as real)
    case Exposure =>
      if s.shutter == 0 then -1.0 else Scale(0.0, 330000.0, 0.0, 100.0, s.shutter as real)
  }

  predicate IsInteger(v: real) {
    v == v.Floor as real
  }

  lemma TruncateClose(r: real)
    ensures -1.0 < Truncate(r) as real - r < 1.0
    ensures r >= 0.0 ==> 0 <= Truncate(r) && Truncate(r) as real <= r
    ensures r < 0.0 ==> r <= Truncate(r) as real && Truncate(r) <= 0
  {
  }

  lemma TruncateExact(n: int)
    ensures Truncate(n as real) == n
  {
  }

  /** n is r without its fraction. */
  predicate TowardZero(n: int, r: real) {
    if r >= 0.0 then 0 <= n && n as real <= r < (n + 1) as real
    else n <= 0 && (n - 1) as real < r <= n as real
  }

  /**
   * What each property sets, and that it leaves all other settings alone: contrast and
   * saturation twice the distance from the middle, the sensitivity eight times the gain, and a
   * shutter speed of 3300 microseconds a point; or, outside (0, 100], the automatic mode.
   */
  lemma PropertySets(s: V.Settings, p: Property, v: real)
    ensures var t, c := SetProperty(s, p, v), ClampReal(0.0, 100.0, v);
      match p
      case Brightness => t == s.(brightness := t.brightness) && TowardZero(t.brightness, c)
      case Contrast => t == s.(contrast := t.contrast) && TowardZero(t.contrast, 2.0 * c - 100.0)
      case Saturation => t == s.(saturation := t.saturation) && TowardZero(t.saturation, 2.0 * c - 100.0)
      case Gain => t == s.(iso := t.iso) && TowardZero(t.iso, 8.0 * c)
      case Exposure =>
        if 0.0 < v <= 100.0 then t == s.(shutter := t.shutter) && TowardZero(t.shutter, 3300.0 * v)
        else t == s.(exposure := ExposureAuto, shutter := 0)
  {
    var c := ClampReal(0.0, 100.0, v);
    match p
    case Brightness => TruncateClose(v);
    case Contrast => TruncateClose(2.0 * c - 100.0);
    case Saturation => TruncateClose(2.0 * c - 100.0);
    case Gain => TruncateClose(8.0 * c);
    case Exposure => TruncateClose(3300.0 * c);
  }

  /** What each property reads from settings that are in range. */
  lemma PropertyReads(s: V.Settings)
    requires V.InRange(s)
    ensures GetProperty(s, Brightness) == s.brightness as real
    ensures 2.0 * GetProperty(s, Contrast) == (s.contrast + 100) as real
    ensures 2.0 * GetProperty(s, Saturation) == (s.saturation + 100) as real
    ensures 0 <= s.iso <= 800 ==> 8.0 * GetProperty(s, Gain) == s.iso as real
    ensures s.iso < 0 ==> GetProperty(s, Gain) == 0.0
    ensures s.iso > 800 ==> GetProperty(s, Gain) == 100.0
    ensures if s.shutter == 0 then GetProperty(s, Exposure) == -1.0
            else 3300.0 * GetProperty(s, Exposure) == s.shutter as real
  {
  }

  /** A new camera reads as halfway in every range, with automatic exposure. */
  lemma NewCameraReads()
    ensures GetProperty(V.DEFAULTS, Brightness) == GetProperty(V.DEFAULTS, Contrast) == 50.0
    ensures GetProperty(V.DEFAULTS, Saturation) == GetProperty(V.DEFAULTS, Gain) == 50.0
    ensures GetProperty(V.DEFAULTS, Exposure) == -1.0
  {
  }

  /** Brightness comes back with its fraction dropped, cut to [0, 100]. */
  lemma BrightnessRoundTrip(s: V.Settings, v: real)
    ensures var got := GetProperty(SetProperty(s, Brightness, v), Brightness);
      && got <= ClampReal(0.0, 100.0, v) < got + 1.0
      && (IsInteger(v) ==> got == ClampReal(0.0, 100.0, v))
  {
    TruncateClose(v);
    if IsInteger(v) {
      TruncateExact(v.Floor);
    }
  }

  /** Contrast and saturation come back within half a unit, integers exactly, cut to [0, 100]. */
  lemma ContrastRoundTrip(s: V.Settings, p: Property, v: real)
    requires p.Contrast? || p.Saturation?
    ensures var got := GetProperty(SetProperty(s, p, v), p);
      && -0.5 < got - ClampReal(0.0, 100.0, v) < 0.5
      && (IsInteger(v) ==> got == ClampReal(0.0, 100.0, v))
  {
    var scaled := Scale(0.0, 100.0, -100.0, 100.0, v);
    var c := ClampReal(0.0, 100.0, v);
    assert scaled == c * 2.0 - 100.0;
    TruncateClose(scaled);
    var t := Truncate(scaled);
    assert -100 <= t <= 100;
    assert GetProperty(SetProperty(s, p, v), p) == (t as real + 100.0) / 2.0;
    if IsInteger(v) {
      var n := v.Floor;
      var m := if n < 0 then -100 else if n > 100 then 100 else 2 * n - 100;
      assert scaled == m as real;
      TruncateExact(m);
    }
  }

  /** Gain comes back at most an eighth too small, integers exactly, cut to [0, 100]. */
  lemma GainRoundTrip(s: V.Settings, v: real)
    ensures var got := GetProperty(SetProperty(s, Gain, v), Gain);
      && got <= ClampReal(0.0, 100.0, v) < got + 0.125
      && (IsInteger(v) ==> got == ClampReal(0.0, 100.0, v))
  {
    var scaled := Scale(0.0, 100.0, 0.0, 800.0, v);
    var c := ClampReal(0.0, 100.0, v);
    assert scaled == c * 8.0;
    TruncateClose(scaled);
    var t := Truncate(scaled);
    assert 0 <= t <= 800;
    assert GetProperty(SetProperty(s, Gain, v), Gain) == t as real / 8.0;
    if IsInteger(v) {
      var n := v.Floor;
      var m := if n < 0 then 0 else if n > 100 then 800 else 8 * n;
      assert scaled == m as real;
      TruncateExact(m);
    }
  }

  /**
   * Exposure comes back as -1, automatic, exactly when the value is outside (0, 100] or rounds
   * down to no microsecond at all; otherwise it is less than a microsecond's worth too small,
   * and integers are exact.
   */
  lemma ExposureRoundTrip(s: V.Settings, v: real)
    ensures var got := GetProperty(SetProperty(s, Exposure, v), Exposure);
      && (got == -1.0 <==> !(1.0 / 3300.0 <= v <= 100.0))
      && (got != -1.0 ==> got <= v < got + 1.0 / 3300.0)
      && (IsInteger(v) && 1.0 <= v <= 100.0 ==> got == v)
  {
    if 0.0 < v <= 100.0 {
      var scaled := Scale(0.0, 100.0, 0.0, 330000.0, v);
      assert scaled == v * 3300.0;
      TruncateClose(scaled);
      var t := Truncate(scaled);
      assert 0 <= t <= 330000;
      assert t > 0 <==> scaled >= 1.0;
      assert t != 0 ==> GetProperty(SetProperty(s, Exposure, v), Exposure) == t as real / 3300.0;
      if IsInteger(v) {
        assert scaled == (3300 * v.Floor) as real;
        TruncateExact(3300 * v.Floor);
      }
    }
  }

  class CvCamera {
    const camera: V.VideoCamera

    constructor (camera: V.VideoCamera)
      ensures this.camera == camera
    {
      this.camera := camera;
    }

    method Set(p: Property, v: real)
      modifies camera
      ensures camera.state == SetProperty(old(camera.state), p, v) && camera.isOpen == old(camera.isOpen)
      ensures V.Coherent(old(camera.View())) ==> V.Coherent(camera.View())
    {
      match p
      case Brightness =>
        V.StepMayKeepCoherent(camera.View(), V.Set(V.Brightness(Unsigned(Truncate(v)))));
        camera.SetBrightness(Unsigned(Truncate(v)));
      case Contrast =>
        var c := ScaleBy(0.0, 100.0, -100.0, 100.0, v);
        V.StepMayKeepCoherent(camera.View(), V.Set(V.Contrast(Truncate(c))));
        camera.SetContrast(Truncate(c));
      case Saturation =>
        var c := ScaleBy(0.0, 100.0, -100.0, 100.0, v);
        V.StepMayKeepCoherent(camera.View(), V.Set(V.Saturation(Truncate(c))));
        camera.SetSaturation(Truncate(c));
      case Gain =>
        var c := ScaleBy(0.0, 100.0, 0.0, 800.0, v);
        V.StepMayKeepCoherent(camera.View(), V.Set(V.Iso(Truncate(c))));
        camera.SetISO(Truncate(c));
      case Exposure =>
        if v > 0.0 && v <= 100.0 {
          var c := ScaleBy(0.0, 100.0, 0.0, 330000.0, v);
          V.StepMayKeepCoherent(camera.View(), V.Set(V.Shutter(Unsigned(Truncate(c)))));
          camera.SetShutterSpeed(Unsigned(Truncate(c)));
        } else {
          V.StepMayKeepCoherent(camera.View(), V.Set(V.SetExposure(ExposureAuto)));
          camera.ChangeExposure(ExposureAuto);
          V.StepMayKeepCoherent(camera.View(), V.Set(V.Shutter(0)));
          camera.SetShutterSpeed(0);
        }
    }
  }

  method ScaleBy(inMin: real, inMax: real, outMin: real, outMax: real, v: real) returns (r: real)
    ensures r == Scale(inMin, inMax, outMin, outMax, v)
  {
    var s := new Scaler(inMin, inMax, outMin, outMax);
    r := s.Apply(v);
  }
}
