// The Stopped / Paused / Running machine of the audio renderer and the track it steers.

module AudioControl {

  datatype TrackState = Stopped | Running | Paused

  datatype Status = Success | Einval | Enosys

  datatype Encoding = PcmSigned | Ac3 | Eac3 | Unknown

  datatype Format = Format(encoding: Encoding, channels: nat, bitsPerSample: nat, sampleRate: nat)

  datatype Rational = Rational(num: int, den: int)

  /** What the platform answers while a track is made. */
  datatype Platform = Platform(channelMask: bool, trackCreated: bool)

  datatype TrackView = NoTrack | Track(playing: bool)

  datatype Control = Control(
    supportsAc3: bool,
    track: TrackView,
    enabled: bool,
    state: TrackState,
    format: Format,        // the format the component has configured
    portFormat: Format)    // the format the client has put on the port

  predicate SupportedEncoding(supportsAc3: bool, e: Encoding) {
    e.PcmSigned? || (supportsAc3 && (e.Ac3? || e.Eac3?))
  }

  /** The state the component wants, given the port and the clock. */
  function Target(enabled: bool, scale: Rational): TrackState {
    if !enabled then Stopped
    else if scale.den != 0 && scale.den == scale.num then Running
    else Paused
  }

  function StateUpdate(c: Control, scale: Rational): Control {
    var target := Target(c.enabled, scale);
    if c.track.NoTrack? || target == c.state then c
    else
      var playing :=
        if target == Running then true
        else if c.state == Stopped then c.track.playing
        else false;
      c.(track := Track(playing), state := target)
  }

  function TrackCreate(c: Control, p: Platform): (Control, Status) {
    if p.trackCreated then (c.(track := Track(false)), Success)
    else (c.(track := NoTrack), Enosys)
  }

  function SetFormat(c: Control, p: Platform): (Control, Status) {
    if c.portFormat == c.format then (c, Success)
    else if !SupportedEncoding(c.supportsAc3, c.portFormat.encoding) then (c, Einval)
    else if c.portFormat.encoding.PcmSigned? && c.portFormat.bitsPerSample !in {16, 32} then (c, Einval)
    else if c.portFormat.encoding.PcmSigned? && !p.channelMask then (c, Enosys)
    else TrackCreate(c.(format := c.portFormat), p)
  }

  function Enable(c: Control, scale: Rational, p: Platform): (Control, Status) {
    var (c1, status) := if c.track.NoTrack? then SetFormat(c, p) else (c, Success);
    if status != Success then (c1, status)
    else (StateUpdate(c1.(enabled := true), scale), Success)
  }

  function Flush(c: Control, scale: Rational): Control {
    if c.track.NoTrack? then c
    else StateUpdate(c.(track := Track(false), state := Stopped), scale)
  }

  function Disable(c: Control, scale: Rational): Control {
    Flush(StateUpdate(c.(enabled := false), scale), scale)
  }

  // ------------------------------------------------------------------------------------
  // Whole runs

  datatype Event =
    | EnablePort(scale: Rational, platform: Platform)
    | DisablePort(scale: Rational)
    | FlushPort(scale: Rational)
    | ClockScale(scale: Rational)
    | OtherClockEvent
    | CommitFormat(wanted: Format, platform: Platform)

  function Apply(c: Control, e: Event): Control {
    match e
    case EnablePort(scale, p) => Enable(c, scale, p).0
    case DisablePort(scale) => Disable(c, scale)
    case FlushPort(scale) => Flush(c, scale)
    case ClockScale(scale) => StateUpdate(c, scale)
    case OtherClockEvent => c
    case CommitFormat(f, p) => SetFormat(c.(portFormat := f), p).0
  }

  function Run(c: Control, events: seq<Event>): Control {
    if events == [] then c else Apply(Run(c, events[..|events| - 1]), events[|events| - 1])
  }

  function Created(supportsAc3: bool, format: Format, portFormat: Format): Control {
    Control(supportsAc3, NoTrack, false, Stopped, format, portFormat)
  }

  /** The component's state says "running" exactly when its track plays. */
  predicate Mirrors(c: Control) {
    c.track.Track? ==> (c.state == Running <==> c.track.playing)
  }

  predicate Inv(c: Control) {
    Mirrors(c) && (c.track.NoTrack? || !c.enabled ==> c.state == Stopped)
  }

  /** Formats are committed only while the port is disabled. */
  predicate FormatsWhileDisabled(c: Control, events: seq<Event>) {
    events == [] ||
    (var init, last := events[..|events| - 1], events[|events| - 1];
     FormatsWhileDisabled(c, init) && (last.CommitFormat? ==> !Run(c, init).enabled))
  }

  lemma ApplyKeepsInv(c: Control, e: Event)
    requires Inv(c) && (e.CommitFormat? ==> !c.enabled)
    ensures Inv(Apply(c, e))
    ensures var t := Apply(c, e);
      t.track.Track? && (e.DisablePort? || e.FlushPort? || e.ClockScale?) ==> t.state == Target(t.enabled, e.scale)
    ensures var t := Apply(c, e);
      e.EnablePort? && t.track.Track? && t.enabled ==> t.state == Target(true, e.scale)
    ensures e.CommitFormat? ==> Apply(c, e).state == Stopped
  {
  }

  /**
   * What an update leaves behind, for a track that the state mirrors: it plays exactly if the
   * port is enabled and the clock runs at normal speed; it is paused exactly if the port is
   * enabled and the clock does not.
   */
  lemma UpdateFollowsClock(c: Control, scale: Rational)
    requires Inv(c) && c.track.Track?
    ensures var t := StateUpdate(c, scale);
      && t == c.(track := t.track, state := t.state) && t.track.Track?
      && (t.track.playing <==> c.enabled && scale.num == scale.den != 0)
      && (t.state == Paused <==> c.enabled && (scale.num != scale.den || scale.den == 0))
      && (t.state == Stopped <==> !c.enabled)
  {
  }

  lemma {:induction false} RunMirrors(c: Control, events: seq<Event>)
    requires Inv(c) && FormatsWhileDisabled(c, events)
    ensures Inv(Run(c, events))
    decreases |events|
  {
    if events == [] {
    } else {
      RunMirrors(c, events[..|events| - 1]);
      ApplyKeepsInv(Run(c, events[..|events| - 1]), events[|events| - 1]);
    }
  }

  /**
   * In every run of a new component whose formats change only while the port is disabled, the
   * state mirrors the track, and a disabled port or a missing track leaves it at Stopped. After
   * an event that updates it the track plays exactly if the port is enabled and the clock runs
   * at normal speed, and is paused exactly if the port is enabled and the clock does not.
   */
  lemma EveryRunMirrors(supportsAc3: bool, format: Format, portFormat: Format, events: seq<Event>)
    requires FormatsWhileDisabled(Created(supportsAc3, format, portFormat), events)
    ensures var t := Run(Created(supportsAc3, format, portFormat), events);
      && (t.track.Track? ==> (t.state == Running <==> t.track.playing))
      && (t.track.NoTrack? || !t.enabled ==> t.state == Stopped)
      && (events != [] ==> t.track.Track? ==> FollowsClock(t, events[|events| - 1]))
  {
    var c := Created(supportsAc3, format, portFormat);
    RunMirrors(c, events);
    if events != [] {
      RunMirrors(c, events[..|events| - 1]);
      ApplyFollowsClock(Run(c, events[..|events| - 1]), events[|events| - 1]);
    }
  }

  /** The track does what the event, if it updates the state, asks of it. */
  predicate FollowsClock(t: Control, e: Event)
    requires t.track.Track?
  {
    match e
    case EnablePort(scale, _) => t.enabled ==> PlaysAt(t, scale)
    case DisablePort(_) => !t.enabled && !t.track.playing && t.state == Stopped
    case FlushPort(scale) => PlaysAt(t, scale)
    case ClockScale(scale) => PlaysAt(t, scale)
    case _ => true
  }

  predicate PlaysAt(t: Control, scale: Rational)
    requires t.track.Track?
  {
    && (t.track.playing <==> t.enabled && scale.num == scale.den && scale.den != 0)
    && (t.state == Paused <==> t.enabled && (scale.num != scale.den || scale.den == 0))
    && (t.state == Stopped <==> !t.enabled)
  }

  lemma ApplyFollowsClock(c: Control, e: Event)
    requires Inv(c) && (e.CommitFormat? ==> !c.enabled)
    ensures Apply(c, e).track.Track? ==> FollowsClock(Apply(c, e), e)
  {
  }

  /** Disabling stops the track, whatever came before. */
  lemma DisableStops(c: Control, scale: Rational)
    ensures var t := Disable(c, scale);
      !t.enabled && (t.track.Track? ==> t.state == Stopped && !t.track.playing)
  {
  }

  // ------------------------------------------------------------------------------------
  // A format committed while the port is enabled

  /** The commit gets as far as making a new track. */
  predicate MakesTrack(c: Control, wanted: Format, p: Platform) {
    && wanted != c.format
    && SupportedEncoding(c.supportsAc3, wanted.encoding)
    && (wanted.encoding.PcmSigned? ==> wanted.bitsPerSample in {16, 32} && p.channelMask)
    && p.trackCreated
  }

  /**
   * Exactly when a commit loses the mirror: it makes a new track, which is silent, while the
   * state stays at Running.
   */
  lemma CommitKeepsMirrorIff(c: Control, wanted: Format, p: Platform)
    requires Mirrors(c)
    ensures Mirrors(Apply(c, CommitFormat(wanted, p))) <==> !(MakesTrack(c, wanted, p) && c.state == Running)
  {
  }

  /** The loss happens: play 16-bit stereo, then commit another rate without disabling. */
  lemma CommitWhileRunningLosesMirror()
    ensures var pcm := Format(PcmSigned, 2, 16, 44100);
      var ok := Platform(true, true);
      var c := Created(false, Format(Unknown, 0, 0, 0), pcm);
      var events := [EnablePort(Rational(1, 1), ok), CommitFormat(pcm.(sampleRate := 48000), ok)];
      !Mirrors(Run(c, events)) && Run(c, events).state == Running
  {
    var pcm := Format(PcmSigned, 2, 16, 44100);
    var ok := Platform(true, true);
    var c := Created(false, Format(Unknown, 0, 0, 0), pcm);
    var e1, e2 := EnablePort(Rational(1, 1), ok), CommitFormat(pcm.(sampleRate := 48000), ok);
    var events := [e1, e2];
    assert events[..1] == [e1] && [e1][..0] == [];
    assert Run(c, []) == c;
    assert Run(c, [e1]) == Apply(c, e1);
    assert Run(c, events) == Apply(Apply(c, e1), e2);
  }

  /** And no clock event at normal speed repairs it: the component sees nothing to do. */
  lemma {:induction false} SilentWhileRunning(c: Control, events: seq<Event>)
    requires c.enabled && c.state == Running && c.track == Track(false)
    requires forall e :: e in events ==> e.OtherClockEvent? || (e.ClockScale? && Target(true, e.scale) == Running)
    ensures Run(c, events) == c
  {
    if events == [] {
    } else {
      SilentWhileRunning(c, events[..|events| - 1]);
    }
  }

  // ------------------------------------------------------------------------------------
  // An enabled port without a track

  /**
   * Enabling that answers success leaves a track exactly if there was one or the client's
   * format is not the configured one. The format is configured before the track is made, so
   * after a failed attempt it is, and the next attempt succeeds without a track.
   */
  lemma EnableHasTrackIff(c: Control, scale: Rational, p: Platform)
    ensures var (t, status) := Enable(c, scale, p);
      && (status == Success ==> t.enabled && (t.track.Track? <==> c.track.Track? || c.portFormat != c.format))
      && (status != Success ==> t.enabled == c.enabled && t.track.NoTrack?)
  {
  }

  lemma EnableTwice(scale: Rational)
    ensures var pcm := Format(PcmSigned, 2, 16, 44100);
      var (c1, first) := Enable(Created(false, Format(Unknown, 0, 0, 0), pcm), scale, Platform(true, false));
      var (c2, second) := Enable(c1, scale, Platform(true, true));
      first == Enosys && second == Success && c2.enabled && c2.track.NoTrack?
  {
  }

  /** Without another format that never changes: no enabling, flushing or clock event makes a track. */
  lemma {:induction false} TracklessRun(c: Control, events: seq<Event>)
    requires c.track.NoTrack? && c.portFormat == c.format
    requires forall e :: e in events ==> !e.CommitFormat?
    ensures var t := Run(c, events);
      t.track.NoTrack? && t.portFormat == t.format && t.state == c.state
  {
    if events == [] {
    } else {
      TracklessRun(c, events[..|events| - 1]);
    }
  }

  /** Tracks can be made, and no format of the client is the one configured at first. */
  predicate TracksCanBeMade(unset: Format, e: Event) {
    && (e.EnablePort? || e.CommitFormat? ==> e.platform.trackCreated)
    && (e.CommitFormat? ==> e.wanted != unset)
  }

  /** Then, in every run of a new component, a port that is enabled has a track, as a send requires. */
  lemma {:induction false} EveryEnabledHasTrack(supportsAc3: bool, unset: Format, portFormat: Format,
                                                events: seq<Event>)
    requires portFormat != unset && forall e :: e in events ==> TracksCanBeMade(unset, e)
    ensures var t := Run(Created(supportsAc3, unset, portFormat), events);
      && (t.enabled ==> t.track.Track?)
      && (t.track.NoTrack? ==> t.format == unset) && t.portFormat != unset
  {
    if events == [] {
    } else {
      EveryEnabledHasTrack(supportsAc3, unset, portFormat, events[..|events| - 1]);
      assert TracksCanBeMade(unset, events[|events| - 1]);
    }
  }

  // ------------------------------------------------------------------------------------
  // What committing a format answers

  /** Every answer, and what it leaves behind. */
  lemma SetFormatAnswers(c: Control, p: Platform)
    ensures var (t, status) := SetFormat(c, p);
      var f := c.portFormat;
      var known := f.encoding.PcmSigned? || (c.supportsAc3 && (f.encoding.Ac3? || f.encoding.Eac3?));
      var depth := f.encoding.PcmSigned? ==> f.bitsPerSample == 16 || f.bitsPerSample == 32;
      var layout := f.encoding.PcmSigned? ==> p.channelMask;
      && (f == c.format ==> status == Success && t == c)
      && (f != c.format ==>
            && (status == Einval <==> !known || !depth)
            && (status == Enosys <==> known && depth && !(layout && p.trackCreated))
            && (t.format == f <==> known && depth && layout)
            && (!(known && depth && layout) ==> t == c)
            && (known && depth && layout ==>
                  t == c.(format := f, track := if p.trackCreated then Track(false) else NoTrack)))
  {
  }
}
