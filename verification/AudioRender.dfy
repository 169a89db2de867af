// The audio renderer as the program has it: one object whose methods take headers from a
// queue, copy bytes into the track's buffer and steer the track. Each method is proved to
// make the step that AudioStream and AudioControl give for it.

module AudioRender {
  import opened Common
  import opened AudioStream
  import AudioControl
  import opened AudioLatency

  const MORE_DATA := 0

  class BufferHeader {
    const id: nat
    var command: nat          // 0 for stream data
    var data: seq<byte>
    var offset: nat
    var length: nat
    var eos: bool

    constructor (id: nat, command: nat, data: seq<byte>, eos: bool)
      ensures InBounds() && View() == Buffer(id, data, eos) && this.command == command
    {
      this.id := id;
      this.command := command;
      this.data := data;
      this.offset := 0;
      this.length := |data|;
      this.eos := eos;
    }

    predicate InBounds()
      reads this
    {
      offset + length <= |data|
    }

    /** As the client expects it back: nothing in it, and the next bytes to go to its start. */
    predicate IsReset()
      reads this
    {
      offset == 0 && length == 0
    }

    function View(): Buffer
      reads this
      requires InBounds()
    {
      Buffer(id, data[offset..offset + length], eos)
    }

    /** Copy the first bytes, as many as fit, and step over them. */
    method CopyOut(info: TrackBuffer, space: nat) returns (bytes: nat)
      requires InBounds() && info.size + space <= info.raw.Length
      modifies this`offset, this`length, info`size, info.raw
      ensures InBounds() && length == old(length) - bytes && info.size == old(info.size) + bytes
      ensures bytes == Min(|old(View()).payload|, space)
      ensures View() == old(View()).(payload := old(View()).payload[bytes..])
      ensures info.raw[..] == Overwrite(old(info.raw[..]), old(info.size), old(View()).payload[..bytes])
    {
      bytes := if length < space then length else space;
      var dest := info.size;
      ghost var was, copied := info.raw[..], View().payload[..bytes];
      forall i | dest <= i < dest + bytes {
        info.raw[i] := data[offset + i - dest];
      }
      assert info.raw[..] == Overwrite(was, dest, copied) by {
        forall i | 0 <= i < |was|
          ensures info.raw[i] == Overwrite(was, dest, copied)[i]
        {
        }
      }
      offset := offset + bytes;
      length := length - bytes;
      info.size := info.size + bytes;
    }
  }

  /** Memory `raw` with `written` stored from position `at` on. */
  function Overwrite(raw: seq<byte>, at: nat, written: seq<byte>): seq<byte>
    requires at + |written| <= |raw|
  {
    raw[..at] + written + raw[at + |written|..]
  }

  lemma OverwriteMore(raw: seq<byte>, at: nat, first: seq<byte>, more: seq<byte>)
    requires at + |first| + |more| <= |raw|
    ensures Overwrite(Overwrite(raw, at, first), at + |first|, more) == Overwrite(raw, at, first + more)
  {
  }

  /** The stretch of memory the track asks to be filled. */
  class TrackBuffer {
    const raw: array<byte>
    var size: nat

    constructor (raw: array<byte>)
      ensures this.raw == raw && size == raw.Length
    {
      this.raw := raw;
      size := raw.Length;
    }
  }

  class AudioTrack {
    var playing: bool

    constructor ()
      ensures !playing
    {
      playing := false;
    }
  }

  predicate AllInBounds(q: seq<BufferHeader>)
    reads q
  {
    forall h :: h in q ==> h.InBounds()
  }

  predicate Distinct(q: seq<BufferHeader>) {
    q == [] || (q[0] !in q[1..] && Distinct(q[1..]))
  }

  predicate AllReset(q: seq<BufferHeader>)
    reads q
  {
    forall h :: h in q ==> h.IsReset()
  }

  predicate Apart(p: seq<BufferHeader>, q: seq<BufferHeader>) {
    forall h :: h in p ==> h !in q
  }

  /** Headers have been taken from the front of a queue, and are empty and reset for the client. */
  predicate Taken(before: seq<BufferHeader>, after: seq<BufferHeader>)
    reads before
  {
    && |after| <= |before| && after == before[|before| - |after|..]
    && AllReset(before[..|before| - |after|])
  }

  lemma ResetMore(taken: seq<BufferHeader>, h: BufferHeader)
    requires AllReset(taken) && h.IsReset()
    ensures AllReset(taken + [h])
  {
  }

  lemma TakeFirst(taken: seq<BufferHeader>, q: seq<BufferHeader>)
    requires q != [] && Distinct(q) && Apart(taken, q)
    ensures taken + [q[0]] + q[1..] == taken + q && q[0] in taken + q
    ensures Apart(taken, q[1..]) && Apart(taken + [q[0]], q[1..])
  {
    assert q == [q[0]] + q[1..];
    assert (taken + q)[|taken|] == q[0];
  }

  lemma {:induction false} DistinctSnoc(q: seq<BufferHeader>, h: BufferHeader)
    requires Distinct(q) && h !in q
    ensures Distinct(q + [h])
  {
    if q == [] {
      assert [h][1..] == [];
    } else {
      assert (q + [h])[1..] == q[1..] + [h];
      DistinctSnoc(q[1..], h);
    }
  }

  function Views(q: seq<BufferHeader>): (r: seq<Buffer>)
    reads q
    requires AllInBounds(q)
    ensures |r| == |q|
  {
    if q == [] then [] else [q[0].View()] + Views(q[1..])
  }

  lemma ViewsCons(h: BufferHeader, q: seq<BufferHeader>)
    requires h.InBounds() && AllInBounds(q)
    ensures AllInBounds([h] + q) && Views([h] + q) == [h.View()] + Views(q)
  {
  }

  lemma DistinctCons(h: BufferHeader, q: seq<BufferHeader>)
    requires Distinct(q) && h !in q
    ensures Distinct([h] + q)
  {
  }

  lemma {:induction false} ViewsSnoc(q: seq<BufferHeader>, h: BufferHeader)
    requires AllInBounds(q) && h.InBounds()
    ensures Views(q + [h]) == Views(q) + [h.View()]
  {
    if q == [] {
      assert [h][1..] == [];
    } else {
      assert (q + [h])[1..] == q[1..] + [h];
      ViewsSnoc(q[1..], h);
    }
  }

  /** What is left in the queue, and what is emitted, by one turn of the callback's loop. */
  function TurnRest(q: seq<Buffer>, space: nat): seq<Buffer>
    requires q != []
  {
    if |q[0].payload| > space then [q[0].(payload := q[0].payload[space..])] + q[1..] else q[1..]
  }

  function TurnEvents(q: seq<Buffer>, space: nat): seq<Event>
    requires q != []
  {
    if |q[0].payload| > space then [Deliver(q[0].payload[..space])] else Played(q[0])
  }

  lemma LogOfTurn(log: seq<Event>, b: Buffer, space: nat)
    ensures |b.payload| <= space ==>
      b.payload[..|b.payload|] == b.payload && log + [Deliver(b.payload)] + Retire(b) == log + Played(b)
    ensures Retire(b.(payload := [])) == Retire(b)
  {
    Assoc(log, [Deliver(b.payload)], Retire(b));
  }

  /** A turn, then draining what is left, is draining. */
  lemma TurnIsDrain(q: seq<Buffer>, space: nat)
    requires q != [] && space > 0
    ensures var n := Min(|q[0].payload|, space);
      var p := Drain(TurnRest(q, space), space - n);
      Drain(q, space) == Pull(TurnEvents(q, space) + p.events, p.rest)
  {
  }

  lemma TurnBytes(q: seq<Buffer>, space: nat)
    requires q != []
    ensures var n := Min(|q[0].payload|, space);
      Bytes(q) == q[0].payload[..n] + Bytes(TurnRest(q, space))
  {
    if |q[0].payload| > space {
      SplitHead(q, space);
    } else {
      assert q[0].payload[..|q[0].payload|] == q[0].payload;
    }
  }

  /** The queue, the log and the track's memory while the callback fills it. */
  datatype Filling = Filling(queue: seq<Buffer>, log: seq<Event>, raw: seq<byte>, size: nat)

  ghost predicate Fits(f: Filling, space: nat) {
    f.size + space <= |f.raw|
  }

  /** Filling by `space` more bytes, or all there are. */
  ghost function Filled(f: Filling, space: nat): Filling
    requires Fits(f, space)
  {
    var n := Min(space, |Bytes(f.queue)|);
    var p := Drain(f.queue, space);
    Filling(p.rest, f.log + p.events, Overwrite(f.raw, f.size, Bytes(f.queue)[..n]), f.size + n)
  }

  ghost function Turned(f: Filling, space: nat): Filling
    requires Fits(f, space) && f.queue != []
  {
    var n := Min(|f.queue[0].payload|, space);
    Filling(TurnRest(f.queue, space), f.log + TurnEvents(f.queue, space),
            Overwrite(f.raw, f.size, f.queue[0].payload[..n]), f.size + n)
  }

  /** The bytes asked for are those of this turn and those of the turns that follow. */
  lemma TurnPrefix(q: seq<Buffer>, space: nat)
    requires q != []
    ensures var n := Min(|q[0].payload|, space);
      var rest := Bytes(TurnRest(q, space));
      var m := Min(space - n, |rest|);
      Min(space, |Bytes(q)|) == n + m && Bytes(q)[..n + m] == q[0].payload[..n] + rest[..m]
  {
    TurnBytes(q, space);
  }

  /** A turn does not change where filling will end. */
  lemma TurnFills(f: Filling, space: nat)
    requires Fits(f, space) && f.queue != [] && space > 0
    ensures Filled(Turned(f, space), space - Min(|f.queue[0].payload|, space)) == Filled(f, space)
  {
    var q := f.queue;
    var n := Min(|q[0].payload|, space);
    var rest := TurnRest(q, space);
    var m := Min(space - n, |Bytes(rest)|);
    TurnIsDrain(q, space);
    TurnPrefix(q, space);
    Assoc(f.log, TurnEvents(q, space), Drain(rest, space - n).events);
    OverwriteMore(f.raw, f.size, q[0].payload[..n], Bytes(rest)[..m]);
  }

  lemma FilledEnds(f: Filling, space: nat)
    requires Fits(f, space) && (f.queue == [] || space == 0)
    ensures Filled(f, space) == f
  {
  }

  /** Filling the track's memory from its start is the stream's step. */
  lemma FilledIsStep(s: AudioStream.Stream, raw: seq<byte>, asked: nat)
    requires asked <= |raw| && 0 <= s.counter < UINT32_RANGE
    ensures var f := Filled(Filling(s.queue, s.log, raw, 0), asked);
      && f.size == Min(asked, |Bytes(s.queue)|)
      && f.raw == Overwrite(raw, 0, Bytes(s.queue)[..f.size])
      && Step(s, MoreData(asked)) == AudioStream.Stream(f.queue, f.log, Wrap32(s.counter - f.size))
    ensures s.queue == [] ==> Step(s, MoreData(asked)) == s && Overwrite(raw, 0, []) == raw
  {
    DrainBytes(s.queue, asked);
    assert s.log + [] == s.log;
  }

  /** What the device and the platform report to one send. */
  datatype Timing = Timing(trackLatency: nat, outputLatency: nat, frameCount: nat)

  predicate Playable(f: AudioControl.Format) {
    f.sampleRate > 0 &&
    (Compressed(f) || (f.channels > 0 && f.bitsPerSample >= 8))
  }

  predicate Compressed(f: AudioControl.Format) {
    f.encoding.Ac3? || f.encoding.Eac3?
  }

  /** The rate at which compressed audio is played as 16-bit stereo samples. */
  function CarrierRate(f: AudioControl.Format): nat {
    if f.encoding.Eac3? && f.sampleRate <= 48000 then f.sampleRate * 4 else f.sampleRate
  }

  /** The latency of a byte sent now, in microseconds. */
  function Latency(f: AudioControl.Format, counter: nat, t: Timing): int
    requires Playable(f)
  {
    if Compressed(f) then
      t.outputLatency * 1000 + QueuedLatency(Wrap32(counter + t.frameCount), 2, 16 / 8, CarrierRate(f))
    else
      t.trackLatency * 1000 + QueuedLatency(counter, f.channels, f.bitsPerSample / 8, f.sampleRate)
  }

  /** The bytes that are ahead of one sent now, as 32 bits count them. */
  function Ahead(f: AudioControl.Format, counter: nat, t: Timing): nat {
    if Compressed(f) then Wrap32(counter + t.frameCount) else counter
  }

  /**
   * The latency is the device's own plus the exact play time of the bytes ahead, less than one
   * sample period and a microsecond too small. Compressed audio is played as four bytes a
   * sample, E-AC-3 up to 48 kHz at four times its rate; the track's frames are ahead of it too.
   */
  lemma LatencyIsPlayTime(f: AudioControl.Format, counter: nat, t: Timing)
    requires Playable(f)
    ensures f.encoding.Ac3? || f.encoding.Eac3? ==>
      var rate := if f.encoding.Eac3? && f.sampleRate <= 48000 then 4 * f.sampleRate else f.sampleRate;
      var queued, bytes := Latency(f, counter, t) - t.outputLatency * 1000, Wrap32(counter + t.frameCount);
      && 0 <= queued && queued * rate * 4 <= bytes * 1_000_000
      && bytes * 1_000_000 < queued * rate * 4 + 1_000_000 * 4 + rate * 4
    ensures f.encoding.PcmSigned? || f.encoding.Unknown? ==>
      var frame := f.channels * (f.bitsPerSample / 8);
      var queued, rate := Latency(f, counter, t) - t.trackLatency * 1000, f.sampleRate;
      && 0 <= queued && queued * rate * frame <= counter * 1_000_000
      && counter * 1_000_000 < queued * rate * frame + 1_000_000 * frame + rate * frame
  {
    if Compressed(f) {
      LatencyError(Ahead(f, counter, t), 2, 2, CarrierRate(f));
    } else {
      LatencyError(counter, f.channels, f.bitsPerSample / 8, f.sampleRate);
    }
  }

  /** E-AC-3 up to 48 kHz is played like AC-3 of four times its rate, and above like AC-3 of its own. */
  lemma EnhancedLikePlain(f: AudioControl.Format, counter: nat, t: Timing)
    requires Playable(f) && f.encoding.Eac3?
    ensures var plain := f.(encoding := AudioControl.Ac3);
      Latency(f, counter, t)
        == Latency(if f.sampleRate <= 48000 then plain.(sampleRate := 4 * f.sampleRate) else plain, counter, t)
  {
  }

  lemma AheadMonotone(f: AudioControl.Format, a: nat, b: nat, t: Timing)
    requires Playable(f) && Ahead(f, a, t) <= Ahead(f, b, t)
    ensures Latency(f, a, t) <= Latency(f, b, t)
  {
    if Compressed(f) {
      LatencyMonotone(Ahead(f, a, t), Ahead(f, b, t), 2, 2, CarrierRate(f));
    } else {
      LatencyMonotone(a, b, f.channels, f.bitsPerSample / 8, f.sampleRate);
    }
  }

  /** For compressed audio the bytes ahead wrap somewhere between the counter's values a and b. */
  predicate WrapsBetween(f: AudioControl.Format, a: nat, b: nat, t: Timing) {
    Compressed(f) && a + t.frameCount < UINT32_RANGE <= b + t.frameCount
  }

  /**
   * When more bytes are queued the bytes ahead are more, and the latency is no smaller, exactly
   * if they do not wrap on the way. If they do, the bytes ahead are fewer and the latency is no
   * larger, although nothing has been played.
   */
  lemma LatencyNeverFallsIff(f: AudioControl.Format, a: nat, b: nat, t: Timing)
    requires Playable(f) && a <= b < UINT32_RANGE && t.frameCount < UINT32_RANGE
    ensures Ahead(f, a, t) <= Ahead(f, b, t) <==> !WrapsBetween(f, a, b, t)
    ensures if WrapsBetween(f, a, b, t) then Latency(f, b, t) <= Latency(f, a, t)
            else Latency(f, a, t) <= Latency(f, b, t)
  {
    WrapTwice(a + t.frameCount);
    WrapTwice(b + t.frameCount);
    if WrapsBetween(f, a, b, t) {
      AheadMonotone(f, b, a, t);
    } else {
      AheadMonotone(f, a, b, t);
    }
  }

  lemma WrapTwice(x: nat)
    requires x < 2 * UINT32_RANGE
    ensures Wrap32(x) == if x < UINT32_RANGE then x else x - UINT32_RANGE
  {
  }

  /** It then does fall, for instance with one byte more. */
  lemma LatencyFallsAtWrap()
    ensures var f, t := AudioControl.Format(AudioControl.Ac3, 2, 16, 48000), Timing(0, 0, 1);
      && Playable(f) && WrapsBetween(f, UINT32_RANGE - 2, UINT32_RANGE - 1, t)
      && Latency(f, UINT32_RANGE - 1, t) < Latency(f, UINT32_RANGE - 2, t)
  {
  }

  class AudioRenderer {
    var queue: seq<BufferHeader>
    var bytesQueued: int
    var track: AudioTrack?
    var isEnabled: bool
    var state: AudioControl.TrackState
    var format: AudioControl.Format
    var portFormat: AudioControl.Format
    var mediaTime: int
    const supportsAc3: bool
    ghost var log: seq<Event>

    constructor (supportsAc3: bool, unset: AudioControl.Format, portFormat: AudioControl.Format)
      ensures Valid() && Stream() == EMPTY
      ensures Control() == AudioControl.Created(supportsAc3, unset, portFormat)
    {
      queue, bytesQueued, log := [], 0, [];
      track, isEnabled, state := null, false, AudioControl.Stopped;
      format, this.portFormat := unset, portFormat;
      mediaTime := 0;
      this.supportsAc3 := supportsAc3;
    }

    ghost predicate Valid()
      reads this, queue
    {
      && AllInBounds(queue)
      && Distinct(queue)
      && 0 <= bytesQueued < UINT32_RANGE
    }

    ghost function Stream(): AudioStream.Stream
      reads this, queue
      requires AllInBounds(queue)
    {
      AudioStream.Stream(Views(queue), log, bytesQueued)
    }

    ghost function Control(): AudioControl.Control
      reads this, track
    {
      AudioControl.Control(supportsAc3,
                           if track == null then AudioControl.NoTrack else AudioControl.Track(track.playing),
                           isEnabled, state, format, portFormat)
    }

    ghost function FillingOf(info: TrackBuffer): Filling
      reads this, queue, info, info.raw
      requires AllInBounds(queue)
    {
      Filling(Views(queue), log, info.raw[..], info.size)
    }

    /** Put the header just copied from back, or hand it to the client if it is empty. */
    method Settle(buffer: BufferHeader)
      requires AllInBounds(queue) && Distinct(queue) && buffer.InBounds() && buffer !in queue
      modifies this`queue, this`log, buffer`offset
      ensures AllInBounds(queue) && Distinct(queue)
      ensures old(buffer.length) != 0 ==>
        && queue == [buffer] + old(queue) && log == old(log)
        && Views(queue) == [old(buffer.View())] + old(Views(queue))
      ensures old(buffer.length) == 0 ==>
        && queue == old(queue) && log == old(log) + Retire(old(buffer.View()))
        && Views(queue) == old(Views(queue)) && buffer.IsReset()
    {
      if buffer.length != 0 {
        ViewsCons(buffer, queue);
        DistinctCons(buffer, queue);
        queue := [buffer] + queue;
      } else {
        log := log + if buffer.eos then [EndOfStream, Return(buffer.id)] else [Return(buffer.id)];
        buffer.offset := 0;
      }
    }

    /**
     * One turn of the callback's loop: take the first header, copy what fits, and put the
     * header back or hand it to the client.
     */
    method TakeTurn(info: TrackBuffer, space: nat) returns (bytes: nat)
      requires AllInBounds(queue) && Distinct(queue)
      requires queue != [] && info.size + space <= info.raw.Length
      modifies this`queue, this`log, queue[0], info`size, info.raw
      ensures AllInBounds(queue) && Distinct(queue)
      ensures if queue == old(queue) then bytes == space else queue == old(queue)[1..] && old(queue)[0].IsReset()
      ensures bytes == Min(|old(Views(queue))[0].payload|, space)
      ensures FillingOf(info) == Turned(old(FillingOf(info)), space)
    {
      ghost var log0, q := log, Views(queue);
      ghost var b := q[0];
      LogOfTurn(log0, b, space);
      var buffer, others := queue[0], queue[1..];
      queue := others;
      bytes := buffer.CopyOut(info, space);
      log := log + [Deliver(b.payload[..bytes])];
      Settle(buffer);
      assert Views(queue) == TurnRest(q, space);
      assert log == log0 + TurnEvents(q, space);
    }

    /** The same, after the headers `taken` have been handed back. */
    method TakeTurnAfter(info: TrackBuffer, space: nat, ghost taken: seq<BufferHeader>)
        returns (bytes: nat, ghost nowTaken: seq<BufferHeader>)
      requires AllInBounds(queue) && Distinct(queue) && AllReset(taken) && Apart(taken, queue)
      requires queue != [] && info.size + space <= info.raw.Length
      modifies this`queue, this`log, queue[0], info`size, info.raw
      ensures AllInBounds(queue) && Distinct(queue) && AllReset(nowTaken) && Apart(nowTaken, queue)
      ensures nowTaken + queue == taken + old(queue)
      ensures |queue| < |old(queue)| || (|queue| == |old(queue)| && bytes == space)
      ensures bytes == Min(|old(Views(queue))[0].payload|, space)
      ensures FillingOf(info) == Turned(old(FillingOf(info)), space)
    {
      ghost var first, before := queue[0], queue;
      TakeFirst(taken, queue);
      bytes := TakeTurn(info, space);
      assert AllReset(taken);
      nowTaken := taken;
      if queue != before {
        ResetMore(taken, first);
        nowTaken := taken + [first];
      }
    }

    /** The callback's loop. */
    method Fill(info: TrackBuffer, asked: nat)
      requires AllInBounds(queue) && Distinct(queue)
      requires info.size == 0 && asked <= info.raw.Length
      modifies this`queue, this`log, queue, info`size, info.raw
      ensures AllInBounds(queue) && Distinct(queue)
      ensures FillingOf(info) == Filled(old(FillingOf(info)), asked)
      ensures Taken(old(queue), queue)
    {
      var space := asked;
      ghost var taken := [];
      while space > 0
        invariant info.size + space == asked
        invariant AllInBounds(queue) && Distinct(queue)
        invariant taken + queue == old(queue) && AllReset(taken) && Apart(taken, queue)
        invariant Filled(FillingOf(info), space) == old(Filled(FillingOf(info), asked))
        decreases |queue| + space
      {
        if |queue| == 0 {
          break;
        }
        assert old(queue)[|taken|] == queue[0];
        TurnFills(FillingOf(info), space);
        var bytes;
        bytes, taken := TakeTurnAfter(info, space, taken);
        space := space - bytes;
      }
      FilledEnds(FillingOf(info), space);
      assert old(queue)[..|taken|] == taken;
    }

    /** The track asks for data. */
    method Serve(info: TrackBuffer)
      requires Valid() && info.size <= info.raw.Length
      modifies this`queue, this`bytesQueued, this`log, queue, info`size, info.raw
      ensures Valid() && Taken(old(queue), queue)
      ensures Stream() == Step(old(Stream()), MoreData(old(info.size)))
      ensures info.size == Min(old(info.size), |Bytes(old(Views(queue)))|)
      ensures info.raw[..] == Overwrite(old(info.raw[..]), 0, Bytes(old(Views(queue)))[..info.size])
    {
      ghost var stream, raw := Stream(), info.raw[..];
      var space := info.size;
      FilledIsStep(stream, raw, space);
      info.size := 0;
      if |queue| == 0 {
        return;
      }
      assert FillingOf(info) == Filling(stream.queue, stream.log, raw, 0);
      Fill(info, space);
      bytesQueued := Wrap32(bytesQueued - info.size);
    }

    /** The track's callback. Headers handed back are empty and reset. */
    method TrackCallback(event: nat, info: TrackBuffer)
      requires Valid() && info.size <= info.raw.Length
      modifies this`queue, this`bytesQueued, this`log, queue, info`size, info.raw
      ensures Valid() && Taken(old(queue), queue)
      ensures event != MORE_DATA ==>
        Stream() == old(Stream()) && info.size == old(info.size) && info.raw[..] == old(info.raw[..])
      ensures event == MORE_DATA ==> Stream() == Step(old(Stream()), MoreData(old(info.size)))
      ensures event == MORE_DATA ==> info.size == Min(old(info.size), |Bytes(old(Views(queue)))|)
      ensures event == MORE_DATA ==>
        info.raw[..] == Overwrite(old(info.raw[..]), 0, Bytes(old(Views(queue)))[..info.size])
    {
      if event != MORE_DATA {
        return;
      }
      Serve(info);
    }

    /** Drop the track. */
    method TrackDestroy()
      modifies this`track, track
      ensures Control() == old(Control()).(track := AudioControl.NoTrack)
    {
      if track != null {
        track.playing := false;
        track := null;
      }
    }

    method TrackCreate(p: AudioControl.Platform) returns (status: AudioControl.Status)
      modifies this`track, track
      ensures (Control(), status) == AudioControl.TrackCreate(old(Control()), p)
      ensures track == null || fresh(track)
    {
      TrackDestroy();
      if !p.trackCreated {
        return AudioControl.Enosys;
      }
      track := new AudioTrack();
      return AudioControl.Success;
    }

    method StateUpdate(scale: AudioControl.Rational)
      modifies this`state, track
      ensures track == old(track)
      ensures Control() == AudioControl.StateUpdate(old(Control()), scale)
    {
      if track == null {
        return;
      }
      var newState := AudioControl.Stopped;
      if isEnabled {
        newState := AudioControl.Paused;
        if scale.den != 0 && scale.den == scale.num {
          newState := AudioControl.Running;
        }
      }
      if newState == state {
        return;
      }
      if state == AudioControl.Stopped && newState == AudioControl.Running {
        track.playing := true;
      } else if state == AudioControl.Running {
        track.playing := false;   // stop, or pause
      } else if state == AudioControl.Paused {
        if newState == AudioControl.Stopped {
          track.playing := false;
        } else if newState == AudioControl.Running {
          track.playing := true;
        }
      }
      state := newState;
    }

    /** The client has set portFormat and commits it. */
    method SetFormat(p: AudioControl.Platform) returns (status: AudioControl.Status)
      modifies this`track, this`format, track
      ensures (Control(), status) == AudioControl.SetFormat(old(Control()), p)
      ensures track == old(track) || track == null || fresh(track)
    {
      if portFormat == format {
        return AudioControl.Success;
      }
      if !AudioControl.SupportedEncoding(supportsAc3, portFormat.encoding) {
        return AudioControl.Einval;
      }
      if portFormat.encoding.PcmSigned? {
        if portFormat.bitsPerSample != 16 && portFormat.bitsPerSample != 32 {
          return AudioControl.Einval;
        }
        if !p.channelMask {
          return AudioControl.Enosys;
        }
      }
      format := portFormat;
      status := TrackCreate(p);
    }

    method Enable(scale: AudioControl.Rational, p: AudioControl.Platform) returns (status: AudioControl.Status)
      modifies this`track, this`format, this`state, this`isEnabled, track
      ensures (Control(), status) == AudioControl.Enable(old(Control()), scale, p)
    {
      status := AudioControl.Success;
      if track == null {
        status := SetFormat(p);
      }
      if status != AudioControl.Success {
        return;
      }
      isEnabled := true;
      StateUpdate(scale);
    }

    /** Hand back everything queued. */
    method ReturnAll()
      requires AllInBounds(queue) && Distinct(queue)
      modifies this`queue, this`log
      ensures queue == [] && log == old(log) + FlushEvents(old(Views(queue)))
    {
      ghost var log0, q0 := log, Views(queue);
      while |queue| > 0
        invariant AllInBounds(queue) && Distinct(queue)
        invariant log + FlushEvents(Views(queue)) == log0 + FlushEvents(q0)
      {
        ghost var log1, q := log, Views(queue);
        var buffer := queue[0];
        queue := queue[1..];
        log := log + [Return(buffer.id)];
        Assoc(log1, [Return(buffer.id)], FlushEvents(Views(queue)));
      }
      assert log + [] == log;
    }

    /** Hand back everything queued and silence the track. */
    method Flush(scale: AudioControl.Rational)
      requires Valid()
      modifies this`queue, this`bytesQueued, this`log, this`state, track
      ensures Valid() && track == old(track) && queue == [] && bytesQueued == 0
      ensures Stream() == Step(old(Stream()), AudioStream.Flush)
      ensures Control() == AudioControl.Flush(old(Control()), scale)
    {
      ReturnAll();
      bytesQueued := 0;
      if track == null {
        return;
      }
      track.playing := false;
      state := AudioControl.Stopped;
      StateUpdate(scale);
    }

    /** Stop the track, then flush. */
    method Disable(scale: AudioControl.Rational)
      requires Valid()
      modifies this`queue, this`bytesQueued, this`log, this`state, this`isEnabled, track
      ensures Valid() && queue == [] && bytesQueued == 0
      ensures Stream() == Step(old(Stream()), AudioStream.Flush)
      ensures Control() == AudioControl.Disable(old(Control()), scale)
      ensures track != null ==> !track.playing && state == AudioControl.Stopped
    {
      isEnabled := false;
      StateUpdate(scale);
      Flush(scale);
    }

    method ClockEvent(scaleChanged: bool, scale: AudioControl.Rational)
      modifies this`state, track
      ensures Control() == if scaleChanged then AudioControl.StateUpdate(old(Control()), scale) else old(Control())
    {
      if scaleChanged {
        StateUpdate(scale);
      }
    }

    method ComputeLatency(t: Timing) returns (latency: int)
      requires Playable(portFormat) && 0 <= bytesQueued < UINT32_RANGE
      ensures latency == Latency(portFormat, bytesQueued, t)
    {
      var bits, channels, rate := portFormat.bitsPerSample, portFormat.channels, portFormat.sampleRate;
      var extra := 0;
      if portFormat.encoding.Ac3? || portFormat.encoding.Eac3? {
        latency := t.outputLatency * 1000;
        bits, channels := 16, 2;
        if portFormat.encoding.Eac3? && rate <= 48000 {
          rate := rate * 4;
        }
        extra := t.frameCount;
      } else {
        latency := t.trackLatency * 1000;
      }
      latency := latency + QueuedLatency(Wrap32(bytesQueued + extra), channels, bits / 8, rate);
    }

    method Put(buffer: BufferHeader)
      requires AllInBounds(queue) && Distinct(queue) && buffer.InBounds() && buffer !in queue
      modifies this`queue
      ensures AllInBounds(queue) && Distinct(queue) && Views(queue) == old(Views(queue)) + [buffer.View()]
    {
      ViewsSnoc(queue, buffer);
      DistinctSnoc(queue, buffer);
      queue := queue + [buffer];
    }

    /**
     * The client sends a header with its time stamp. `faulted` tells that the program uses the
     * track although there is none, which it does before it changes anything.
     */
    method Send(buffer: BufferHeader, pts: int, t: Timing) returns (faulted: bool)
      requires Valid() && buffer.InBounds() && buffer !in queue
      requires buffer.command == 0 && track != null ==> Playable(portFormat)
      modifies this`queue, this`bytesQueued, this`log, this`mediaTime, buffer`length
      ensures Valid() && Control() == old(Control())
      ensures faulted <==> old(buffer.command) == 0 && track == null
      ensures old(buffer.command) != 0 ==>
        && Stream() == Step(old(Stream()), SendEvent(buffer.id))
        && buffer.length == 0 && mediaTime == old(mediaTime)
      ensures old(buffer.command) == 0 && track != null ==>
        && Stream() == Step(old(Stream()), AudioStream.Send(old(buffer.View())))
        && mediaTime == pts - Latency(portFormat, bytesQueued, t)
      ensures faulted ==>
        Stream() == old(Stream()) && mediaTime == old(mediaTime) && buffer.length == old(buffer.length)
    {
      if buffer.command != 0 {
        buffer.length := 0;
        log := log + [Discard(buffer.id)];
        return false;
      }
      if track == null {
        return true;
      }
      bytesQueued := Wrap32(bytesQueued + buffer.length);
      var latency := ComputeLatency(t);
      mediaTime := pts - latency;
      Put(buffer);
      faulted := false;
    }
  }
}
