// The video camera's callback and capture start as the program has them, changing the
// hand-over's flags, the frame buffer and the header queues in place.

module VideoCapture {
  import opened Common
  import G = FrameGrab
  import H = HeaderPool

  class Capture {
    var wantToGrab: bool
    var ready: bool
    var buffData: array<byte>
    var pool: seq<nat>
    var port: seq<nat>
    var isEnabled: bool
    var isCapturing: bool

    ghost function Headers(phase: H.Phase): H.State
      reads this
    {
      H.State(pool, port, phase, H.NotStarting, isEnabled, isCapturing)
    }

    constructor (headers: seq<nat>)
      ensures !wantToGrab && !ready && buffData.Length == 0 && fresh(buffData)
      ensures Headers(H.Outside) == H.Initial(headers)
    {
      wantToGrab, ready := false, false;
      buffData := new byte[0];
      pool, port := headers, [];
      isEnabled, isCapturing := true, false;
    }

    /** waitForFrame, called by client c, up to the point where the client blocks. */
    method BeginWait(ghost s: G.State<byte>, ghost c: nat)
      requires G.Enabled(s, G.Request(c))
      requires s.wantToGrab == wantToGrab && s.ready == ready && s.buffer.data == buffData[..]
      modifies this`wantToGrab, this`ready
      ensures var t := G.Next(s, G.Request(c));
        t.wantToGrab == wantToGrab && t.ready == ready && t.buffer.data == buffData[..]
      ensures wantToGrab && !ready && buffData[..] == old(buffData[..])
    {
      wantToGrab := true;
      ready := false;
    }

    /** The buffer's size follows the frame's. */
    method Resize(size: nat)
      modifies this`buffData
      ensures buffData.Length == size
      ensures buffData == old(buffData) || fresh(buffData)
    {
      if size != buffData.Length {
        buffData := new byte[size];
      }
    }

    method StartCapture()
      requires isEnabled
      modifies this`pool, this`port, this`isCapturing
      ensures pool == [] && port == old(port) + old(pool) && isCapturing
      ensures H.Reaches(old(Headers(H.Outside)), [H.Begin] + H.Sends(|old(pool)|), Headers(H.Outside))
    {
      H.SendsMoveAll(H.Next(Headers(H.Outside), H.Begin));
      var num := |pool|;
      for q := 0 to num
        invariant |pool| == num - q
        invariant pool == old(pool)[q..] && port == old(port) + old(pool)[..q]
        invariant isEnabled && isCapturing == old(isCapturing)
      {
        var buffer := pool[0];
        pool := pool[1..];
        port := port + [buffer];
      }
      isCapturing := true;
    }

    /**
     * The whole callback, which runs under the mutex. The camera has taken `header`, filled
     * with `data`, from the port. `notified` tells whether all waiting clients are woken.
     */
    method VideoBufferCallback(header: nat, data: seq<byte>, ghost s: G.State<byte>) returns (notified: bool)
      requires s.wantToGrab == wantToGrab && s.ready == ready && s.buffer.data == buffData[..]
      modifies this`wantToGrab, this`ready, this`buffData, this`pool, this`port, buffData
      ensures var t := G.Next(s, G.Callback(data));
        && t.wantToGrab == wantToGrab && t.ready == ready && t.buffer.data == buffData[..]
        && t.clients == if notified then G.NotifyAll(s.clients) else s.clients
      ensures notified <==> old(wantToGrab) && data != []
      ensures if notified then buffData[..] == data && !wantToGrab && ready
              else buffData[..] == old(buffData[..]) && wantToGrab == old(wantToGrab) && ready == old(ready)
      ensures var released := old(pool) + [header];
        if isEnabled then port == old(port) + [released[0]] && pool == released[1..]
        else port == old(port) && pool == released
      ensures Headers(H.Outside)
           == H.Next(H.Next(old(Headers(H.Entered(header))), H.Release), H.Resend)
    {
      notified := false;
      if wantToGrab && |data| > 0 {
        Resize(|data|);
        forall i | 0 <= i < |data| {
          buffData[i] := data[i];
        }
        wantToGrab := false;
        notified := true;
      }
      pool := pool + [header];
      if isEnabled {
        var newBuffer := pool[0];
        pool := pool[1..];
        port := port + [newBuffer];
      }
      if notified {
        ready := true;
      }
    }
  }

  // ------------------------------------------------------------------------------------
  // Swapping the first and third byte of every pixel

  function Swapped(s: seq<byte>): (r: seq<byte>)
    requires |s| % 3 == 0
    ensures |r| == |s|
  {
    if s == [] then [] else [s[2], s[1], s[0]] + Swapped(s[3..])
  }

  lemma {:induction false} SwappedAt(s: seq<byte>, p: nat)
    requires |s| % 3 == 0 && 3 * p + 2 < |s|
    ensures Swapped(s)[3 * p] == s[3 * p + 2]
    ensures Swapped(s)[3 * p + 1] == s[3 * p + 1]
    ensures Swapped(s)[3 * p + 2] == s[3 * p]
  {
    if p > 0 {
      SwappedAt(s[3..], p - 1);
    }
  }

  lemma {:induction false} SwappedTwice(s: seq<byte>)
    requires |s| % 3 == 0
    ensures Swapped(Swapped(s)) == s
  {
    if s == [] {
    } else {
      SwappedTwice(s[3..]);
      assert Swapped(s)[3..] == Swapped(s[3..]);
    }
  }

  /** The bytes of all pixels that begin among the first `size` bytes. */
  function WholePixels(size: nat): (m: nat)
    ensures m % 3 == 0 && size <= m < size + 3
  {
    (size + 2) / 3 * 3
  }

  /** Pixels that begin before `size` are swapped whole, even if they end behind it. */
  method ConvertBGR2RGB(inBgr: array<byte>, outRgb: array<byte>, size: nat)
    requires WholePixels(size) <= inBgr.Length && size <= outRgb.Length && inBgr != outRgb
    modifies inBgr, outRgb
    ensures inBgr[..WholePixels(size)] == Swapped(old(inBgr[..WholePixels(size)]))
    ensures inBgr[WholePixels(size)..] == old(inBgr[WholePixels(size)..])
    ensures outRgb[..size] == inBgr[..size] && outRgb[size..] == old(outRgb[size..])
  {
    ghost var m := WholePixels(size);
    ghost var s, outside := inBgr[..m], outRgb[size..];
    var p := 0;
    while 3 * p < size
      invariant 3 * p <= m
      invariant inBgr[..3 * p] == Swapped(s)[..3 * p]
      invariant forall i :: 3 * p <= i < inBgr.Length ==> inBgr[i] == old(inBgr[i])
      invariant outRgb[size..] == outside
    {
      SwappedAt(s, p);
      inBgr[3 * p], inBgr[3 * p + 2] := inBgr[3 * p + 2], inBgr[3 * p];
      assert inBgr[..3 * p + 3] == inBgr[..3 * p] + [inBgr[3 * p], inBgr[3 * p + 1], inBgr[3 * p + 2]];
      assert Swapped(s)[..3 * p + 3]
          == Swapped(s)[..3 * p] + [Swapped(s)[3 * p], Swapped(s)[3 * p + 1], Swapped(s)[3 * p + 2]];
      p := p + 1;
    }
    forall i | 0 <= i < size {
      outRgb[i] := inBgr[i];
    }
    assert outRgb[size..] == outside;
    assert outRgb[..size] == inBgr[..size];
  }
}
