// Reassembling a still image from the chunks the encoder delivers: the bitmap header is
// stripped when plain RGB is wanted, and the caller's memory is never overrun.

module StillCapture {
  import opened Common

  const HEADER_SIZE: nat := 54

  /** The user data of a capture. `overflow` stands for the board pointer having been cleared. */
  datatype Transfer = Transfer(data: seq<byte>, position: nat, offset: nat, overflow: bool)

  /** What one byte of the stream does. */
  function FeedByte(t: Transfer, rgb: bool, length: nat, b: byte): (r: Transfer)
    requires length <= |t.data|
    ensures |r.data| == |t.data|
  {
    if t.overflow then t
    else if t.offset >= length then t.(overflow := true)
    else if rgb && t.position < HEADER_SIZE then t.(position := t.position + 1)
    else Transfer(t.data[t.offset := b], t.position + 1, t.offset + 1, false)
  }

  function Feed(t: Transfer, rgb: bool, length: nat, stream: seq<byte>): (r: Transfer)
    requires length <= |t.data|
    ensures |r.data| == |t.data|
  {
    if stream == [] then t
    else FeedByte(Feed(t, rgb, length, stream[..|stream| - 1]), rgb, length, stream[|stream| - 1])
  }

  lemma {:induction false} FeedAppend(t: Transfer, rgb: bool, length: nat, a: seq<byte>, b: seq<byte>)
    requires length <= |t.data|
    ensures Feed(t, rgb, length, a + b) == Feed(Feed(t, rgb, length, a), rgb, length, b)
  {
    if b == [] {
      assert a + b == a;
    } else {
      FeedAppend(t, rgb, length, a, b[..|b| - 1]);
      assert (a + b)[..|a + b| - 1] == a + b[..|b| - 1];
    }
  }

  // ------------------------------------------------------------------------------------
  // The result in closed form

  function Begin(data: seq<byte>, start: nat): Transfer {
    Transfer(data, 0, start, false)
  }

  function Stripped(rgb: bool, stream: seq<byte>): seq<byte> {
    if !rgb then stream
    else if |stream| <= HEADER_SIZE then []
    else stream[HEADER_SIZE..]
  }

  function Room(start: nat, length: nat): nat {
    if start < length then length - start else 0
  }

  predicate Overflows(rgb: bool, start: nat, length: nat, stream: seq<byte>) {
    if Room(start, length) > 0 then |Stripped(rgb, stream)| > Room(start, length) else stream != []
  }

  /** How many bytes of the stripped stream are stored. */
  function Stored(rgb: bool, start: nat, length: nat, stream: seq<byte>): nat {
    if |Stripped(rgb, stream)| < Room(start, length) then |Stripped(rgb, stream)| else Room(start, length)
  }

  ghost predicate Copied(data: seq<byte>, rgb: bool, start: nat, length: nat, stream: seq<byte>, t: Transfer) {
    var k := Stored(rgb, start, length, stream);
    && |t.data| == |data|
    && (t.overflow <==> Overflows(rgb, start, length, stream))
    && t.offset == start + k
    && (!t.overflow ==> t.position == |stream|)
    && (forall i :: 0 <= i < |data| ==>
          t.data[i] == if start <= i < start + k then Stripped(rgb, stream)[i - start] else data[i])
  }

  lemma {:induction false} FeedCopies(data: seq<byte>, rgb: bool, start: nat, length: nat, stream: seq<byte>)
    requires length <= |data|
    ensures Copied(data, rgb, start, length, stream, Feed(Begin(data, start), rgb, length, stream))
  {
    if stream == [] {
    } else {
      FeedCopies(data, rgb, start, length, stream[..|stream| - 1]);
    }
  }

  /** The transfer after a sequence of chunks. */
  function FeedChunks(t: Transfer, rgb: bool, length: nat, chunks: seq<seq<byte>>): (r: Transfer)
    requires length <= |t.data|
    ensures |r.data| == |t.data|
  {
    if chunks == [] then t
    else Feed(FeedChunks(t, rgb, length, chunks[..|chunks| - 1]), rgb, length, chunks[|chunks| - 1])
  }

  function Joined(chunks: seq<seq<byte>>): seq<byte> {
    if chunks == [] then [] else Joined(chunks[..|chunks| - 1]) + chunks[|chunks| - 1]
  }

  lemma {:induction false} ChunksAreStream(t: Transfer, rgb: bool, length: nat, chunks: seq<seq<byte>>)
    requires length <= |t.data|
    ensures FeedChunks(t, rgb, length, chunks) == Feed(t, rgb, length, Joined(chunks))
  {
    if chunks == [] {
    } else {
      ChunksAreStream(t, rgb, length, chunks[..|chunks| - 1]);
      FeedAppend(t, rgb, length, Joined(chunks[..|chunks| - 1]), chunks[|chunks| - 1]);
    }
  }

  /**
   * However the stream is cut into chunks: the caller's memory holds the stripped stream, cut
   * to the room there is, from the starting offset on, and is otherwise untouched; and the
   * overflow mark is set exactly when the stripped stream is longer than the room (with no
   * room at all, when any byte arrives).
   */
  lemma AnyChunking(data: seq<byte>, rgb: bool, start: nat, length: nat, chunks: seq<seq<byte>>)
    requires length <= |data|
    ensures Copied(data, rgb, start, length, Joined(chunks), FeedChunks(Begin(data, start), rgb, length, chunks))
  {
    ChunksAreStream(Begin(data, start), rgb, length, chunks);
    FeedCopies(data, rgb, start, length, Joined(chunks));
  }

  /**
   * An image of 54 bytes of header and its pixels, however cut: RGB leaves the pixels alone in
   * the caller's memory, from the starting offset on and as far as there is room, and any other
   * format the whole image.
   */
  lemma BitmapArrives(data: seq<byte>, rgb: bool, start: nat, length: nat, header: seq<byte>, pixels: seq<byte>,
                      chunks: seq<seq<byte>>)
    requires length <= |data| && |header| == 54 && Joined(chunks) == header + pixels
    ensures var image := if rgb then pixels else header + pixels;
      var t := FeedChunks(Begin(data, start), rgb, length, chunks);
      && |t.data| == |data|
      && (forall i :: 0 <= i < |data| ==>
            t.data[i] == if start <= i < length && i - start < |image| then image[i - start] else data[i])
      && (start < length ==> (t.overflow <==> |image| > length - start))
  {
    AnyChunking(data, rgb, start, length, chunks);
    assert (header + pixels)[54..] == pixels;
  }

  /** The buffer size advertised to callers. */
  function ImageBufferSize(width: nat, height: nat): nat {
    width * height * 3 + 54
  }

  /** A caller that gives as much memory receives the whole bitmap of three bytes a pixel, or its pixels. */
  lemma AdvertisedSizeSuffices(data: seq<byte>, rgb: bool, width: nat, height: nat,
                               header: seq<byte>, pixels: seq<byte>, chunks: seq<seq<byte>>)
    requires |data| == ImageBufferSize(width, height) && |header| == 54 && |pixels| == 3 * (width * height)
    requires Joined(chunks) == header + pixels
    ensures var image, t := if rgb then pixels else header + pixels, FeedChunks(Begin(data, 0), rgb, |data|, chunks);
      !t.overflow && |image| <= |t.data| && t.data[..|image|] == image
  {
    BitmapFits(data, rgb, header, pixels, chunks);
  }

  lemma BitmapFits(data: seq<byte>, rgb: bool, header: seq<byte>, pixels: seq<byte>, chunks: seq<seq<byte>>)
    requires |data| == |pixels| + 54 && |header| == 54 && Joined(chunks) == header + pixels
    ensures var image, t := if rgb then pixels else header + pixels, FeedChunks(Begin(data, 0), rgb, |data|, chunks);
      !t.overflow && |image| <= |t.data| && t.data[..|image|] == image
  {
    BitmapArrives(data, rgb, 0, |data|, header, pixels, chunks);
  }

  // ------------------------------------------------------------------------------------
  // Telling the caller that the image is complete

  /**
   * The last chunk carries the end flag. Its callback reports completion only if the board
   * pointer is still set when it begins.
   */
  predicate Reported(data: seq<byte>, rgb: bool, start: nat, length: nat, chunks: seq<seq<byte>>)
    requires length <= |data| && chunks != []
  {
    !FeedChunks(Begin(data, start), rgb, length, chunks[..|chunks| - 1]).overflow
  }

  /** Completion is reported exactly when the chunks before the last one fit. */
  lemma ReportedIff(data: seq<byte>, rgb: bool, start: nat, length: nat, chunks: seq<seq<byte>>)
    requires length <= |data| && chunks != []
    ensures Reported(data, rgb, start, length, chunks)
       <==> !Overflows(rgb, start, length, Joined(chunks[..|chunks| - 1]))
  {
    AnyChunking(data, rgb, start, length, chunks[..|chunks| - 1]);
  }

  /** So, unlike the bytes, the report does depend on the chunking. */
  lemma ReportDependsOnChunking()
    ensures var whole, cut := [[1, 2, 3]], [[1, 2], [3]];
      && Joined(whole) == Joined(cut)
      && Reported([0], false, 0, 1, whole) && !Reported([0], false, 0, 1, cut)
  {
  }

  // ------------------------------------------------------------------------------------

  class UserData {
    const data: array<byte>
    const startingOffset: nat
    const length: nat
    const rgb: bool           // the board's encoding during the capture
    var bufferPosition: nat
    var offset: nat
    var boardSet: bool        // cameraBoard != NULL
    var reports: nat          // how often the caller has been told that the image is complete

    constructor (data: array<byte>, offset: nat, length: nat, rgb: bool)
      requires length <= data.Length
      ensures this.data == data && this.length == length && this.rgb == rgb && reports == 0
      ensures startingOffset == offset && View() == Begin(data[..], offset)
    {
      this.data, startingOffset, this.length, this.rgb := data, offset, length, rgb;
      bufferPosition, this.offset, boardSet, reports := 0, offset, true, 0;
    }

    ghost function View(): Transfer
      reads this, data
    {
      Transfer(data[..], bufferPosition, offset, !boardSet)
    }

    /** The encoder delivers a chunk; `end` tells whether it ends the frame or failed. */
    method BufferCallback(chunk: seq<byte>, end: bool)
      requires length <= data.Length
      modifies this`bufferPosition, this`offset, this`boardSet, this`reports, data
      ensures View() == Feed(old(View()), rgb, length, chunk)
      ensures reports == old(reports) + if end && old(boardSet) then 1 else 0
    {
      if !boardSet {
        IgnoredWhenOverflown(View(), rgb, length, chunk);
        return;
      }
      var i := 0;
      while i < |chunk|
        invariant 0 <= i <= |chunk| && boardSet
        invariant View() == Feed(old(View()), rgb, length, chunk[..i])
        invariant reports == old(reports)
      {
        FeedNext(old(View()), rgb, length, chunk, i);
        if offset >= length {
          boardSet := false;
          OverflowEnds(old(View()), rgb, length, chunk, i + 1);
          break;
        } else if rgb {
          if bufferPosition >= HEADER_SIZE {
            data[offset] := chunk[i];
            offset := offset + 1;
          }
        } else {
          data[offset] := chunk[i];
          offset := offset + 1;
        }
        i := i + 1;
        bufferPosition := bufferPosition + 1;
      }
      assert boardSet ==> chunk[..i] == chunk;
      if end {
        reports := reports + 1;
      }
    }
  }

  lemma FeedNext(t: Transfer, rgb: bool, length: nat, chunk: seq<byte>, i: nat)
    requires length <= |t.data| && i < |chunk|
    ensures Feed(t, rgb, length, chunk[..i + 1]) == FeedByte(Feed(t, rgb, length, chunk[..i]), rgb, length, chunk[i])
  {
    assert chunk[..i + 1][..i] == chunk[..i];
  }

  lemma {:induction false} IgnoredWhenOverflown(t: Transfer, rgb: bool, length: nat, chunk: seq<byte>)
    requires length <= |t.data| && t.overflow
    ensures Feed(t, rgb, length, chunk) == t
  {
    if chunk == [] {
    } else {
      IgnoredWhenOverflown(t, rgb, length, chunk[..|chunk| - 1]);
    }
  }

  lemma OverflowEnds(t: Transfer, rgb: bool, length: nat, chunk: seq<byte>, i: nat)
    requires length <= |t.data| && i <= |chunk| && Feed(t, rgb, length, chunk[..i]).overflow
    ensures Feed(t, rgb, length, chunk) == Feed(t, rgb, length, chunk[..i])
  {
    FeedAppend(t, rgb, length, chunk[..i], chunk[i..]);
    assert chunk == chunk[..i] + chunk[i..];
    IgnoredWhenOverflown(Feed(t, rgb, length, chunk[..i]), rgb, length, chunk[i..]);
  }
}
