/**
 * Fragmentation of an oversized ACK frame of the Stream Processing Offload
 * Protocol (HAProxy SPOE, section 3.2 "Frames"): the payload is cut into
 * pieces that fit the negotiated maximum frame size; the first piece travels
 * in an ACK frame with this frame's metadata and the rest in UNSET frames,
 * and only the last piece has FIN set.
 *
 * The frame's encoded length and its metadata's encoded length come from
 * encoders that are not part of this model and are inputs here.
 */
module SpoeFrames {
  import opened Wrappers
  import opened Bytes

  /** Four bytes of frame length and one of frame type precede the metadata. */
  const FrameHeaderLength := 5

  datatype FrameKind = Ack | Unset

  datatype Metadata = Metadata(fin: bool, abort: bool, streamId: int, frameId: int)

  datatype Frame = Frame(kind: FrameKind, metadata: Metadata, payload: seq<byte>)

  datatype FragmentError = Diverges

  /**
   * The payload pieces: `capacity` bytes at a time, at least one piece, the
   * last holding whatever remains.
   */
  function Chunks(payload: seq<byte>, capacity: nat): (r: seq<seq<byte>>)
    requires capacity > 0
    decreases |payload|
  {
    if |payload| <= capacity then [payload]
    else [payload[..capacity]] + Chunks(payload[capacity..], capacity)
  }

  function Flatten(chunks: seq<seq<byte>>): seq<byte> {
    if |chunks| == 0 then [] else chunks[0] + Flatten(chunks[1..])
  }

  lemma FlattenCons(c: seq<byte>, rest: seq<seq<byte>>)
    ensures Flatten([c] + rest) == c + Flatten(rest)
  {
    assert ([c] + rest)[1..] == rest;
  }

  /** Together the pieces are the payload. */
  lemma {:induction false} ChunksFlatten(payload: seq<byte>, capacity: nat)
    requires capacity > 0
    ensures Flatten(Chunks(payload, capacity)) == payload
    decreases |payload|
  {
    if |payload| <= capacity {
      FlattenCons(payload, []);
      assert payload + [] == payload;
    } else {
      ChunksFlatten(payload[capacity..], capacity);
      FlattenCons(payload[..capacity], Chunks(payload[capacity..], capacity));
      assert payload == payload[..capacity] + payload[capacity..];
    }
  }

  /**
   * Each piece fits; only a payload that fits whole makes a single piece,
   * and otherwise no piece is empty.
   */
  lemma {:induction false} ChunksFit(payload: seq<byte>, capacity: nat)
    requires capacity > 0
    ensures var cs := Chunks(payload, capacity);
            && |cs| >= 1
            && (|cs| == 1 <==> |payload| <= capacity)
            && (forall i :: 0 <= i < |cs| ==> |cs[i]| <= capacity)
            && (|cs| > 1 ==> forall i :: 0 <= i < |cs| ==> |cs[i]| > 0)
    decreases |payload|
  {
    if |payload| > capacity {
      var rest := Chunks(payload[capacity..], capacity);
      ChunksFit(payload[capacity..], capacity);
      var cs := Chunks(payload, capacity);
      assert forall i :: 1 <= i < |cs| ==> cs[i] == rest[i - 1];
    }
  }

  /**
   * There are as many pieces as the payload needs and no more: all but the
   * last are full.
   */
  lemma {:induction false} ChunksCount(payload: seq<byte>, capacity: nat)
    requires capacity > 0
    ensures var k := |Chunks(payload, capacity)|;
            && |payload| <= k * capacity
            && (k == 1 || (k - 1) * capacity < |payload|)
    decreases |payload|
  {
    if |payload| > capacity {
      var k := |Chunks(payload[capacity..], capacity)|;
      ChunksCount(payload[capacity..], capacity);
      assert (k + 1) * capacity == k * capacity + capacity;
      assert k * capacity == (k - 1) * capacity + capacity;
    }
  }

  /** The i-th fragment: the first is an ACK with this metadata, the rest UNSET frames; FIN marks the last. */
  function Fragment(metadata: Metadata, chunks: seq<seq<byte>>, i: nat): (f: Frame)
    requires i < |chunks|
  {
    var fin := i == |chunks| - 1;
    if i == 0 then Frame(Ack, metadata.(fin := fin), chunks[0])
    else Frame(Unset, Metadata(fin, false, metadata.streamId, metadata.frameId), chunks[i])
  }

  function Fragments(metadata: Metadata, chunks: seq<seq<byte>>): (r: seq<Frame>)
    ensures |r| == |chunks|
    ensures forall i :: 0 <= i < |chunks| ==> r[i] == Fragment(metadata, chunks, i)
  {
    seq(|chunks|, i requires 0 <= i < |chunks| => Fragment(metadata, chunks, i))
  }

  /** The payload pieces a fragment sequence carries, in order. */
  function Payloads(frames: seq<Frame>): (r: seq<seq<byte>>)
    ensures |r| == |frames|
    ensures forall i :: 0 <= i < |frames| ==> r[i] == frames[i].payload
  {
    seq(|frames|, i requires 0 <= i < |frames| => frames[i].payload)
  }

  /** The remaining pieces once `taken` bytes are spoken for. */
  function ChunksFrom(payload: seq<byte>, taken: nat, capacity: nat): seq<seq<byte>>
    requires capacity > 0
  {
    if taken >= |payload| then [] else Chunks(payload[taken..], capacity)
  }

  lemma NextChunk(payload: seq<byte>, taken: nat, capacity: nat)
    requires capacity > 0 && taken < |payload|
    ensures ChunksFrom(payload, taken, capacity)
         == [payload[taken..if taken + capacity <= |payload| then taken + capacity else |payload|]]
            + ChunksFrom(payload, taken + capacity, capacity)
  {
    var tail := payload[taken..];
    if |tail| > capacity {
      assert tail[capacity..] == payload[taken + capacity..];
      assert tail[..capacity] == payload[taken..taken + capacity];
    } else {
      assert tail == payload[taken..|payload|];
      assert ChunksFrom(payload, taken + capacity, capacity) == [];
    }
  }

  /**
   * `AckFrame.FragmentFrame`. A frame that fits is returned alone. Otherwise
   * each fragment may carry `maxFrameSize - metadataLength - 5` payload
   * bytes; when that is not positive the source loops without end, which is
   * reported as `Diverges`.
   */
  method FragmentFrame(frame: Frame, encodedLength: nat, metadataLength: nat, maxFrameSize: nat)
    returns (r: Result<seq<Frame>, FragmentError>)
    ensures encodedLength <= maxFrameSize ==> r == Success([frame])
    ensures encodedLength > maxFrameSize && maxFrameSize - metadataLength - FrameHeaderLength <= 0 ==> r == Failure(Diverges)
    ensures encodedLength > maxFrameSize && maxFrameSize - metadataLength - FrameHeaderLength > 0 ==>
              var capacity := maxFrameSize - metadataLength - FrameHeaderLength;
              r == Success(Fragments(frame.metadata, Chunks(frame.payload, capacity)))
  {
    if encodedLength <= maxFrameSize {
      return Success([frame]);
    }
    var capacity := maxFrameSize - metadataLength - FrameHeaderLength;
    if capacity <= 0 {
      return Failure(Diverges);
    }
    var payload := frame.payload;
    var chunks := [payload[..if capacity <= |payload| then capacity else |payload|]];
    var taken := capacity;
    assert Chunks(payload, capacity) == chunks + ChunksFrom(payload, taken, capacity) by {
      if |payload| <= capacity {
        assert payload[..|payload|] == payload;
      }
    }
    while taken < |payload|
      invariant taken >= capacity
      invariant chunks + ChunksFrom(payload, taken, capacity) == Chunks(payload, capacity)
      decreases |payload| - taken
    {
      NextChunk(payload, taken, capacity);
      var piece := payload[taken..if taken + capacity <= |payload| then taken + capacity else |payload|];
      chunks := chunks + [piece];
      taken := taken + capacity;
    }
    assert chunks == Chunks(payload, capacity);
    return Success(Fragments(frame.metadata, chunks));
  }

  /**
   * What a fragmented frame looks like: every piece fits, the pieces rebuild
   * the payload, the first is an ACK with this frame's metadata, the rest
   * are UNSET frames of the same stream and frame, and only the last has FIN.
   */
  lemma FragmentsFaithful(frame: Frame, capacity: nat)
    requires capacity > 0
    ensures var fs := Fragments(frame.metadata, Chunks(frame.payload, capacity));
            && |fs| >= 1
            && Flatten(Payloads(fs)) == frame.payload
            && (forall i :: 0 <= i < |fs| ==> |fs[i].payload| <= capacity)
            && fs[0].kind == Ack && fs[0].metadata == frame.metadata.(fin := |fs| == 1)
            && (forall i :: 1 <= i < |fs| ==>
                  fs[i].kind == Unset && fs[i].metadata == Metadata(i == |fs| - 1, false, frame.metadata.streamId, frame.metadata.frameId))
            && fs[|fs| - 1].metadata.fin
            && (forall i :: 0 <= i < |fs| - 1 ==> !fs[i].metadata.fin)
  {
    var cs := Chunks(frame.payload, capacity);
    ChunksFlatten(frame.payload, capacity);
    ChunksFit(frame.payload, capacity);
    var fs := Fragments(frame.metadata, cs);
    assert Payloads(fs) == cs;
  }
}
