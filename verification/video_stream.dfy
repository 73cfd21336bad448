/** The frame reassembly of communication/video_stream.py: received chunks are appended to a
    partial buffer until it ends with the end-of-frame marker, when the bytes before the
    marker become the current frame, the buffer is reset and an acknowledgement is sent. */
module VideoStream {
  import opened Common

  newtype byte = b: int | 0 <= b < 256

  /** The bytes of an ASCII text. */
  function Ascii(s: string): (r: seq<byte>)
    requires forall i | 0 <= i < |s| :: s[i] as int < 128
    ensures |r| == |s|
    ensures forall i | 0 <= i < |s| :: r[i] as int == s[i] as int
  {
    seq(|s|, i requires 0 <= i < |s| => s[i] as int as byte)
  }

  /** The end-of-frame marker. */
  const EndPayload: seq<byte> := Ascii("Frame was successfully sent")

  /** The acknowledgement sent after each complete frame. */
  const Ack: seq<byte> := Ascii("ACK")

  lemma EndPayloadLength()
    ensures |EndPayload| == 27 && |Ack| == 3
  {
  }

  /** Python's `buf[-n:]` for n > 0: the last n bytes, or the whole buffer when it is shorter. */
  function LastBytes(buf: seq<byte>, n: nat): (r: seq<byte>)
    requires n > 0
    ensures |r| == if |buf| < n then |buf| else n
    ensures buf == buf[..|buf| - |r|] + r
  {
    if |buf| < n then buf else buf[|buf| - n..]
  }

  /** Python's `buf[:-n]` for n > 0: all but the last n bytes, empty when the buffer is shorter. */
  function DropLastBytes(buf: seq<byte>, n: nat): (r: seq<byte>)
    requires n > 0
    ensures |buf| >= n ==> buf == r + buf[|buf| - n..]
    ensures |buf| < n ==> r == []
  {
    if |buf| < n then [] else buf[..|buf| - n]
  }

  predicate EndsWith(buf: seq<byte>, suffix: seq<byte>)
  {
    |buf| >= |suffix| && buf[|buf| - |suffix|..] == suffix
  }

  /** The source's completeness test on the last marker-length bytes is exactly "ends with the
      marker"; in particular no buffer shorter than the marker passes it. */
  lemma TailTestIsEndsWith(buf: seq<byte>)
    ensures LastBytes(buf, |EndPayload|) == EndPayload <==> EndsWith(buf, EndPayload)
    ensures |buf| < |EndPayload| ==> LastBytes(buf, |EndPayload|) != EndPayload
  {
    EndPayloadLength();
  }

  /** The receiving side's state: the partial buffer and the current frame (None until the
      first complete one). */
  datatype Stream = Stream(partial: seq<byte>, frame: Option<seq<byte>>)

  /** The one error the handler raises itself: nothing buffered after a receive. */
  datatype StreamError = DataError

  /** The state after one handled receive, and whether the acknowledgement was sent. */
  datatype Outcome = Outcome(stream: Stream, acked: bool)

  /** One call of the handler with the received `chunk` (possibly empty). */
  function Step(st: Stream, chunk: seq<byte>): (r: Result<Outcome, StreamError>)
    // an error exactly when the buffer is still empty, that is both it and the chunk were
    ensures r.Failure? <==> st.partial + chunk == []
    // a frame completes exactly when the appended buffer ends with the marker
    ensures r.Success? ==> (r.value.acked <==> EndsWith(st.partial + chunk, EndPayload))
    ensures r.Success? && r.value.acked ==>
      && r.value.stream.partial == [] && r.value.stream.frame.Some?
      && st.partial + chunk == r.value.stream.frame.value + EndPayload
    ensures r.Success? && !r.value.acked ==> r.value.stream == st.(partial := st.partial + chunk)
  {
    var buf := st.partial + chunk;
    if buf == [] then Failure(DataError)
    else if LastBytes(buf, |EndPayload|) == EndPayload then
      TailTestIsEndsWith(buf);
      Success(Outcome(Stream([], Some(DropLastBytes(buf, |EndPayload|))), true))
    else
      TailTestIsEndsWith(buf);
      Success(Outcome(st.(partial := buf), false))
  }

  /** A buffer shorter than the marker never completes a frame and leaves the frame alone. */
  lemma ShortBufferNoEmit(st: Stream, chunk: seq<byte>)
    requires |st.partial + chunk| < |EndPayload|
    ensures Step(st, chunk).Success? ==>
      !Step(st, chunk).value.acked && Step(st, chunk).value.stream.frame == st.frame
  {
    EndPayloadLength();
  }

  /** The handler called once per chunk, stopping at the first error; on success, the final
      state and the number of acknowledgements sent. */
  function Run(st: Stream, chunks: seq<seq<byte>>): Result<(Stream, nat), StreamError>
    decreases |chunks|
  {
    if |chunks| == 0 then Success((st, 0))
    else
      match Step(st, chunks[0])
      case Failure(e) => Failure(e)
      case Success(o) => AddAcks(Run(o.stream, chunks[1..]), if o.acked then 1 else 0)
  }

  /** A run's outcome with `n` more acknowledgements counted. */
  function AddAcks(r: Result<(Stream, nat), StreamError>, n: nat): Result<(Stream, nat), StreamError>
  {
    match r
    case Failure(e) => Failure(e)
    case Success(res) => Success((res.0, res.1 + n))
  }

  /** The received bytes, in order. */
  function Concat(chunks: seq<seq<byte>>): seq<byte>
    decreases |chunks|
  {
    if |chunks| == 0 then [] else chunks[0] + Concat(chunks[1..])
  }

  /** Running two batches of chunks is running the first, then the second from where the first
      left off. */
  lemma {:induction false} RunAppend(st: Stream, c1: seq<seq<byte>>, c2: seq<seq<byte>>)
    requires Run(st, c1).Success?
    ensures Run(st, c1 + c2) == AddAcks(Run(Run(st, c1).value.0, c2), Run(st, c1).value.1)
    decreases |c1|
  {
    if |c1| > 0 {
      var o := Step(st, c1[0]).value;
      var inc: nat := if o.acked then 1 else 0;
      var rest := Run(o.stream, c1[1..]).value;
      assert Run(st, c1).value == (rest.0, rest.1 + inc);
      assert Run(st, c1 + c2) == AddAcks(Run(o.stream, c1[1..] + c2), inc) by {
        assert (c1 + c2)[0] == c1[0] && (c1 + c2)[1..] == c1[1..] + c2;
      }
      RunAppend(o.stream, c1[1..], c2);
      var x := Run(rest.0, c2);
      assert AddAcks(AddAcks(x, rest.1), inc) == AddAcks(x, rest.1 + inc);
    } else {
      assert c1 + c2 == c2;
    }
  }

  /** The message, marker included, has no shorter non-empty prefix ending with the marker. */
  predicate MarkerOnlyAtEnd(payload: seq<byte>)
  {
    var m := payload + EndPayload;
    forall k | 0 < k < |m| :: !EndsWith(m[..k], EndPayload)
  }

  /** However one framed message is split into non-empty chunks, feeding them from a buffer
      holding a prefix of the message acknowledges exactly once, at the last chunk, and
      leaves the payload as the frame and an empty buffer. */
  lemma {:induction false} ChunkSplitFrom(st: Stream, payload: seq<byte>, chunks: seq<seq<byte>>)
    requires MarkerOnlyAtEnd(payload)
    requires |chunks| > 0 && forall i | 0 <= i < |chunks| :: chunks[i] != []
    requires st.partial + Concat(chunks) == payload + EndPayload
    ensures Run(st, chunks) == Success((Stream([], Some(payload)), 1))
    decreases |chunks|
  {
    var m := payload + EndPayload;
    var buf := st.partial + chunks[0];
    assert buf == m[..|buf|] by {
      assert m == buf + Concat(chunks[1..]);
    }
    if |chunks| == 1 {
      assert Concat(chunks[1..]) == [];
      assert buf == m;
      assert EndsWith(buf, EndPayload);
      var o := Step(st, chunks[0]).value;
      assert o.stream.frame.value + EndPayload == payload + EndPayload;
      assert o.stream.frame.value == payload;
    } else {
      assert Concat(chunks[1..]) == chunks[1] + Concat(chunks[2..]);
      assert 0 < |buf| < |m|;
      assert !EndsWith(m[..|buf|], EndPayload);
      var o := Step(st, chunks[0]).value;
      assert !o.acked && o.stream.partial == buf;
      ChunkSplitFrom(o.stream, payload, chunks[1..]);
    }
  }

  /** The chunk-split property from an empty buffer. */
  lemma ChunkSplit(st: Stream, payload: seq<byte>, chunks: seq<seq<byte>>)
    requires st.partial == [] && MarkerOnlyAtEnd(payload)
    requires |chunks| > 0 && forall i | 0 <= i < |chunks| :: chunks[i] != []
    requires Concat(chunks) == payload + EndPayload
    ensures Run(st, chunks) == Success((Stream([], Some(payload)), 1))
  {
    ChunkSplitFrom(st, payload, chunks);
  }

  /** Two framed messages in a row: both are acknowledged and only the later frame is kept. */
  lemma LatestWins(st: Stream, p1: seq<byte>, c1: seq<seq<byte>>, p2: seq<byte>, c2: seq<seq<byte>>)
    requires st.partial == [] && MarkerOnlyAtEnd(p1) && MarkerOnlyAtEnd(p2)
    requires |c1| > 0 && forall i | 0 <= i < |c1| :: c1[i] != []
    requires |c2| > 0 && forall i | 0 <= i < |c2| :: c2[i] != []
    requires Concat(c1) == p1 + EndPayload && Concat(c2) == p2 + EndPayload
    ensures Run(st, c1 + c2) == Success((Stream([], Some(p2)), 2))
  {
    ChunkSplit(st, p1, c1);
    RunAppend(st, c1, c2);
    ChunkSplit(Stream([], Some(p1)), p2, c2);
  }
}
