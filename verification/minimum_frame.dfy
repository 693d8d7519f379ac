/** The minimum-frame rule that the GMII and 32-bit XGMII transmit testbenches
    expect of the MAC: a payload shorter than 60 octets goes on the wire
    followed by zero octets up to 60, so that with the 4-octet FCS every frame
    is at least the 64-octet minimum (the Pad field of IEEE 802.3, section
    3.2.7). Also the per-run acceptance check those testbenches apply to the
    frames their sink collects. */
module MinimumFrame {
  import opened TestData

  /** Shortest payload (MAC header included) that goes out unpadded. */
  const MinPayloadLength: nat := 60
  /** Length of the Frame Check Sequence trailer. */
  const FcsLength: nat := 4
  /** Shortest frame on the wire, FCS included. */
  const MinFrameLength: nat := 64

  /** The payload the sink is expected to see for transmitted data `data`. */
  function Pad(data: seq<byte>): (r: seq<byte>)
    ensures |r| == if |data| < MinPayloadLength then MinPayloadLength else |data|
    ensures |r| + FcsLength >= MinFrameLength
    ensures r[..|data|] == data
    ensures forall i :: |data| <= i < |r| ==> r[i] == 0
  {
    if |data| < MinPayloadLength then data + Zeros(MinPayloadLength - |data|) else data
  }

  /** Python's `p[0:n]` for `n >= 0`: clamps at the end of `p`. */
  function Head<T>(p: seq<T>, n: nat): seq<T>
  {
    if n <= |p| then p[..n] else p
  }

  /** Python's `p[n:]` for `n >= 0`: empty past the end of `p`. */
  function Tail<T>(p: seq<T>, n: nat): seq<T>
  {
    if n <= |p| then p[n..] else []
  }

  /** The assertions the padding tests make about one received payload. */
  predicate PaddingCheck(data: seq<byte>, payload: seq<byte>)
  {
    && (if |data| < MinPayloadLength then
          && Head(payload, |data|) == data
          && Tail(payload, |data|) == Zeros(MinPayloadLength - |data|)
        else
          payload == data)
    && |payload| >= MinPayloadLength
  }

  /** The check accepts exactly one payload per input: the padded one. */
  lemma PaddingCheckExact(data: seq<byte>, payload: seq<byte>)
    ensures PaddingCheck(data, payload) <==> payload == Pad(data)
  {
    var n := |data|;
    if n < MinPayloadLength {
      if payload == Pad(data) {
        assert payload[..n] == data;
        assert payload[n..] == Zeros(MinPayloadLength - n);
      }
      if PaddingCheck(data, payload) {
        assert n <= |payload|;
        assert payload == payload[..n] + payload[n..];
      }
    }
  }

  /** A payload already at least 60 octets long is left alone, so padding
      twice pads once. */
  lemma PadIdempotent(data: seq<byte>)
    ensures Pad(Pad(data)) == Pad(data)
    ensures |data| >= MinPayloadLength ==> Pad(data) == data
  {
  }

  /** What the sink reports for one frame: its payload with the FCS removed,
      the verdict of the FCS check, and whether an error indication
      (`error` on GMII, a control character in `ctrl` on XGMII) was seen. */
  datatype RxFrame = RxFrame(payload: seq<byte>, fcsOk: bool, errorSeen: bool)

  /** A transmit run passes when the sink holds exactly one frame per frame
      sent, and frame i passes the padding check against payload i, has a
      good FCS and no error indication. */
  predicate TxRunPasses(sent: seq<seq<byte>>, received: seq<RxFrame>)
  {
    && |received| == |sent|
    && forall i :: 0 <= i < |sent| ==>
         PaddingCheck(sent[i], received[i].payload) && received[i].fcsOk && !received[i].errorSeen
  }

  /** What a correct transmitter delivers: the padded payloads, in send
      order, with good FCS and no error. */
  function ExpectedFrames(sent: seq<seq<byte>>): (r: seq<RxFrame>)
    ensures |r| == |sent|
    ensures forall i :: 0 <= i < |sent| ==> |r[i].payload| >= MinPayloadLength
  {
    seq(|sent|, i requires 0 <= i < |sent| => RxFrame(Pad(sent[i]), true, false))
  }

  /** A run passes if and only if the sink received exactly the expected
      frames, one for one and in order. */
  lemma TxRunPassesExact(sent: seq<seq<byte>>, received: seq<RxFrame>)
    ensures TxRunPasses(sent, received) <==> received == ExpectedFrames(sent)
  {
    var expected := ExpectedFrames(sent);
    forall i | 0 <= i < |sent| {
      PaddingCheckExact(sent[i], if i < |received| then received[i].payload else []);
    }
    if TxRunPasses(sent, received) {
      forall i | 0 <= i < |sent| ensures received[i] == expected[i] {
        PaddingCheckExact(sent[i], received[i].payload);
      }
    }
  }
}
