/** The Ethernet header receive testbench. The device under test splits each
    frame into header fields (destination MAC, source MAC, EtherType) and a
    payload stream; the testbench turns them back into octets and expects the
    very frame it sent. The octet layout is that of the MAC frame of IEEE
    802.3, section 3.1.1: 6-octet destination, 6-octet source, 2-octet type,
    all most significant octet first, then the payload. */
module EthHeaderRx {
  import opened TestData
  import MinimumFrame

  datatype Error =
    | Overflow      // an integer does not fit the octets it is converted to
    | UserFlagSet   // the payload arrived with `tuser` set
    | TooShort      // fewer octets than a header

  datatype Result<T> = Ok(value: T) | Err(error: Error) {
    predicate IsFailure() { Err? }
    function PropagateFailure<U>(): Result<U> requires Err? { Err(error) }
    function Extract(): T requires Ok? { value }
  }

  const MacLength: nat := 6
  const TypeLength: nat := 2
  const HeaderLength: nat := 14

  function Pow256(n: nat): (r: nat)
    ensures r > 0
  {
    if n == 0 then 1 else 256 * Pow256(n - 1)
  }

  /** The n low octets of x, most significant first. */
  function Encode(x: nat, n: nat): (r: seq<byte>)
    ensures |r| == n
  {
    if n == 0 then [] else Encode(x / 256, n - 1) + [x % 256]
  }

  /** The big-endian value of `octets`, most significant octet first: the
      decoding that `to_bytes(n, 'big')` inverts. */
  function FromBytesBig(octets: seq<byte>): (r: nat)
    ensures r < Pow256(|octets|)
  {
    if octets == [] then 0
    else
      var n := |octets| - 1;
      var high := FromBytesBig(octets[..n]);
      assert high * 256 + octets[n] < Pow256(n) * 256 by {
        assert high <= Pow256(n) - 1;
        assert high * 256 <= (Pow256(n) - 1) * 256;
      }
      high * 256 + octets[n]
  }

  /** `x.to_bytes(n, 'big')`: fails when x needs more than n octets. */
  function ToBytesBig(x: nat, n: nat): (r: Result<seq<byte>>)
    ensures r.Ok? <==> x < Pow256(n)
    ensures r.Err? ==> r.error == Overflow
    ensures r.Ok? ==> |r.value| == n && FromBytesBig(r.value) == x
  {
    if x >= Pow256(n) then Err(Overflow)
    else
      DecodeEncode(x, n);
      Ok(Encode(x, n))
  }

  lemma {:induction false} DecodeEncode(x: nat, n: nat)
    requires x < Pow256(n)
    ensures FromBytesBig(Encode(x, n)) == x
  {
    if n > 0 {
      DecodeEncode(x / 256, n - 1);
      var e := Encode(x, n);
      assert e[..n - 1] == Encode(x / 256, n - 1);
    }
  }

  /** Converting octets to an integer and back gives the same octets. */
  lemma {:induction false} EncodeDecode(octets: seq<byte>)
    ensures ToBytesBig(FromBytesBig(octets), |octets|) == Ok(octets)
  {
    if octets != [] {
      var n := |octets| - 1;
      EncodeDecode(octets[..n]);
      var high := FromBytesBig(octets[..n]);
      assert (high * 256 + octets[n]) / 256 == high;
      assert (high * 256 + octets[n]) % 256 == octets[n];
      assert octets == octets[..n] + [octets[n]];
    }
  }

  /** The header fields as the device presents them: three integers. */
  datatype EthHeader = EthHeader(dstMac: nat, srcMac: nat, etherType: nat)

  predicate FieldsFit(h: EthHeader)
  {
    h.dstMac < Pow256(MacLength) && h.srcMac < Pow256(MacLength) && h.etherType < Pow256(TypeLength)
  }

  /** The frame octets of header `h` followed by `payload`. */
  function Serialize(h: EthHeader, payload: seq<byte>): (r: Result<seq<byte>>)
    ensures r.Ok? <==> FieldsFit(h)
    ensures r.Ok? ==> |r.value| == HeaderLength + |payload| && r.value[HeaderLength..] == payload
  {
    var dst :- ToBytesBig(h.dstMac, MacLength);
    var src :- ToBytesBig(h.srcMac, MacLength);
    var etherType :- ToBytesBig(h.etherType, TypeLength);
    Ok(dst + src + etherType + payload)
  }

  /** The split a header extractor makes of a frame: the first 14 octets as
      the three fields, the rest as payload. */
  function Split(frame: seq<byte>): (r: Result<(EthHeader, seq<byte>)>)
    ensures r.Ok? <==> |frame| >= HeaderLength
    ensures r.Ok? ==> FieldsFit(r.value.0) && r.value.1 == frame[HeaderLength..]
  {
    if |frame| < HeaderLength then Err(TooShort)
    else
      Ok((EthHeader(FromBytesBig(frame[..6]), FromBytesBig(frame[6..12]), FromBytesBig(frame[12..14])),
          frame[HeaderLength..]))
  }

  /** Splitting a serialized frame gives back the header and the payload. */
  lemma SplitSerialize(h: EthHeader, payload: seq<byte>)
    requires FieldsFit(h)
    ensures Split(Serialize(h, payload).value) == Ok((h, payload))
  {
    var frame := Serialize(h, payload).value;
    assert frame[..6] == ToBytesBig(h.dstMac, MacLength).value;
    assert frame[6..12] == ToBytesBig(h.srcMac, MacLength).value;
    assert frame[12..14] == ToBytesBig(h.etherType, TypeLength).value;
  }

  /** Serializing the split of any frame of at least 14 octets gives the
      frame back. */
  lemma SerializeSplit(frame: seq<byte>)
    requires |frame| >= HeaderLength
    ensures Serialize(Split(frame).value.0, Split(frame).value.1) == Ok(frame)
  {
    EncodeDecode(frame[..6]);
    EncodeDecode(frame[6..12]);
    EncodeDecode(frame[12..14]);
    assert frame == frame[..6] + frame[6..12] + frame[12..14] + frame[14..];
  }

  /** One beat of the payload stream: its octets and the `tuser` flag. */
  datatype PayloadFrame = PayloadFrame(tdata: seq<byte>, tuser: bool)

  /** `TB.recv`: a payload flagged by `tuser` fails the test; otherwise the
      fields and payload are put back together into frame octets. */
  function Recv(h: EthHeader, payload: PayloadFrame): (r: Result<seq<byte>>)
    ensures payload.tuser ==> r == Err(UserFlagSet)
    ensures r.Ok? <==> !payload.tuser && FieldsFit(h)
    ensures r.Ok? ==> |r.value| == HeaderLength + |payload.tdata|
    ensures r.Ok? ==> Split(r.value) == Ok((h, payload.tdata))
  {
    if payload.tuser then Err(UserFlagSet)
    else
      var frame := Serialize(h, payload.tdata);
      if frame.Ok? then SplitSerialize(h, payload.tdata); frame else frame
  }

  /** The check of `run_test`: exactly one header and one payload per packet
      sent (both sinks are empty afterwards), and packet i rebuilt from
      header i and payload i is packet i, octet for octet. */
  predicate RunPasses(sent: seq<seq<byte>>, headers: seq<EthHeader>, payloads: seq<PayloadFrame>)
  {
    && |headers| == |sent|
    && |payloads| == |sent|
    && forall i :: 0 <= i < |sent| ==> Recv(headers[i], payloads[i]) == Ok(sent[i])
  }

  /** The run passes exactly when the device split every packet, in order,
      into its header and payload and never set `tuser`. */
  lemma RunPassesExact(sent: seq<seq<byte>>, headers: seq<EthHeader>, payloads: seq<PayloadFrame>)
    requires |headers| == |sent| && |payloads| == |sent|
    ensures RunPasses(sent, headers, payloads) <==>
      forall i :: 0 <= i < |sent| ==>
        !payloads[i].tuser && Split(sent[i]) == Ok((headers[i], payloads[i].tdata))
  {
    forall i | 0 <= i < |sent|
      ensures Recv(headers[i], payloads[i]) == Ok(sent[i]) <==>
        !payloads[i].tuser && Split(sent[i]) == Ok((headers[i], payloads[i].tdata))
    {
      if !payloads[i].tuser && Split(sent[i]) == Ok((headers[i], payloads[i].tdata)) {
        SerializeSplit(sent[i]);
      }
    }
  }

  /** The fields of every test packet. */
  const TestHeader := EthHeader(0xDA_D1_D2_D3_D4_D5, 0x5A_51_52_53_54_55, 0x8000)

  /** The octets of the test packet carrying `payload`. */
  function TestPacket(payload: seq<byte>): (r: seq<byte>)
    ensures |r| == HeaderLength + |payload|
    ensures Split(r) == Ok((TestHeader, payload))
  {
    var frame := Serialize(TestHeader, payload);
    SplitSerialize(TestHeader, payload);
    frame.value
  }

  /** `cycle_pause()`, its first n values: 1, 1, 1, 0 over and over. */
  function CyclePause(n: nat): (r: seq<int>)
    ensures |r| == n
    ensures forall i :: 0 <= i < n ==> (r[i] == 0 <==> i % 4 == 3)
    ensures forall i :: 0 <= i < n ==> (r[i] == 1 <==> i % 4 != 3)
  {
    Cycle([1, 1, 1, 0], n)
  }

  /** `size_list()` of this testbench: its last ten payloads, 46 octets
      each, make packets of exactly the 60-octet minimum. */
  function SizeList(): (r: seq<nat>)
    ensures |r| == 140
    ensures forall i :: 130 <= i < 140 ==> HeaderLength + r[i] == MinimumFrame.MinPayloadLength
  {
    Range(1, 128) + [512, 1500, 9200] + Repeat(60 - 14, 10)
  }

  /** The payload lengths are 1 to 127, 512, 1500, 9200, then ten times 46. */
  lemma SizeListContents()
    ensures forall i :: 0 <= i < 127 ==> SizeList()[i] == i + 1
    ensures SizeList()[127..130] == [512, 1500, 9200]
    ensures forall i :: 130 <= i < 140 ==> SizeList()[i] == 46
  {
  }

  /** The packets `run_test` sends: the test header and an incrementing
      payload of each listed length. */
  function TestPackets(): (r: seq<seq<byte>>)
    ensures |r| == |SizeList()|
    ensures forall i :: 0 <= i < |r| ==> Split(r[i]) == Ok((TestHeader, IncrementingPayload(SizeList()[i])))
  {
    var sizes := SizeList();
    seq(|sizes|, i requires 0 <= i < |sizes| => TestPacket(IncrementingPayload(sizes[i])))
  }

  /** What a device that splits each packet exactly presents: one header and
      one untagged payload per packet. */
  function SplitAll(sent: seq<seq<byte>>): (r: (seq<EthHeader>, seq<PayloadFrame>))
    requires forall i :: 0 <= i < |sent| ==> |sent[i]| >= HeaderLength
    ensures |r.0| == |sent| && |r.1| == |sent|
    ensures forall i :: 0 <= i < |sent| ==>
      !r.1[i].tuser && Split(sent[i]) == Ok((r.0[i], r.1[i].tdata))
  {
    (seq(|sent|, i requires 0 <= i < |sent| => Split(sent[i]).value.0),
     seq(|sent|, i requires 0 <= i < |sent| => PayloadFrame(Split(sent[i]).value.1, false)))
  }

  /** Such a device passes the test for any packets at least a header long,
      the test's own packets among them. */
  lemma SplitDevicePasses(sent: seq<seq<byte>>)
    requires forall i :: 0 <= i < |sent| ==> |sent[i]| >= HeaderLength
    ensures RunPasses(sent, SplitAll(sent).0, SplitAll(sent).1)
  {
    var out := SplitAll(sent);
    RunPassesExact(sent, out.0, out.1);
  }

  /** The test's own packets are at least a header long, so such a device
      passes `run_test`. */
  lemma TestRunPasses()
    ensures forall i :: 0 <= i < |TestPackets()| ==> |TestPackets()[i]| >= HeaderLength
    ensures RunPasses(TestPackets(), SplitAll(TestPackets()).0, SplitAll(TestPackets()).1)
  {
    SplitDevicePasses(TestPackets());
  }
}
