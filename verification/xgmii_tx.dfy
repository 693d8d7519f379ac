/** The 32-bit XGMII transmit testbench: its reference model of the lane on
    which each back-to-back frame starts, its test lengths, and what its
    plain run check amounts to.

    The reference model follows the deficit idle count rule of IEEE 802.3
    clause 46 (start alignment, section 46.3.1.4): after a frame, its length,
    the 4 FCS octets and the configured inter-frame gap advance the lane; the
    next start is then pulled back to a 4-lane boundary by deleting up to 3
    idles, or by inserting idles instead once the deleted idles owed would
    reach 4. The deficit idle count carries the running total of deleted
    idles, modulo 4. */
module XgmiiTx {
  import opened TestData
  import MinimumFrame

  /** Lanes per XGMII transfer in this testbench (a 32-bit data path). */
  const ByteWidth: nat := 4
  /** The inter-frame gap every test of this testbench configures. */
  const Ifg: nat := 12

  /** The reference model's two variables between frames. */
  datatype LaneState = LaneState(lane: int, deficitIdleCount: int)

  /** Both variables start at 0 for every batch of frames. */
  const Initial := LaneState(0, 0)

  predicate InRange(s: LaneState, byteWidth: nat)
  {
    0 <= s.lane < byteWidth && 0 <= s.deficitIdleCount < 4
  }

  /** The lane a frame starts on: the current lane, or lane 0 when no gap
      is configured. */
  function StartLane(s: LaneState, ifg: nat): int
  {
    if ifg == 0 then 0 else s.lane
  }

  /** The lane after a frame of `length` octets that started on `start`,
      before the alignment adjustment. */
  function EndLane(start: int, byteWidth: nat, length: nat, ifg: nat): (r: int)
    requires byteWidth > 0
    ensures 0 <= r < byteWidth
    // the payload, the 4 FCS octets and the gap are all counted
    ensures (start + length + 4 + ifg - r) % byteWidth == 0
  {
    var r := (start + length + 4 + ifg) % byteWidth;
    assert start + length + 4 + ifg - r == byteWidth * ((start + length + 4 + ifg) / byteWidth);
    ModUnique(start + length + 4 + ifg - r, byteWidth, (start + length + 4 + ifg) / byteWidth, 0);
    r
  }

  /** How many lanes the next start moves back: the distance to the
      previous 4-lane boundary, or 4 more once the deficit would reach 4. */
  function Offset(lane: int, deficitIdleCount: int): (r: int)
    ensures 0 <= r < 8
    ensures r % 4 == lane % 4
    ensures r >= 4 <==> deficitIdleCount + lane % 4 >= 4
  {
    var offset := lane % 4;
    if deficitIdleCount + offset >= 4 then offset + 4 else offset
  }

  /** One frame of `length` octets through the reference model. */
  function Step(s: LaneState, byteWidth: nat, length: nat, ifg: nat): (r: LaneState)
    requires byteWidth > 0
    ensures InRange(r, byteWidth)
  {
    var lane := EndLane(StartLane(s, ifg), byteWidth, length, ifg);
    var offset := Offset(lane, s.deficitIdleCount);
    LaneState((lane - offset) % byteWidth, (s.deficitIdleCount + offset) % 4)
  }

  /** The state after a batch of frames, starting from Initial. */
  function StateAfter(frames: seq<seq<byte>>, byteWidth: nat, ifg: nat): LaneState
    requires byteWidth > 0
  {
    if frames == [] then Initial
    else
      var n := |frames| - 1;
      Step(StateAfter(frames[..n], byteWidth, ifg), byteWidth, |frames[n]|, ifg)
  }

  /** The expected start lane of each frame of a batch, in send order. */
  function ReferenceLanes(frames: seq<seq<byte>>, byteWidth: nat, ifg: nat): seq<int>
    requires byteWidth > 0
  {
    if frames == [] then []
    else
      var n := |frames| - 1;
      ReferenceLanes(frames[..n], byteWidth, ifg) + [StartLane(StateAfter(frames[..n], byteWidth, ifg), ifg)]
  }

  /** The reference loop of the alignment test, over one batch of frames. */
  method ComputeStartLanes(frames: seq<seq<byte>>, byteWidth: nat, ifg: nat) returns (startLaneRef: seq<int>)
    requires byteWidth > 0
    ensures startLaneRef == ReferenceLanes(frames, byteWidth, ifg)
  {
    var lane := 0;
    var deficitIdleCount := 0;
    startLaneRef := [];
    for i := 0 to |frames|
      invariant LaneState(lane, deficitIdleCount) == StateAfter(frames[..i], byteWidth, ifg)
      invariant startLaneRef == ReferenceLanes(frames[..i], byteWidth, ifg)
    {
      assert frames[..i + 1][..i] == frames[..i];
      if ifg == 0 {
        lane := 0;
      }
      assert lane == StartLane(StateAfter(frames[..i], byteWidth, ifg), ifg);
      startLaneRef := startLaneRef + [lane];
      lane := (lane + |frames[i]| + 4 + ifg) % byteWidth;
      var offset := lane % 4;
      if deficitIdleCount + offset >= 4 {
        offset := offset + 4;
      }
      lane := (lane - offset) % byteWidth;
      deficitIdleCount := (deficitIdleCount + offset) % 4;
    }
    assert frames[..|frames|] == frames;
  }

  /** One start lane per frame, each a valid lane; the first frame of a
      batch starts on lane 0, and with no gap every frame does. */
  lemma {:induction false} ReferenceLanesShape(frames: seq<seq<byte>>, byteWidth: nat, ifg: nat)
    requires byteWidth > 0
    ensures var r := ReferenceLanes(frames, byteWidth, ifg);
      && |r| == |frames|
      && (forall i :: 0 <= i < |r| ==> 0 <= r[i] < byteWidth)
      && (|r| > 0 ==> r[0] == 0)
      && (ifg == 0 ==> forall i :: 0 <= i < |r| ==> r[i] == 0)
  {
    if frames != [] {
      var n := |frames| - 1;
      ReferenceLanesShape(frames[..n], byteWidth, ifg);
    }
  }

  /** The total number of lanes a batch takes on the wire: each frame's
      length, its FCS and the configured gap. */
  function WireLength(frames: seq<seq<byte>>, ifg: nat): nat
  {
    if frames == [] then 0
    else WireLength(frames[..|frames| - 1], ifg) + |frames[|frames| - 1]| + 4 + ifg
  }

  /** With 4 lanes, a step from lane 0 returns to lane 0 and adds the
      frame's wire length to the deficit idle count, modulo 4. */
  lemma StepFourLanes(s: LaneState, length: nat, ifg: nat)
    requires s.lane == 0 && 0 <= s.deficitIdleCount < 4
    ensures Step(s, 4, length, ifg) == LaneState(0, (s.deficitIdleCount + length + 4 + ifg) % 4)
  {
    var lane := EndLane(StartLane(s, ifg), 4, length, ifg);
    var offset := Offset(lane, s.deficitIdleCount);
    assert lane == (length + 4 + ifg) % 4;
    assert (s.deficitIdleCount + offset) % 4 == (s.deficitIdleCount + lane) % 4;
  }

  /** With 4 lanes every frame is aligned to lane 0, and the deficit idle
      count is the batch's total wire length modulo 4. */
  lemma {:induction false} FourLanesStateAfter(frames: seq<seq<byte>>, ifg: nat)
    ensures StateAfter(frames, 4, ifg) == LaneState(0, WireLength(frames, ifg) % 4)
  {
    if frames != [] {
      var n := |frames| - 1;
      FourLanesStateAfter(frames[..n], ifg);
      var w := WireLength(frames[..n], ifg);
      StepFourLanes(LaneState(0, w % 4), |frames[n]|, ifg);
      ModAddMod(w, |frames[n]| + 4 + ifg, 4);
    }
  }

  /** With 4 lanes every reference start lane is 0. */
  lemma {:induction false} FourLanesAllStartOnLaneZero(frames: seq<seq<byte>>, ifg: nat)
    ensures ReferenceLanes(frames, 4, ifg) == Repeat(0, |frames|)
  {
    if frames != [] {
      var n := |frames| - 1;
      FourLanesAllStartOnLaneZero(frames[..n], ifg);
      FourLanesStateAfter(frames[..n], ifg);
    }
  }

  /** The alignment test sends, for each length from 60 to 91, a batch of
      ten identical incrementing payloads. */
  function AlignmentBatch(length: nat): (r: seq<seq<byte>>)
    ensures |r| == 10
    ensures forall k :: 0 <= k < 10 ==> r[k] == IncrementingPayload(length)
  {
    Repeat(IncrementingPayload(length), 10)
  }

  /** For every batch of the alignment test the reference list is ten 0s. */
  lemma AlignmentTestExpectsLaneZero(length: nat)
    requires 60 <= length < 92
    ensures ReferenceLanes(AlignmentBatch(length), ByteWidth, Ifg) == Repeat(0, 10)
  {
    FourLanesAllStartOnLaneZero(AlignmentBatch(length), Ifg);
  }

  /** `size_list()` of this testbench: no length below the minimum. */
  function SizeList(): (r: seq<nat>)
    ensures |r| == 81
    ensures forall i :: 0 <= i < |r| ==> r[i] >= MinimumFrame.MinPayloadLength
  {
    Range(60, 128) + [512, 1514, 9214] + Repeat(60, 10)
  }

  /** The lengths are 60 to 127, 512, 1514, 9214, then ten times 60. */
  lemma SizeListContents()
    ensures forall i :: 0 <= i < 68 ==> SizeList()[i] == 60 + i
    ensures SizeList()[68..71] == [512, 1514, 9214]
    ensures forall i :: 71 <= i < 81 ==> SizeList()[i] == 60
  {
  }

  /** The payloads `run_test` sends. */
  function TestFrames(): seq<seq<byte>>
  {
    IncrementingPayloads(SizeList())
  }

  /** The check of `run_test`: one frame per frame sent, each carrying the
      payload unchanged, with a good FCS and no control character. */
  predicate RunTestPasses(sent: seq<seq<byte>>, received: seq<MinimumFrame.RxFrame>)
  {
    && |received| == |sent|
    && forall i :: 0 <= i < |sent| ==>
         received[i].payload == sent[i] && received[i].fcsOk && !received[i].errorSeen
  }

  /** No length `run_test` sends is below the minimum, so its plain
      equality check is the padding check of the padding test. */
  lemma RunTestNeverPads(received: seq<MinimumFrame.RxFrame>)
    ensures RunTestPasses(TestFrames(), received) <==> MinimumFrame.TxRunPasses(TestFrames(), received)
  {
    var sent := TestFrames();
    forall i | 0 <= i < |sent| && i < |received|
      ensures received[i].payload == sent[i] <==> MinimumFrame.PaddingCheck(sent[i], received[i].payload)
    {
      assert |sent[i]| == SizeList()[i];
      MinimumFrame.PadIdempotent(sent[i]);
      MinimumFrame.PaddingCheckExact(sent[i], received[i].payload);
    }
  }

  /** The lengths `run_test_padding` sends. */
  const PaddingTestSizes: seq<nat> := [32, 56, 57, 58, 59, 60, 62, 63, 65]

  function PaddingTestFrames(): seq<seq<byte>>
  {
    IncrementingPayloads(PaddingTestSizes)
  }

  /** In a passing padding test the five short payloads arrive as 60 octets
      and the others at their own length. */
  lemma PaddingTestLengths(received: seq<MinimumFrame.RxFrame>)
    requires MinimumFrame.TxRunPasses(PaddingTestFrames(), received)
    ensures |received| == 9
    ensures forall i :: 0 <= i < 9 ==> |received[i].payload| == [60, 60, 60, 60, 60, 60, 62, 63, 65][i]
  {
    MinimumFrame.TxRunPassesExact(PaddingTestFrames(), received);
  }
}
