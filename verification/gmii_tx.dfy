/** The GMII transmit testbench: its test lengths and what its run check,
    the minimum-frame check of MinimumFrame, asks of those lengths. */
module GmiiTx {
  import opened TestData
  import MinimumFrame

  /** `size_list()` of this testbench: exactly its first two lengths are
      below the minimum. */
  function SizeList(): (r: seq<nat>)
    ensures |r| == 82
    ensures forall i :: 0 <= i < |r| ==> (r[i] < MinimumFrame.MinPayloadLength <==> i < 2)
  {
    [32, 59] + Range(60, 128) + [512, 1514] + Repeat(60, 10)
  }

  /** The lengths are 32, 59, every length from 60 to 127, 512, 1514, then
      ten minimum-length payloads. */
  lemma SizeListContents()
    ensures SizeList()[..2] == [32, 59]
    ensures forall i :: 2 <= i < 70 ==> SizeList()[i] == 58 + i
    ensures SizeList()[70..72] == [512, 1514]
    ensures forall i :: 72 <= i < 82 ==> SizeList()[i] == 60
  {
  }

  /** The payloads `run_test` sends. */
  function TestFrames(): seq<seq<byte>>
  {
    IncrementingPayloads(SizeList())
  }

  /** In a passing run exactly the first two frames, those of 32 and 59
      octets, arrive padded; they arrive as 60 octets, the data followed by
      zeros. */
  lemma OnlyShortFramesPadded(received: seq<MinimumFrame.RxFrame>)
    requires MinimumFrame.TxRunPasses(TestFrames(), received)
    ensures |received| == 82
    ensures forall i :: 0 <= i < 82 ==> (received[i].payload != TestFrames()[i] <==> i < 2)
    ensures forall i :: 0 <= i < 2 ==> |received[i].payload| == MinimumFrame.MinPayloadLength
  {
    forall i | 0 <= i < 82
      ensures received[i].payload != TestFrames()[i] <==> i < 2
      ensures i < 2 ==> |received[i].payload| == MinimumFrame.MinPayloadLength
    {
      PaddedAt(received, i);
    }
  }

  lemma PaddedAt(received: seq<MinimumFrame.RxFrame>, i: nat)
    requires MinimumFrame.TxRunPasses(TestFrames(), received)
    requires i < 82
    ensures received[i].payload != TestFrames()[i] <==> i < 2
    ensures i < 2 ==> |received[i].payload| == MinimumFrame.MinPayloadLength
  {
    var sent := TestFrames();
    MinimumFrame.PaddingCheckExact(sent[i], received[i].payload);
    assert |sent[i]| == SizeList()[i];
  }
}
