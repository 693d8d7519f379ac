# Reference models of the Ethernet and UART testbenches, in Dafny

The repository's Python testbenches (cocotb) drive VHDL Ethernet and UART
blocks. The VHDL is not part of this model. The testbenches compute what they
expect to see, and those computations are modelled here. Each expectation is
paired with a proof of what it implies.

- **XGMII start lanes** (`XgmiiTx`). The 32-bit XGMII transmit testbench
  predicts the lane on which each back-to-back frame starts. It uses the
  deficit idle count rule of IEEE 802.3 clause 46 (section 46.3.1.4). The
  state is the pair (lane, deficit idle count). It is a `LaneState` datatype
  advanced by a `Step` function. The testbench's loop is the method
  `ComputeStartLanes`, proved equal to the left fold `ReferenceLanes`. The
  lemmas give bounds, lane 0 for the first frame and for a zero gap, and the
  4-lane case. With 4 lanes every frame starts on lane 0, and the deficit idle
  count equals the total wire length modulo 4.
- **Minimum-frame padding** (`MinimumFrame`). The GMII and XGMII transmit
  tests expect short payloads to be zero-padded to 60 octets. That is 64
  octets with the FCS: the Pad field of IEEE 802.3, section 3.2.7. `Pad` is
  the expected payload. `PaddingCheck` is the testbench's assertion, with
  Python slice semantics. The two agree exactly. A whole run passes exactly
  when the sink holds the padded frames, one for one and in send order.
- **PRBS31** (`UartRx`). The UART testbench's generator is a 31-bit LFSR for
  x^31 + x^28 + 1 (ITU-T O.150, section 5.8). The generator's one variable is
  the field of class `Prbs31`. `Shift` does one shift and `Next` does eight
  shifts and yields the low byte. `PrbsPayload` draws octets from a fresh
  generator. Proved: every state after a shift fits in 31 bits; a non-zero
  state never becomes zero; value k is the low byte after 8(k+1) shifts; a
  shorter payload is a prefix of a longer one.
- **Ethernet header round trip** (`EthHeaderRx`). The header receive
  testbench rebuilds a frame from the device's header fields and payload. The
  fields are a 6-octet destination MAC, a 6-octet source MAC and a 2-octet
  EtherType, each big-endian; the MAC frame layout is in IEEE 802.3, section
  3.1.1. The rebuilt frame must equal the sent one. `ToBytesBig` and
  `FromBytesBig` are proved inverse. `ToBytesBig` fails exactly on overflow.
  `Serialize` and `Split` are proved inverse in both directions. The run check
  passes exactly when the device split each packet in order and never set
  `tuser`.
- **Test data** (`TestData`, plus each module's `SizeList`).
  `incrementing_payload`, `itertools.cycle`, `cycle_pause` and each
  testbench's `size_list`.

The four testbenches each define `incrementing_payload` with the same octets
(for example `tb/uart/uart_rx/uart_rx_tb.py:105-106` and
`tb/axis_gmii/cocotb/axis_gmii_tx/axis_gmii_tx_tb.py:92-93`); the header
testbench returns `bytes` (`tb/eth_header/eth_header_rx/eth_header_rx_tb.py:136-137`),
the others `bytearray`. It is modelled
once, as `TestData.IncrementingPayload`.

Python's `%` with a positive divisor returns a non-negative remainder. So does
Dafny's `%`, so `(lane - offset) % byte_width` is written as it stands.

The source fixes `byte_width = 4`. The model takes the number of lanes as a
parameter (any positive value) and proves the 4-lane case as a corollary. The
deficit idle count is reduced `% 4`
(`tb/axis_xgmii/cocotb/axis_xgmii_tx_32/axis_xgmii_tx_32_tb.py:142`) whatever
the lane width, so the model keeps it in `[0, 4)` for every lane width.

## Model

| member | source | states |
|---|---|---|
| TestData.Cycle | tb/eth_header/eth_header_rx/eth_header_rx_tb.py:137 | the first n elements of `itertools.cycle(pattern)`: element i is `pattern[i mod len]`; an empty pattern gives nothing |
| TestData.IncrementingPayload | tb/uart/uart_rx/uart_rx_tb.py:105-106 | the payload has the requested length and octet i is `i mod 256` |
| TestData.IncrementingPayloads | tb/axis_xgmii/cocotb/axis_xgmii_tx_32/axis_xgmii_tx_32_tb.py:72 | one incrementing payload per listed length, in list order, each exactly that long |
| MinimumFrame.Pad | tb/axis_xgmii/cocotb/axis_xgmii_tx_32/axis_xgmii_tx_32_tb.py:173-179 | the expected payload is `max(60, len)` long, 64 or more with the FCS; it starts with the data; every octet after the data is 0 |
| MinimumFrame.PaddingCheckExact | tb/axis_gmii/cocotb/axis_gmii_tx/axis_gmii_tx_tb.py:72-78 | the test's slice-and-length assertions accept a received payload if and only if it is the padded data |
| MinimumFrame.PadIdempotent | tb/axis_gmii/cocotb/axis_gmii_tx/axis_gmii_tx_tb.py:76-77 | a payload of 60 or more octets is expected unchanged, so padding twice equals padding once |
| MinimumFrame.ExpectedFrames | tb/axis_xgmii/cocotb/axis_xgmii_tx_32/axis_xgmii_tx_32_tb.py:170-183 | a correct transmitter yields one frame per frame sent, each with at least 60 payload octets |
| MinimumFrame.TxRunPassesExact | tb/axis_gmii/cocotb/axis_gmii_tx/axis_gmii_tx_tb.py:66-82 | a run passes if and only if the sink holds exactly the padded frames, one for one in send order, each with a good FCS and no error flag |
| XgmiiTx.EndLane | tb/axis_xgmii/cocotb/axis_xgmii_tx_32/axis_xgmii_tx_32_tb.py:135 | the lane before adjustment is a valid lane, congruent modulo the lane width to start + length + 4 FCS octets + gap |
| XgmiiTx.Offset | tb/axis_xgmii/cocotb/axis_xgmii_tx_32/axis_xgmii_tx_32_tb.py:138-140 | the offset is below 8 and equals the lane modulo 4; it is 4 or more exactly when deficit + lane mod 4 reaches 4 |
| XgmiiTx.Step | tb/axis_xgmii/cocotb/axis_xgmii_tx_32/axis_xgmii_tx_32_tb.py:135-142 | from any state, one frame leaves the lane in `[0, byte_width)` and the deficit idle count in `[0, 4)` |
| XgmiiTx.ComputeStartLanes | tb/axis_xgmii/cocotb/axis_xgmii_tx_32/axis_xgmii_tx_32_tb.py:124-142 | the loop builds exactly `ReferenceLanes` of the batch |
| XgmiiTx.ReferenceLanesShape | tb/axis_xgmii/cocotb/axis_xgmii_tx_32/axis_xgmii_tx_32_tb.py:127-142 | one start lane per frame, each in `[0, byte_width)`; the first frame of a batch starts on lane 0; with a zero gap every frame does |
| XgmiiTx.StepFourLanes | tb/axis_xgmii/cocotb/axis_xgmii_tx_32/axis_xgmii_tx_32_tb.py:135-142 | with 4 lanes, a step from lane 0 returns to lane 0 and the new deficit is (deficit + length + 4 + gap) mod 4; the +4 bump never changes it |
| XgmiiTx.FourLanesStateAfter | tb/axis_xgmii/cocotb/axis_xgmii_tx_32/axis_xgmii_tx_32_tb.py:127-142 | with 4 lanes, after any batch the lane is 0 and the deficit idle count is the batch's total wire length mod 4 |
| XgmiiTx.FourLanesAllStartOnLaneZero | tb/axis_xgmii/cocotb/axis_xgmii_tx_32/axis_xgmii_tx_32_tb.py:94-141 | with 4 lanes every reference start lane is 0 |
| XgmiiTx.AlignmentBatch | tb/axis_xgmii/cocotb/axis_xgmii_tx_32/axis_xgmii_tx_32_tb.py:106 | a batch is ten identical incrementing payloads of the given length |
| XgmiiTx.AlignmentTestExpectsLaneZero | tb/axis_xgmii/cocotb/axis_xgmii_tx_32/axis_xgmii_tx_32_tb.py:90-146 | for every length from 60 to 91, with 4 lanes and a gap of 12, the reference list is ten 0s |
| XgmiiTx.SizeList | tb/axis_xgmii/cocotb/axis_xgmii_tx_32/axis_xgmii_tx_32_tb.py:265-266 | 81 lengths, none below the 60-octet minimum |
| XgmiiTx.SizeListContents | tb/axis_xgmii/cocotb/axis_xgmii_tx_32/axis_xgmii_tx_32_tb.py:266 | the lengths are 60 to 127, 512, 1514, 9214, then ten times 60 |
| XgmiiTx.RunTestNeverPads | tb/axis_xgmii/cocotb/axis_xgmii_tx_32/axis_xgmii_tx_32_tb.py:74-84 | for the test's lengths, the exact-equality check of `run_test` accepts the same runs as the padding check |
| XgmiiTx.PaddingTestLengths | tb/axis_xgmii/cocotb/axis_xgmii_tx_32/axis_xgmii_tx_32_tb.py:165-183 | in a passing padding test the received payloads are 60, 60, 60, 60, 60, 60, 62, 63, 65 octets long |
| GmiiTx.SizeList | tb/axis_gmii/cocotb/axis_gmii_tx/axis_gmii_tx_tb.py:88-89 | 82 lengths, of which exactly the first two are below the minimum |
| GmiiTx.SizeListContents | tb/axis_gmii/cocotb/axis_gmii_tx/axis_gmii_tx_tb.py:89 | the lengths are 32, 59, 60 to 127, 512, 1514, then ten times 60 |
| GmiiTx.OnlyShortFramesPadded | tb/axis_gmii/cocotb/axis_gmii_tx/axis_gmii_tx_tb.py:64-82 | in a passing run exactly the 32- and 59-octet frames arrive changed, each as 60 octets |
| UartRx.LfsrStep | tb/uart/uart_rx/uart_rx_tb.py:94-97 | one shift: the result fits in 31 bits; its bits 1..30 are the old bits 0..29; bit 0 is bit 27 XOR bit 30; a non-zero 31-bit state stays non-zero |
| UartRx.ShiftedStaysNonZero | tb/uart/uart_rx/uart_rx_tb.py:92-97 | after any positive number of shifts the state is below 2^31, and a non-zero 31-bit seed never reaches 0 |
| UartRx.PrbsStreamAt | tb/uart/uart_rx/uart_rx_tb.py:92-98 | value k of the stream is the low byte of the state after exactly 8(k+1) shifts |
| UartRx.PrbsStreamPrefix | tb/uart/uart_rx/uart_rx_tb.py:92-98 | from one seed, the first n values are a prefix of the first m, for n <= m |
| UartRx.Prbs31.constructor | tb/uart/uart_rx/uart_rx_tb.py:91 | the generator starts with the given state |
| UartRx.Prbs31.Shift | tb/uart/uart_rx/uart_rx_tb.py:94-97 | the state is replaced by its `LfsrStep` |
| UartRx.Prbs31.Next | tb/uart/uart_rx/uart_rx_tb.py:92-98 | one resumption shifts the state exactly 8 times, leaves it below 2^31, and yields its low byte |
| UartRx.PrbsPayload | tb/uart/uart_rx/uart_rx_tb.py:109-111 | a fresh generator from 0x7fffffff yields exactly the first `length` stream values |
| UartRx.PrbsPayloadPrefix | tb/uart/uart_rx/uart_rx_tb.py:109-111 | every PRBS payload is a prefix of every longer one |
| UartRx.SizeList | tb/uart/uart_rx/uart_rx_tb.py:101-102 | the lengths are 1 to 15, then 128 |
| EthHeaderRx.FromBytesBig | tb/eth_header/eth_header_rx/eth_header_rx_tb.py:87-88 | the big-endian value of n octets, the decoding that `to_bytes(n, 'big')` inverts, is below 256^n |
| EthHeaderRx.ToBytesBig | tb/eth_header/eth_header_rx/eth_header_rx_tb.py:87-88 | `to_bytes(n, 'big')` fails with an overflow exactly when x >= 256^n; otherwise it gives n octets that decode to x |
| EthHeaderRx.DecodeEncode | tb/eth_header/eth_header_rx/eth_header_rx_tb.py:87-88 | encoding a value that fits, most significant octet first, then decoding gives the value back |
| EthHeaderRx.EncodeDecode | tb/eth_header/eth_header_rx/eth_header_rx_tb.py:87-88 | decoding any octets and encoding back to the same width succeeds and gives the octets back |
| EthHeaderRx.Serialize | tb/eth_header/eth_header_rx/eth_header_rx_tb.py:86-92 | a frame is built exactly when every field fits its width; it is 14 + payload octets long and ends with the payload |
| EthHeaderRx.Split | tb/eth_header/eth_header_rx/eth_header_rx_tb.py:38-40 | a frame splits exactly when it has at least 14 octets; the fields then fit and the payload is the rest |
| EthHeaderRx.SplitSerialize | tb/eth_header/eth_header_rx/eth_header_rx_tb.py:106-119 | splitting a serialized frame gives back its header and payload |
| EthHeaderRx.SerializeSplit | tb/eth_header/eth_header_rx/eth_header_rx_tb.py:106-119 | serializing the split of any frame of 14 or more octets gives the frame back, octet for octet |
| EthHeaderRx.Recv | tb/eth_header/eth_header_rx/eth_header_rx_tb.py:80-92 | a payload with `tuser` set is rejected; otherwise the rebuilt frame is 14 + payload octets and splits back into the received header and payload |
| EthHeaderRx.RunPassesExact | tb/eth_header/eth_header_rx/eth_header_rx_tb.py:104-122 | with one header and one payload per packet, the run passes if and only if each packet, in order, splits into its header and payload and no `tuser` is set |
| EthHeaderRx.TestPacket | tb/eth_header/eth_header_rx/eth_header_rx_tb.py:107-108 | a test packet is 14 + payload octets long and splits into the test header and the payload |
| EthHeaderRx.CyclePause | tb/eth_header/eth_header_rx/eth_header_rx_tb.py:128-129 | element i is 0 exactly when i mod 4 is 3 and 1 otherwise |
| EthHeaderRx.SizeList | tb/eth_header/eth_header_rx/eth_header_rx_tb.py:132-133 | 140 lengths; the last ten payloads make packets of exactly the 60-octet minimum |
| EthHeaderRx.SizeListContents | tb/eth_header/eth_header_rx/eth_header_rx_tb.py:133 | the lengths are 1 to 127, 512, 1500, 9200, then ten times 46 |
| EthHeaderRx.TestPackets | tb/eth_header/eth_header_rx/eth_header_rx_tb.py:106-110 | packet i splits into the test header and an incrementing payload of listed length i |
| EthHeaderRx.SplitAll | tb/eth_header/eth_header_rx/eth_header_rx_tb.py:81-84 | a device that splits exactly gives one header and one untagged payload per packet, each splitting back |
| EthHeaderRx.SplitDevicePasses | tb/eth_header/eth_header_rx/eth_header_rx_tb.py:104-122 | such a device passes the run check for any packets of at least 14 octets |
| EthHeaderRx.TestRunPasses | tb/eth_header/eth_header_rx/eth_header_rx_tb.py:104-122 | the test's own packets are long enough, so such a device passes `run_test` |

## Left out

- The cocotb harness is not modelled: `TB` classes, clocks, resets, async send and receive, `RisingEdge` waits, `TestFactory` registration and logging. It drives the simulation and computes nothing.
- The FCS is not computed. `check_fcs()` belongs to an external library whose code is not part of this model, so the CRC-32 check is a boolean field (`fcsOk`) of each received frame.
- The underrun and error-injection tests (`axis_xgmii_tx_32_tb.py:189-262`) are not modelled. They expect the XGMII Error character 0xFE with its control bit set. That outcome depends on device timing, and the testbench computes nothing for it.
- The UART `run_test` and the prescale `int(1/10e-9/baud)` are not modelled. The prescale is floating-point arithmetic. The test never compares the received data with the sent data, so no UART round trip is claimed.
- The scapy `Ether` object is modelled only by the octets it produces. Its parsing of the MAC strings `'DA:D1:D2:D3:D4:D5'` and `'5A:51:52:53:54:55'` is replaced by the integer constants of `TestHeader`. The re-parse `Ether(bytes(rx_pkt))` is taken to give back the same octets.
- EthHeaderRx.Split: the octet split is what the test expects of the header extractor. The extractor itself is VHDL and is not part of this model.
- `tb/axis_gmii/cocotb/axis_gmii/axis_gmii_tb.py` is not modelled: it is harness across two clock domains, and its helpers repeat those modelled here.
- UartRx.Prbs31.constructor: takes a 32-bit seed. `prbs31(state)` accepts any Python integer, but only bits 0 to 30 of the seed affect anything after the first shift.
- UartRx.PrbsPayload: returns `bv8` values rather than `TestData.byte`. The two are the same octets; the bit-vector type keeps the generator's proofs cheap.
- XgmiiTx.ComputeStartLanes takes the frames of one batch. The outer loop over lengths 60 to 91 and the comparison with observed lanes (line 146) are covered by `AlignmentTestExpectsLaneZero`, not by a method.
