/** The UART receive testbench's test data: the PRBS31 generator (a 31-bit
    linear feedback shift register for the polynomial x^31 + x^28 + 1, the
    PRBS31 pattern of ITU-T O.150, section 5.8), the payloads drawn from it,
    incrementing payloads and the list of test lengths. */
module UartRx {
  import opened TestData

  /** The generator's default starting state: all 31 bits set. */
  const PrbsSeed: bv32 := 0x7fff_ffff

  /** One shift of the register: bits 0 to 29 move up one place, bit 30
      drops out, and bit 27 XOR bit 30 of the old state enters at bit 0. */
  function LfsrStep(state: bv32): (r: bv32)
    ensures r < 0x8000_0000
    ensures r >> 1 == state & 0x3fff_ffff
    ensures r & 1 == ((state >> 27) ^ (state >> 30)) & 1
    ensures state != 0 && state < 0x8000_0000 ==> r != 0
  {
    if (state & 0x0800_0000 != 0) != (state & 0x4000_0000 != 0) then
      ((state & 0x3fff_ffff) << 1) | 1
    else
      (state & 0x3fff_ffff) << 1
  }

  /** The state after n shifts. */
  function Shifted(state: bv32, n: nat): bv32
  {
    if n == 0 then state else LfsrStep(Shifted(state, n - 1))
  }

  lemma {:induction false} ShiftedAdd(state: bv32, a: nat, b: nat)
    ensures Shifted(Shifted(state, a), b) == Shifted(state, a + b)
  {
    if b > 0 {
      ShiftedAdd(state, a, b - 1);
    }
  }

  /** After at least one shift the state fits in 31 bits, and a non-zero
      31-bit state never shifts to the all-zero state, from which the
      register could not leave. */
  lemma {:induction false} ShiftedStaysNonZero(state: bv32, n: nat)
    ensures n > 0 ==> Shifted(state, n) < 0x8000_0000
    ensures state != 0 && state < 0x8000_0000 ==> Shifted(state, n) != 0
  {
    if n > 0 {
      ShiftedStaysNonZero(state, n - 1);
    }
  }

  /** The low 8 bits of a state, as the octet the generator yields. */
  function LowByte(state: bv32): bv8
  {
    (state & 0xff) as bv8
  }

  /** The first n values the generator yields from `seed`: value k is the
      low byte after 8 * (k + 1) shifts. */
  function PrbsStream(seed: bv32, n: nat): (r: seq<bv8>)
    ensures |r| == n
  {
    if n == 0 then [] else PrbsStream(seed, n - 1) + [LowByte(Shifted(seed, 8 * n))]
  }

  lemma {:induction false} PrbsStreamAt(seed: bv32, n: nat, k: nat)
    requires k < n
    ensures PrbsStream(seed, n)[k] == LowByte(Shifted(seed, 8 * (k + 1)))
  {
    if k < n - 1 {
      PrbsStreamAt(seed, n - 1, k);
    } else if n > 1 {
      PrbsStreamAt(seed, n - 1, 0);
    }
  }

  /** A shorter stream from the same seed is a prefix of a longer one. */
  lemma {:induction false} PrbsStreamPrefix(seed: bv32, n: nat, m: nat)
    requires n <= m
    ensures PrbsStream(seed, n) == PrbsStream(seed, m)[..n]
  {
    if n < m {
      PrbsStreamPrefix(seed, n, m - 1);
    } else if m > 0 {
      PrbsStreamPrefix(seed, m - 1, m - 1);
    }
  }

  /** The generator `prbs31(state)`: its only variable is the register. */
  class Prbs31 {
    var state: bv32

    constructor (seed: bv32)
      ensures state == seed
    {
      state := seed;
    }

    /** One shift of the register, in place. */
    method Shift()
      modifies this
      ensures state == LfsrStep(old(state))
    {
      if (state & 0x0800_0000 != 0) != (state & 0x4000_0000 != 0) {
        state := ((state & 0x3fff_ffff) << 1) | 1;
      } else {
        state := (state & 0x3fff_ffff) << 1;
      }
    }

    /** One resumption of the generator: eight shifts, then the low byte. */
    method Next() returns (value: bv8)
      modifies this
      ensures state == Shifted(old(state), 8)
      ensures state < 0x8000_0000
      ensures value == LowByte(state)
    {
      for i := 0 to 8
        invariant state == Shifted(old(state), i)
      {
        Shift();
      }
      value := (state & 0xff) as bv8;
    }
  }

  /** `prbs_payload(length)`: `length` values from a fresh generator with
      the default seed. */
  method PrbsPayload(length: nat) returns (payload: seq<bv8>)
    ensures payload == PrbsStream(PrbsSeed, length)
  {
    var gen := new Prbs31(PrbsSeed);
    payload := [];
    for k := 0 to length
      invariant gen.state == Shifted(PrbsSeed, 8 * k)
      invariant payload == PrbsStream(PrbsSeed, k)
    {
      var value := gen.Next();
      ShiftedAdd(PrbsSeed, 8 * k, 8);
      payload := payload + [value];
    }
  }

  /** Every payload is a prefix of every longer one, since each call starts
      its own generator from the same seed. */
  lemma PrbsPayloadPrefix(n: nat, m: nat)
    requires n <= m
    ensures PrbsStream(PrbsSeed, n) == PrbsStream(PrbsSeed, m)[..n]
  {
    PrbsStreamPrefix(PrbsSeed, n, m);
  }

  /** `size_list()` of this testbench: 1 to 15, then 128. */
  function SizeList(): (r: seq<nat>)
    ensures |r| == 16
    ensures forall i :: 0 <= i < 15 ==> r[i] == i + 1
    ensures r[15] == 128
  {
    Range(1, 16) + [128]
  }
}
