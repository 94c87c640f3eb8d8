/** The content masks of PubSub messages: integers whose bits say which members are there. */
module PubSubMasks {
  import opened Prelude

  // NetworkMessage mask of the UADP mapping.
  const NM_PUBLISHER_ID: nat := 0
  const NM_GROUP_HEADER: nat := 1
  const NM_WRITER_GROUP_ID: nat := 2
  const NM_GROUP_VERSION: nat := 3
  const NM_MESSAGE_NUMBER: nat := 4
  const NM_SEQUENCE_NUMBER: nat := 5
  const NM_PAYLOAD_HEADER: nat := 6
  const NM_TIME: nat := 7
  const NM_PICO: nat := 8
  const NM_CLASS_ID: nat := 9
  const NM_PROMOTED: nat := 10

  // DataSetMessage mask of the UADP mapping.
  const DM_TIME: nat := 0
  const DM_PICO: nat := 1
  const DM_STATUS: nat := 2
  const DM_MAJOR: nat := 3
  const DM_MINOR: nat := 4
  const DM_SEQUENCE_NUMBER: nat := 5

  // NetworkMessage mask of the JSON mapping; bit 2, a single DataSetMessage, is never set.
  const JN_NETWORK_HEADER: nat := 0
  const JN_MESSAGE_HEADER: nat := 1
  const JN_PUBLISHER_ID: nat := 3
  const JN_CLASS_ID: nat := 4

  // DataSetMessage mask of the JSON mapping.
  const JM_WRITER_ID: nat := 0
  const JM_VERSION: nat := 1
  const JM_SEQUENCE_NUMBER: nat := 2
  const JM_TIME: nat := 3
  const JM_STATUS: nat := 4
  const JM_TYPE: nat := 5

  // Encoding mask of a DataValue.
  const DV_VALUE: nat := 0
  const DV_STATUS: nat := 1
  const DV_SOURCE_TIME: nat := 2
  const DV_SERVER_TIME: nat := 3
  const DV_SOURCE_PICO: nat := 4
  const DV_SERVER_PICO: nat := 5

  // DataSetFieldContentMask.
  const FC_STATUS: nat := 0
  const FC_SOURCE_TIME: nat := 1
  const FC_SERVER_TIME: nat := 2
  const FC_SOURCE_PICO: nat := 3
  const FC_SERVER_PICO: nat := 4
  const FC_RAW_DATA: nat := 5

  /** The integer with the bits from `k` on, lowest first. */
  function MaskFrom(bits: seq<bool>, k: nat): nat
    decreases |bits| - k
  {
    if k >= |bits| then 0 else (if bits[k] then 1 else 0) + 2 * MaskFrom(bits, k + 1)
  }

  const LOWEST: nat := 0

  function MaskOf(bits: seq<bool>): nat { MaskFrom(bits, LOWEST) }

  /** Bit `k` of an integer, as `m & (1 << k) != 0` tests it. */
  predicate Bit(n: nat, k: nat) { if k == 0 then n % 2 == 1 else Bit(n / 2, k - 1) }

  /** `n | 1 << k`. */
  function OrBit(n: nat, k: nat): nat { if Bit(n, k) then n else n + Pow2(k) }

  lemma HalfOf(bits: seq<bool>, i: nat)
    requires i < |bits|
    ensures MaskFrom(bits, i) / 2 == MaskFrom(bits, i + 1) && (MaskFrom(bits, i) % 2 == 1 <==> bits[i])
  {
  }

  lemma {:induction false} BitFrom(bits: seq<bool>, i: nat, k: nat)
    requires i + k < |bits|
    ensures Bit(MaskFrom(bits, i), k) <==> bits[i + k]
    decreases k
  {
    HalfOf(bits, i);
    if k > 0 {
      BitFrom(bits, i + 1, k - 1);
    }
  }

  lemma MaskBit(bits: seq<bool>, k: nat)
    requires k < |bits|
    ensures Bit(MaskOf(bits), k) <==> bits[k]
  {
    BitFrom(bits, LOWEST, k);
  }

  /** Every bit of a mask tests as it was set. */
  lemma MaskBits(bits: seq<bool>)
    ensures forall k: nat :: k < |bits| ==> (Bit(MaskOf(bits), k) <==> bits[k])
  {
    forall k: nat | k < |bits| ensures Bit(MaskOf(bits), k) <==> bits[k] { MaskBit(bits, k); }
  }

  lemma {:induction false} SameFrom(bits: seq<bool>, more: seq<bool>, i: nat)
    requires |bits| == |more| && forall j :: i <= j < |bits| ==> bits[j] == more[j]
    ensures MaskFrom(more, i) == MaskFrom(bits, i)
    decreases |bits| - i
  {
    if i < |bits| { SameFrom(bits, more, i + 1); }
  }

  lemma {:induction false} OrFrom(bits: seq<bool>, more: seq<bool>, i: nat, k: nat)
    requires i + k < |bits| && more == bits[i + k := true]
    ensures MaskFrom(more, i) == OrBit(MaskFrom(bits, i), k)
    decreases k
  {
    if k == 0 {
      SameFrom(bits, more, i + 1);
    } else {
      OrFrom(bits, more, i + 1, k - 1);
      assert MaskFrom(bits, i) / 2 == MaskFrom(bits, i + 1);
    }
  }

  /** Or-ing with a bit sets it and changes no other. */
  lemma MaskOr(bits: seq<bool>, k: nat)
    requires k < |bits|
    ensures MaskOf(bits[k := true]) == OrBit(MaskOf(bits), k)
  {
    OrFrom(bits, bits[k := true], LOWEST, k);
  }

  function One(b: bool): nat { if b then 1 else 0 }

  lemma FiveBits(b: seq<bool>, k: nat)
    requires k + 5 <= |b|
    ensures MaskFrom(b, k) == One(b[k]) + 2 * One(b[k + 1]) + 4 * One(b[k + 2]) + 8 * One(b[k + 3])
                              + 16 * One(b[k + 4]) + 32 * MaskFrom(b, k + 5)
  {
    assert MaskFrom(b, k) == One(b[k]) + 2 * MaskFrom(b, k + 1);
    assert MaskFrom(b, k + 1) == One(b[k + 1]) + 2 * MaskFrom(b, k + 2);
    assert MaskFrom(b, k + 2) == One(b[k + 2]) + 2 * MaskFrom(b, k + 3);
    assert MaskFrom(b, k + 3) == One(b[k + 3]) + 2 * MaskFrom(b, k + 4);
    assert MaskFrom(b, k + 4) == One(b[k + 4]) + 2 * MaskFrom(b, k + 5);
  }

  /** The number of a mask of six members. */
  lemma MaskNumber(b: seq<bool>)
    requires |b| == 6
    ensures MaskOf(b) == One(b[0]) + 2 * One(b[1]) + 4 * One(b[2]) + 8 * One(b[3]) + 16 * One(b[4]) + 32 * One(b[5])
  {
    FiveBits(b, LOWEST);
    assert MaskFrom(b, LOWEST + 5) == One(b[5]) + 2 * MaskFrom(b, LOWEST + 6);
  }

  /** The number of a mask of eleven members. */
  lemma ElevenBits(b: seq<bool>)
    requires |b| == 11
    ensures MaskOf(b) == One(b[0]) + 2 * One(b[1]) + 4 * One(b[2]) + 8 * One(b[3]) + 16 * One(b[4]) + 32 * One(b[5])
                         + 64 * One(b[6]) + 128 * One(b[7]) + 256 * One(b[8]) + 512 * One(b[9]) + 1024 * One(b[10])
  {
    var k := LOWEST;
    FiveBits(b, k);
    FiveBits(b, k + 5);
    assert MaskFrom(b, k + 10) == One(b[10]) + 2 * MaskFrom(b, k + 11);
  }

  function Blank(n: nat): seq<bool> { seq(n, _ => false) }

  lemma BlankMask(n: nat)
    ensures MaskOf(Blank(n)) == 0
  {
    BlankFrom(Blank(n), LOWEST);
  }

  lemma {:induction false} BlankFrom(bits: seq<bool>, i: nat)
    requires forall j :: 0 <= j < |bits| ==> !bits[j]
    ensures MaskFrom(bits, i) == 0
    decreases |bits| - i
  {
    if i < |bits| { BlankFrom(bits, i + 1); }
  }

  /** Sets a bit of a mask if its member is there. */
  method Mark(n: nat, k: nat, on: bool, ghost bits: seq<bool>) returns (m: nat, ghost b: seq<bool>)
    requires k < |bits| && n == MaskOf(bits)
    ensures b == bits[k := bits[k] || on] && m == MaskOf(b)
  {
    m, b := n, bits[k := bits[k] || on];
    if on {
      MaskOr(bits, k);
      m := OrBit(n, k);
    } else {
      assert b == bits;
    }
  }
}
