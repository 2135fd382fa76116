/** Position sensing of one shaft: four sensor pins folded into a 4-bit mask.

    The pin order is fixed by the pin groups built at setup time:
    bit 0 = left, bit 1 = right, bit 2 = center, bit 3 = left-center.
    The MH400E_STAGE_IS_LEFT/RIGHT/CENTER/LEFT_CENTER tests are taken to be
    bit tests at exactly these positions.
 */
module Masks {

  /** A 4-bit mask: a shaft's sensed or targeted pin pattern. */
  type Nibble = n: int | 0 <= n < 16

  /** Number of sensor pins in a shaft's pin group. */
  const PinsInGroup: nat := 4

  /** The four position sensors of one shaft. */
  datatype PinGroup = PinGroup(left: bool, right: bool, center: bool, leftCenter: bool)

  /** The pins of a group in the order the sampler visits them. */
  function PinList(g: PinGroup): (pins: seq<bool>)
    ensures |pins| == PinsInGroup
  {
    [g.left, g.right, g.center, g.leftCenter]
  }

  /** Weight of pin `i` in the mask, i.e. `1 << i`. */
  function Weight(i: nat): (w: nat)
    requires i < PinsInGroup
  {
    [1, 2, 4, 8][i]
  }

  /** Bit `i` of a mask. */
  predicate Bit(m: Nibble, i: nat)
    requires i < PinsInGroup
  {
    (m / Weight(i)) % 2 == 1
  }

  predicate IsLeft(m: Nibble) { Bit(m, 0) }
  predicate IsRight(m: Nibble) { Bit(m, 1) }
  predicate IsCenter(m: Nibble) { Bit(m, 2) }
  predicate IsLeftCenter(m: Nibble) { Bit(m, 3) }

  function B2I(b: bool): nat { if b then 1 else 0 }

  /** The mask whose bit i is pin i, for the first `n` pins only. */
  function PartialMask(pins: seq<bool>, n: nat): nat
    requires n <= |pins| == PinsInGroup
  {
    (if n > 0 then B2I(pins[0]) else 0)
    + (if n > 1 then 2 * B2I(pins[1]) else 0)
    + (if n > 2 then 4 * B2I(pins[2]) else 0)
    + (if n > 3 then 8 * B2I(pins[3]) else 0)
  }

  /** Folds a pin group into its mask. Every pin sets exactly its own bit. */
  function PackPins(g: PinGroup): (m: Nibble)
    ensures IsLeft(m) == g.left && IsRight(m) == g.right
    ensures IsCenter(m) == g.center && IsLeftCenter(m) == g.leftCenter
  {
    PartialMask(PinList(g), PinsInGroup)
  }

  /** Reads the four pins back out of a mask. */
  function UnpackPins(m: Nibble): (g: PinGroup)
    ensures g.left == IsLeft(m) && g.right == IsRight(m)
    ensures g.center == IsCenter(m) && g.leftCenter == IsLeftCenter(m)
  {
    PinGroup(IsLeft(m), IsRight(m), IsCenter(m), IsLeftCenter(m))
  }

  /** Packing is injective: a mask determines its pins. */
  lemma UnpackPack(g: PinGroup)
    ensures UnpackPins(PackPins(g)) == g
  {
  }

  /** Every 4-bit value is the mask of the pins it reads back as; with
      `UnpackPack`, packing and unpacking are inverse bijections. */
  lemma PackUnpack(m: Nibble)
    ensures PackPins(UnpackPins(m)) == m
  {
    var g := UnpackPins(m);
    assert m == B2I(g.left) + 2 * B2I(g.right) + 4 * B2I(g.center) + 8 * B2I(g.leftCenter);
  }

  /** The sampler loop of get_bitmask_from_pingroup: `mask |= pin[i] << i`
      for i in 0 .. PinsInGroup. The bits are disjoint, so OR is addition. */
  method GetBitmask(group: PinGroup) returns (mask: Nibble)
    ensures forall i :: 0 <= i < PinsInGroup ==> Bit(mask, i) == PinList(group)[i]
    ensures UnpackPins(mask) == group
    ensures mask == PackPins(group)
  {
    var pins := PinList(group);
    var acc: nat := 0;
    var i := 0;
    while i < PinsInGroup
      invariant 0 <= i <= PinsInGroup
      invariant acc == PartialMask(pins, i)
    {
      if pins[i] {
        acc := acc + Weight(i);
      }
      i := i + 1;
    }
    mask := acc;
    UnpackPack(group);
  }
}
