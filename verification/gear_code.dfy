/** The 12-bit gear code and its resolution to a named gear.

    A gear's value packs the three shafts' target masks as
    `input << 8 | midrange << 4 | backgear`. The table of known gears and the
    search tree over it are not part of this model: the tree is an abstract
    partial map from a code to an index into the gear table, and the neutral
    entry is described by its index and its value, which is a single
    backgear nibble.
 */
module GearCode {
  import opened Masks

  datatype Option<T> = None | Some(value: T)

  /** The three shafts' masks, one nibble per shaft. */
  datatype Nibbles = Nibbles(input: Nibble, midrange: Nibble, backgear: Nibble)

  /** The external gear table as the core sees it. */
  datatype GearTable = GearTable(neutralIndex: nat, neutralValue: Nibble, search: map<int, nat>)

  /** `input << 8 | midrange << 4 | backgear`; the nibbles occupy disjoint
      bits, so OR is addition. */
  function Combine(n: Nibbles): (code: int)
    ensures 0 <= code < 4096
    ensures code % 16 == n.backgear
    ensures code / 16 % 16 == n.midrange
    ensures code / 256 == n.input
  {
    n.input * 256 + n.midrange * 16 + n.backgear
  }

  /** The nibble split of gearshift_start: `value & 0xf`,
      `(value & 0xf0) >> 4` and `(value & 0xf00) >> 8`. */
  function Split(value: int): (n: Nibbles)
    ensures Combine(n) == value % 4096
  {
    SplitCombine(value);
    Nibbles(value % 4096 / 256, value % 256 / 16, value % 16)
  }

  /** Reducing modulo 4096 first does not change the value modulo 256. */
  lemma Mod4096Mod256(value: int)
    ensures value % 4096 % 256 == value % 256
  {
    var q, w := value / 4096, value % 4096;
    var b := w % 256;
    assert w == 256 * (w / 256) + b;
    assert value == 256 * (16 * q + w / 256) + b;
  }

  /** Reducing modulo 256 first does not change the value modulo 16. */
  lemma Mod256Mod16(value: int)
    ensures value % 256 % 16 == value % 16
  {
    var q, w := value / 256, value % 256;
    var b := w % 16;
    assert w == 16 * (w / 16) + b;
    assert value == 16 * (16 * q + w / 16) + b;
  }

  /** Reducing modulo 4096 first does not change the value modulo 16. */
  lemma Mod4096Mod16(value: int)
    ensures value % 4096 % 16 == value % 16
  {
    Mod4096Mod256(value);
    Mod256Mod16(value % 4096);
    Mod256Mod16(value);
  }

  lemma NibbleSum(w: int)
    requires 0 <= w < 4096
    ensures (w / 256) * 256 + (w % 256 / 16) * 16 + w % 16 == w
  {
  }

  lemma SplitCombine(value: int)
    ensures (value % 4096 / 256) * 256 + (value % 256 / 16) * 16 + value % 16 == value % 4096
  {
    Mod4096Mod256(value);
    Mod4096Mod16(value);
    NibbleSum(value % 4096);
  }

  /** Splitting a combined code gives back the nibbles it was built from. */
  lemma CombineSplit(n: Nibbles)
    ensures Split(Combine(n)) == n
  {
  }

  /** get_current_gear: neutral as soon as the backgear reads the neutral
      nibble, otherwise whatever the search finds for the combined code. */
  function CurrentGear(table: GearTable, current: Nibbles): (r: Option<nat>)
    ensures current.backgear == table.neutralValue ==> r == Some(table.neutralIndex)
    ensures current.backgear != table.neutralValue ==>
      (r.Some? <==> Combine(current) in table.search)
    ensures current.backgear != table.neutralValue && r.Some? ==>
      r.value == table.search[Combine(current)]
  {
    if current.backgear == table.neutralValue then Some(table.neutralIndex)
    else
      var code := Combine(current);
      if code in table.search then Some(table.search[code]) else None
  }

  /** For neutral the input and midrange shafts are don't-cares. */
  lemma NeutralIgnoresUpperShafts(table: GearTable, a: Nibbles, b: Nibbles)
    requires a.backgear == b.backgear == table.neutralValue
    ensures CurrentGear(table, a) == CurrentGear(table, b)
  {
  }

  /** Combine is injective: two different readings never share a code, so
      away from neutral the search sees every nibble. */
  lemma DistinctReadingsDistinctCodes(a: Nibbles, b: Nibbles)
    requires a != b
    ensures Combine(a) != Combine(b)
  {
    CombineSplit(a);
    CombineSplit(b);
  }
}
