/** Which way the shaft motor must turn to reach a target pin pattern.

    A single motor drives all positions of a shaft; the approach direction
    depends on where the target lies on the drum: left is reached turning
    counter-clockwise (reverse on), right clockwise (reverse off), and center
    counter-clockwise unless the left-center sensor already reads high.
 */
module Direction {
  import opened Masks

  /** gearshift_need_reverse: a priority chain over the target's bits. */
  function NeedReverse(target: Nibble, current: Nibble): (rev: bool)
    ensures IsRight(target) ==> !rev
    ensures !IsRight(target) && IsLeft(target) ==> rev
    ensures !IsRight(target) && !IsLeft(target) && IsCenter(target) ==> (rev <==> !IsLeftCenter(current))
    ensures !IsRight(target) && !IsLeft(target) && !IsCenter(target) ==> !rev
  {
    if IsRight(target) then false
    else if IsLeft(target) then true
    else if IsCenter(target) then !IsLeftCenter(current)
    else false
  }

  /** The same policy as a closed arithmetic rule: reverse exactly for the
      targets 1, 5, 9, 13 (left without right), and for the targets 4 and 12
      (center without left or right) while the shaft is below the
      left-center mark. */
  lemma NeedReverseTable(target: Nibble, current: Nibble)
    ensures NeedReverse(target, current)
        <==> target % 4 == 1 || (target % 8 == 4 && current < 8)
  {
  }

  /** The current position only matters through its left-center bit. */
  lemma NeedReverseReadsOnlyLeftCenter(target: Nibble, c1: Nibble, c2: Nibble)
    requires IsLeftCenter(c1) == IsLeftCenter(c2)
    ensures NeedReverse(target, c1) == NeedReverse(target, c2)
  {
  }
}
