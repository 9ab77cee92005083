/** The nested `create_stat_bar`: a ten-cell gauge of a base stat out of 255. */
module StatBar {
  import opened Wrappers
  import opened Text

  const MaxStat: int := 255
  const BarWidth: int := 10

  /** Full block, one filled cell. */
  const Full: char := '\U{2588}'
  /** Light shade, one empty cell. */
  const Light: char := '\U{2591}'

  /** Python's `int(a / 255)`: the quotient truncated toward zero. */
  function TruncDiv(a: int): (q: int)
    ensures a >= 0 ==> q >= 0 && q * MaxStat <= a < (q + 1) * MaxStat
    ensures a < 0 ==> q <= 0 && (q - 1) * MaxStat < a <= q * MaxStat
  {
    if a >= 0 then a / MaxStat else -((-a) / MaxStat)
  }

  /** The number of filled cells, `int((value / 255) * 10)`. */
  function Filled(value: int): int
  {
    TruncDiv(value * BarWidth)
  }

  function Bar(value: int): string
  {
    Repeat(Full, Filled(value)) + Repeat(Light, BarWidth - Filled(value))
  }

  /** The gauge, a space, then the value in decimal. For a value in 0..255
      the gauge is exactly ten cells: the first `Filled(value)` full, the rest light. */
  function CreateStatBar(value: int): (r: string)
    ensures 0 <= value <= MaxStat ==>
      && |r| == BarWidth + 1 + |IntToString(value)|
      && (forall i :: 0 <= i < BarWidth ==> r[i] == if i < Filled(value) then Full else Light)
      && r[BarWidth] == ' '
      && r[BarWidth + 1..] == IntToString(value)
  {
    Bar(value) + " " + IntToString(value)
  }

  /** For a value in 0..255 the filled count is the floor of `10 * value / 255`, between 0 and 10. */
  lemma FilledInRange(value: int)
    requires 0 <= value <= MaxStat
    ensures 0 <= Filled(value) <= BarWidth
    ensures Filled(value) * MaxStat <= value * BarWidth < (Filled(value) + 1) * MaxStat
  {
  }

  /** A larger stat never has fewer filled cells. */
  lemma FilledMonotone(v: int, w: int)
    requires v <= w
    ensures Filled(v) <= Filled(w)
  {
  }

  /** A zero stat is an all-light gauge. */
  lemma StatBarZero()
    ensures CreateStatBar(0) == Repeat(Light, BarWidth) + " 0"
  {
  }

  /** The maximum stat is an all-full gauge. */
  lemma StatBarMax()
    ensures CreateStatBar(MaxStat) == Repeat(Full, BarWidth) + " 255"
  {
  }

  /** Above 255 no light cell appears: repeating by a negative count is empty. */
  lemma NoLightAboveMax(value: int)
    requires value > MaxStat
    ensures forall i :: 0 <= i < |CreateStatBar(value)| ==> CreateStatBar(value)[i] != Light
    ensures Filled(value) >= BarWidth
  {
  }

  /** The value after the gauge reads back as the stat itself. */
  lemma StatBarValueRoundTrip(value: int)
    ensures |Bar(value)| < |CreateStatBar(value)| && CreateStatBar(value)[|Bar(value)|] == ' '
    ensures ParseInt(CreateStatBar(value)[|Bar(value)| + 1..]) == Some(value)
  {
    var r := CreateStatBar(value);
    assert r[|Bar(value)| + 1..] == IntToString(value);
    IntToStringRoundTrip(value);
  }
}
