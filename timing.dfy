/** The time base of the EMOPIA representation and the two roundings done on ticks:
    snapping to the sixteenth-note grid (`quantize_tick`) and rescaling a file to
    480 ticks per beat (`_normalize_ticks_per_beat`). */
module Timing {

  /** `BEAT_RESOL`: ticks per quarter note. */
  const BeatResol: int := 480
  /** `BAR_RESOL`: ticks per 4/4 bar. */
  const BarResol: int := BeatResol * 4
  /** `TICK_RESOL`: ticks per sixteenth note, the quantisation grid. */
  const TickResol: int := BeatResol / 4

  /** `max(0, t)`: the least value that is at least both 0 and `t`. */
  function Max0(t: int): (r: int)
    ensures r >= 0 && r >= t && (r == 0 || r == t)
  {
    if t < 0 then 0 else t
  }

  function Abs(x: int): nat { if x < 0 then -x else x }

  /** Python's `round(n / d)` for `d > 0`: the nearest integer, an exact tie going
      to the even neighbour. */
  function RoundHalfEven(n: int, d: int): (r: int)
    requires d > 0
    ensures 2 * (n - r * d) <= d && 2 * (r * d - n) <= d
    ensures (2 * (n - r * d) == d || 2 * (r * d - n) == d) ==> r % 2 == 0
  {
    var q := n / d;
    var rem := n % d;
    assert n == q * d + rem;
    assert (q + 1) * d == q * d + d;
    if 2 * rem < d then q
    else if 2 * rem > d then q + 1
    else if q % 2 == 0 then q
    else q + 1
  }

  lemma MulStep(a: int, b: int, d: int)
    requires d > 0
    ensures a < b ==> a * d + d <= b * d
  {
    if a < b {
      var k := b - a - 1;
      assert k >= 0;
      assert k * d >= 0;
      assert b * d == a * d + k * d + d;
    }
  }

  /** The two clauses of `RoundHalfEven`'s contract pin its result down: any
      integer meeting them is that result. */
  lemma RoundHalfEvenUnique(n: int, d: int, r': int)
    requires d > 0
    requires 2 * (n - r' * d) <= d && 2 * (r' * d - n) <= d
    requires (2 * (n - r' * d) == d || 2 * (r' * d - n) == d) ==> r' % 2 == 0
    ensures r' == RoundHalfEven(n, d)
  {
    var r := RoundHalfEven(n, d);
    MulStep(r, r', d);
    MulStep(r', r, d);
    MulStep(r + 1, r', d);
    MulStep(r' + 1, r, d);
    assert (r + 1) * d == r * d + d;
    assert (r' + 1) * d == r' * d + d;
  }

  /** Rounding to the nearest integer never reverses the order of two values. */
  lemma RoundHalfEvenMonotone(n1: int, n2: int, d: int)
    requires d > 0 && n1 <= n2
    ensures RoundHalfEven(n1, d) <= RoundHalfEven(n2, d)
  {
    var r1, r2 := RoundHalfEven(n1, d), RoundHalfEven(n2, d);
    MulStep(r2, r1, d);
  }

  /** `quantize_tick(t)`: a negative tick counts as 0, and the result is the grid
      point nearest to it, an exact half-grid tie going to the even grid index. */
  function QuantizeTick(t: int): (q: int)
    ensures q >= 0 && q % TickResol == 0
    ensures 2 * (Max0(t) - q) <= TickResol && 2 * (q - Max0(t)) <= TickResol
    ensures (2 * (Max0(t) - q) == TickResol || 2 * (q - Max0(t)) == TickResol) ==> (q / TickResol) % 2 == 0
  {
    var r := RoundHalfEven(Max0(t), TickResol);
    RoundNonNegative(Max0(t), TickResol);
    GridPoint(r);
    var q := r * TickResol;
    if q < 0 then 0 else q
  }

  /** A grid index times the grid step is on the grid at that index. */
  lemma GridPoint(r: int)
    ensures (r * TickResol) % TickResol == 0 && (r * TickResol) / TickResol == r
  {
    assert TickResol == 120;
  }

  /** Rounding a non-negative quotient gives a non-negative integer. */
  lemma RoundNonNegative(n: int, d: int)
    requires n >= 0 && d > 0
    ensures RoundHalfEven(n, d) >= 0
  {
    MulStep(RoundHalfEven(n, d), 0, d);
  }

  /** The grid point `QuantizeTick` returns is the only one its contract allows. */
  lemma QuantizeTickUnique(t: int, q': int)
    requires q' >= 0 && q' % TickResol == 0
    requires 2 * (Max0(t) - q') <= TickResol && 2 * (q' - Max0(t)) <= TickResol
    requires (2 * (Max0(t) - q') == TickResol || 2 * (q' - Max0(t)) == TickResol) ==> (q' / TickResol) % 2 == 0
    ensures q' == QuantizeTick(t)
  {
    var k := q' / TickResol;
    assert q' == k * TickResol;
    RoundHalfEvenUnique(Max0(t), TickResol, k);
  }

  /** A non-negative tick already on the grid is left where it is. */
  lemma QuantizeTickOnGrid(t: int)
    requires t >= 0 && t % TickResol == 0
    ensures QuantizeTick(t) == t
  {
    QuantizeTickUnique(t, t);
  }

  /** Quantising twice is quantising once. */
  lemma QuantizeTickIdempotent(t: int)
    ensures QuantizeTick(QuantizeTick(t)) == QuantizeTick(t)
  {
    QuantizeTickOnGrid(QuantizeTick(t));
  }

  /** Quantisation keeps the order of ticks (ties may merge). */
  lemma QuantizeTickMonotone(t1: int, t2: int)
    requires t1 <= t2
    ensures QuantizeTick(t1) <= QuantizeTick(t2)
  {
    var r1, r2 := RoundHalfEven(Max0(t1), TickResol), RoundHalfEven(Max0(t2), TickResol);
    RoundHalfEvenMonotone(Max0(t1), Max0(t2), TickResol);
    assert r1 * 120 <= r2 * 120;
  }

  /** `int(round(t * (BEAT_RESOL / tpb)))`, computed exactly: the integer nearest
      to `t * 480 / tpb`, ties to even. */
  function RescaleTick(t: int, tpb: int): (r: int)
    requires tpb != 0
    ensures 2 * Abs(r * tpb - t * BeatResol) <= Abs(tpb)
  {
    if tpb > 0 then RoundHalfEven(t * BeatResol, tpb)
    else
      var r := RoundHalfEven(-t * BeatResol, -tpb);
      assert r * tpb == -(r * -tpb);
      r
  }

  /** Rescaling from 480 ticks per beat to 480 changes nothing. */
  lemma RescaleCanonical(t: int)
    ensures RescaleTick(t, BeatResol) == t
  {
    RoundHalfEvenUnique(t * BeatResol, BeatResol, t);
  }

  /** Rescaling with a positive resolution keeps the order of ticks. */
  lemma RescaleMonotone(t1: int, t2: int, tpb: int)
    requires tpb > 0 && t1 <= t2
    ensures RescaleTick(t1, tpb) <= RescaleTick(t2, tpb)
  {
    assert t1 * BeatResol <= t2 * BeatResol;
    RoundHalfEvenMonotone(t1 * BeatResol, t2 * BeatResol, tpb);
  }
}
