/**
 * 2022 day 14: two corners of a rock path are turned into an axis-aligned
 * span, a starting point with a length and an orientation.
 */
module RegolithReservoir {
  import opened Common

  type Point = (nat, nat)

  /** `length` cells from a starting point, rightwards when `horizontal`, else downwards. */
  datatype AxisSpan = AxisSpan(length: nat, horizontal: bool)

  /** `u32::abs_diff`. */
  function AbsDiff(a: nat, b: nat): nat
  {
    if a < b then b - a else a - b
  }

  /** The far end of a span. */
  function EndPoint(start: Point, span: AxisSpan): Point
  {
    if span.horizontal then (start.0 + span.length, start.1) else (start.0, start.1 + span.length)
  }

  /**
   * Two distinct points sharing a column or a row give the span between
   * them, starting from the point nearer the origin; any other pair is an
   * error.
   */
  function ExtrudeCollinearPoints(a: Point, b: Point): (r: Result<(Point, AxisSpan)>)
    ensures r.Ok? <==> a != b && (a.0 == b.0 || a.1 == b.1)
    ensures r.Ok? ==> r.value.1.length > 0 && {r.value.0, EndPoint(r.value.0, r.value.1)} == {a, b}
    ensures r.Ok? ==> (r.value.1.horizontal <==> a.1 == b.1)
    ensures a == b ==> r == Err("Points are not collinear (they are the same)")
    ensures a.0 != b.0 && a.1 != b.1 ==> r == Err("Points are not collinear")
  {
    var dx := AbsDiff(a.0, b.0);
    var dy := AbsDiff(a.1, b.1);
    if dx == 0 && dy == 0 then Err("Points are not collinear (they are the same)")
    else if dx == 0 then
      var point := if a.1 < b.1 then a else b;
      Ok((point, AxisSpan(dy, false)))
    else if dy == 0 then
      var point := if a.0 < b.0 then a else b;
      Ok((point, AxisSpan(dx, true)))
    else Err("Points are not collinear")
  }

  /** The order of the two points does not matter. */
  lemma ExtrudeSymmetric(a: Point, b: Point)
    ensures ExtrudeCollinearPoints(a, b) == ExtrudeCollinearPoints(b, a)
  {
  }

  /** A span is recovered from its two ends. */
  lemma ExtrudeEndPoints(start: Point, span: AxisSpan)
    requires span.length > 0
    ensures ExtrudeCollinearPoints(start, EndPoint(start, span)) == Ok((start, span))
  {
  }

  /** The three examples: a vertical pair, a horizontal pair and a repeated point. */
  lemma ExtrudeExamples()
    ensures ExtrudeCollinearPoints((12, 13), (12, 12)) == Ok(((12, 12), AxisSpan(1, false)))
    ensures ExtrudeCollinearPoints((1, 13), (20, 13)) == Ok(((1, 13), AxisSpan(19, true)))
    ensures ExtrudeCollinearPoints((1, 1), (1, 1)).Err?
  {
  }
}
