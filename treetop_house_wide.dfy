/**
 * 2022 day 8 again, with the score map held in 32-bit cells: the same
 * scenic scores, which now cannot overflow for any forest of up to 256
 * rows, since no viewing distance exceeds 255 and 255^4 < 2^32.
 */
module TreetopHouseWide {
  import opened Common
  import opened TreetopMatrix
  import TreetopHouse

  /** A viewing distance never exceeds the side of the grid less one. */
  lemma ViewBelowSide(m: Matrix, d: nat, p: (nat, nat))
    requires Square(m) && d < 4 && TreetopHouse.InGrid(m, p)
    ensures TreetopHouse.View(m, d, p) < m.length
  {
  }

  /** 255 to the power `k + 1`. */
  function Bound(k: nat): (b: nat)
    ensures b >= 1
  {
    if k == 0 then 255 else Bound(k - 1) * 255
  }

  lemma MulMono(a: nat, b: nat, x: nat, y: nat)
    requires a <= x && b <= y
    ensures a * b <= x * y
  {
    assert a * b <= x * b;
    assert x * b <= x * y;
  }

  /** On a side of at most 256, the product of `k + 1` distances is at most 255^(k+1). */
  lemma {:induction false} PartialAtMost(m: Matrix, k: nat, p: (nat, nat))
    requires Square(m) && m.length <= 256 && k < 4 && TreetopHouse.InGrid(m, p)
    ensures TreetopHouse.Partial(m, k, p) <= Bound(k)
  {
    ViewBelowSide(m, k, p);
    if k > 0 {
      PartialAtMost(m, k - 1, p);
      TreetopHouse.PartialStep(m, k, p);
      var a, b := TreetopHouse.Partial(m, k - 1, p), TreetopHouse.View(m, k, p);
      MulMono(a, b, Bound(k - 1), 255);
      assert TreetopHouse.Partial(m, k, p) == a * b;
      assert Bound(k) == Bound(k - 1) * 255;
    }
  }

  /** Each of the four bounds is below 2^32. */
  lemma BoundsBelow()
    ensures forall k: nat :: k < 4 ==> Bound(k) < U32_LIMIT
  {
    assert Bound(0) == 255;
    assert Bound(1) == 65025;
    assert Bound(2) == 16581375;
    assert Bound(3) == 4228250625;
  }

  /** Every forest of up to 256 rows keeps its products inside 32 bits. */
  lemma SmallForestFits(m: Matrix)
    requires Square(m) && m.length <= 256
    ensures TreetopHouse.ProductsFit(m, U32_LIMIT)
  {
    BoundsBelow();
    forall k, i, j | 0 <= k < 4 && 0 <= i < m.length && 0 <= j < m.length
      ensures TreetopHouse.Partial(m, k, (i, j)) < U32_LIMIT
    {
      PartialAtMost(m, k, (i, j));
    }
  }

  /** The score map built in 32-bit cells, turned three quarters like the byte version. */
  method ScenicScoreMap(forest: Matrix) returns (ssm: Matrix)
    requires Square(forest) && forest.length <= U32_LIMIT
    requires TreetopHouse.ProductsFit(forest, U32_LIMIT)
    ensures Square(ssm) && ssm.length == forest.length
    ensures Rotated(ssm) == TreetopHouse.ScoreMap(forest)
  {
    ssm := TreetopHouse.ScenicScoreMap(forest, U32_LIMIT);
  }

  /** The program of this file: parse, build the 32-bit map, take its largest cell. */
  method BestScenicScore(data: string) returns (r: Result<nat>)
    requires TryFrom(data).Ok? ==> TryFrom(data).value.length <= U32_LIMIT && TreetopHouse.ProductsFit(TryFrom(data).value, U32_LIMIT)
    ensures TryFrom(data).Err? ==> r == Err(TryFrom(data).msg)
    ensures TryFrom(data).Ok? ==> r.Ok? && TreetopHouse.BestScore(TryFrom(data).value) == Some(r.value)
  {
    var parsed := TryFrom(data);
    if parsed.Err? {
      return Err(parsed.msg);
    }
    var forest := parsed.value;
    var ssm := ScenicScoreMap(forest);
    TreetopHouse.MaxCellRotated(ssm);
    TreetopHouse.ParsedForestNotEmpty(data);
    match TreetopHouse.MaxCell(ssm.rows)
    case None =>
      r := Err("Scenic Score Map was empty");
    case Some(best) =>
      r := Ok(best);
  }

  /** Hence any input of at most 256 lines is answered without overflow. */
  lemma SmallInputFits(data: string)
    requires TryFrom(data).Ok? && |Split(data, '\n')| <= 256
    ensures TryFrom(data).value.length <= U32_LIMIT && TreetopHouse.ProductsFit(TryFrom(data).value, U32_LIMIT)
  {
    SmallForestFits(TryFrom(data).value);
  }
}
