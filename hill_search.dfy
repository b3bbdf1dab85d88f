/**
 * The breadth-first search shared by the two day 12 programs of 2022, as
 * values: the rule by which the search may step from one square to the
 * next, the squares it stops at, the table of recorded directions with the
 * invariants the search keeps, and what one survey and one round of
 * surveys do to the search state. Each program's searcher class is proved
 * against these functions.
 */
module HillSearch {
  import opened Common
  import opened HillGrid

  // ------------------------------------------------------------------
  // The climbing rules
  // ------------------------------------------------------------------

  /**
   * The rule of the first program, which climbs from `S` to `E`, or of
   * the second, which searches its inverted map from the summit down to
   * the lowest squares.
   */
  datatype Rule = Ascend | Descend

  /** The squares, where the search starts, and the rule it follows. */
  datatype Hill = Hill(grid: Matrix<Square>, start: Coord, rule: Rule)

  /** A rectangular grid whose start is a Start square inside it. */
  predicate ValidHill(hill: Hill)
  {
    Rectangular(hill.grid) && InBounds(hill.grid, hill.start) && At(hill.grid, hill.start) == Start
  }

  /**
   * The elevation a dequeued square is surveyed with. The first program
   * uses an elevation's own value and none for Start; the second uses the
   * fixed elevations of Start and End beside the elevations themselves.
   */
  function Expansion(rule: Rule, sq: Square): (r: Option<nat>)
    ensures rule == Ascend ==> (r.Some? <==> sq.Elevation?) && (sq.Elevation? ==> r == Some(sq.e))
    ensures rule == Descend ==> r == Some(Height(sq))
  {
    match rule
    case Ascend => if sq.Elevation? then Some(sq.e) else None
    case Descend => Some(Height(sq))
  }

  /**
   * Whether a survey with `elevation` may step onto `target`: at most one
   * higher. The first program checks only an elevation reached from an
   * elevation, so Start and End targets and every step from Start are
   * exempt; the second compares the fixed heights of every square.
   */
  predicate Admits(rule: Rule, elevation: Option<nat>, target: Square)
  {
    match rule
    case Ascend => target.Elevation? && elevation.Some? ==> target.e <= elevation.value + 1
    case Descend => elevation.Some? ==> Height(target) <= elevation.value + 1
  }

  /**
   * The squares at which the search stops: End in the first program; End
   * or elevation 26 in the second.
   */
  predicate Goal(rule: Rule, sq: Square)
  {
    match rule
    case Ascend => sq == End
    case Descend => sq == End || sq == Elevation(26)
  }

  /** A step the search may take from cell `p` in direction `d`. */
  predicate Edge(hill: Hill, p: Coord, d: Direction)
  {
    InBounds(hill.grid, p) && StepFrom(d, p).Some? && InBounds(hill.grid, StepFrom(d, p).value) &&
    Admits(hill.rule, Expansion(hill.rule, At(hill.grid, p)), At(hill.grid, StepFrom(d, p).value))
  }

  /**
   * A cell is reachable in `n` steps: the start in none, and otherwise a
   * legal step from a cell that is no goal and is reachable in `n - 1`.
   */
  ghost predicate Reachable(hill: Hill, c: Coord, n: nat)
    decreases n
  {
    if n == 0 then c == hill.start
    else exists p, d :: Reachable(hill, p, n - 1) && Edge(hill, p, d) && !Goal(hill.rule, At(hill.grid, p)) && StepFrom(d, p) == Some(c)
  }

  /** A goal square at a cell of the hill. */
  predicate IsGoal(hill: Hill, c: Coord)
  {
    InBounds(hill.grid, c) && Goal(hill.rule, At(hill.grid, c))
  }

  /**
   * The directions read back from `from`: each leads to a cell that is no
   * goal, from which the opposite direction is a legal step back to where
   * the direction was read.
   */
  ghost predicate LegalBack(hill: Hill, from: Coord, path: seq<Direction>)
    decreases |path|
  {
    path == [] ||
    (StepFrom(path[0], from).Some? &&
     var p := StepFrom(path[0], from).value;
     Edge(hill, p, Neg(path[0])) && !Goal(hill.rule, At(hill.grid, p)) && StepFrom(Neg(path[0]), p) == Some(from) &&
     LegalBack(hill, p, path[1..]))
  }

  // ------------------------------------------------------------------
  // The search table and its invariants, as values
  // ------------------------------------------------------------------

  /**
   * The recorded direction of `c` leads to a cell one step shallower, from
   * which the opposite direction is a legal step back onto `c`.
   */
  ghost predicate Linked(hill: Hill, searched: Matrix<Option<Direction>>, depth: map<Coord, nat>, c: Coord)
  {
    c in depth && InBounds(searched, c) && At(searched, c).Some? &&
    var m := At(searched, c).value;
    StepFrom(m, c).Some? &&
    var p := StepFrom(m, c).value;
    p in depth && depth[p] + 1 == depth[c] && Edge(hill, p, Neg(m)) && !Goal(hill.rule, At(hill.grid, p)) &&
    StepFrom(Neg(m), p) == Some(c)
  }

  /** The table is as wide and as high as the map, and both are rectangular. */
  predicate Fits(hill: Hill, searched: Matrix<Option<Direction>>)
  {
    Rectangular(hill.grid) && Rectangular(searched) && searched.width == hill.grid.width && searched.height == hill.grid.height
  }

  /**
   * The table matches the map's size; the start has depth 0; every other
   * cell with a depth is linked to its parent; every marked cell and every
   * queued cell has a depth.
   */
  ghost predicate Consistent(hill: Hill, searched: Matrix<Option<Direction>>, depth: map<Coord, nat>, queue: seq<Coord>)
  {
    ValidHill(hill) && Fits(hill, searched) &&
    hill.start in depth && depth[hill.start] == 0 &&
    (forall c :: c in depth ==> InBounds(hill.grid, c)) &&
    (forall c {:trigger Linked(hill, searched, depth, c)} :: c in depth && c != hill.start ==> Linked(hill, searched, depth, c)) &&
    (forall c :: InBounds(searched, c) && At(searched, c).Some? ==> c in depth) &&
    (forall k :: 0 <= k < |queue| ==> queue[k] in depth)
  }

  /** `c` is no goal, and every legal step from it leads to a cell at most one deeper. */
  ghost predicate Expanded(hill: Hill, depth: map<Coord, nat>, c: Coord)
  {
    c in depth && InBounds(hill.grid, c) && !Goal(hill.rule, At(hill.grid, c)) &&
    forall d :: Edge(hill, c, d) ==> StepFrom(d, c).value in depth && depth[StepFrom(d, c).value] <= depth[c] + 1
  }

  /**
   * The breadth-first frontier: every cell with a depth is expanded (in
   * `done`) or queued; expanded cells are at most `level` deep and all
   * cells at most one deeper; queued cells that are not yet expanded are
   * in order of depth, from `level` on. Until the start is expanded it is
   * the only queued cell.
   */
  ghost predicate Frontier(hill: Hill, depth: map<Coord, nat>, queue: seq<Coord>, done: set<Coord>, level: nat)
  {
    (hill.start in done || (queue == [hill.start] && done == {})) &&
    (forall c :: c in depth ==> c in done || c in queue) &&
    (forall c :: c in done ==> Expanded(hill, depth, c) && depth[c] <= level) &&
    (forall c :: c in depth ==> depth[c] <= level + 1) &&
    (forall k :: 0 <= k < |queue| && queue[k] !in done ==> queue[k] in depth && level <= depth[queue[k]]) &&
    (forall i, j :: 0 <= i < j < |queue| && queue[i] !in done && queue[j] !in done ==>
      queue[i] in depth && queue[j] in depth && depth[queue[i]] <= depth[queue[j]])
  }

  /** Every cell reachable in at most `level` steps has a depth no larger than its step count. */
  ghost predicate Complete(hill: Hill, depth: map<Coord, nat>, level: nat)
  {
    forall n: nat, x :: n <= level && Reachable(hill, x, n) ==> x in depth && depth[x] <= n
  }

  /** `t` one step deeper than `position`, unless it is the start, which stays at depth 0. */
  function Deepen(hill: Hill, depth: map<Coord, nat>, position: Coord, t: Coord): (r: map<Coord, nat>)
    requires position in depth
    ensures r.Keys == depth.Keys + (if t == hill.start then {} else {t})
  {
    if t == hill.start then depth else depth[t := depth[position] + 1]
  }

  /** An unmarked cell other than the start has no depth yet. */
  lemma UnmarkedFresh(hill: Hill, searched: Matrix<Option<Direction>>, depth: map<Coord, nat>, queue: seq<Coord>, t: Coord)
    requires Consistent(hill, searched, depth, queue)
    requires InBounds(searched, t) && At(searched, t).None?
    ensures t == hill.start || t !in depth
  {
    assert t in depth && t != hill.start ==> Linked(hill, searched, depth, t);
  }

  /** After marking a fresh neighbour reached by a legal step, every cell with a depth is still linked. */
  lemma MarkKeepsLinks(hill: Hill, searched: Matrix<Option<Direction>>, depth: map<Coord, nat>, queue: seq<Coord>, position: Coord, direction: Direction)
    requires Consistent(hill, searched, depth, queue) && position in depth && !Goal(hill.rule, At(hill.grid, position))
    requires Edge(hill, position, direction)
    requires InBounds(searched, StepFrom(direction, position).value)
    requires var t := StepFrom(direction, position).value; t == hill.start || t !in depth
    ensures var t := StepFrom(direction, position).value;
      var after := Store(searched, t, Some(Neg(direction))).value;
      var depth' := Deepen(hill, depth, position, t);
      forall c :: c in depth' && c != hill.start ==> Linked(hill, after, depth', c)
  {
    var t := StepFrom(direction, position).value;
    var after := Store(searched, t, Some(Neg(direction))).value;
    var depth' := Deepen(hill, depth, position, t);
    StepBack(direction, position);
    NegInvolution(direction);
    forall c | c in depth' && c != hill.start
      ensures Linked(hill, after, depth', c)
    {
      StoreGet(searched, t, Some(Neg(direction)), c);
      if c != t {
        assert Linked(hill, searched, depth, c);
      }
    }
  }

  /**
   * Marking an unmarked neighbour reached by a legal step, queueing it and
   * giving it a depth one more than its parent's keeps the table
   * consistent.
   */
  lemma MarkKeepsConsistent(hill: Hill, searched: Matrix<Option<Direction>>, depth: map<Coord, nat>, queue: seq<Coord>, position: Coord, direction: Direction)
    requires Consistent(hill, searched, depth, queue) && position in depth && !Goal(hill.rule, At(hill.grid, position))
    requires Edge(hill, position, direction)
    requires InBounds(searched, StepFrom(direction, position).value) && At(searched, StepFrom(direction, position).value).None?
    ensures var t := StepFrom(direction, position).value;
      Consistent(hill, Store(searched, t, Some(Neg(direction))).value,
        Deepen(hill, depth, position, t), queue + [t])
    ensures var t := StepFrom(direction, position).value;
      t == hill.start || t !in depth
  {
    var t := StepFrom(direction, position).value;
    var after := Store(searched, t, Some(Neg(direction))).value;
    var depth' := Deepen(hill, depth, position, t);
    UnmarkedFresh(hill, searched, depth, queue, t);
    MarkKeepsLinks(hill, searched, depth, queue, position, direction);
    StoreGet(searched, t, Some(Neg(direction)), t);
    forall c | InBounds(after, c) && At(after, c).Some?
      ensures c in depth'
    {
      StoreGet(searched, t, Some(Neg(direction)), c);
    }
  }

  /** Dequeueing keeps the table consistent. */
  lemma PopKeepsConsistent(hill: Hill, searched: Matrix<Option<Direction>>, depth: map<Coord, nat>, queue: seq<Coord>)
    requires Consistent(hill, searched, depth, queue) && queue != []
    ensures Consistent(hill, searched, depth, queue[1..])
  {
  }

  /** A consistent table records a depth for a cell by which it is reachable. */
  lemma {:induction false} ReachedIsReachable(hill: Hill, searched: Matrix<Option<Direction>>, depth: map<Coord, nat>, queue: seq<Coord>, c: Coord)
    requires Consistent(hill, searched, depth, queue) && c in depth
    ensures Reachable(hill, c, depth[c])
    decreases depth[c]
  {
    if c != hill.start {
      assert Linked(hill, searched, depth, c);
      var m := At(searched, c).value;
      var p := StepFrom(m, c).value;
      ReachedIsReachable(hill, searched, depth, queue, p);
      assert Reachable(hill, p, depth[c] - 1) && Edge(hill, p, Neg(m)) && !Goal(hill.rule, At(hill.grid, p)) && StepFrom(Neg(m), p) == Some(c);
    }
  }

  /** Following the recorded directions always descends in depth. */
  lemma ConsistentWellFounded(hill: Hill, searched: Matrix<Option<Direction>>, depth: map<Coord, nat>, queue: seq<Coord>)
    requires Consistent(hill, searched, depth, queue)
    ensures WellFounded(searched, hill.start, depth)
  {
    forall c | c in depth && c != hill.start && InBounds(searched, c) && At(searched, c).Some? && StepFrom(At(searched, c).value, c).Some?
      ensures StepFrom(At(searched, c).value, c).value in depth && depth[StepFrom(At(searched, c).value, c).value] < depth[c]
    {
      assert Linked(hill, searched, depth, c);
    }
  }

  /**
   * From every cell of a consistent table the path read back succeeds, is
   * as long as the cell's depth, and is legal.
   */
  lemma {:induction false} PathBackLegal(hill: Hill, searched: Matrix<Option<Direction>>, depth: map<Coord, nat>, queue: seq<Coord>, c: Coord)
    requires Consistent(hill, searched, depth, queue) && c in depth
    ensures WellFounded(searched, hill.start, depth)
    ensures PathBack(searched, hill.start, c, depth).Ok?
    ensures |PathBack(searched, hill.start, c, depth).value| == depth[c]
    ensures LegalBack(hill, c, PathBack(searched, hill.start, c, depth).value)
    decreases depth[c]
  {
    ConsistentWellFounded(hill, searched, depth, queue);
    if c != hill.start {
      assert Linked(hill, searched, depth, c);
      var m := At(searched, c).value;
      var p := StepFrom(m, c).value;
      PathBackLegal(hill, searched, depth, queue, p);
      var path := PathBack(searched, hill.start, c, depth).value;
      assert path == [m] + PathBack(searched, hill.start, p, depth).value;
      assert path[1..] == PathBack(searched, hill.start, p, depth).value;
    }
  }

  /** Once the frontier is one level deeper, every cell reachable in that many steps has a depth. */
  lemma LevelUp(hill: Hill, depth: map<Coord, nat>, queue: seq<Coord>, done: set<Coord>, level: nat)
    requires Frontier(hill, depth, queue, done, level) && Complete(hill, depth, level)
    requires queue != [] && queue[0] !in done && depth[queue[0]] == level + 1
    ensures Complete(hill, depth, level + 1)
  {
    forall n: nat, x | n <= level + 1 && Reachable(hill, x, n)
      ensures x in depth && depth[x] <= n
    {
      if n == level + 1 {
        var p, d :| Reachable(hill, p, n - 1) && Edge(hill, p, d) && !Goal(hill.rule, At(hill.grid, p)) && StepFrom(d, p) == Some(x);
        assert p in depth && depth[p] <= level;
        assert Expanded(hill, depth, p);
      }
    }
  }

  /**
   * What a round of surveys from `position` does to the depths and the
   * queue: old depths stay, the queue only grows at the back, and every
   * new cell is a legal step away, one deeper, and queued.
   */
  ghost predicate Grown(hill: Hill, d0: map<Coord, nat>, q0: seq<Coord>, d1: map<Coord, nat>, q1: seq<Coord>, position: Coord, directions: seq<Direction>)
  {
    position in d0 && |q1| >= |q0| && q1[..|q0|] == q0 &&
    (forall c :: c in d0 ==> c in d1 && d1[c] == d0[c]) &&
    (forall c :: c in d1 && c !in d0 ==>
      c in q1[|q0|..] && d1[c] == d0[position] + 1 &&
      exists d :: d in directions && Edge(hill, position, d) && StepFrom(d, position) == Some(c)) &&
    (forall k :: |q0| <= k < |q1| ==> q1[k] == hill.start || q1[k] !in d0) &&
    (forall d :: d in directions && Edge(hill, position, d) ==> StepFrom(d, position).value in d1)
  }

  /** One more survey, which queues at most its target and gives it a depth, keeps the growth. */
  lemma GrownStep(hill: Hill, d0: map<Coord, nat>, q0: seq<Coord>, d1: map<Coord, nat>, q1: seq<Coord>,
                  d2: map<Coord, nat>, q2: seq<Coord>, position: Coord, directions: seq<Direction>, direction: Direction,
                  accepted: bool)
    requires Grown(hill, d0, q0, d1, q1, position, directions)
    requires !accepted ==> q2 == q1 && d2 == d1
    requires accepted ==> Edge(hill, position, direction)
    requires accepted ==> var t := StepFrom(direction, position).value;
      (t == hill.start || t !in d1) && q2 == q1 + [t] && d2 == Deepen(hill, d1, position, t)
    requires Edge(hill, position, direction) ==> StepFrom(direction, position).value in d2
    ensures Grown(hill, d0, q0, d2, q2, position, directions + [direction])
  {
    assert q2[..|q1|] == q1;
    assert q2[..|q0|] == q0;
    forall c | c in d2 && c !in d0
      ensures c in q2[|q0|..] && d2[c] == d0[position] + 1
      ensures exists d :: d in directions + [direction] && Edge(hill, position, d) && StepFrom(d, position) == Some(c)
    {
      if c in d1 {
        assert c in q1[|q0|..];
        var d :| d in directions && Edge(hill, position, d) && StepFrom(d, position) == Some(c);
        assert d in directions + [direction];
      } else {
        assert q2[|q2| - 1] == c;
        assert direction in directions + [direction];
      }
    }
  }

  /**
   * A cell at the current level whose surveys covered every direction but
   * possibly ones leading to shallower cells is expanded.
   */
  lemma ExpandedAfterSurvey(hill: Hill, d0: map<Coord, nat>, q0: seq<Coord>, d1: map<Coord, nat>, q1: seq<Coord>, c: Coord, directions: seq<Direction>)
    requires Grown(hill, d0, q0, d1, q1, c, directions)
    requires InBounds(hill.grid, c) && !Goal(hill.rule, At(hill.grid, c))
    requires forall x :: x in d0 ==> d0[x] <= d0[c] + 1
    requires forall d :: d !in directions && Edge(hill, c, d) ==> StepFrom(d, c).value in d0
    ensures Expanded(hill, d1, c)
  {
    forall d | Edge(hill, c, d)
      ensures StepFrom(d, c).value in d1 && d1[StepFrom(d, c).value] <= d1[c] + 1
    {
    }
  }

  /**
   * Popping the front of the queue and surveying from it keeps the
   * frontier: a cell not yet expanded joins `done` at the current level,
   * and a cell already expanded adds no new depth.
   */
  lemma ExpandKeepsFrontier(hill: Hill, d0: map<Coord, nat>, q0: seq<Coord>, done: set<Coord>, level: nat, d1: map<Coord, nat>, q1: seq<Coord>, directions: seq<Direction>)
    requires Frontier(hill, d0, q0, done, level) && Complete(hill, d0, level)
    requires q0 != [] && q0[0] in d0 && (q0[0] !in done ==> d0[q0[0]] == level)
    requires Grown(hill, d0, q0[1..], d1, q1, q0[0], directions)
    requires q0[0] !in done ==> Expanded(hill, d1, q0[0])
    requires forall k :: 0 <= k < |q1| ==> q1[k] in d1
    ensures var done' := if q0[0] in done then done else done + {q0[0]};
      Frontier(hill, d1, q1, done', level) && Complete(hill, d1, level)
  {
    var c := q0[0];
    var done' := if c in done then done else done + {c};
    var rest := q0[1..];
    if c in done {
      assert Expanded(hill, d0, c);
    }
    assert hill.start in done';
    forall x | x in d1
      ensures x in done' || x in q1
    {
      if x in d0 && x !in done' {
        assert x in q0;
        var k :| 0 <= k < |q0| && q0[k] == x;
        assert q1[k - 1] == x;
      }
    }
    forall x | x in done'
      ensures Expanded(hill, d1, x) && d1[x] <= level
    {
      if x != c || c in done {
        assert Expanded(hill, d0, x);
      }
    }
    forall k | 0 <= k < |q1| && q1[k] !in done'
      ensures q1[k] in d1 && level <= d1[q1[k]]
    {
      if k < |rest| {
        assert q1[k] == q0[k + 1];
      } else {
        assert q1[k] != hill.start;
      }
    }
    forall i, j | 0 <= i < j < |q1| && q1[i] !in done' && q1[j] !in done'
      ensures d1[q1[i]] <= d1[q1[j]]
    {
      if j < |rest| {
        assert q1[i] == q0[i + 1] && q1[j] == q0[j + 1];
      } else {
        assert q1[j] != hill.start && q1[j] !in d0;
        assert q1[j] in d1 && d1[q1[j]] == d0[c] + 1;
      }
    }
  }

  /** When a cell at the current level is dequeued, no goal is reachable in fewer steps. */
  lemma NoNearerGoal(hill: Hill, depth: map<Coord, nat>, queue: seq<Coord>, done: set<Coord>, level: nat)
    requires Frontier(hill, depth, queue, done, level) && Complete(hill, depth, level)
    ensures forall n: nat, x :: n < level && Reachable(hill, x, n) ==> !IsGoal(hill, x)
  {
    forall n: nat, x | n < level && Reachable(hill, x, n)
      ensures !IsGoal(hill, x)
    {
      assert x in done;
      assert Expanded(hill, depth, x);
    }
  }

  /** With nothing queued, every reachable cell has been expanded, so none is a goal. */
  lemma {:induction false} ExhaustedReachable(hill: Hill, depth: map<Coord, nat>, done: set<Coord>, level: nat, n: nat, x: Coord)
    requires Frontier(hill, depth, [], done, level)
    requires hill.start in depth
    requires Reachable(hill, x, n)
    ensures x in done && !IsGoal(hill, x)
  {
    if n > 0 {
      var p, d :| Reachable(hill, p, n - 1) && Edge(hill, p, d) && !Goal(hill.rule, At(hill.grid, p)) && StepFrom(d, p) == Some(x);
      ExhaustedReachable(hill, depth, done, level, n - 1, p);
      assert Expanded(hill, depth, p);
    }
    assert Expanded(hill, depth, x);
  }

  // ------------------------------------------------------------------
  // One survey and a round of surveys, as functions of the search state
  // ------------------------------------------------------------------

  /** The queue, the table and the ghost depths together. */
  datatype Search = Search(searched: Matrix<Option<Direction>>, depth: map<Coord, nat>, queue: seq<Coord>)

  /** Unmarked cells plus queued cells: a survey moves one from the first to the second, a dequeue removes one. */
  function Remaining(s: Search): nat
  {
    NoneCount(s.searched.grid) + |s.queue|
  }

  /** The invariant of the search loop: a consistent table and a breadth-first frontier complete up to `level`. */
  ghost predicate Searching(hill: Hill, s: Search, done: set<Coord>, level: nat)
  {
    Consistent(hill, s.searched, s.depth, s.queue) && Frontier(hill, s.depth, s.queue, done, level) && Complete(hill, s.depth, level)
  }

  /** The conditions under which a survey marks and queues its target. */
  predicate Accepts(hill: Hill, table: Matrix<Option<Direction>>, position: Coord, elevation: Option<nat>, direction: Direction)
  {
    StepFrom(direction, position).Some? &&
    var t := StepFrom(direction, position).value;
    InBounds(hill.grid, t) && InBounds(table, t) && At(table, t).None? && Admits(hill.rule, elevation, At(hill.grid, t))
  }

  /** The state after surveying one direction: an accepted target is marked, queued and one step deeper. */
  function Surveyed(hill: Hill, s: Search, position: Coord, elevation: Option<nat>, direction: Direction): (r: Search)
    requires position in s.depth
    ensures s.depth.Keys <= r.depth.Keys
    ensures Fits(hill, s.searched) ==> Fits(hill, r.searched)
  {
    if Accepts(hill, s.searched, position, elevation, direction) then
      var t := StepFrom(direction, position).value;
      Search(Store(s.searched, t, Some(Neg(direction))).value, Deepen(hill, s.depth, position, t), s.queue + [t])
    else s
  }

  /** The state after surveying each of `directions` in turn. */
  function SurveyedAll(hill: Hill, s: Search, position: Coord, elevation: Option<nat>, directions: seq<Direction>): (r: Search)
    requires position in s.depth
    ensures s.depth.Keys <= r.depth.Keys
    ensures Fits(hill, s.searched) ==> Fits(hill, r.searched)
    decreases |directions|
  {
    if directions == [] then s
    else Surveyed(hill, SurveyedAll(hill, s, position, elevation, directions[..|directions| - 1]), position, elevation, directions[|directions| - 1])
  }

  /**
   * A survey from a reached cell that is no goal, with that cell's own
   * elevation, keeps the table consistent and the remaining count, queues
   * only a fresh cell or the start, and leaves every legal step's target
   * with a depth.
   */
  lemma SurveyedKeeps(hill: Hill, s: Search, position: Coord, elevation: Option<nat>, direction: Direction)
    requires Consistent(hill, s.searched, s.depth, s.queue) && position in s.depth && !Goal(hill.rule, At(hill.grid, position))
    requires elevation == Expansion(hill.rule, At(hill.grid, position))
    ensures var r := Surveyed(hill, s, position, elevation, direction);
      Consistent(hill, r.searched, r.depth, r.queue) && Remaining(r) == Remaining(s)
    ensures Accepts(hill, s.searched, position, elevation, direction) ==>
      Edge(hill, position, direction) &&
      (StepFrom(direction, position).value == hill.start || StepFrom(direction, position).value !in s.depth)
    ensures Edge(hill, position, direction) ==> StepFrom(direction, position).value in Surveyed(hill, s, position, elevation, direction).depth
  {
    if Accepts(hill, s.searched, position, elevation, direction) {
      var t := StepFrom(direction, position).value;
      assert Edge(hill, position, direction);
      StoreMarks(s.searched, t, Neg(direction));
      MarkKeepsConsistent(hill, s.searched, s.depth, s.queue, position, direction);
    } else if Edge(hill, position, direction) {
      var t := StepFrom(direction, position).value;
      assert InBounds(s.searched, t);
    }
  }

  /** A round of surveys keeps the table consistent and the remaining count. */
  lemma {:induction false} SurveyedAllConsistent(hill: Hill, s: Search, position: Coord, elevation: Option<nat>, directions: seq<Direction>)
    requires Consistent(hill, s.searched, s.depth, s.queue) && position in s.depth && !Goal(hill.rule, At(hill.grid, position))
    requires elevation == Expansion(hill.rule, At(hill.grid, position))
    ensures var r := SurveyedAll(hill, s, position, elevation, directions);
      Consistent(hill, r.searched, r.depth, r.queue) && Remaining(r) == Remaining(s)
    decreases |directions|
  {
    if directions != [] {
      var init := directions[..|directions| - 1];
      SurveyedAllConsistent(hill, s, position, elevation, init);
      SurveyedKeeps(hill, SurveyedAll(hill, s, position, elevation, init), position, elevation, directions[|directions| - 1]);
    }
  }

  /** A round of surveys grows the search: old depths stay and new cells are legal steps away, queued. */
  lemma {:induction false} SurveyedAllGrown(hill: Hill, s: Search, position: Coord, elevation: Option<nat>, directions: seq<Direction>)
    requires Consistent(hill, s.searched, s.depth, s.queue) && position in s.depth && !Goal(hill.rule, At(hill.grid, position))
    requires elevation == Expansion(hill.rule, At(hill.grid, position))
    ensures var r := SurveyedAll(hill, s, position, elevation, directions);
      Grown(hill, s.depth, s.queue, r.depth, r.queue, position, directions)
    decreases |directions|
  {
    if directions == [] {
      assert s.queue[..|s.queue|] == s.queue;
    } else {
      var init := directions[..|directions| - 1];
      var last := directions[|directions| - 1];
      assert init + [last] == directions;
      SurveyedAllGrown(hill, s, position, elevation, init);
      SurveyedAllConsistent(hill, s, position, elevation, init);
      var mid := SurveyedAll(hill, s, position, elevation, init);
      SurveyedKeeps(hill, mid, position, elevation, last);
      var r := Surveyed(hill, mid, position, elevation, last);
      GrownStep(hill, s.depth, s.queue, mid.depth, mid.queue, r.depth, r.queue, position, init, last,
        Accepts(hill, mid.searched, position, elevation, last));
    }
  }

  /**
   * Dequeueing a cell that is no goal and surveying it in the directions
   * the search uses for it keeps the table consistent, keeps the frontier
   * with the cell now expanded, and lowers the remaining count.
   */
  lemma ExpandStep(hill: Hill, s0: Search, done: set<Coord>, level: nat, directions: seq<Direction>)
    requires Searching(hill, s0, done, level)
    requires s0.queue != [] && (s0.queue[0] !in done ==> s0.depth[s0.queue[0]] == level)
    requires var c := s0.queue[0];
      InBounds(hill.grid, c) && !Goal(hill.rule, At(hill.grid, c)) && (At(hill.grid, c) == Start ==> directions == ALL)
    requires var c := s0.queue[0];
      InBounds(hill.grid, c) && At(hill.grid, c) != Start ==>
        InBounds(s0.searched, c) && At(s0.searched, c).Some? && directions == Others(At(s0.searched, c).value)
    ensures var c := s0.queue[0];
      var r := SurveyedAll(hill, Search(s0.searched, s0.depth, s0.queue[1..]), c, Expansion(hill.rule, At(hill.grid, c)), directions);
      Searching(hill, r, if c in done then done else done + {c}, level) && Remaining(r) + 1 == Remaining(s0)
  {
    var c := s0.queue[0];
    var popped := Search(s0.searched, s0.depth, s0.queue[1..]);
    var elevation := Expansion(hill.rule, At(hill.grid, c));
    assert Consistent(hill, popped.searched, popped.depth, popped.queue);
    SurveyedAllConsistent(hill, popped, c, elevation, directions);
    SurveyedAllGrown(hill, popped, c, elevation, directions);
    var r := SurveyedAll(hill, popped, c, elevation, directions);
    if c !in done {
      forall d | d !in directions && Edge(hill, c, d)
        ensures StepFrom(d, c).value in s0.depth
      {
        AllDirections(d);
        assert Linked(hill, s0.searched, s0.depth, c);
      }
      ExpandedAfterSurvey(hill, s0.depth, s0.queue[1..], r.depth, r.queue, c, directions);
    }
    ExpandKeepsFrontier(hill, s0.depth, s0.queue, done, level, r.depth, r.queue, directions);
  }
}
