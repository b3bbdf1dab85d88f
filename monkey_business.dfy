/**
 * 2022 day 11: monkeys pass items around. On its turn a monkey inspects
 * each item it holds, front first: the worry level goes through the
 * monkey's operation and is divided by 3, and the item is thrown to one of
 * two monkeys depending on whether the level is divisible by the monkey's
 * divisor. After 20 rounds, the answer is the product of the two largest
 * inspection counts.
 */
module MonkeyBusiness {
  import opened Common

  datatype Operand = Num(n: nat) | Old

  datatype Operation = Add(operand: Operand) | Multiply(operand: Operand)

  /** A monkey as a value: what one copy of it holds. */
  datatype MonkeyData = MonkeyData(items: seq<nat>, operation: Operation, divisor: nat, catchers: (nat, nat), itemsInspected: nat)

  // ------------------------------------------------------------------
  // Parsing
  // ------------------------------------------------------------------

  /** `old`, or a `u32`. */
  function ParseOperand(token: string): (r: Result<Operand>)
    ensures r == Ok(Old) <==> token == "old"
    ensures token != "old" ==> (r.Ok? <==> ParseU32(token).Some?)
    ensures token != "old" && r.Ok? ==> r.value == Num(ParseU32(token).value)
  {
    if token == "old" then Ok(Old)
    else
      match ParseU32(token)
      case None => Err("Couldn't parse num token: " + UnsignedParseError(token, U32_LIMIT))
      case Some(n) => Ok(Num(n))
  }

  /** `Operation: new = old OP OPERAND`: the fifth token is the operator, the sixth the operand. */
  function ParseOperation(s: string): (r: Result<Operation>)
    ensures var tokens := Split(Trim(s), ' ');
      r.Ok? <==> |tokens| >= 6 && ParseOperand(tokens[5]).Ok? && (tokens[4] == "+" || tokens[4] == "*")
    ensures var tokens := Split(Trim(s), ' ');
      r.Ok? ==> r.value == (if tokens[4] == "+" then Add(ParseOperand(tokens[5]).value) else Multiply(ParseOperand(tokens[5]).value))
    ensures |Split(Trim(s), ' ')| < 5 ==> r == Err("Did not find operator token")
    ensures |Split(Trim(s), ' ')| == 5 ==> r == Err("Did not find operand token")
  {
    var tokens := Split(Trim(s), ' ');
    if |tokens| < 5 then Err("Did not find operator token")
    else if |tokens| < 6 then Err("Did not find operand token")
    else
      match ParseOperand(tokens[5])
      case Err(e) => Err(e)
      case Ok(operand) =>
        if tokens[4] == "+" then Ok(Add(operand))
        else if tokens[4] == "*" then Ok(Multiply(operand))
        else Err("Found unrecognised operator: " + tokens[4])
  }

  function OperandText(operand: Operand): string
  {
    match operand
    case Old => "old"
    case Num(n) => Decimal(n)
  }

  /** An operation line as the input writes it, indented by two spaces. */
  function OperationLine(operation: Operation): string
  {
    "  Operation: new = old " + (if operation.Add? then "+" else "*") + " " + OperandText(operation.operand)
  }

  /** Writing an operation out and parsing it back gives the operation, for every `u32` operand. */
  lemma ParseOperationLine(operation: Operation)
    requires operation.operand.Num? ==> operation.operand.n < U32_LIMIT
    ensures ParseOperation(OperationLine(operation)) == Ok(operation)
  {
    var operand := OperandText(operation.operand);
    if operation.operand.Num? {
      ParseDecimal(operation.operand.n, U32_LIMIT);
      assert operand != "old" by {
        assert IsDigit(operand[0]);
      }
    }
    assert ParseOperand(operand) == Ok(operation.operand);
    var op := if operation.Add? then "+" else "*";
    var line := OperationLine(operation);
    assert line == "  Operation: new = old " + op + " " + operand;
    IndentedOperation(op, operand);
    var tokens := Split(Trim(line), ' ');
    assert |tokens| == 6 && tokens[4] == op && tokens[5] == operand;
  }

  /** The three lines of the tests are such lines. */
  lemma OperationLineSamples()
    ensures OperationLine(Multiply(Num(13))) == "  Operation: new = old * 13"
    ensures OperationLine(Add(Num(4))) == "  Operation: new = old + 4"
    ensures OperationLine(Multiply(Old)) == "  Operation: new = old * old"
  {
  }

  /** The tokens of an operation line indented by two spaces. */
  lemma IndentedOperation(op: string, operand: string)
    requires op != [] && operand != [] && ' ' !in op && ' ' !in operand
    requires !IsWhitespace(operand[|operand| - 1])
    ensures Split(Trim("  Operation: new = old " + op + " " + operand), ' ') == ["Operation:", "new", "=", "old", op, operand]
  {
    var line := "Operation: new = old " + op + " " + operand;
    assert "  Operation: new = old " + op + " " + operand == "  " + line;
    assert line[|line| - 1] == operand[|operand| - 1];
    TrimIndented(line);
    OperationWords(op, operand);
  }

  /** Two leading spaces are trimmed away from a line that starts and ends with a visible character. */
  lemma TrimIndented(s: string)
    requires s != [] && !IsWhitespace(s[0]) && !IsWhitespace(s[|s| - 1])
    ensures Trim("  " + s) == s
  {
    var t := "  " + s;
    assert t[1..] == " " + s;
    assert (" " + s)[1..] == s;
    assert TrimStart(s) == s;
    assert TrimStart(" " + s) == s;
    assert TrimStart(t) == s;
    assert TrimEnd(s) == s;
  }

  lemma OperationWords(op: string, operand: string)
    requires ' ' !in op && ' ' !in operand
    ensures Split("Operation: new = old " + op + " " + operand, ' ') == ["Operation:", "new", "=", "old", op, operand]
  {
    var r4 := op + " " + operand;
    SplitAtFirstSeparator(op, ' ', operand);
    SplitNoSeparator(operand, ' ');
    var r3 := "old" + " " + r4;
    SplitAtFirstSeparator("old", ' ', r4);
    var r2 := "=" + " " + r3;
    SplitAtFirstSeparator("=", ' ', r3);
    var r1 := "new" + " " + r2;
    SplitAtFirstSeparator("new", ' ', r2);
    var r0 := "Operation:" + " " + r1;
    SplitAtFirstSeparator("Operation:", ' ', r1);
    assert r0 == "Operation: new = old " + op + " " + operand;
  }

  /** A starting item: the text before any comma, a `u32`. */
  function ItemToken(token: string): string
  {
    Split(token, ',')[0]
  }

  /** One starting item: a `u32`, or the parse error. */
  function ParseItem(token: string): (r: Result<nat>)
    ensures r.Ok? <==> ParseU32(ItemToken(token)).Some?
    ensures r.Ok? ==> Some(r.value) == ParseU32(ItemToken(token))
  {
    match ParseU32(ItemToken(token))
    case None => Err("Couldn't parse number token: " + UnsignedParseError(ItemToken(token), U32_LIMIT))
    case Some(item) => Ok(item)
  }

  /** The starting items, in order, or the first token that does not parse. */
  function ParseItems(tokens: seq<string>): (r: Result<seq<nat>>)
    ensures r.Ok? <==> forall k :: 0 <= k < |tokens| ==> ParseItem(tokens[k]).Ok?
    ensures r.Ok? ==> |r.value| == |tokens| && forall k :: 0 <= k < |tokens| ==> Ok(r.value[k]) == ParseItem(tokens[k])
  {
    var parsed := seq(|tokens|, k requires 0 <= k < |tokens| => ParseItem(tokens[k]));
    assert forall k :: 0 <= k < |tokens| ==> parsed[k] == ParseItem(tokens[k]);
    Collect(parsed)
  }

  /** `If ...: throw to monkey N`: the sixth token, a `usize`. */
  function ParseCatcher(line: string): (r: Result<nat>)
    ensures var tokens := Split(Trim(line), ' ');
      r.Ok? <==> |tokens| >= 6 && ParseUsize(tokens[5]).Some?
    ensures r.Ok? ==> Some(r.value) == ParseUsize(Split(Trim(line), ' ')[5])
  {
    var tokens := Split(Trim(line), ' ');
    if |tokens| < 6 then Err("Couldn't find 6th token on condition line")
    else
      match ParseUsize(tokens[5])
      case None => Err("Couldn't parse catcher token: " + UnsignedParseError(tokens[5], USIZE_LIMIT))
      case Some(c) => Ok(c)
  }

  /** The tokens of the starting items line after its first two, `Starting items:`. */
  function ItemTokens(line: string): seq<string>
  {
    var tokens := Split(Trim(line), ' ');
    if |tokens| < 2 then [] else tokens[2..]
  }

  /**
   * A monkey's paragraph: the header line is skipped, then the items,
   * the operation, the divisor (fourth token) and the two catchers follow
   * line by line; further lines are ignored.
   */
  function ParseMonkey(s: string): (r: Result<MonkeyData>)
    ensures r.Ok? ==> |Split(s, '\n')| >= 6 && r.value.itemsInspected == 0
  {
    var lines := Split(s, '\n');
    if |lines| < 2 then Err("Expected a 'Starting items' line")
    else
      match ParseItems(ItemTokens(lines[1]))
      case Err(e) => Err(e)
      case Ok(items) =>
        if |lines| < 3 then Err("Expected a 'Operation' line")
        else
          match ParseOperation(lines[2])
          case Err(e) => Err(e)
          case Ok(operation) =>
            if |lines| < 4 then Err("Expected a 'Test: divisible by' line")
            else
              var divisorTokens := Split(Trim(lines[3]), ' ');
              if |divisorTokens| < 4 then Err("Didn't find 4th token in 'Test: divisible by' line: " + Trim(lines[3]))
              else
                match ParseU32(divisorTokens[3])
                case None => Err("Couldn't parse divisor " + UnsignedParseError(divisorTokens[3], U32_LIMIT))
                case Some(divisor) => ParseCatchers(lines, items, operation, divisor)
  }

  /**
   * A parsed monkey holds the items of its second line in order, the
   * operation of its third, the divisor that is the fourth token of its
   * fourth, and the catchers of its fifth and sixth lines; it has
   * inspected nothing yet.
   */
  lemma ParseMonkeyMeaning(s: string)
    requires ParseMonkey(s).Ok?
    ensures var lines, m := Split(s, '\n'), ParseMonkey(s).value;
      |lines| >= 6 && |Split(Trim(lines[3]), ' ')| >= 4 &&
      ParseItems(ItemTokens(lines[1])) == Ok(m.items) &&
      ParseOperation(lines[2]) == Ok(m.operation) &&
      ParseU32(Split(Trim(lines[3]), ' ')[3]) == Some(m.divisor) &&
      ParseCatcher(lines[4]) == Ok(m.catchers.0) &&
      ParseCatcher(lines[5]) == Ok(m.catchers.1) &&
      m.itemsInspected == 0
  {
    var lines := Split(s, '\n');
    var items := ParseItems(ItemTokens(lines[1]));
    assert items.Ok?;
    var operation := ParseOperation(lines[2]);
    assert operation.Ok?;
    var divisorTokens := Split(Trim(lines[3]), ' ');
    assert |divisorTokens| >= 4;
    var divisor := ParseU32(divisorTokens[3]);
    assert divisor.Some?;
    assert ParseMonkey(s) == ParseCatchers(lines, items.value, operation.value, divisor.value);
  }

  /** Without a line after the header there is no monkey. */
  lemma ParseMonkeyNeedsItems(s: string)
    requires '\n' !in s
    ensures ParseMonkey(s) == Err("Expected a 'Starting items' line")
  {
    SplitNoSeparator(s, '\n');
  }

  /** The two catcher lines, each parsed if present, and then both required. */
  function ParseCatchers(lines: seq<string>, items: seq<nat>, operation: Operation, divisor: nat): (r: Result<MonkeyData>)
    ensures r.Ok? ==> |lines| >= 6 && ParseCatcher(lines[4]) == Ok(r.value.catchers.0) && ParseCatcher(lines[5]) == Ok(r.value.catchers.1)
    ensures r.Ok? ==> r.value.items == items && r.value.operation == operation && r.value.divisor == divisor && r.value.itemsInspected == 0
  {
    var first := if |lines| >= 5 then ParseCatcher(lines[4]) else Ok(0);
    var second := if |lines| >= 6 then ParseCatcher(lines[5]) else Ok(0);
    if first.Err? then Err(first.msg)
    else if second.Err? then Err(second.msg)
    else if |lines| < 5 then Err("Couldn't find catcher 0")
    else if |lines| < 6 then Err("Couldn't find catcher 1")
    else Ok(MonkeyData(items, operation, divisor, (first.value, second.value), 0))
  }

  /** The paragraphs of the input, each a monkey; the first bad one aborts. */
  function ParseMonkeys(paragraphs: seq<string>): (r: Result<seq<MonkeyData>>)
    ensures r.Ok? <==> forall k :: 0 <= k < |paragraphs| ==> ParseMonkey(paragraphs[k]).Ok?
    ensures r.Ok? ==> |r.value| == |paragraphs| && forall k :: 0 <= k < |paragraphs| ==> Ok(r.value[k]) == ParseMonkey(paragraphs[k])
  {
    var parsed := seq(|paragraphs|, k requires 0 <= k < |paragraphs| => ParseMonkey(paragraphs[k]));
    assert forall k :: 0 <= k < |paragraphs| ==> parsed[k] == ParseMonkey(paragraphs[k]);
    Collect(parsed)
  }

  // ------------------------------------------------------------------
  // Inspecting and throwing
  // ------------------------------------------------------------------

  /** The monkey's operation on a worry level. */
  function Apply(operation: Operation, item: nat): nat
  {
    match operation
    case Add(Num(n)) => item + n
    case Add(Old) => item + item
    case Multiply(Num(n)) => Times(item, n)
    case Multiply(Old) => Times(item, item)
  }

  /** The new worry level of an item and the monkey it goes to. */
  function Throw(m: MonkeyData, item: nat): (t: (nat, nat))
    requires m.divisor > 0
  {
    var worry := Apply(m.operation, item) / 3;
    (if worry % m.divisor == 0 then m.catchers.0 else m.catchers.1, worry)
  }

  /** An item goes to the first catcher exactly when its new level is divisible, else to the second. */
  lemma ThrowTarget(m: MonkeyData, item: nat)
    requires m.divisor > 0
    ensures Throw(m, item).1 * 3 <= Apply(m.operation, item) < Throw(m, item).1 * 3 + 3
    ensures Throw(m, item).1 % m.divisor == 0 ==> Throw(m, item).0 == m.catchers.0
    ensures Throw(m, item).1 % m.divisor != 0 ==> Throw(m, item).0 == m.catchers.1
  {
  }

  /** Every throw of a monkey's turn, front item first. */
  function Throws(m: MonkeyData): (ts: seq<(nat, nat)>)
    requires m.divisor > 0
    ensures |ts| == |m.items| && forall k :: 0 <= k < |ts| ==> ts[k] == Throw(m, m.items[k])
  {
    seq(|m.items|, k requires 0 <= k < |m.items| => Throw(m, m.items[k]))
  }

  /** The test monkey: `old * old`, divisible by 13, catchers 1 and 3. */
  lemma ThrowsSample()
    ensures Throws(MonkeyData([79, 60, 97], Multiply(Old), 13, (1, 3), 0)) == [(1, 2080), (3, 1200), (3, 3136)]
  {
    var m := MonkeyData([79, 60, 97], Multiply(Old), 13, (1, 3), 0);
    assert Throw(m, 79) == (1, 2080);
    assert Throw(m, 60) == (3, 1200);
    assert Throw(m, 97) == (3, 3136);
  }

  /** A monkey whose fields the program updates in place. */
  class Monkey {
    var items: seq<nat>
    var operation: Operation
    var divisor: nat
    var catchers: (nat, nat)
    var itemsInspected: nat

    /** A copy of a monkey value. */
    constructor(m: MonkeyData)
      ensures Data() == m
    {
      items, operation, divisor, catchers, itemsInspected := m.items, m.operation, m.divisor, m.catchers, m.itemsInspected;
    }

    function Data(): MonkeyData
      reads this
    {
      MonkeyData(items, operation, divisor, catchers, itemsInspected)
    }

    /**
     * Take the front item, if any, and say where it goes with which
     * worry level; the inspection is counted. The operation must not
     * overflow a `u32` and the divisor must not be 0.
     */
    method ThrowItem() returns (t: Option<(nat, nat)>)
      modifies this
      requires items != [] ==> divisor > 0 && Apply(operation, items[0]) < U32_LIMIT
      ensures old(items) == [] ==> t == None && Data() == old(Data())
      ensures old(items) != [] ==> divisor > 0 && t == Some(Throw(old(Data()), old(items)[0]))
      ensures old(items) != [] ==> Data() == old(Data()).(items := old(items)[1..], itemsInspected := old(itemsInspected) + 1)
    {
      if items == [] {
        return None;
      }
      var item := items[0];
      items := items[1..];
      var worry := match operation
        case Add(Num(n)) => item + n
        case Add(Old) => item + item
        case Multiply(Num(n)) => item * n
        case Multiply(Old) => item * item;
      worry := worry / 3;
      if worry % divisor == 0 {
        t := Some((catchers.0, worry));
      } else {
        t := Some((catchers.1, worry));
      }
      itemsInspected := itemsInspected + 1;
    }

    /** A caught item goes to the front of the queue. */
    method CatchItem(item: nat)
      modifies this
      ensures Data() == old(Data()).(items := [item] + old(items))
    {
      items := [item] + items;
    }
  }

  // ------------------------------------------------------------------
  // Turns and rounds
  // ------------------------------------------------------------------

  /** Every divisor is positive and every catcher is a monkey. */
  predicate WellFormed(ms: seq<MonkeyData>)
  {
    forall i :: 0 <= i < |ms| ==> ms[i].divisor > 0 && ms[i].catchers.0 < |ms| && ms[i].catchers.1 < |ms|
  }

  /** The parts a turn does not change. */
  predicate SameRules(a: seq<MonkeyData>, b: seq<MonkeyData>)
  {
    |a| == |b| && forall i :: 0 <= i < |a| ==>
      a[i].operation == b[i].operation && a[i].divisor == b[i].divisor && a[i].catchers == b[i].catchers
  }

  predicate Targets(ts: seq<(nat, nat)>, n: nat)
  {
    forall k :: 0 <= k < |ts| ==> ts[k].0 < n
  }

  /** A throw arrives at the front of its catcher. */
  function Catch(ms: seq<MonkeyData>, t: (nat, nat)): (r: seq<MonkeyData>)
    requires t.0 < |ms|
    ensures SameRules(r, ms)
  {
    ms[t.0 := ms[t.0].(items := [t.1] + ms[t.0].items)]
  }

  /** The throws, caught one after the other. */
  function Deliver(ms: seq<MonkeyData>, ts: seq<(nat, nat)>): (r: seq<MonkeyData>)
    requires Targets(ts, |ms|)
    ensures SameRules(r, ms)
  {
    if ts == [] then ms else Catch(Deliver(ms, ts[..|ts| - 1]), ts[|ts| - 1])
  }

  /** The items thrown to monkey `j`, the last one first. */
  function Received(ts: seq<(nat, nat)>, j: nat): seq<nat>
  {
    if ts == [] then []
    else
      var last := ts[|ts| - 1];
      (if last.0 == j then [last.1] else []) + Received(ts[..|ts| - 1], j)
  }

  /** After the throws, each monkey holds what it was thrown, newest first, in front of what it had. */
  lemma {:induction false} DeliverMeaning(ms: seq<MonkeyData>, ts: seq<(nat, nat)>, j: nat)
    requires Targets(ts, |ms|) && j < |ms|
    ensures Deliver(ms, ts)[j] == ms[j].(items := Received(ts, j) + ms[j].items)
  {
    if ts != [] {
      DeliverMeaning(ms, ts[..|ts| - 1], j);
    }
  }

  /** A monkey's throws go to its catchers. */
  lemma ThrowsTargets(ms: seq<MonkeyData>, i: nat)
    requires WellFormed(ms) && i < |ms|
    ensures Targets(Throws(ms[i]), |ms|)
  {
  }

  /**
   * Monkey `i`'s turn: it throws every item it holds; then the copy that
   * did the throwing, empty and with the inspections counted, is written
   * back over monkey `i`.
   */
  function Turn(ms: seq<MonkeyData>, i: nat): (r: seq<MonkeyData>)
    requires WellFormed(ms) && i < |ms|
    ensures SameRules(r, ms) && WellFormed(r)
  {
    var m := ms[i];
    ThrowsTargets(ms, i);
    var after := Deliver(ms, Throws(m));
    after[i := m.(items := [], itemsInspected := m.itemsInspected + |m.items|)]
  }

  /** After its turn a monkey holds nothing and has inspected each of its items once; the others received its throws. */
  lemma TurnMeaning(ms: seq<MonkeyData>, i: nat, j: nat)
    requires WellFormed(ms) && i < |ms| && j < |ms|
    ensures i == j ==> Turn(ms, i)[j] == ms[i].(items := [], itemsInspected := ms[i].itemsInspected + |ms[i].items|)
    ensures i != j ==> Turn(ms, i)[j] == ms[j].(items := Received(Throws(ms[i]), j) + ms[j].items)
  {
    ThrowsTargets(ms, i);
    DeliverMeaning(ms, Throws(ms[i]), j);
  }

  /** The total number of items held. */
  function TotalItems(ms: seq<MonkeyData>): nat
  {
    if ms == [] then 0 else TotalItems(ms[..|ms| - 1]) + |ms[|ms| - 1].items|
  }

  lemma {:induction false} TotalItemsUpdate(ms: seq<MonkeyData>, k: nat, m: MonkeyData)
    requires k < |ms|
    ensures TotalItems(ms[k := m]) + |ms[k].items| == TotalItems(ms) + |m.items|
  {
    var prefix := ms[..|ms| - 1];
    if k < |ms| - 1 {
      assert ms[k := m][..|ms| - 1] == prefix[k := m];
      TotalItemsUpdate(prefix, k, m);
    } else {
      assert ms[k := m][..|ms| - 1] == prefix;
    }
  }

  /** Each throw adds one item to its catcher. */
  lemma {:induction false} DeliverTotal(ms: seq<MonkeyData>, ts: seq<(nat, nat)>)
    requires Targets(ts, |ms|)
    ensures TotalItems(Deliver(ms, ts)) == TotalItems(ms) + |ts|
  {
    if ts != [] {
      var before := Deliver(ms, ts[..|ts| - 1]);
      DeliverTotal(ms, ts[..|ts| - 1]);
      var t := ts[|ts| - 1];
      TotalItemsUpdate(before, t.0, before[t.0].(items := [t.1] + before[t.0].items));
    }
  }

  /**
   * Items a monkey throws to itself are lost: a turn keeps every item
   * except those.
   */
  lemma TurnLosesSelfThrows(ms: seq<MonkeyData>, i: nat)
    requires WellFormed(ms) && i < |ms|
    ensures TotalItems(Turn(ms, i)) + |Received(Throws(ms[i]), i)| == TotalItems(ms)
  {
    ThrowsTargets(ms, i);
    DeliverTotal(ms, Throws(ms[i]));
    DeliverMeaning(ms, Throws(ms[i]), i);
    TotalItemsUpdate(Deliver(ms, Throws(ms[i])), i, ms[i].(items := [], itemsInspected := ms[i].itemsInspected + |ms[i].items|));
  }

  /** The turns of monkeys `0` to `k - 1`, in index order. */
  function TurnsUpTo(ms: seq<MonkeyData>, k: nat): (r: seq<MonkeyData>)
    requires WellFormed(ms) && k <= |ms|
    ensures SameRules(r, ms) && WellFormed(r)
  {
    if k == 0 then ms else Turn(TurnsUpTo(ms, k - 1), k - 1)
  }

  function Round(ms: seq<MonkeyData>): (r: seq<MonkeyData>)
    requires WellFormed(ms)
    ensures SameRules(r, ms) && WellFormed(r)
  {
    TurnsUpTo(ms, |ms|)
  }

  function Rounds(ms: seq<MonkeyData>, n: nat): (r: seq<MonkeyData>)
    requires WellFormed(ms)
    ensures SameRules(r, ms) && WellFormed(r)
  {
    if n == 0 then ms else Round(Rounds(ms, n - 1))
  }

  /** A turn counts inspections for its own monkey only, one per item held. */
  lemma TurnInspected(ms: seq<MonkeyData>, i: nat, j: nat)
    requires WellFormed(ms) && i < |ms| && j < |ms|
    ensures Turn(ms, i)[j].itemsInspected == ms[j].itemsInspected + (if i == j then |ms[i].items| else 0)
  {
    TurnMeaning(ms, i, j);
  }

  /** Turn `k` of a round counts inspections for monkey `k` only. */
  lemma TurnsUpToStep(ms: seq<MonkeyData>, k: nat, j: nat)
    requires WellFormed(ms) && k < |ms| && j < |ms|
    ensures TurnsUpTo(ms, k + 1)[j].itemsInspected ==
      TurnsUpTo(ms, k)[j].itemsInspected + (if k == j then |TurnsUpTo(ms, k)[j].items| else 0)
  {
    TurnInspected(TurnsUpTo(ms, k), k, j);
  }

  /** Step `t` of a count adds `d` when `t` is `j` and nothing otherwise. */
  predicate CountStep(c: seq<nat>, j: nat, d: nat, t: nat)
    requires t + 1 < |c|
  {
    c[t + 1] == c[t] + (if t == j then d else 0)
  }

  /** A count that grows by `d` at step `j` and stays put at every other step. */
  lemma {:induction false} CountAccumulates(c: seq<nat>, j: nat, d: nat, k: nat)
    requires k < |c|
    requires forall t: nat :: t + 1 < |c| ==> CountStep(c, j, d, t)
    ensures c[k] == c[0] + (if j < k then d else 0)
  {
    if k > 0 {
      CountAccumulates(c, j, d, k - 1);
      assert CountStep(c, j, d, k - 1);
    }
  }

  /** Monkey `j`'s inspection count after each turn of a round. */
  function InspectionTrace(ms: seq<MonkeyData>, j: nat): (c: seq<nat>)
    requires WellFormed(ms) && j < |ms|
    ensures |c| == |ms| + 1 && forall t :: 0 <= t < |c| ==> c[t] == TurnsUpTo(ms, t)[j].itemsInspected
  {
    seq(|ms| + 1, t requires 0 <= t <= |ms| => TurnsUpTo(ms, t)[j].itemsInspected)
  }

  /** The trace grows only at monkey `j`'s own turn, by the items it then holds. */
  lemma InspectionTraceSteps(ms: seq<MonkeyData>, j: nat)
    requires WellFormed(ms) && j < |ms|
    ensures forall t: nat :: t + 1 < |ms| + 1 ==>
      CountStep(InspectionTrace(ms, j), j, |TurnsUpTo(ms, j)[j].items|, t)
  {
    forall t: nat | t + 1 < |ms| + 1
      ensures CountStep(InspectionTrace(ms, j), j, |TurnsUpTo(ms, j)[j].items|, t)
    {
      TurnsUpToStep(ms, t, j);
    }
  }

  /** A monkey's inspection count grows only on its own turn, by the items it then holds. */
  lemma TurnsUpToInspected(ms: seq<MonkeyData>, k: nat, j: nat)
    requires WellFormed(ms) && k <= |ms| && j < |ms|
    ensures TurnsUpTo(ms, k)[j].itemsInspected ==
      ms[j].itemsInspected + (if j < k then |TurnsUpTo(ms, j)[j].items| else 0)
  {
    InspectionTraceSteps(ms, j);
    CountAccumulates(InspectionTrace(ms, j), j, |TurnsUpTo(ms, j)[j].items|, k);
    assert TurnsUpTo(ms, 0) == ms;
  }

  /** In a round each monkey inspects exactly the items it holds when its turn comes. */
  lemma RoundInspections(ms: seq<MonkeyData>, j: nat)
    requires WellFormed(ms) && j < |ms|
    ensures Round(ms)[j].itemsInspected == ms[j].itemsInspected + |TurnsUpTo(ms, j)[j].items|
  {
    TurnsUpToInspected(ms, |ms|, j);
  }

  /** No operation of monkey `i` overflows a `u32` on the items it holds. */
  predicate TurnFits(ms: seq<MonkeyData>, i: nat)
    requires i < |ms|
  {
    forall k :: 0 <= k < |ms[i].items| ==> Apply(ms[i].operation, ms[i].items[k]) < U32_LIMIT
  }

  predicate RoundFits(ms: seq<MonkeyData>)
    requires WellFormed(ms)
  {
    forall k :: 0 <= k < |ms| ==> TurnFits(TurnsUpTo(ms, k), k)
  }

  /** No worry level overflows in the first `n` rounds. */
  predicate RunFits(ms: seq<MonkeyData>, n: nat)
    requires WellFormed(ms)
  {
    forall r :: 0 <= r < n ==> RoundFits(Rounds(ms, r))
  }

  /** `states` holds the monkeys after each number of turns of a round. */
  ghost predicate RoundStates(ms: seq<MonkeyData>, states: seq<seq<MonkeyData>>)
    requires WellFormed(ms)
  {
    |states| == |ms| + 1 &&
    forall k {:trigger TurnsUpTo(ms, k)} :: 0 <= k <= |ms| ==> states[k] == TurnsUpTo(ms, k)
  }

  lemma RoundStatesExist(ms: seq<MonkeyData>) returns (states: seq<seq<MonkeyData>>)
    requires WellFormed(ms)
    ensures RoundStates(ms, states) && states[0] == ms
  {
    states := seq(|ms| + 1, k requires 0 <= k <= |ms| => TurnsUpTo(ms, k));
    assert states[0] == TurnsUpTo(ms, 0);
  }

  /** The monkeys, held as values and replaced slot by slot. */
  class Monkeys {
    var monkeys: seq<MonkeyData>

    constructor(ms: seq<MonkeyData>)
      ensures monkeys == ms
    {
      monkeys := ms;
    }

    /**
     * Each monkey in index order: a copy throws until it is empty, each
     * catcher is copied, catches, and replaces its slot; then the thrower
     * replaces its own slot.
     */
    method RoundOfMonkeyBusiness()
      modifies this
      requires WellFormed(monkeys) && RoundFits(monkeys)
      ensures monkeys == Round(old(monkeys))
    {
      ghost var start := monkeys;
      ghost var states := RoundStatesExist(start);
      for i := 0 to |monkeys|
        invariant monkeys == states[i]
      {
        PlayTurnOfRound(i, start, states);
      }
    }

    /** Turn `i` of the round that started from `start`. */
    method PlayTurnOfRound(i: nat, ghost start: seq<MonkeyData>, ghost states: seq<seq<MonkeyData>>)
      modifies this
      requires WellFormed(start) && RoundFits(start) && RoundStates(start, states)
      requires i < |start| && monkeys == states[i]
      ensures monkeys == states[i + 1]
    {
      assert monkeys == TurnsUpTo(start, i);
      assert TurnFits(TurnsUpTo(start, i), i);
      PlayTurn(i);
      assert monkeys == TurnsUpTo(start, i + 1);
    }

    /** The catcher is copied, catches the item, and replaces its slot. */
    method CatchThrow(index: nat, item: nat)
      modifies this
      requires index < |monkeys|
      ensures monkeys == Catch(old(monkeys), (index, item))
    {
      var catcher := new Monkey(monkeys[index]);
      catcher.CatchItem(item);
      monkeys := monkeys[index := catcher.Data()];
    }

    /** The thrower throws until it is empty; each throw is caught at once. */
    method ThrowAll(thrower: Monkey)
      modifies this, thrower
      requires thrower.divisor > 0 && thrower.catchers.0 < |monkeys| && thrower.catchers.1 < |monkeys|
      requires forall k :: 0 <= k < |thrower.items| ==> Apply(thrower.operation, thrower.items[k]) < U32_LIMIT
      ensures Targets(Throws(old(thrower.Data())), |old(monkeys)|)
      ensures monkeys == Deliver(old(monkeys), Throws(old(thrower.Data())))
      ensures thrower.Data() == old(thrower.Data()).(items := [], itemsInspected := old(thrower.itemsInspected) + |old(thrower.items)|)
    {
      ghost var before := monkeys;
      ghost var m := thrower.Data();
      ghost var ts := Throws(m);
      assert Targets(ts, |before|);
      ghost var done := 0;
      var throwing := true;
      while throwing
        invariant 0 <= done <= |m.items| && |monkeys| == |before|
        invariant throwing ==> thrower.Data() == m.(items := m.items[done..], itemsInspected := m.itemsInspected + done)
        invariant !throwing ==> done == |m.items| && thrower.Data() == m.(items := [], itemsInspected := m.itemsInspected + |m.items|)
        invariant monkeys == Deliver(before, ts[..done])
        decreases |thrower.items| + (if throwing then 1 else 0)
      {
        var t := thrower.ThrowItem();
        match t
        case None =>
          throwing := false;
        case Some((index, item)) =>
          assert ts[done] == (index, item);
          assert ts[..done + 1][..done] == ts[..done];
          CatchThrow(index, item);
          done := done + 1;
      }
      assert ts[..done] == ts;
    }

    /** Monkey `i`'s turn: a copy of it throws everything, then replaces its slot. */
    method PlayTurn(i: nat)
      modifies this
      requires WellFormed(monkeys) && i < |monkeys| && TurnFits(monkeys, i)
      ensures monkeys == Turn(old(monkeys), i)
    {
      var thrower := new Monkey(monkeys[i]);
      ThrowAll(thrower);
      monkeys := monkeys[i := thrower.Data()];
    }
  }

  // ------------------------------------------------------------------
  // The answer
  // ------------------------------------------------------------------

  function Inspections(ms: seq<MonkeyData>): (counts: seq<nat>)
    ensures |counts| == |ms| && forall i :: 0 <= i < |ms| ==> counts[i] == ms[i].itemsInspected
  {
    seq(|ms|, i requires 0 <= i < |ms| => ms[i].itemsInspected)
  }

  /** The index of a largest element. */
  function ArgMax(s: seq<nat>): (i: nat)
    requires s != []
    ensures i < |s| && forall k :: 0 <= k < |s| ==> s[k] <= s[i]
  {
    if |s| == 1 then 0
    else
      var i := ArgMax(s[..|s| - 1]);
      assert forall k :: 0 <= k < |s| - 1 ==> s[..|s| - 1][k] == s[k];
      if s[|s| - 1] > s[i] then |s| - 1 else i
  }

  /** `i` holds a largest count and `j` a largest of the rest. */
  predicate TopTwo(counts: seq<nat>, i: int, j: int)
  {
    0 <= i < |counts| && 0 <= j < |counts| && i != j && counts[j] <= counts[i] &&
    forall k :: 0 <= k < |counts| && k != i ==> counts[k] <= counts[j]
  }

  /** Every count of `s` but the one at `i`. */
  function Without(s: seq<nat>, i: nat): (r: seq<nat>)
    requires i < |s|
    ensures |r| == |s| - 1
    ensures forall k :: 0 <= k < |s| && k != i ==> s[k] == r[if k < i then k else k - 1]
  {
    s[..i] + s[i + 1..]
  }

  /** The index of a largest count, and the index of a largest of the others. */
  function TopIndices(counts: seq<nat>): (t: (nat, nat))
    requires |counts| >= 2
    ensures TopTwo(counts, t.0, t.1)
  {
    var i := ArgMax(counts);
    var others := Without(counts, i);
    var k := ArgMax(others);
    var j := if k < i then k else k + 1;
    assert others[k] == counts[j];
    (i, j)
  }

  /**
   * Sorting the counts and multiplying the last two: the product of a
   * largest count and a largest of the others; 1 for no monkey, the count
   * itself for one.
   */
  function TopTwoProduct(counts: seq<nat>): (p: nat)
    ensures |counts| == 0 ==> p == 1
    ensures |counts| == 1 ==> p == counts[0]
    ensures |counts| >= 2 ==> exists i, j :: TopTwo(counts, i, j) && p == Times(counts[i], counts[j])
  {
    if |counts| == 0 then 1
    else if |counts| == 1 then counts[0]
    else
      var t := TopIndices(counts);
      var p := Times(counts[t.0], counts[t.1]);
      assert TopTwo(counts, t.0, t.1);
      p
  }

  /**
   * The whole program: parse the monkeys, play 20 rounds, and multiply
   * the two largest inspection counts. Every catcher must be a monkey,
   * every divisor positive, and no worry level may overflow a `u32`.
   */
  method MonkeyBusinessFromInput(input: string) returns (r: Result<nat>)
    requires ParseMonkeys(SplitOn(input, "\n\n")).Ok? ==> WellFormed(ParseMonkeys(SplitOn(input, "\n\n")).value) && RunFits(ParseMonkeys(SplitOn(input, "\n\n")).value, 20)
    ensures ParseMonkeys(SplitOn(input, "\n\n")).Err? ==> r == Err(ParseMonkeys(SplitOn(input, "\n\n")).msg)
    ensures ParseMonkeys(SplitOn(input, "\n\n")).Ok? ==> r == Ok(TopTwoProduct(Inspections(Rounds(ParseMonkeys(SplitOn(input, "\n\n")).value, 20))))
  {
    var parsed := ParseMonkeys(SplitOn(input, "\n\n"));
    if parsed.Err? {
      return Err(parsed.msg);
    }
    var monkeys := new Monkeys(parsed.value);
    for round := 0 to 20
      invariant monkeys.monkeys == Rounds(parsed.value, round)
    {
      monkeys.RoundOfMonkeyBusiness();
    }
    r := Ok(TopTwoProduct(Inspections(monkeys.monkeys)));
  }
}
