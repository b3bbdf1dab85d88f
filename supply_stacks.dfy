/**
 * 2022 day 5: a drawing of crate stacks followed by move instructions. The
 * crane moves several crates at once and keeps their order; the answer is
 * the top crate of every stack.
 */
module SupplyStacks {
  import opened Common

  // ------------------------------------------------------------------
  // Specification of the stack operations
  // ------------------------------------------------------------------

  /** The stack `origin` (1-based) without its top `quantity` crates. */
  function Drained(stacks: seq<seq<char>>, quantity: nat, origin: nat): seq<seq<char>>
    requires 1 <= origin <= |stacks| && quantity <= |stacks[origin - 1]|
  {
    var source := stacks[origin - 1];
    stacks[origin - 1 := source[..|source| - quantity]]
  }

  /** The top `quantity` crates of `origin`, bottom to top. */
  function Lifted(stacks: seq<seq<char>>, quantity: nat, origin: nat): seq<char>
    requires 1 <= origin <= |stacks| && quantity <= |stacks[origin - 1]|
  {
    var source := stacks[origin - 1];
    source[|source| - quantity..]
  }

  /** The stacks after a successful move. */
  function Moved(stacks: seq<seq<char>>, quantity: nat, origin: nat, destination: nat): seq<seq<char>>
    requires 1 <= origin <= |stacks| && 1 <= destination <= |stacks| && quantity <= |stacks[origin - 1]|
  {
    var drained := Drained(stacks, quantity, origin);
    drained[destination - 1 := drained[destination - 1] + Lifted(stacks, quantity, origin)]
  }

  /** No crate is lost or created by a move. */
  lemma MovedKeepsCrates(stacks: seq<seq<char>>, quantity: nat, origin: nat, destination: nat)
    requires 1 <= origin <= |stacks| && 1 <= destination <= |stacks| && quantity <= |stacks[origin - 1]|
    ensures multiset(Concat(Moved(stacks, quantity, origin, destination))) == multiset(Concat(stacks))
    ensures |Concat(Moved(stacks, quantity, origin, destination))| == |Concat(stacks)|
  {
    var source := stacks[origin - 1];
    var keep, lifted := source[..|source| - quantity], Lifted(stacks, quantity, origin);
    assert source == keep + lifted;
    var drained := Drained(stacks, quantity, origin);
    var moved := Moved(stacks, quantity, origin, destination);
    var target := drained[destination - 1];
    assert drained == stacks[origin - 1 := keep];
    assert moved == drained[destination - 1 := target + lifted];
    ConcatUpdate(stacks, origin - 1, keep);
    assert multiset(Concat(drained)) + multiset(keep) + multiset(lifted) == multiset(Concat(stacks)) + multiset(keep);
    ConcatUpdate(drained, destination - 1, target + lifted);
    assert multiset(Concat(moved)) + multiset(target) == multiset(Concat(drained)) + multiset(target) + multiset(lifted);
    Cancel(multiset(Concat(drained)) + multiset(lifted), multiset(Concat(stacks)), multiset(keep));
    Cancel(multiset(Concat(moved)), multiset(Concat(drained)) + multiset(lifted), multiset(target));
    MultisetLength(Concat(moved), Concat(stacks));
  }

  lemma Cancel(a: multiset<char>, b: multiset<char>, t: multiset<char>)
    requires a + t == b + t
    ensures a == b
  {
    forall c
      ensures a[c] == b[c]
    {
      assert (a + t)[c] == a[c] + t[c] && (b + t)[c] == b[c] + t[c];
    }
  }

  lemma MultisetLength(a: seq<char>, b: seq<char>)
    requires multiset(a) == multiset(b)
    ensures |a| == |b|
  {
    assert |multiset(a)| == |a| && |multiset(b)| == |b|;
  }

  /** A move changes the two named stacks only; crates keep their order. */
  lemma MovedShape(stacks: seq<seq<char>>, quantity: nat, origin: nat, destination: nat)
    requires 1 <= origin <= |stacks| && 1 <= destination <= |stacks| && quantity <= |stacks[origin - 1]|
    requires origin != destination
    ensures var moved := Moved(stacks, quantity, origin, destination);
      |moved| == |stacks|
      && moved[origin - 1] + Lifted(stacks, quantity, origin) == stacks[origin - 1]
      && moved[destination - 1] == stacks[destination - 1] + Lifted(stacks, quantity, origin)
      && |Lifted(stacks, quantity, origin)| == quantity
      && forall i :: 0 <= i < |stacks| && i != origin - 1 && i != destination - 1 ==> moved[i] == stacks[i]
  {
    var source := stacks[origin - 1];
    assert source[..|source| - quantity] + source[|source| - quantity..] == source;
  }

  /** Moving a stack's crates onto itself puts everything back. */
  lemma MovedOntoItself(stacks: seq<seq<char>>, quantity: nat, origin: nat)
    requires 1 <= origin <= |stacks| && quantity <= |stacks[origin - 1]|
    ensures Moved(stacks, quantity, origin, origin) == stacks
  {
    var source := stacks[origin - 1];
    assert source[..|source| - quantity] + source[|source| - quantity..] == source;
  }

  /** Every outcome of `move_crates`, including what the program does not survive. */
  function MoveResult(stacks: seq<seq<char>>, quantity: nat, origin: nat, destination: nat): (r: Result<seq<seq<char>>>)
    ensures r.Ok? <==> 1 <= origin <= |stacks| && 1 <= destination <= |stacks| && quantity <= |stacks[origin - 1]|
  {
    if origin == 0 then Err("attempt to subtract with overflow")
    else if origin > |stacks| then Err("Tried to move from non-existent stack " + Decimal(origin))
    else if quantity > |stacks[origin - 1]| then Err("attempt to subtract with overflow")
    else if destination == 0 then Err("attempt to subtract with overflow")
    else if destination > |stacks| then Err("Tried to move to non-existent stack " + Decimal(destination))
    else Ok(Moved(stacks, quantity, origin, destination))
  }

  /** One char per stack: its top crate, or a space for an empty stack. */
  function TopCrates(stacks: seq<seq<char>>): (tops: string)
    ensures |tops| == |stacks|
    ensures forall i :: 0 <= i < |stacks| && stacks[i] != [] ==> tops[i] == stacks[i][|stacks[i]| - 1]
    ensures forall i :: 0 <= i < |stacks| && stacks[i] == [] ==> tops[i] == ' '
  {
    seq(|stacks|, i requires 0 <= i < |stacks| => if stacks[i] == [] then ' ' else stacks[i][|stacks[i]| - 1])
  }

  /** After lifting at least one crate, the origin's old top crate is on top of the destination. */
  lemma MovedTopCrate(stacks: seq<seq<char>>, quantity: nat, origin: nat, destination: nat)
    requires 1 <= origin <= |stacks| && 1 <= destination <= |stacks| && 1 <= quantity <= |stacks[origin - 1]|
    ensures TopCrates(Moved(stacks, quantity, origin, destination))[destination - 1] == TopCrates(stacks)[origin - 1]
  {
  }

  // ------------------------------------------------------------------
  // Specification of the drawing
  // ------------------------------------------------------------------

  /** The chars at positions 1, 5, 9, ... of a drawing line: one per column. */
  function Columns(layer: string): (cols: seq<char>)
    ensures forall k :: 0 <= k < |cols| <==> 0 <= k && 1 + 4 * k < |layer|
    ensures forall k :: 0 <= k < |cols| ==> cols[k] == layer[1 + 4 * k]
  {
    var n := if |layer| <= 1 then 0 else (|layer| - 2) / 4 + 1;
    seq(n, k requires 0 <= k < n => layer[1 + 4 * k])
  }

  predicate IsUppercase(c: char)
  {
    'A' <= c <= 'Z'
  }

  function MaxLen(a: nat, b: nat): nat
  {
    if a >= b then a else b
  }

  /** Stack `i`, or an empty stack where there is none yet. */
  function StackAt(stacks: seq<seq<char>>, i: nat): seq<char>
  {
    if i < |stacks| then stacks[i] else []
  }

  /**
   * One layer laid onto the stacks: every column makes sure its stack
   * exists, and an uppercase letter in it is pushed onto that stack.
   */
  function AddLayer(stacks: seq<seq<char>>, cols: seq<char>): (r: seq<seq<char>>)
    ensures |r| == MaxLen(|stacks|, |cols|)
  {
    seq(MaxLen(|stacks|, |cols|), i requires 0 <= i < MaxLen(|stacks|, |cols|) =>
      StackAt(stacks, i) + if i < |cols| && IsUppercase(cols[i]) then [cols[i]] else [])
  }

  lemma AddLayerNothing(stacks: seq<seq<char>>)
    ensures AddLayer(stacks, []) == stacks
  {
    assert forall i :: 0 <= i < |stacks| ==> AddLayer(stacks, [])[i] == stacks[i];
  }

  /** Layers bottom-up, each one laid onto the previous ones. */
  function Stacked(layers: seq<string>): seq<seq<char>>
  {
    if layers == [] then [] else AddLayer(Stacked(layers[..|layers| - 1]), Columns(layers[|layers| - 1]))
  }

  /** The drawing's lines, bottom-up, without the last (label) line. */
  function LayersOf(diagram: string): (layers: seq<string>)
    ensures |layers| == |Split(diagram, '\n')| - 1
  {
    var lines := Split(diagram, '\n');
    seq(|lines| - 1, i requires 0 <= i < |lines| - 1 => lines[|lines| - 2 - i])
  }

  /** Only uppercase letters ever reach a stack. */
  lemma {:induction false} StackedHoldsLetters(layers: seq<string>)
    ensures forall i, j :: 0 <= i < |Stacked(layers)| && 0 <= j < |Stacked(layers)[i]| ==> IsUppercase(Stacked(layers)[i][j])
    decreases |layers|
  {
    if layers != [] {
      StackedHoldsLetters(layers[..|layers| - 1]);
    }
  }

  lemma SampleDrawing()
    ensures Stacked(["[G] [H] [I]", "[D] [E] [F]", "[A] [B] [C]"]) == [['G', 'D', 'A'], ['H', 'E', 'B'], ['I', 'F', 'C']]
  {
    var l1, l2, l3 := "[G] [H] [I]", "[D] [E] [F]", "[A] [B] [C]";
    assert Columns(l1) == "GHI" && Columns(l2) == "DEF" && Columns(l3) == "ABC";
    var s1 := AddLayer([], "GHI");
    assert s1[0] == ['G'] && s1[1] == ['H'] && s1[2] == ['I'];
    var s2 := AddLayer(s1, "DEF");
    assert s2[0] == ['G', 'D'] && s2[1] == ['H', 'E'] && s2[2] == ['I', 'F'];
    var s3 := AddLayer(s2, "ABC");
    assert s3[0] == ['G', 'D', 'A'] && s3[1] == ['H', 'E', 'B'] && s3[2] == ['I', 'F', 'C'];
    assert [l1, l2, l3][..2] == [l1, l2] && [l1, l2][..1] == [l1] && [l1][..0] == [];
    assert Stacked([l1]) == s1;
    assert Stacked([l1, l2]) == s2;
    assert Stacked([l1, l2, l3]) == s3;
  }

  /** The sample move and the tops it leaves (the code keeps the lifted crates' order). */
  lemma SampleMove()
    ensures Moved([['G', 'D', 'A'], ['H', 'E', 'B'], ['I', 'F', 'C']], 2, 1, 3) == [['G'], ['H', 'E', 'B'], ['I', 'F', 'C', 'D', 'A']]
    ensures TopCrates([['G'], ['H', 'E', 'B'], ['I', 'F', 'C', 'D', 'A']]) == "GBA"
  {
    var s := [['G', 'D', 'A'], ['H', 'E', 'B'], ['I', 'F', 'C']];
    assert s[0][..1] == ['G'];
    assert Lifted(s, 2, 1) == ['D', 'A'];
    var d := Drained(s, 2, 1);
    assert d == [['G'], ['H', 'E', 'B'], ['I', 'F', 'C']];
    assert d[2] + ['D', 'A'] == ['I', 'F', 'C', 'D', 'A'];
    assert Moved(s, 2, 1, 3) == d[2 := d[2] + ['D', 'A']];
  }

  // ------------------------------------------------------------------
  // The supply, mutated in place
  // ------------------------------------------------------------------

  class Supply {
    var stacks: seq<seq<char>>

    constructor ()
      ensures stacks == []
    {
      stacks := [];
    }

    method AddStack()
      modifies this
      ensures stacks == old(stacks) + [[]]
    {
      stacks := stacks + [[]];
    }

    /** Makes sure stack `index` exists by adding at most one stack; errs if one is not enough. */
    method GetOrAddStack(index: nat) returns (r: Result<nat>)
      modifies this
      ensures index < |old(stacks)| ==> stacks == old(stacks)
      ensures index >= |old(stacks)| ==> stacks == old(stacks) + [[]]
      ensures r.Ok? <==> index <= |old(stacks)|
      ensures r.Ok? ==> r.value == index && index < |stacks|
    {
      if |stacks| > index {
        r := Ok(index);
      } else {
        AddStack();
        if index < |stacks| {
          r := Ok(index);
        } else {
          r := Err("Couldn't get stack " + Decimal(index) + " after creating a new one");
        }
      }
    }

    /**
     * Lifts the top `quantity` crates of stack `origin` and sets them, in
     * the same order, onto stack `destination` (both 1-based). A missing
     * origin fails before anything changes; a missing destination fails
     * after the origin was drained.
     */
    method MoveCrates(quantity: nat, origin: nat, destination: nat) returns (r: Result<()>)
      requires origin >= 1
      requires origin <= |stacks| ==> quantity <= |stacks[origin - 1]| && destination >= 1
      modifies this
      ensures origin > |old(stacks)| ==> r.Err? && stacks == old(stacks)
      ensures origin <= |old(stacks)| && destination > |old(stacks)| ==>
        r.Err? && stacks == Drained(old(stacks), quantity, origin)
      ensures origin <= |old(stacks)| && destination <= |old(stacks)| ==>
        r.Ok? && stacks == Moved(old(stacks), quantity, origin, destination)
      ensures r.Ok? <==> MoveResult(old(stacks), quantity, origin, destination).Ok?
      ensures r.Err? ==> r.msg == MoveResult(old(stacks), quantity, origin, destination).msg
    {
      if origin - 1 >= |stacks| {
        return Err("Tried to move from non-existent stack " + Decimal(origin));
      }
      var source := stacks[origin - 1];
      var newLength := |source| - quantity;
      var cratesToMove := source[newLength..];
      stacks := stacks[origin - 1 := source[..newLength]];
      if destination - 1 >= |stacks| {
        return Err("Tried to move to non-existent stack " + Decimal(destination));
      }
      stacks := stacks[destination - 1 := stacks[destination - 1] + cratesToMove];
      r := Ok(());
    }

    /**
     * The inner loop of the deserialization: every column of one drawing
     * line gets its stack, and an uppercase letter in it is pushed on top.
     */
    method StackLayer(layer: string)
      modifies this
      ensures stacks == AddLayer(old(stacks), Columns(layer))
    {
      var cols := Columns(layer);
      var i := 0;
      AddLayerNothing(stacks);
      assert cols[..0] == [];
      while 1 + 4 * i < |layer|
        invariant i <= |cols|
        invariant stacks == AddLayer(old(stacks), cols[..i])
      {
        var cr8 := layer[1 + 4 * i];
        var got := GetOrAddStack(i);
        assert got.Ok?;
        if IsUppercase(cr8) {
          stacks := stacks[i := stacks[i] + [cr8]];
        }
        assert cols[..i + 1] == cols[..i] + [cr8];
        assert stacks == AddLayer(old(stacks), cols[..i + 1]);
        i := i + 1;
      }
      assert cols[..i] == cols;
    }

    /** One char per stack: the top crate, or a space for an empty stack. */
    function SkimTopCrates(): (tops: string)
      reads this
      ensures |tops| == |stacks|
      ensures forall i :: 0 <= i < |stacks| && stacks[i] != [] ==> tops[i] == stacks[i][|stacks[i]| - 1]
      ensures forall i :: 0 <= i < |stacks| && stacks[i] == [] ==> tops[i] == ' '
    {
      TopCrates(stacks)
    }
  }

  /** Lays the drawing's layers bottom-up onto a new supply; this never fails. */
  method TryDeserialize(diagram: string) returns (r: Result<Supply>)
    ensures r.Ok? && fresh(r.value)
    ensures r.value.stacks == Stacked(LayersOf(diagram))
  {
    var layers := LayersOf(diagram);
    var supply := new Supply();
    for k := 0 to |layers|
      invariant supply.stacks == Stacked(layers[..k])
    {
      supply.StackLayer(layers[k]);
      assert layers[..k + 1][..k] == layers[..k];
    }
    assert layers[..|layers|] == layers;
    r := Ok(supply);
  }

  // ------------------------------------------------------------------
  // Instructions and the whole program
  // ------------------------------------------------------------------

  /** `move Q from O to D`: six space-separated tokens, the odd ones `usize`; the words are not checked. */
  function ParseInstruction(line: string): (r: Result<(nat, nat, nat)>)
    ensures var tokens := Split(line, ' ');
      r.Ok? <==> |tokens| == 6 && ParseUsize(tokens[1]).Some? && ParseUsize(tokens[3]).Some? && ParseUsize(tokens[5]).Some?
    ensures var tokens := Split(line, ' ');
      r.Ok? ==> r.value == (ParseUsize(tokens[1]).value, ParseUsize(tokens[3]).value, ParseUsize(tokens[5]).value)
    ensures r.Ok? ==> r.value.0 < USIZE_LIMIT && r.value.1 < USIZE_LIMIT && r.value.2 < USIZE_LIMIT
    ensures var tokens := Split(line, ' ');
      |tokens| != 6 ==> r == Err("Move instruction without the expected 6 tokens: " + DebugStrings(tokens))
  {
    var tokens := Split(line, ' ');
    if |tokens| != 6 then Err("Move instruction without the expected 6 tokens: " + DebugStrings(tokens))
    else
      var quantity, origin, destination := ParseUsize(tokens[1]), ParseUsize(tokens[3]), ParseUsize(tokens[5]);
      if quantity.None? then Err("Couldn't parse quantity in move instruction: " + UnsignedParseError(tokens[1], USIZE_LIMIT))
      else if origin.None? then Err("Couldn't parse origin in move instruction: " + UnsignedParseError(tokens[3], USIZE_LIMIT))
      else if destination.None? then Err("Couldn't parse destination in move instruction: " + UnsignedParseError(tokens[5], USIZE_LIMIT))
      else Ok((quantity.value, origin.value, destination.value))
  }

  lemma NoSpaceInDecimal(n: nat)
    ensures ' ' !in Decimal(n)
  {
    var d := Decimal(n);
    assert forall i :: 0 <= i < |d| ==> IsDigit(d[i]);
  }

  /** Parsing undoes printing: a written-out instruction parses back to its numbers. */
  lemma ParseInstructionDecimal(quantity: nat, origin: nat, destination: nat)
    requires quantity < USIZE_LIMIT && origin < USIZE_LIMIT && destination < USIZE_LIMIT
    ensures ParseInstruction(Join(["move", Decimal(quantity), "from", Decimal(origin), "to", Decimal(destination)], " "))
      == Ok((quantity, origin, destination))
  {
    var pieces := ["move", Decimal(quantity), "from", Decimal(origin), "to", Decimal(destination)];
    NoSpaceInDecimal(quantity);
    NoSpaceInDecimal(origin);
    NoSpaceInDecimal(destination);
    assert forall i :: 0 <= i < |pieces| ==> ' ' !in pieces[i];
    SplitJoin(pieces, ' ');
    ParseDecimal(quantity, USIZE_LIMIT);
    ParseDecimal(origin, USIZE_LIMIT);
    ParseDecimal(destination, USIZE_LIMIT);
  }

  /** An empty line is a single empty token, so it is not an instruction. */
  lemma EmptyInstructionRejected()
    ensures ParseInstruction("") == Err("Move instruction without the expected 6 tokens: [\"\"]")
  {
    assert Split("", ' ') == [""];
    assert DebugStrings([""]) == "[\"\"]";
  }

  /** A move section that ends in a newline ends in that empty line, so it never parses. */
  lemma TrailingNewlineFails(moves: string)
    requires |moves| > 0 && moves[|moves| - 1] == '\n'
    ensures ParseInstructions(Split(moves, '\n')).Err?
  {
    var body := moves[..|moves| - 1];
    assert moves == body + ['\n'];
    SplitEndsEmpty(body, '\n');
    var lines := Split(moves, '\n');
    EmptyInstructionRejected();
    assert ParseInstruction(lines[|lines| - 1]).Err?;
  }

  /** Every instruction line parsed, in order; the first bad one aborts. */
  function ParseInstructions(lines: seq<string>): (r: Result<seq<(nat, nat, nat)>>)
    ensures r.Ok? <==> forall i :: 0 <= i < |lines| ==> ParseInstruction(lines[i]).Ok?
    ensures r.Ok? ==> |r.value| == |lines| && forall i :: 0 <= i < |lines| ==> r.value[i] == ParseInstruction(lines[i]).value
  {
    var rs := seq(|lines|, i requires 0 <= i < |lines| => ParseInstruction(lines[i]));
    assert forall i :: 0 <= i < |lines| ==> rs[i] == ParseInstruction(lines[i]);
    Collect(rs)
  }

  /** The moves carried out one after another; the first failing move stops the program. */
  function ApplyAll(stacks: seq<seq<char>>, moves: seq<(nat, nat, nat)>): Result<seq<seq<char>>>
  {
    if moves == [] then Ok(stacks)
    else
      var last := moves[|moves| - 1];
      match ApplyAll(stacks, moves[..|moves| - 1])
      case Err(e) => Err(e)
      case Ok(s) => MoveResult(s, last.0, last.1, last.2)
  }

  /** However many moves succeed, every crate is still somewhere. */
  lemma {:induction false} ApplyAllKeepsCrates(stacks: seq<seq<char>>, moves: seq<(nat, nat, nat)>)
    requires ApplyAll(stacks, moves).Ok?
    ensures multiset(Concat(ApplyAll(stacks, moves).value)) == multiset(Concat(stacks))
    ensures |ApplyAll(stacks, moves).value| == |stacks|
    decreases |moves|
  {
    if moves != [] {
      var last := moves[|moves| - 1];
      ApplyAllKeepsCrates(stacks, moves[..|moves| - 1]);
      var s := ApplyAll(stacks, moves[..|moves| - 1]).value;
      MovedKeepsCrates(s, last.0, last.1, last.2);
    }
  }

  /** The answer: the drawing, a blank line, the moves; then the top crates. */
  function Rearrangement(data: string): Result<string>
  {
    var sections := SplitOn(data, "\n\n");
    if |sections| != 2 then Err("Input didn't contain the expected two \"\\n\\n\" separated sections")
    else match ParseInstructions(Split(sections[1], '\n'))
      case Err(e) => Err(e)
      case Ok(moves) =>
        match ApplyAll(Stacked(LayersOf(sections[0])), moves)
        case Err(e) => Err(e)
        case Ok(stacks) => Ok(TopCrates(stacks))
  }

  /** Once a move fails, later moves do not matter. */
  lemma {:induction false} ApplyAllStopsAtError(stacks: seq<seq<char>>, moves: seq<(nat, nat, nat)>, k: nat)
    requires k <= |moves| && ApplyAll(stacks, moves[..k]).Err?
    ensures ApplyAll(stacks, moves) == ApplyAll(stacks, moves[..k])
    decreases |moves| - k
  {
    if k < |moves| {
      var next := moves[..k + 1];
      assert next[..k] == moves[..k];
      ApplyAllStopsAtError(stacks, moves, k + 1);
    } else {
      assert moves[..k] == moves;
    }
  }

  /** Carries out the moves on `supply` in place, stopping at the first failing one. */
  method RunMoves(supply: Supply, moves: seq<(nat, nat, nat)>) returns (r: Result<()>)
    modifies supply
    ensures r.Ok? <==> ApplyAll(old(supply.stacks), moves).Ok?
    ensures r.Ok? ==> ApplyAll(old(supply.stacks), moves) == Ok(supply.stacks)
    ensures r.Err? ==> r.msg == ApplyAll(old(supply.stacks), moves).msg
  {
    ghost var initial := supply.stacks;
    for k := 0 to |moves|
      invariant ApplyAll(initial, moves[..k]) == Ok(supply.stacks)
    {
      var (quantity, origin, destination) := moves[k];
      assert moves[..k + 1][..k] == moves[..k];
      if origin == 0 || (origin <= |supply.stacks| && (quantity > |supply.stacks[origin - 1]| || destination == 0)) {
        ApplyAllStopsAtError(initial, moves, k + 1);
        return Err("attempt to subtract with overflow");
      }
      var moved := supply.MoveCrates(quantity, origin, destination);
      if moved.Err? {
        ApplyAllStopsAtError(initial, moves, k + 1);
        return Err(moved.msg);
      }
    }
    assert moves[..|moves|] == moves;
    r := Ok(());
  }

  /** The program: build the supply, parse every move, carry them out in place, skim the tops. */
  method Rearrange(data: string) returns (r: Result<string>)
    ensures r == Rearrangement(data)
  {
    var sections := SplitOn(data, "\n\n");
    if |sections| != 2 {
      return Err("Input didn't contain the expected two \"\\n\\n\" separated sections");
    }
    var built := TryDeserialize(sections[0]);
    var supply := built.value;
    var parsed := ParseInstructions(Split(sections[1], '\n'));
    if parsed.Err? {
      return Err(parsed.msg);
    }
    var ran := RunMoves(supply, parsed.value);
    if ran.Err? {
      return Err(ran.msg);
    }
    r := Ok(supply.SkimTopCrates());
  }
}
