/**
 * 2022 day 10: a CPU with one register `x` runs `addx`/`noop`
 * instructions; on cycles 20, 60, 100, ... it records the signal strength,
 * the cycle number times the value of `x` during that cycle.
 */
module CathodeRay {
  import opened Common

  datatype Instruction = AddX(v: int) | NoOp

  /**
   * The first token names the instruction; `addx` takes its operand, an
   * `i32`, from the second token, and tokens after the ones used are
   * ignored.
   */
  function ParseInstruction(line: string): (r: Result<Instruction>)
    ensures r.Ok? ==> Split(line, ' ')[0] == (if r.value.AddX? then "addx" else "noop")
    ensures r.Ok? && r.value.AddX? ==> I32_MIN <= r.value.v <= I32_MAX
  {
    var tokens := Split(line, ' ');
    if tokens[0] == "addx" then
      if |tokens| < 2 then Err("'addx' was not followed by another token")
      else
        match ParseI32(tokens[1])
        case None => Err("token following 'addx' couldn't be parsed as an integer: " + SignedParseError(tokens[1], I32_MIN, I32_MAX))
        case Some(v) => Ok(AddX(v))
    else if tokens[0] == "noop" then Ok(NoOp)
    else Err("Unrecognised command: " + tokens[0])
  }

  /** What each first token makes of a line. */
  lemma ParseInstructionMeaning(line: string)
    ensures var tokens, r := Split(line, ' '), ParseInstruction(line);
      r == Ok(NoOp) <==> tokens[0] == "noop"
    ensures var tokens, r := Split(line, ' '), ParseInstruction(line);
      (r.Ok? && r.value.AddX?) <==> tokens[0] == "addx" && |tokens| >= 2 && ParseI32(tokens[1]).Some?
    ensures var tokens, r := Split(line, ' '), ParseInstruction(line);
      r.Ok? && r.value.AddX? ==> Some(r.value.v) == ParseI32(tokens[1])
    ensures var tokens, r := Split(line, ' '), ParseInstruction(line);
      tokens[0] != "addx" && tokens[0] != "noop" ==> r == Err("Unrecognised command: " + tokens[0])
  {
  }

  lemma ParseSamples()
    ensures ParseInstruction("noop") == Ok(NoOp)
    ensures ParseInstruction("") == Err("Unrecognised command: ")
    ensures ParseInstruction("addx") == Err("'addx' was not followed by another token")
  {
    assert ParseInstruction("noop") == Ok(NoOp) by {
      SplitNoSeparator("noop", ' ');
    }
    assert ParseInstruction("") == Err("Unrecognised command: ") by {
      assert Split("", ' ') == [""];
    }
    assert ParseInstruction("addx") == Err("'addx' was not followed by another token") by {
      SplitNoSeparator("addx", ' ');
    }
  }

  /** An integer written in decimal, with a minus sign when negative. */
  function SignedText(n: int): string
  {
    (if n < 0 then "-" else "") + Decimal(Abs(n))
  }

  lemma SignedTextParses(n: int)
    requires I32_MIN <= n <= I32_MAX
    ensures ParseI32(SignedText(n)) == Some(n) && ' ' !in SignedText(n)
  {
    var digits, operand := Decimal(Abs(n)), SignedText(n);
    DecimalValue(Abs(n));
    assert ' ' !in operand by {
      assert forall k :: 0 <= k < |digits| ==> IsDigit(digits[k]);
    }
    if n < 0 {
      assert operand[0] == '-' && operand[1..] == digits;
    } else {
      assert operand == digits && (digits[0] != '+' && digits[0] != '-') by {
        assert IsDigit(digits[0]);
      }
    }
  }

  /** `addx N` with `N` written in decimal reads back as that instruction. */
  lemma ParseAddX(n: int)
    requires I32_MIN <= n <= I32_MAX
    ensures ParseInstruction("addx " + SignedText(n)) == Ok(AddX(n))
  {
    var operand := SignedText(n);
    SignedTextParses(n);
    SplitNoSeparator(operand, ' ');
    SplitAtFirstSeparator("addx", ' ', operand);
    assert "addx " + operand == "addx" + [' '] + operand;
    assert Split("addx " + operand, ' ') == ["addx", operand];
  }

  function Abs(n: int): nat
  {
    if n < 0 then -n else n
  }

  // ------------------------------------------------------------------
  // What the program computes
  // ------------------------------------------------------------------

  /** Cycle numbers 20, 60, 100, ...: the ones whose signal strength is recorded. */
  predicate IsSignalCycle(ord: int)
  {
    (ord - 20) % 40 == 0
  }

  /** For positive cycle numbers the remainder test picks exactly 20 + 40k. */
  lemma SignalCycles(ord: int)
    requires ord >= 1
    ensures IsSignalCycle(ord) <==> ord >= 20 && exists k: nat :: ord == 20 + 40 * k
  {
    if IsSignalCycle(ord) {
      var k := (ord - 20) / 40;
      assert ord == 20 + 40 * k;
    }
  }

  /** The strength recorded on cycle `ord` with register value `x`, if any. */
  function SignalAt(ord: nat, x: int): seq<int>
  {
    if IsSignalCycle(ord) then [ord * x] else []
  }

  /** The number of cycles an instruction takes. */
  function Cycles(instruction: Instruction): nat
  {
    if instruction.AddX? then 2 else 1
  }

  /** The value of `x` after the instructions: 1 plus every `addx` operand. */
  function FinalX(program: seq<Instruction>): int
  {
    if program == [] then 1
    else
      var last := program[|program| - 1];
      FinalX(program[..|program| - 1]) + (if last.AddX? then last.v else 0)
  }

  /** The value of `x` during each cycle, in order; an `addx` changes it only after its two cycles. */
  function XDuring(program: seq<Instruction>): (xs: seq<int>)
  {
    if program == [] then []
    else
      var prefix, last := program[..|program| - 1], program[|program| - 1];
      var x := FinalX(prefix);
      XDuring(prefix) + (if last.AddX? then [x, x] else [x])
  }

  /** The total number of cycles. */
  function CycleCount(program: seq<Instruction>): nat
  {
    if program == [] then 0
    else CycleCount(program[..|program| - 1]) + Cycles(program[|program| - 1])
  }

  /** One value of `x` per cycle. */
  lemma {:induction false} XDuringLength(program: seq<Instruction>)
    ensures |XDuring(program)| == CycleCount(program)
  {
    if program != [] {
      XDuringLength(program[..|program| - 1]);
    }
  }

  /** The signal strengths of all the cycles of `xs`, in cycle order. */
  function Signals(xs: seq<int>): (s: seq<int>)
  {
    if xs == [] then []
    else Signals(xs[..|xs| - 1]) + SignalAt(|xs|, xs[|xs| - 1])
  }

  /** Every recorded strength is a signal cycle's number times `x` during it, and each signal cycle records one. */
  lemma {:induction false} SignalsMeaning(xs: seq<int>)
    ensures |Signals(xs)| == (|xs| + 20) / 40
    ensures forall k :: 0 <= k < |Signals(xs)| ==> Signals(xs)[k] == (20 + 40 * k) * xs[20 + 40 * k - 1]
  {
    if xs != [] {
      var prefix := xs[..|xs| - 1];
      SignalsMeaning(prefix);
      var n := |xs|;
      assert forall k :: 0 <= k < |prefix| ==> prefix[k] == xs[k];
      if IsSignalCycle(n) {
        var k := (n - 20) / 40;
        assert n == 20 + 40 * k;
        assert (n + 20) / 40 == (|prefix| + 20) / 40 + 1;
      } else {
        assert (n + 20) / 40 == (|prefix| + 20) / 40;
      }
    }
  }

  /** The small example: `noop`, `addx 3`, `addx -5`. */
  lemma SmallProgram()
    ensures XDuring([NoOp, AddX(3), AddX(-5)]) == [1, 1, 1, 4, 4]
    ensures FinalX([NoOp, AddX(3), AddX(-5)]) == -1
  {
    var p := [NoOp, AddX(3), AddX(-5)];
    assert p[..2] == [NoOp, AddX(3)] && p[..2][..1] == [NoOp] && p[..1] == [NoOp];
    assert [NoOp][..0] == [];
  }

  // ------------------------------------------------------------------
  // The CPU
  // ------------------------------------------------------------------

  class CentralProcessingUnit {
    var x: int
    var cycleIndex: nat

    constructor()
      ensures x == 1 && cycleIndex == 0
    {
      x := 1;
      cycleIndex := 0;
    }

    /** One clock cycle: record the strength if this is a signal cycle, then count it. */
    method Cycle(strengths: seq<int>) returns (out: seq<int>)
      modifies this
      ensures x == old(x) && cycleIndex == old(cycleIndex) + 1
      ensures out == strengths + SignalAt(old(cycleIndex) + 1, x)
    {
      var ord := cycleIndex + 1;
      out := strengths;
      if (ord - 20) % 40 == 0 {
        out := out + [ord * x];
      }
      cycleIndex := cycleIndex + 1;
    }

    /** `addx` takes two cycles with the old value and then adds; `noop` takes one. */
    method RunInstruction(instruction: Instruction, strengths: seq<int>) returns (out: seq<int>)
      modifies this
      ensures cycleIndex == old(cycleIndex) + Cycles(instruction)
      ensures x == old(x) + (if instruction.AddX? then instruction.v else 0)
      ensures instruction.NoOp? ==> out == strengths + SignalAt(old(cycleIndex) + 1, old(x))
      ensures instruction.AddX? ==>
        out == strengths + SignalAt(old(cycleIndex) + 1, old(x)) + SignalAt(old(cycleIndex) + 2, old(x))
    {
      match instruction
      case AddX(v) =>
        out := Cycle(strengths);
        out := Cycle(out);
        x := x + v;
      case NoOp =>
        out := Cycle(strengths);
    }
  }

  /** Every line parsed, in order, up to the first one that fails. */
  function ParseProgram(lines: seq<string>): (r: Result<seq<Instruction>>)
    ensures r.Ok? ==> |r.value| == |lines|
  {
    if lines == [] then Ok([])
    else
      match ParseProgram(lines[..|lines| - 1])
      case Err(e) => Err(e)
      case Ok(prefix) =>
        match ParseInstruction(lines[|lines| - 1])
        case Err(e) => Err(e)
        case Ok(i) => Ok(prefix + [i])
  }

  /** The program parses exactly when every line does, and then line by line. */
  lemma {:induction false} ParseProgramMeaning(lines: seq<string>)
    ensures ParseProgram(lines).Ok? <==> forall k :: 0 <= k < |lines| ==> ParseInstruction(lines[k]).Ok?
    ensures ParseProgram(lines).Ok? ==> forall k :: 0 <= k < |lines| ==> ParseProgram(lines).value[k] == ParseInstruction(lines[k]).value
    decreases |lines|
  {
    if lines != [] {
      var prefix := lines[..|lines| - 1];
      ParseProgramMeaning(prefix);
      if ParseProgram(lines).Ok? {
        var p, i := ParseProgram(prefix).value, ParseInstruction(lines[|prefix|]).value;
        assert ParseProgram(lines).value == p + [i];
        forall k | 0 <= k < |lines|
          ensures ParseInstruction(lines[k]).Ok? && ParseProgram(lines).value[k] == ParseInstruction(lines[k]).value
        {
          if k < |prefix| {
            assert prefix[k] == lines[k];
          } else {
            assert k == |prefix|;
          }
        }
      } else if ParseProgram(prefix).Err? {
        var k :| 0 <= k < |prefix| && !ParseInstruction(prefix[k]).Ok?;
        assert prefix[k] == lines[k];
      } else {
        assert !ParseInstruction(lines[|prefix|]).Ok?;
      }
    }
  }

  lemma {:induction false} ParseProgramKeepsError(lines: seq<string>, k: nat)
    requires k <= |lines| && ParseProgram(lines[..k]).Err?
    ensures ParseProgram(lines) == ParseProgram(lines[..k])
    decreases |lines|
  {
    if k < |lines| {
      assert lines[..|lines| - 1][..k] == lines[..k];
      ParseProgramKeepsError(lines[..|lines| - 1], k);
    } else {
      assert lines[..k] == lines;
    }
  }

  /** A line parsed after a parsed prefix extends the program, or its error is the program's. */
  lemma ParseProgramExtend(lines: seq<string>, k: nat, program: seq<Instruction>)
    requires k < |lines| && ParseProgram(lines[..k]) == Ok(program)
    ensures ParseInstruction(lines[k]).Err? ==> ParseProgram(lines) == Err(ParseInstruction(lines[k]).msg)
    ensures ParseInstruction(lines[k]).Ok? ==> ParseProgram(lines[..k + 1]) == Ok(program + [ParseInstruction(lines[k]).value])
  {
    assert lines[..k + 1][..k] == lines[..k];
    if ParseInstruction(lines[k]).Err? {
      ParseProgramKeepsError(lines, k + 1);
    }
  }

  /** An input ending in a newline ends in an empty line, which is no instruction. */
  lemma TrailingNewlineFails(data: string)
    requires |data| > 0 && data[|data| - 1] == '\n'
    ensures ParseProgram(Split(data, '\n')).Err?
  {
    assert data == data[..|data| - 1] + ['\n'];
    SplitEndsEmpty(data[..|data| - 1], '\n');
    var lines := Split(data, '\n');
    assert Split("", ' ') == [""];
    ParseProgramMeaning(lines);
    assert !ParseInstruction(lines[|lines| - 1]).Ok?;
  }

  /** The register, cycle count and strengths after a prefix, in terms of the per-cycle values. */
  predicate RanPrefix(cpu: CentralProcessingUnit, strengths: seq<int>, program: seq<Instruction>)
    reads cpu
  {
    cpu.x == FinalX(program) && cpu.cycleIndex == |XDuring(program)| && strengths == Signals(XDuring(program))
  }

  /** Appending one instruction adds its cycles' signals. */
  lemma SignalsStep(program: seq<Instruction>, i: Instruction)
    ensures var xs, x, n := XDuring(program), FinalX(program), |XDuring(program)|;
      XDuring(program + [i]) == xs + (if i.AddX? then [x, x] else [x]) &&
      FinalX(program + [i]) == x + (if i.AddX? then i.v else 0) &&
      Signals(XDuring(program + [i])) ==
        Signals(xs) + SignalAt(n + 1, x) + (if i.AddX? then SignalAt(n + 2, x) else [])
  {
    var p := program + [i];
    assert p[..|p| - 1] == program;
    var xs, x := XDuring(program), FinalX(program);
    if i.AddX? {
      var ys := xs + [x, x];
      assert ys[..|ys| - 1] == xs + [x];
      assert (xs + [x])[..|xs|] == xs;
    } else {
      assert (xs + [x])[..|xs|] == xs;
    }
  }

  /**
   * The strengths recorded while running every line, or the first line's
   * parse error.
   */
  method GetSignalStrengths(rawInstructions: string) returns (r: Result<seq<int>>)
    ensures var parsed := ParseProgram(Split(rawInstructions, '\n'));
      parsed.Err? ==> r == Err(parsed.msg)
    ensures var parsed := ParseProgram(Split(rawInstructions, '\n'));
      parsed.Ok? ==> r == Ok(Signals(XDuring(parsed.value)))
  {
    var lines := Split(rawInstructions, '\n');
    var cpu := new CentralProcessingUnit();
    var strengths: seq<int> := [];
    ghost var program: seq<Instruction> := [];
    for k := 0 to |lines|
      invariant ParseProgram(lines[..k]) == Ok(program)
      invariant RanPrefix(cpu, strengths, program)
    {
      ParseProgramExtend(lines, k, program);
      var instruction := ParseInstruction(lines[k]);
      if instruction.Err? {
        return Err(instruction.msg);
      }
      SignalsStep(program, instruction.value);
      strengths := cpu.RunInstruction(instruction.value, strengths);
      program := program + [instruction.value];
    }
    assert lines[..|lines|] == lines;
    r := Ok(strengths);
  }

  /** The answer: the sum of the recorded strengths. */
  method SignalStrengthSum(data: string) returns (r: Result<int>)
    ensures var parsed := ParseProgram(Split(data, '\n'));
      parsed.Err? ==> r == Err(parsed.msg)
    ensures var parsed := ParseProgram(Split(data, '\n'));
      parsed.Ok? ==> r == Ok(Sum(Signals(XDuring(parsed.value))))
  {
    var strengths := GetSignalStrengths(data);
    if strengths.Err? {
      return Err(strengths.msg);
    }
    r := Ok(Sum(strengths.value));
  }
}
