/**
 * 2022 day 1: groups of calorie counts separated by blank lines; the answer
 * is the largest group total.
 */
module CalorieCounting {
  import opened Common

  /** A line that the group total accepts: empty (skipped) or a `u32`. */
  predicate AcceptedLine(line: string)
  {
    line == "" || ParseU32(line).Some?
  }

  /**
   * The total of one group's lines. Empty lines are skipped; any other line
   * that is not a `u32` aborts the program.
   */
  function GroupTotal(lines: seq<string>): (r: Result<nat>)
    ensures r.Ok? <==> forall i :: 0 <= i < |lines| ==> AcceptedLine(lines[i])
  {
    if lines == [] then Ok(0)
    else
      var rest := GroupTotal(lines[1..]);
      assert forall i :: 1 <= i < |lines| ==> lines[i] == lines[1..][i - 1];
      if lines[0] == "" then rest
      else match ParseU32(lines[0])
        case None => Err("Failed to parse as u32: " + lines[0])
        case Some(v) => if rest.Ok? then Ok(v + rest.value) else rest
  }

  /** Totals add up over concatenated lines. */
  lemma {:induction false} GroupTotalAppend(xs: seq<string>, ys: seq<string>)
    requires GroupTotal(xs).Ok? && GroupTotal(ys).Ok?
    ensures GroupTotal(xs + ys) == Ok(GroupTotal(xs).value + GroupTotal(ys).value)
    decreases |xs|
  {
    if xs == [] {
      assert xs + ys == ys;
    } else {
      TailOfAppend(xs, ys);
      GroupTotalAppend(xs[1..], ys);
    }
  }

  /** An empty line inside a group changes nothing. */
  lemma {:induction false} EmptyLineIgnored(xs: seq<string>, ys: seq<string>)
    ensures GroupTotal(xs + [""] + ys) == GroupTotal(xs + ys)
    decreases |xs|
  {
    if xs == [] {
      assert xs + [""] + ys == [""] + ys && ([""] + ys)[1..] == ys;
      assert xs + ys == ys;
    } else {
      assert (xs + [""] + ys)[1..] == xs[1..] + [""] + ys;
      assert (xs + ys)[1..] == xs[1..] + ys;
      EmptyLineIgnored(xs[1..], ys);
    }
  }

  /** The groups of the input: cut at every blank line. */
  function Groups(data: string): seq<string>
  {
    SplitOn(data, "\n\n")
  }

  function ElfTotal(group: string): Result<nat>
  {
    GroupTotal(Split(group, '\n'))
  }

  /** The largest group total; the first malformed line aborts. */
  function MostCalories(data: string): (r: Result<nat>)
    ensures r.Ok? <==> forall i :: 0 <= i < |Groups(data)| ==> ElfTotal(Groups(data)[i]).Ok?
    ensures r.Ok? ==> exists i :: 0 <= i < |Groups(data)| && ElfTotal(Groups(data)[i]) == Ok(r.value)
    ensures r.Ok? ==> forall i :: 0 <= i < |Groups(data)| ==> ElfTotal(Groups(data)[i]).value <= r.value
  {
    MaxOf(Groups(data))
  }

  function MaxOf(groups: seq<string>): (r: Result<nat>)
    requires |groups| >= 1
    ensures r.Ok? <==> forall i :: 0 <= i < |groups| ==> ElfTotal(groups[i]).Ok?
    ensures r.Ok? ==> exists i :: 0 <= i < |groups| && ElfTotal(groups[i]) == Ok(r.value)
    ensures r.Ok? ==> forall i :: 0 <= i < |groups| ==> ElfTotal(groups[i]).value <= r.value
  {
    var first := ElfTotal(groups[0]);
    if |groups| == 1 then first
    else
      var rest := MaxOf(groups[1..]);
      assert forall i :: 1 <= i < |groups| ==> groups[i] == groups[1..][i - 1];
      if first.Err? then first
      else if rest.Err? then rest
      else if first.value >= rest.value then first
      else rest
  }
}
