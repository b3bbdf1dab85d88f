/**
 * 2022 day 7 (second part): a shell transcript of `cd` and `ls` commands is
 * replayed to rebuild a directory tree; the answer is the size of the
 * smallest directory whose deletion frees enough space for an update.
 *
 * A directory holds its entries as a sequence of (name, item) pairs kept in
 * increasing name order, which is how the ordered map of the program
 * iterates them.
 */
module NoSpaceLeft {
  import opened Common

  datatype Item = Directory(entries: seq<(string, Item)>) | File(size: int)

  // ------------------------------------------------------------------
  // Name order
  // ------------------------------------------------------------------

  /** The strict lexicographic order of names, character by character. */
  predicate Before(a: string, b: string)
  {
    if a == [] then b != []
    else if b == [] then false
    else if a[0] != b[0] then a[0] < b[0]
    else Before(a[1..], b[1..])
  }

  /** `Before` is a strict total order. */
  lemma {:induction false} BeforeTotal(a: string, b: string)
    ensures !Before(a, a)
    ensures a == b || Before(a, b) || Before(b, a)
    ensures !(Before(a, b) && Before(b, a))
    decreases |a|
  {
    if a != [] {
      BeforeTotal(a[1..], a[1..]);
      if b != [] {
        BeforeTotal(a[1..], b[1..]);
        if a[0] == b[0] && a[1..] == b[1..] {
          assert a == [a[0]] + a[1..] && b == [b[0]] + b[1..];
        }
      }
    }
  }

  lemma {:induction false} BeforeTransitive(a: string, b: string, c: string)
    requires Before(a, b) && Before(b, c)
    ensures Before(a, c)
    decreases |a|
  {
    if a != [] && a[0] == b[0] && b[0] == c[0] {
      BeforeTransitive(a[1..], b[1..], c[1..]);
    }
  }

  /** Entries in strictly increasing name order (so every name occurs once). */
  predicate Sorted(es: seq<(string, Item)>)
  {
    forall i, j :: 0 <= i < j < |es| ==> Before(es[i].0, es[j].0)
  }

  // ------------------------------------------------------------------
  // Sizes
  // ------------------------------------------------------------------

  /** A file's size is its own; a directory's is the sum of its entries' sizes. */
  function Size(item: Item): int
    decreases item
  {
    match item
    case File(size) => size
    case Directory(es) => Sum(seq(|es|, i requires 0 <= i < |es| => Size(es[i].1)))
  }

  function ChildSizes(es: seq<(string, Item)>): seq<int>
  {
    seq(|es|, i requires 0 <= i < |es| => Size(es[i].1))
  }

  lemma SizeOfDirectory(es: seq<(string, Item)>)
    ensures Size(Directory(es)) == Sum(ChildSizes(es))
    ensures es == [] ==> Size(Directory(es)) == 0
  {
  }

  lemma ChildSizesCons(e: (string, Item), es: seq<(string, Item)>)
    ensures ChildSizes([e] + es) == [Size(e.1)] + ChildSizes(es)
    ensures Sum(ChildSizes([e] + es)) == Size(e.1) + Sum(ChildSizes(es))
  {
    assert ChildSizes([e] + es) == [Size(e.1)] + ChildSizes(es);
    SumCons(Size(e.1), ChildSizes(es));
  }

  /** Every file size in the tree is non-negative. */
  predicate NonNegative(item: Item)
    decreases item
  {
    match item
    case File(size) => size >= 0
    case Directory(es) => forall i :: 0 <= i < |es| ==> NonNegative(es[i].1)
  }

  /** With non-negative files, no entry is larger than its directory. */
  lemma EntryAtMostDirectory(es: seq<(string, Item)>, i: nat)
    requires i < |es|
    requires NonNegative(Directory(es))
    ensures 0 <= Size(es[i].1) <= Size(Directory(es))
  {
    var sizes := ChildSizes(es);
    forall j | 0 <= j < |sizes|
      ensures sizes[j] >= 0
    {
      SizeNonNegative(es[j].1);
    }
    TermAtMostSum(sizes, i);
  }

  lemma {:induction false} SizeNonNegative(item: Item)
    requires NonNegative(item)
    ensures Size(item) >= 0
    decreases item
  {
    if item.Directory? {
      var es := item.entries;
      var sizes := ChildSizes(es);
      forall j | 0 <= j < |sizes|
        ensures sizes[j] >= 0
      {
        SizeNonNegative(es[j].1);
      }
      SumNonNegative(sizes);
    }
  }

  // ------------------------------------------------------------------
  // Entries of one directory
  // ------------------------------------------------------------------

  /** The entry named `name`, if any (the first one, should there be several). */
  function Lookup(es: seq<(string, Item)>, name: string): (r: Option<Item>)
    ensures r.Some? ==> (name, r.value) in es
    ensures r.None? <==> forall i :: 0 <= i < |es| ==> es[i].0 != name
  {
    if es == [] then None
    else if es[0].0 == name then Some(es[0].1)
    else
      assert forall i :: 1 <= i < |es| ==> es[i] == es[1..][i - 1];
      Lookup(es[1..], name)
  }

  /** The map insertion: replace the entry of that name, or add one in name order. */
  function Insert(es: seq<(string, Item)>, name: string, item: Item): (r: seq<(string, Item)>)
    ensures (name, item) in r
    ensures forall e :: e in r ==> e == (name, item) || e in es
  {
    if es == [] then [(name, item)]
    else if es[0].0 == name then [(name, item)] + es[1..]
    else if Before(name, es[0].0) then [(name, item)] + es
    else [es[0]] + Insert(es[1..], name, item)
  }

  /** After the insertion, looking up `name` finds the new item; every other name is unaffected. */
  lemma {:induction false} InsertLookup(es: seq<(string, Item)>, name: string, item: Item, n: string)
    ensures Lookup(Insert(es, name, item), n) == if n == name then Some(item) else Lookup(es, n)
    decreases |es|
  {
    if es != [] && es[0].0 != name && !Before(name, es[0].0) && es[0].0 != n {
      InsertLookup(es[1..], name, item, n);
    }
  }

  /** The insertion keeps the names in order. */
  lemma {:induction false} InsertSorted(es: seq<(string, Item)>, name: string, item: Item)
    requires Sorted(es)
    ensures Sorted(Insert(es, name, item))
    decreases |es|
  {
    var r := Insert(es, name, item);
    if es == [] {
    } else if es[0].0 == name {
      forall i, j | 0 <= i < j < |r|
        ensures Before(r[i].0, r[j].0)
      {
        assert r[j] == es[j];
        if i > 0 {
          assert r[i] == es[i];
        }
      }
    } else if Before(name, es[0].0) {
      forall i, j | 0 <= i < j < |r|
        ensures Before(r[i].0, r[j].0)
      {
        assert r[j] == es[j - 1];
        if i == 0 {
          if j > 1 {
            BeforeTransitive(name, es[0].0, es[j - 1].0);
          }
        } else {
          assert r[i] == es[i - 1];
        }
      }
    } else {
      BeforeTotal(name, es[0].0);
      InsertSorted(es[1..], name, item);
      var rest := Insert(es[1..], name, item);
      assert r == [es[0]] + rest;
      forall e | e in rest
        ensures Before(es[0].0, e.0)
      {
        if e != (name, item) {
          var k :| 0 <= k < |es[1..]| && es[1..][k] == e;
          assert es[k + 1] == e;
        }
      }
      forall i, j | 0 <= i < j < |r|
        ensures Before(r[i].0, r[j].0)
      {
        assert r[j] == rest[j - 1];
        if i > 0 {
          assert r[i] == rest[i - 1];
        } else {
          assert rest[j - 1] in rest;
        }
      }
    }
  }

  /** In name order an entry is found under its own name. */
  lemma LookupSorted(es: seq<(string, Item)>, i: nat)
    requires Sorted(es) && i < |es|
    ensures Lookup(es, es[i].0) == Some(es[i].1)
  {
    var j :| 0 <= j < |es| && es[j] == (es[i].0, Lookup(es, es[i].0).value);
    if j != i {
      BeforeTotal(es[i].0, es[i].0);
    }
  }

  /** The size of an entry that the insertion displaces, or 0 when there is none. */
  function Displaced(es: seq<(string, Item)>, name: string): int
  {
    match Lookup(es, name)
    case Some(previous) => Size(previous)
    case None => 0
  }

  /** Inserting trades the size of the entry of that name for the new item's size. */
  lemma {:induction false} InsertSize(es: seq<(string, Item)>, name: string, item: Item)
    requires Sorted(es)
    ensures Sum(ChildSizes(Insert(es, name, item))) == Sum(ChildSizes(es)) - Displaced(es, name) + Size(item)
    decreases |es|
  {
    if es == [] {
      assert ChildSizes([(name, item)]) == [Size(item)];
    } else if es[0].0 == name {
      assert es == [es[0]] + es[1..];
      ChildSizesCons(es[0], es[1..]);
      ChildSizesCons((name, item), es[1..]);
    } else if Before(name, es[0].0) {
      forall i | 0 <= i < |es|
        ensures es[i].0 != name
      {
        if i > 0 {
          BeforeTransitive(name, es[0].0, es[i].0);
        }
        BeforeTotal(name, name);
      }
      ChildSizesCons((name, item), es);
    } else {
      assert es == [es[0]] + es[1..];
      InsertSize(es[1..], name, item);
      ChildSizesCons(es[0], es[1..]);
      ChildSizesCons(es[0], Insert(es[1..], name, item));
    }
  }

  // ------------------------------------------------------------------
  // Paths
  // ------------------------------------------------------------------

  /** The entries of the directory that `path` leads to, if it leads to one. */
  function Resolve(es: seq<(string, Item)>, path: seq<string>): Option<seq<(string, Item)>>
    decreases |path|
  {
    if path == [] then Some(es)
    else match Lookup(es, path[0])
      case Some(Directory(sub)) => Resolve(sub, path[1..])
      case _ => None
  }

  /**
   * Insert `(name, item)` into the directory at `path`: every component
   * must name an existing directory.
   */
  function InsertAtPath(es: seq<(string, Item)>, path: seq<string>, name: string, item: Item): (r: Result<seq<(string, Item)>>)
    ensures r.Ok? <==> Resolve(es, path).Some?
    ensures path == [] ==> r == Ok(Insert(es, name, item))
    ensures path != [] && Lookup(es, path[0]).None? ==> r == Err("Path led to a non-existent directory: " + path[0])
    ensures path != [] && Lookup(es, path[0]).Some? && Lookup(es, path[0]).value.File? ==> r == Err("Failed to convert Item to Directory")
    decreases |path|
  {
    if path == [] then Ok(Insert(es, name, item))
    else match Lookup(es, path[0])
      case None => Err("Path led to a non-existent directory: " + path[0])
      case Some(File(_)) => Err("Failed to convert Item to Directory")
      case Some(Directory(sub)) =>
        match InsertAtPath(sub, path[1..], name, item)
        case Err(e) => Err(e)
        case Ok(sub') => Ok(Insert(es, path[0], Directory(sub')))
  }

  /**
   * After a successful insertion the directory at `path` holds the new
   * entry, and the top-level entries off the path are unchanged.
   */
  lemma {:induction false} InsertAtPathResolves(es: seq<(string, Item)>, path: seq<string>, name: string, item: Item)
    requires InsertAtPath(es, path, name, item).Ok?
    ensures Resolve(InsertAtPath(es, path, name, item).value, path) == Some(Insert(Resolve(es, path).value, name, item))
    ensures path != [] ==> forall n :: n != path[0] ==> Lookup(InsertAtPath(es, path, name, item).value, n) == Lookup(es, n)
    decreases |path|
  {
    if path != [] {
      var sub := Lookup(es, path[0]).value.entries;
      var sub' := InsertAtPath(sub, path[1..], name, item).value;
      InsertAtPathResolves(sub, path[1..], name, item);
      InsertLookup(es, path[0], Directory(sub'), path[0]);
      forall n | n != path[0]
        ensures Lookup(InsertAtPath(es, path, name, item).value, n) == Lookup(es, n)
      {
        InsertLookup(es, path[0], Directory(sub'), n);
      }
    }
  }

  /** Entries in name order at every level, down to the files. */
  predicate WellFormed(item: Item)
    decreases item
  {
    match item
    case File(_) => true
    case Directory(es) => Sorted(es) && forall i :: 0 <= i < |es| ==> WellFormed(es[i].1)
  }

  lemma InsertWellFormed(es: seq<(string, Item)>, name: string, item: Item)
    requires WellFormed(Directory(es)) && WellFormed(item)
    ensures WellFormed(Directory(Insert(es, name, item)))
  {
    InsertSorted(es, name, item);
    var r := Insert(es, name, item);
    forall i | 0 <= i < |r|
      ensures WellFormed(r[i].1)
    {
      assert r[i] in r;
      if r[i] != (name, item) {
        var k :| 0 <= k < |es| && es[k] == r[i];
      }
    }
  }

  /** Insertion at a path keeps every level in name order. */
  lemma {:induction false} InsertAtPathWellFormed(es: seq<(string, Item)>, path: seq<string>, name: string, item: Item)
    requires WellFormed(Directory(es)) && WellFormed(item)
    requires InsertAtPath(es, path, name, item).Ok?
    ensures WellFormed(Directory(InsertAtPath(es, path, name, item).value))
    decreases |path|
  {
    if path == [] {
      InsertWellFormed(es, name, item);
    } else {
      var sub := Lookup(es, path[0]).value.entries;
      var k :| 0 <= k < |es| && es[k] == (path[0], Directory(sub));
      assert WellFormed(es[k].1);
      InsertAtPathWellFormed(sub, path[1..], name, item);
      InsertWellFormed(es, path[0], Directory(InsertAtPath(sub, path[1..], name, item).value));
    }
  }

  /** The root grows by the new item's size less the size of the entry it replaces. */
  lemma {:induction false} InsertAtPathSize(es: seq<(string, Item)>, path: seq<string>, name: string, item: Item)
    requires WellFormed(Directory(es))
    requires InsertAtPath(es, path, name, item).Ok?
    ensures Size(Directory(InsertAtPath(es, path, name, item).value)) == Size(Directory(es)) + Size(item) - Displaced(Resolve(es, path).value, name)
    decreases |path|
  {
    if path == [] {
      InsertSize(es, name, item);
    } else {
      var sub := Lookup(es, path[0]).value.entries;
      var sub' := InsertAtPath(sub, path[1..], name, item).value;
      var k :| 0 <= k < |es| && es[k] == (path[0], Directory(sub));
      assert WellFormed(es[k].1);
      InsertAtPathSize(sub, path[1..], name, item);
      InsertSize(es, path[0], Directory(sub'));
    }
  }

  // ------------------------------------------------------------------
  // Listing the directories
  // ------------------------------------------------------------------

  /** The directory itself, then the directories below each entry, in entry order. */
  function AllDirectories(d: Item): (dirs: seq<Item>)
    requires d.Directory?
    ensures |dirs| >= 1 && dirs[0] == d
    decreases d
  {
    var es := d.entries;
    [d] + Concat(seq(|es|, i requires 0 <= i < |es| => if es[i].1.Directory? then AllDirectories(es[i].1) else []))
  }

  function Nested(es: seq<(string, Item)>): seq<seq<Item>>
    requires Directory(es).Directory?
  {
    seq(|es|, i requires 0 <= i < |es| => if es[i].1.Directory? then AllDirectories(es[i].1) else [])
  }

  /** The number of directories in the tree, counted on its own. */
  function DirectoryCount(item: Item): nat
    decreases item
  {
    match item
    case File(_) => 0
    case Directory(es) =>
      SumNonNegative(seq(|es|, i requires 0 <= i < |es| => DirectoryCount(es[i].1) as int));
      1 + Sum(seq(|es|, i requires 0 <= i < |es| => DirectoryCount(es[i].1) as int)) as nat
  }

  /** Every directory of the tree is listed, each once. */
  lemma {:induction false} AllDirectoriesCount(d: Item)
    requires d.Directory?
    ensures |AllDirectories(d)| == DirectoryCount(d)
    decreases d
  {
    var es := d.entries;
    var nested := Nested(es);
    assert AllDirectories(d) == [d] + Concat(nested);
    ConcatLength(nested);
    var lengths := seq(|nested|, i requires 0 <= i < |nested| => |nested[i]|);
    var counts := seq(|es|, i requires 0 <= i < |es| => DirectoryCount(es[i].1) as int);
    forall i | 0 <= i < |es|
      ensures lengths[i] == counts[i]
    {
      if es[i].1.Directory? {
        AllDirectoriesCount(es[i].1);
      }
    }
    assert lengths == counts;
  }

  /** Only directories are listed. */
  lemma {:induction false} AllDirectoriesAreDirectories(d: Item)
    requires d.Directory?
    ensures forall x :: x in AllDirectories(d) ==> x.Directory?
    decreases d
  {
    var es := d.entries;
    var nested := Nested(es);
    assert AllDirectories(d) == [d] + Concat(nested);
    forall x: Item | x in Concat(nested)
      ensures x.Directory?
    {
      InConcat(nested, x);
      var i :| 0 <= i < |nested| && x in nested[i];
      AllDirectoriesAreDirectories(es[i].1);
    }
  }

  /** With non-negative files, the root is the largest directory listed. */
  lemma {:induction false} RootIsLargest(d: Item)
    requires d.Directory? && NonNegative(d)
    ensures forall x :: x in AllDirectories(d) ==> Size(x) <= Size(d)
    decreases d
  {
    var es := d.entries;
    var nested := Nested(es);
    assert AllDirectories(d) == [d] + Concat(nested);
    forall x: Item | x in Concat(nested)
      ensures Size(x) <= Size(d)
    {
      InConcat(nested, x);
      var i :| 0 <= i < |nested| && x in nested[i];
      RootIsLargest(es[i].1);
      EntryAtMostDirectory(es, i);
    }
  }

  // ------------------------------------------------------------------
  // The transcript
  // ------------------------------------------------------------------

  datatype Command = ChangeDirectory(token: string) | List

  /** The tokens after `$`. */
  function ParseCommand(tokens: seq<string>): (r: Result<Command>)
    ensures r == Ok(List) <==> tokens != [] && tokens[0] == "ls"
    ensures (r.Ok? && r.value.ChangeDirectory?) <==> |tokens| >= 2 && tokens[0] == "cd"
    ensures r.Ok? && r.value.ChangeDirectory? ==> r.value.token == tokens[1]
    ensures tokens == [] ==> r == Err("Empty command ($ followed by nothing)")
  {
    if tokens == [] then Err("Empty command ($ followed by nothing)")
    else if tokens[0] == "cd" then
      if |tokens| < 2 then Err("'cd' was not followed by a directory name.")
      else Ok(ChangeDirectory(tokens[1]))
    else if tokens[0] == "ls" then Ok(List)
    else Err("Unrecognised command: " + tokens[0])
  }

  datatype Line = CommandLine(command: Command) | ItemLine(name: string, item: Item)

  /**
   * One line of the transcript, split at spaces: a command after `$`, an
   * empty directory after `dir`, or else an `i32` size and a file name.
   * Tokens past the ones used are ignored.
   */
  function ParseLine(line: string): (r: Result<Line>)
    ensures var t := Split(line, ' ');
      r.Ok? <==>
        (t[0] == "$" && ParseCommand(t[1..]).Ok?) ||
        (t[0] != "$" && |t| >= 2 && (t[0] == "dir" || ParseI32(t[0]).Some?))
    ensures var t := Split(line, ' ');
      r.Ok? && r.value.CommandLine? <==> t[0] == "$" && ParseCommand(t[1..]).Ok?
    ensures var t := Split(line, ' ');
      r.Ok? && r.value.ItemLine? ==>
        r.value.name == t[1] &&
        (if t[0] == "dir" then r.value.item == Directory([])
         else r.value.item.File? && ParseI32(t[0]) == Some(r.value.item.size))
  {
    var tokens := Split(line, ' ');
    if tokens[0] == "$" then
      match ParseCommand(tokens[1..])
      case Err(e) => Err(e)
      case Ok(c) => Ok(CommandLine(c))
    else if tokens[0] == "dir" then
      if |tokens| < 2 then Err("'dir' was not followed by a name")
      else Ok(ItemLine(tokens[1], Directory([])))
    else match ParseI32(tokens[0])
      case None => Err("Couldn't parse token (" + tokens[0] + ") as a file size")
      case Some(size) =>
        if |tokens| < 2 then Err("A file size was not followed by a name")
        else Ok(ItemLine(tokens[1], File(size)))
  }

  /** An empty line is not a size. */
  lemma EmptyLineRejected()
    ensures ParseLine("").Err?
  {
    assert Split("", ' ') == [""];
    ParseRejectsNoDigits("", 0, I32_MIN, I32_MAX);
  }

  datatype Context = Commands | Ls

  /**
   * A command moves along the path or starts a listing. The path is the
   * sequence of directory names from the root.
   */
  function HandleCommand(command: Command, path: seq<string>, ctx: Context): (r: Result<(seq<string>, Context)>)
    ensures r.Err? <==> command == ChangeDirectory("..") && path == []
    ensures r.Err? ==> r.msg == "Tried to 'cd ..' in root directory"
    ensures command == ChangeDirectory("/") ==> r == Ok(([], ctx))
    ensures command == ChangeDirectory("..") && path != [] ==> r == Ok((path[..|path| - 1], ctx))
    ensures command.ChangeDirectory? && command.token !in {"/", ".."} ==> r == Ok((path + [command.token], ctx))
    ensures command == List ==> r == Ok((path, Ls))
  {
    match command
    case List => Ok((path, Ls))
    case ChangeDirectory(token) =>
      if token == "/" then Ok(([], ctx))
      else if token == ".." then
        if path == [] then Err("Tried to 'cd ..' in root directory") else Ok((path[..|path| - 1], ctx))
      else Ok((path + [token], ctx))
  }

  /** Entering a directory and leaving it again is back where one started. */
  lemma EnterThenLeave(path: seq<string>, name: string, ctx: Context)
    requires name !in {"/", ".."}
    ensures var inner := HandleCommand(ChangeDirectory(name), path, ctx).value;
      HandleCommand(ChangeDirectory(".."), inner.0, inner.1) == Ok((path, ctx))
  {
    assert (path + [name])[..|path|] == path;
  }

  /** The replay state: the root's entries, the context and the current path. */
  datatype Session = Session(root: seq<(string, Item)>, ctx: Context, path: seq<string>)

  /**
   * One transcript line. A command always leaves the listing context first;
   * an item is only accepted while listing and goes into the current
   * directory.
   */
  function Step(s: Session, line: string): (r: Result<Session>)
    ensures ParseLine(line).Ok? && ParseLine(line).value.ItemLine? && s.ctx == Ls ==>
      var l := ParseLine(line).value;
      var inserted := InsertAtPath(s.root, s.path, l.name, l.item);
      (r.Ok? <==> inserted.Ok?) && (r.Ok? ==> r.value.root == inserted.value) && (r.Err? ==> r.msg == inserted.msg)
    ensures r.Ok? ==> ParseLine(line).Ok?
    ensures r.Ok? && ParseLine(line).value.ItemLine? ==> s.ctx.Ls? && r.value.ctx.Ls? && r.value.path == s.path
    ensures ParseLine(line).Ok? && ParseLine(line).value.ItemLine? && s.ctx == Commands ==>
      r == Err("Encountered an Item outside Context::Ls")
    ensures r.Ok? && ParseLine(line).value.CommandLine? ==>
      r.value.root == s.root && HandleCommand(ParseLine(line).value.command, s.path, Commands) == Ok((r.value.path, r.value.ctx))
  {
    match ParseLine(line)
    case Err(e) => Err(e)
    case Ok(CommandLine(command)) =>
      (match HandleCommand(command, s.path, Commands)
       case Err(e) => Err(e)
       case Ok((path, ctx)) => Ok(Session(s.root, ctx, path)))
    case Ok(ItemLine(name, item)) =>
      if s.ctx.Commands? then Err("Encountered an Item outside Context::Ls")
      else match InsertAtPath(s.root, s.path, name, item)
        case Err(e) => Err(e)
        case Ok(root) => Ok(Session(root, Ls, s.path))
  }

  const Start := Session([], Commands, [])

  /** The lines replayed in order from an empty root; the first error aborts. */
  function Replay(lines: seq<string>): Result<Session>
  {
    if lines == [] then Ok(Start)
    else match Replay(lines[..|lines| - 1])
      case Err(e) => Err(e)
      case Ok(s) => Step(s, lines[|lines| - 1])
  }

  /** Once a prefix of the transcript fails, the whole transcript fails with that error. */
  lemma {:induction false} ReplayStopsAtError(lines: seq<string>, k: nat)
    requires k <= |lines| && Replay(lines[..k]).Err?
    ensures Replay(lines).Err? && Replay(lines).msg == Replay(lines[..k]).msg
    decreases |lines| - k
  {
    if k < |lines| {
      assert lines[..k + 1][..k] == lines[..k];
      ReplayStopsAtError(lines, k + 1);
    } else {
      assert lines[..k] == lines;
    }
  }

  /** A transcript ending in a newline ends in an empty line, which fails. */
  lemma TrailingNewlineFails(lines: seq<string>)
    ensures Replay(lines + [""]).Err?
  {
    EmptyLineRejected();
    assert (lines + [""])[..|lines|] == lines;
  }

  /** Every state a transcript reaches keeps its tree in name order. */
  lemma {:induction false} ReplayWellFormed(lines: seq<string>)
    requires Replay(lines).Ok?
    ensures WellFormed(Directory(Replay(lines).value.root))
    decreases |lines|
  {
    if lines != [] {
      var s := Replay(lines[..|lines| - 1]).value;
      ReplayWellFormed(lines[..|lines| - 1]);
      var line := lines[|lines| - 1];
      var l := ParseLine(line).value;
      if l.ItemLine? {
        InsertAtPathWellFormed(s.root, s.path, l.name, l.item);
      }
    }
  }

  /**
   * The replay loop over the transcript's lines, with the root, the context
   * and the path as loop variables.
   */
  method Reconstruct(history: seq<string>) returns (r: Result<Item>)
    ensures r.Ok? <==> Replay(history).Ok?
    ensures r.Ok? ==> r.value == Directory(Replay(history).value.root) && WellFormed(r.value)
    ensures r.Err? ==> r.msg == Replay(history).msg
  {
    var root: seq<(string, Item)> := [];
    var ctx := Commands;
    var path: seq<string> := [];
    for k := 0 to |history|
      invariant Replay(history[..k]) == Ok(Session(root, ctx, path))
    {
      assert history[..k + 1][..k] == history[..k];
      var parsed := ParseLine(history[k]);
      if parsed.Err? {
        ReplayStopsAtError(history, k + 1);
        return Err(parsed.msg);
      }
      match parsed.value
      case CommandLine(command) =>
        var handled := HandleCommand(command, path, Commands);
        if handled.Err? {
          ReplayStopsAtError(history, k + 1);
          return Err(handled.msg);
        }
        path, ctx := handled.value.0, handled.value.1;
      case ItemLine(name, item) =>
        if ctx == Commands {
          ReplayStopsAtError(history, k + 1);
          return Err("Encountered an Item outside Context::Ls");
        }
        var inserted := InsertAtPath(root, path, name, item);
        if inserted.Err? {
          ReplayStopsAtError(history, k + 1);
          return Err(inserted.msg);
        }
        root := inserted.value;
    }
    assert history[..|history|] == history;
    ReplayWellFormed(history);
    r := Ok(Directory(root));
  }

  // ------------------------------------------------------------------
  // Choosing the directory to delete
  // ------------------------------------------------------------------

  const TOTAL_SPACE := 70_000_000
  const SPACE_FOR_UPDATE := 30_000_000

  /** The smallest element strictly greater than `bound`, if there is one. */
  function SmallestAbove(s: seq<int>, bound: int): (r: Option<int>)
    ensures r.None? <==> forall i :: 0 <= i < |s| ==> s[i] <= bound
    ensures r.Some? ==> r.value in s && r.value > bound
    ensures r.Some? ==> forall i :: 0 <= i < |s| && s[i] > bound ==> r.value <= s[i]
  {
    if s == [] then None
    else
      var rest := SmallestAbove(s[1..], bound);
      assert forall i :: 1 <= i < |s| ==> s[i] == s[1..][i - 1];
      if s[0] <= bound then rest
      else if rest.Some? && rest.value < s[0] then rest
      else Some(s[0])
  }

  function DirectorySizes(dirs: seq<Item>): (sizes: seq<int>)
    ensures |sizes| == |dirs| && forall i :: 0 <= i < |dirs| ==> sizes[i] == Size(dirs[i])
  {
    seq(|dirs|, i requires 0 <= i < |dirs| => Size(dirs[i]))
  }

  /**
   * The size of the smallest directory whose deletion leaves room for the
   * update: with `used` the largest directory size, it must exceed
   * `SPACE_FOR_UPDATE - (TOTAL_SPACE - used)`.
   */
  function SizeToDelete(root: Item): (r: Result<int>)
    requires root.Directory?
    ensures var sizes := DirectorySizes(AllDirectories(root));
      var needed := SPACE_FOR_UPDATE - (TOTAL_SPACE - Max(sizes));
      (r.Ok? ==> r.value in sizes && r.value > needed && forall i :: 0 <= i < |sizes| && sizes[i] > needed ==> r.value <= sizes[i]) &&
      (r.Err? <==> forall i :: 0 <= i < |sizes| ==> sizes[i] <= needed)
  {
    var sizes := DirectorySizes(AllDirectories(root));
    var needed := SPACE_FOR_UPDATE - (TOTAL_SPACE - Max(sizes));
    match SmallestAbove(sizes, needed)
    case None => Err("Didn't find a size")
    case Some(size) => Ok(size)
  }

  /** With non-negative files the largest size is the root's, so the root itself qualifies whenever the disk is over-full. */
  lemma UsedIsRootSize(root: Item)
    requires root.Directory? && NonNegative(root)
    ensures Max(DirectorySizes(AllDirectories(root))) == Size(root)
    ensures Size(root) > TOTAL_SPACE - SPACE_FOR_UPDATE ==> SizeToDelete(root).Ok?
  {
    var dirs := AllDirectories(root);
    var sizes := DirectorySizes(dirs);
    RootIsLargest(root);
    assert sizes[0] == Size(root);
    forall i | 0 <= i < |sizes|
      ensures sizes[i] <= Size(root)
    {
      assert dirs[i] in dirs;
    }
  }

  /** The whole program: rebuild the tree from the input's lines, then choose. */
  method SpaceToFree(data: string) returns (r: Result<int>)
    ensures r == (match Replay(Split(data, '\n'))
                  case Err(e) => Err(e)
                  case Ok(s) => SizeToDelete(Directory(s.root)))
  {
    var fs := Reconstruct(Split(data, '\n'));
    if fs.Err? {
      return Err(fs.msg);
    }
    r := SizeToDelete(fs.value);
  }
}
