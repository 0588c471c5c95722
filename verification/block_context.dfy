/** The completion server's backward search for the block the cursor is in. */
module BlockContext {
  import opened Options

  function Count(line: string, c: char): nat
  {
    if line == [] then 0
    else Count(line[..|line| - 1], c) + if line[|line| - 1] == c then 1 else 0
  }

  // ---------------------------------------------------- forward reading

  /** Reads a line on a stack of open blocks, each known by the line that opened it. */
  function Feed(stack: seq<nat>, line: string, at: nat): seq<nat>
  {
    if line == [] then stack
    else
      var s := Feed(stack, line[..|line| - 1], at);
      var c := line[|line| - 1];
      if c == '{' then s + [at]
      else if c == '}' && s != [] then s[..|s| - 1]
      else s
  }

  /** The open blocks after the lines, outermost first. */
  function Stack(lines: seq<string>): seq<nat>
  {
    if lines == [] then [] else Feed(Stack(lines[..|lines| - 1]), lines[|lines| - 1], |lines| - 1)
  }

  /** The open block with `depth` others inside it. */
  function Enclosing(stack: seq<nat>, depth: nat): Option<nat>
  {
    if depth < |stack| then Some(stack[|stack| - 1 - depth]) else None
  }

  // --------------------------------------------------- backward reading

  /** A line's closing braces are all counted before its opening ones. */
  function Scan(lines: seq<string>, depth: nat): Option<nat>
  {
    if lines == [] then None
    else
      var line := lines[|lines| - 1];
      var owed := depth + Count(line, '}');
      if Count(line, '{') > owed then Some(|lines| - 1)
      else Scan(lines[..|lines| - 1], owed - Count(line, '{'))
  }

  lemma {:induction false} CountPrefix(line: string, c: char, j: nat)
    requires j < |line|
    ensures Count(line[..j + 1], c) == Count(line[..j], c) + if line[j] == c then 1 else 0
    ensures Count(line[..j + 1], c) <= Count(line, c)
    decreases |line| - j
  {
    assert line[..j + 1][..j] == line[..j];
    if j + 1 < |line| {
      CountPrefix(line, c, j + 1);
    } else {
      assert line[..j + 1] == line;
    }
  }

  /** types[i] is the block type at the start of lines[i], "" if there is none. */
  method FindBlockContext(lines: seq<string>, types: seq<string>, cursorLine: int) returns (context: string)
    requires cursorLine < |lines| == |types|
    ensures var found := if cursorLine < 0 then None else Scan(lines[..cursorLine + 1], 0);
            context == if found.Some? && found.value < |types| then types[found.value] else ""
  {
    var depth := 0;
    var i := cursorLine;
    ghost var all := if cursorLine < 0 then None else Scan(lines[..cursorLine + 1], 0);
    while i >= 0
      invariant i <= cursorLine && depth >= 0
      invariant all == if i < 0 then None else Scan(lines[..i + 1], depth)
    {
      var line := lines[i];
      assert lines[..i + 1][|lines[..i + 1]| - 1] == line && lines[..i + 1][..i] == lines[..i];
      ghost var start := depth;
      for j := 0 to |line|
        invariant depth == start + Count(line[..j], '}')
      {
        CountPrefix(line, '}', j);
        if line[j] == '}' { depth := depth + 1; }
      }
      assert line[..|line|] == line;
      for j := 0 to |line|
        invariant depth == start + Count(line, '}') - Count(line[..j], '{') && depth >= 0
      {
        CountPrefix(line, '{', j);
        if line[j] == '{' {
          if depth > 0 {
            depth := depth - 1;
          } else {
            return types[i];
          }
        }
      }
      i := i - 1;
    }
    return "";
  }

  // ---------------------------------------------------------- refinement

  /** What a line closes of the blocks before it, and what it leaves open. */
  function Net(line: string): (r: (nat, nat))
  {
    if line == [] then (0, 0)
    else
      var (closes, opens) := Net(line[..|line| - 1]);
      if line[|line| - 1] == '{' then (closes, opens + 1)
      else if line[|line| - 1] != '}' then (closes, opens)
      else if opens > 0 then (closes, opens - 1)
      else (closes + 1, 0)
  }

  /** Balanced, or with unmatched braces of one kind only. */
  predicate OneSided(line: string)
  {
    Net(line).0 == 0 || Net(line).1 == 0
  }

  lemma {:induction false} NetCounts(line: string)
    ensures Count(line, '{') - Count(line, '}') == Net(line).1 - Net(line).0
  {
    if line != [] { NetCounts(line[..|line| - 1]); }
  }

  function Popped(stack: seq<nat>, n: nat): seq<nat>
  {
    if n <= |stack| then stack[..|stack| - n] else []
  }

  function Repeat(at: nat, n: nat): (r: seq<nat>)
    ensures |r| == n && forall k :: 0 <= k < n ==> r[k] == at
  {
    seq(n, _ => at)
  }

  lemma {:induction false} FeedIsNet(stack: seq<nat>, line: string, at: nat)
    ensures Feed(stack, line, at) == Popped(stack, Net(line).0) + Repeat(at, Net(line).1)
  {
    if line != [] {
      FeedIsNet(stack, line[..|line| - 1], at);
    }
  }

  /** With one-sided lines the backward scan finds the enclosing block of the forward stack,
    * from whatever depth it starts. */
  lemma {:induction false} ScanIsEnclosing(lines: seq<string>, depth: nat)
    requires forall l :: l in lines ==> OneSided(l)
    ensures Scan(lines, depth) == Enclosing(Stack(lines), depth)
  {
    if lines != [] {
      var n := |lines| - 1;
      var line := lines[n];
      FeedIsNet(Stack(lines[..n]), line, n);
      NetCounts(line);
      assert OneSided(line);
      if Count(line, '{') <= depth + Count(line, '}') {
        ScanIsEnclosing(lines[..n], depth + Count(line, '}') - Count(line, '{'));
      }
    }
  }

  function Closers(n: nat): (r: seq<string>)
    ensures |r| == n && forall l :: l in r ==> l == "}"
  {
    seq(n, _ => "}")
  }

  lemma {:induction false} ScanPastClosers(line: string, n: nat, depth: nat)
    ensures Scan([line] + Closers(n), depth) == Scan([line], depth + n)
    ensures Enclosing(Stack([line] + Closers(n)), depth) == Enclosing(Stack([line]), depth + n)
  {
    var lines := [line] + Closers(n);
    if n == 0 {
      assert lines == [line];
    } else {
      assert lines[..n] == [line] + Closers(n - 1);
      assert lines[n] == "}";
      CloserCounts();
      FeedIsNet(Stack(lines[..n]), "}", n);
      ScanPastClosers(line, n - 1, depth + 1);
    }
  }

  lemma CloserCounts()
    ensures Count("}", '}') == 1 && Count("}", '{') == 0 && Net("}") == (1, 0)
  {
    assert "}"[..0] == "";
  }

  /** One-sided lines are all the scan can read: any other line is passed over in the document
    * that closes all but one of the blocks it opens. */
  lemma OneSidedExactly(line: string)
    ensures OneSided(line) <==>
            forall before: seq<string>, after: seq<string> ::
              (forall l :: l in before + after ==> OneSided(l)) ==>
                Scan(before + [line] + after, 0) == Enclosing(Stack(before + [line] + after), 0)
  {
    if OneSided(line) {
      forall before: seq<string>, after: seq<string> | forall l :: l in before + after ==> OneSided(l)
        ensures Scan(before + [line] + after, 0) == Enclosing(Stack(before + [line] + after), 0)
      {
        forall l | l in before + [line] + after ensures OneSided(l) { assert l in before + after || l == line; }
        ScanIsEnclosing(before + [line] + after, 0);
      }
    } else {
      var after := Closers(Net(line).1 - 1);
      CloserCounts();
      ScanPastClosers(line, Net(line).1 - 1, 0);
      NetCounts(line);
      FeedIsNet([], line, 0);
      assert [line][..0] == [];
      assert [] + [line] + after == [line] + after && [] + after == after;
      assert Scan([] + [line] + after, 0) != Enclosing(Stack([] + [line] + after), 0);
    }
  }
}
