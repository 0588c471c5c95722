/** The multi-document YAML stream: written by the renderer, split by the importer. */
module YamlStream {
  import opened Text
  import opened Seqs

  const SEPARATOR := "---"

  // ------------------------------------------------------- specification

  /** The pieces between newlines; a last piece without a newline counts if it is not empty. */
  function Lines(data: string): seq<string>
    decreases |data|
  {
    if '\n' !in data then (if data == [] then [] else [data])
    else [data[..IndexOf(data, '\n')]] + Lines(data[IndexOf(data, '\n') + 1..])
  }

  function Unlines(lines: seq<string>): string
  {
    if lines == [] then [] else lines[0] + "\n" + Unlines(lines[1..])
  }

  function Closed(current: string): seq<string>
  {
    if current == [] then [] else [current]
  }

  /** The documents in the lines still to be read, the first of them begun already. */
  function Docs(lines: seq<string>, current: string): seq<string>
  {
    if lines == [] then Closed(current)
    else if lines[0] == SEPARATOR then Closed(current) + Docs(lines[1..], [])
    else Docs(lines[1..], current + lines[0] + "\n")
  }

  function Split(data: string): seq<string>
  {
    Docs(Lines(data), [])
  }

  /** The stream of the documents, a separator line before every one but the first. */
  function Join(docs: seq<string>): string
  {
    if docs == [] then [] else if |docs| == 1 then docs[0] else docs[0] + "---\n" + Join(docs[1..])
  }

  // ----------------------------------------------------------- algorithms

  method RenderStream(docs: seq<string>) returns (buf: string)
    ensures buf == Join(docs)
  {
    buf := [];
    for i := 0 to |docs|
      invariant i < |docs| ==> (if i == 0 then buf == [] else buf + "---\n" + Join(docs[i..]) == Join(docs))
      invariant i == |docs| ==> buf == Join(docs)
    {
      if i > 0 {
        buf := buf + "---\n";
      }
      buf := buf + docs[i];
    }
  }

  method SplitLines(data: string) returns (lines: seq<string>)
    ensures lines == Lines(data)
  {
    hide IndexOf, Lines;
    lines := [];
    var start := 0;
    for i := 0 to |data|
      invariant 0 <= start <= i
      invariant '\n' !in data[start..i]
      invariant lines + Lines(data[start..]) == Lines(data)
    {
      if data[i] == '\n' {
        LineAt(data[start..], i - start);
        assert data[start..][..i - start] == data[start..i] && data[start..][i - start + 1..] == data[i + 1..];
        lines := lines + [data[start..i]];
        start := i + 1;
      }
    }
    assert data[start..|data|] == data[start..];
    RestOfLine(data[start..]);
    if start < |data| {
      lines := lines + [data[start..]];
    }
  }

  lemma RestOfLine(data: string)
    requires '\n' !in data
    ensures Lines(data) == if data == [] then [] else [data]
  {
  }

  lemma FirstLine(data: string)
    requires '\n' in data
    ensures Lines(data) == [data[..IndexOf(data, '\n')]] + Lines(data[IndexOf(data, '\n') + 1..])
  {
  }

  lemma LineAt(data: string, i: nat)
    requires i < |data| && data[i] == '\n' && '\n' !in data[..i]
    ensures Lines(data) == [data[..i]] + Lines(data[i + 1..])
  {
    hide Lines, IndexOf;
    FirstLine(data);
    IndexOfJoin(data[..i], '\n', data[i + 1..]);
    assert data[..i] + ['\n'] + data[i + 1..] == data;
  }

  method SplitYamlDocs(data: string) returns (docs: seq<string>)
    ensures docs == Split(data)
  {
    docs := [];
    var current: string := [];
    var lines := SplitLines(data);
    for i := 0 to |lines|
      invariant docs + Docs(lines[i..], current) == Docs(lines, [])
    {
      if lines[i] == SEPARATOR {
        if |current| > 0 {
          docs := docs + [current];
          current := [];
        }
      } else {
        current := current + lines[i];
        current := current + ['\n'];
      }
    }
    if |current| > 0 {
      docs := docs + [current];
    }
  }

  // --------------------------------------------------------------- lines

  predicate Whole(lines: seq<string>)
  {
    forall l :: l in lines ==> '\n' !in l
  }

  predicate Terminated(d: string)
  {
    d != [] && d[|d| - 1] == '\n'
  }

  lemma UnlinesStep(lines: seq<string>)
    ensures lines == [] ==> Unlines(lines) == []
    ensures lines != [] ==> Unlines(lines) == lines[0] + "\n" + Unlines(lines[1..])
  {
  }

  lemma {:induction false} LinesOfUnlines(lines: seq<string>, tail: string)
    requires Whole(lines)
    ensures Lines(Unlines(lines) + tail) == lines + Lines(tail)
  {
    hide Lines, IndexOf, Unlines;
    UnlinesStep(lines);
    if lines == [] {
      assert Unlines(lines) + tail == tail && lines + Lines(tail) == Lines(tail);
    } else {
      var rest := Unlines(lines[1..]) + tail;
      var data := lines[0] + ['\n'] + rest;
      assert lines[0] in lines;
      assert Unlines(lines) + tail == data;
      assert data[|lines[0]|] == '\n';
      assert data[..|lines[0]|] == lines[0] && data[|lines[0]| + 1..] == rest;
      LineAt(data, |lines[0]|);
      LinesOfUnlines(lines[1..], tail);
      assert [lines[0]] + (lines[1..] + Lines(tail)) == lines + Lines(tail);
    }
  }

  lemma {:induction false} LinesWhole(data: string)
    ensures Whole(Lines(data))
    decreases |data|
  {
    if '\n' !in data {
      RestOfLine(data);
    } else {
      hide Lines, IndexOf;
      FirstPiece(data);
      FirstLine(data);
      LinesWhole(data[IndexOf(data, '\n') + 1..]);
    }
  }

  lemma CutAt(data: string, i: nat)
    requires i < |data| && data[i] == '\n'
    ensures data == data[..i] + "\n" + data[i + 1..]
    ensures Terminated(data) ==> data[i + 1..] == [] || Terminated(data[i + 1..])
  {
  }

  lemma {:induction false} LinesRebuild(data: string)
    requires data == [] || Terminated(data)
    ensures Unlines(Lines(data)) == data
    ensures data != [] ==> Lines(data) != []
    decreases |data|
  {
    hide Lines, IndexOf, Unlines;
    if data == [] {
      RestOfLine(data);
      UnlinesStep([]);
    } else {
      var i := IndexOf(data, '\n');
      FirstLine(data);
      CutAt(data, i);
      LinesRebuild(data[i + 1..]);
      UnlinesStep(Lines(data));
      assert Lines(data)[1..] == Lines(data[i + 1..]);
    }
  }

  lemma LinesAre(data: string)
    ensures Whole(Lines(data))
    ensures Terminated(data) ==> Unlines(Lines(data)) == data && Lines(data) != []
  {
    hide Lines, Unlines;
    LinesWhole(data);
    if Terminated(data) {
      LinesRebuild(data);
    }
  }

  lemma {:induction false} FirstPiece(data: string)
    requires '\n' in data
    ensures '\n' !in data[..IndexOf(data, '\n')]
  {
    if data[0] != '\n' {
      FirstPiece(data[1..]);
      assert data[..IndexOf(data, '\n')] == [data[0]] + data[1..][..IndexOf(data[1..], '\n')];
    }
  }

  // ----------------------------------------------------------- documents

  /** What the splitter can give back: lines, at least one, none of them a separator. */
  predicate Document(d: string)
  {
    Terminated(d) && SEPARATOR !in Lines(d)
  }

  /** A begun document's lines, then what follows. */
  lemma {:induction false} DocsOfRun(run: seq<string>, tail: seq<string>, current: string)
    requires SEPARATOR !in run
    ensures Docs(run + tail, current) == Docs(tail, current + Unlines(run))
  {
    if run == [] {
      assert run + tail == tail && current + Unlines(run) == current;
    } else {
      assert (run + tail)[1..] == run[1..] + tail;
      DocsOfRun(run[1..], tail, current + run[0] + "\n");
      assert current + run[0] + "\n" + Unlines(run[1..]) == current + Unlines(run);
    }
  }

  lemma UnlinesTerminated(run: seq<string>)
    requires run != []
    ensures Terminated(Unlines(run))
    decreases run
  {
    if |run| > 1 {
      UnlinesTerminated(run[1..]);
    }
  }

  lemma UnlinesSnoc(run: seq<string>, l: string)
    ensures Unlines(run + [l]) == Unlines(run) + l + "\n"
  {
    if run == [] {
      assert (run + [l])[1..] == [];
    } else {
      UnlinesSnoc(run[1..], l);
      assert run + [l] == [run[0]] + (run[1..] + [l]);
      assert Unlines(run + [l]) == run[0] + "\n" + Unlines(run[1..] + [l]);
    }
  }

  /** Everything split off is a document, from any bytes at all. */
  lemma {:induction false} DocsAreDocuments(lines: seq<string>, run: seq<string>)
    requires Whole(lines) && Whole(run) && SEPARATOR !in run
    ensures forall d :: d in Docs(lines, Unlines(run)) ==> Document(d)
  {
    if lines == [] || lines[0] == SEPARATOR {
      if run != [] {
        UnlinesTerminated(run);
        LinesOfUnlines(run, []);
        assert Unlines(run) + [] == Unlines(run) && run + Lines([]) == run;
      }
      if lines != [] {
        DocsAreDocuments(lines[1..], []);
      }
    } else {
      UnlinesSnoc(run, lines[0]);
      DocsAreDocuments(lines[1..], run + [lines[0]]);
    }
  }

  lemma SplitGivesDocuments(data: string)
    ensures forall d :: d in Split(data) ==> Document(d)
  {
    LinesAre(data);
    DocsAreDocuments(Lines(data), []);
  }

  /** A document's lines are read back as that document. */
  lemma ReadDocument(d: string, tail: seq<string>)
    requires Document(d) && (tail == [] || tail[0] == SEPARATOR)
    ensures Docs(Lines(d) + tail, []) == [d] + if tail == [] then [] else Docs(tail[1..], [])
  {
    hide Lines;
    LinesAre(d);
    DocsOfRun(Lines(d), tail, []);
    assert [] + Unlines(Lines(d)) == d;
  }

  lemma LastDocument(d: string)
    requires Document(d)
    ensures Split(d) == [d]
  {
    hide Lines, Docs;
    ReadDocument(d, []);
    assert Lines(d) + [] == Lines(d);
  }

  lemma NextDocument(d: string, rest: string)
    requires Document(d)
    ensures Split(d + ("---\n" + rest)) == [d] + Split(rest)
  {
    hide Lines, Docs;
    LinesAre(d);
    LinesOfUnlines(Lines(d), "---\n" + rest);
    SeparatorLine(rest);
    ReadDocument(d, [SEPARATOR] + Lines(rest));
    assert ([SEPARATOR] + Lines(rest))[1..] == Lines(rest);
  }

  lemma SeparatorLine(rest: string)
    ensures Lines("---\n" + rest) == [SEPARATOR] + Lines(rest)
  {
    hide Lines;
    LinesOfUnlines([SEPARATOR], rest);
    assert Unlines([SEPARATOR]) == "---\n";
  }

  lemma {:induction false} DocumentsComeBack(docs: seq<string>)
    requires forall d :: d in docs ==> Document(d)
    ensures Split(Join(docs)) == docs
  {
    hide Split, Document;
    if docs == [] {
      NothingSplits();
    } else {
      assert docs == [docs[0]] + docs[1..];
      if |docs| == 1 {
        LastDocument(docs[0]);
      } else {
        NextDocument(docs[0], Join(docs[1..]));
        DocumentsComeBack(docs[1..]);
        assert Join(docs) == docs[0] + ("---\n" + Join(docs[1..]));
      }
    }
  }

  lemma NothingSplits()
    ensures Split([]) == []
  {
  }

  /** The stream of a list of documents splits into that list exactly when each one is not
    * empty, ends its last line and has no separator line of its own. */
  lemma StreamRoundTrip(docs: seq<string>)
    ensures Split(Join(docs)) == docs <==> forall d :: d in docs ==> Document(d)
  {
    if forall d :: d in docs ==> Document(d) {
      DocumentsComeBack(docs);
    }
    SplitGivesDocuments(Join(docs));
  }

  // -------------------------------------------------------- nothing lost

  function Content(lines: seq<string>): seq<string>
  {
    if lines == [] then []
    else (if lines[0] == SEPARATOR then [] else [lines[0]]) + Content(lines[1..])
  }

  /** Splitting any bytes keeps every line but the separators, in order. */
  lemma SplitKeepsLines(data: string)
    ensures Lines(Flatten(Split(data))) == Content(Lines(data))
  {
    LinesAre(data);
    DocsKeepLines(Lines(data), []);
    ContentIsWhole(Lines(data));
    LinesOfUnlines(Content(Lines(data)), []);
    assert Flatten(Split(data)) == Unlines(Content(Lines(data))) + [];
  }

  lemma {:induction false} ContentIsWhole(lines: seq<string>)
    requires Whole(lines)
    ensures Whole(Content(lines))
  {
    if lines != [] { ContentIsWhole(lines[1..]); }
  }

  lemma FlattenClosed(current: string)
    ensures Flatten(Closed(current)) == current
  {
  }

  lemma ContentStep(lines: seq<string>)
    requires lines != []
    ensures Unlines(Content(lines)) ==
            (if lines[0] == SEPARATOR then [] else lines[0] + "\n") + Unlines(Content(lines[1..]))
  {
    if lines[0] == SEPARATOR {
      assert Content(lines) == Content(lines[1..]);
    } else {
      assert Content(lines)[1..] == Content(lines[1..]);
    }
  }

  lemma {:induction false} DocsKeepLines(lines: seq<string>, current: string)
    ensures Flatten(Docs(lines, current)) == current + Unlines(Content(lines))
  {
    FlattenClosed(current);
    hide Closed, Flatten, Content;
    if lines == [] {
      NoContent();
    } else {
      ContentStep(lines);
      if lines[0] == SEPARATOR {
        DocsKeepLines(lines[1..], []);
        FlattenConcat(Closed(current), Docs(lines[1..], []));
      } else {
        DocsKeepLines(lines[1..], current + lines[0] + "\n");
        assert current + lines[0] + "\n" + Unlines(Content(lines[1..])) ==
               current + (lines[0] + "\n" + Unlines(Content(lines[1..])));
      }
    }
  }

  lemma NoContent()
    ensures Content([]) == []
  {
  }
}
