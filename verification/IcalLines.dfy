/** Content lines of the iCalendar writer: src/lib/provider-external-calendars.ts. A char stands for one code unit. */
module IcalLines {

  const LIMIT := 72
  const CRLF := "\r\n"

  // ----- Folding

  /** The physical lines of a content line; all but the first start with a space. */
  function Chunks(line: string): (chunks: seq<string>)
    ensures chunks != []
    decreases |line|
  {
    if |line| <= LIMIT then [line] else [line[..LIMIT]] + Chunks(" " + line[LIMIT..])
  }

  function Join(parts: seq<string>): string {
    if parts == [] then "" else if |parts| == 1 then parts[0] else parts[0] + CRLF + Join(parts[1..])
  }

  function Fold(line: string): string {
    Join(Chunks(line))
  }

  method FoldLine(line: string) returns (folded: string)
    ensures folded == Fold(line)
  {
    if |line| <= LIMIT {
      return line;
    }
    var chunks, current := [], line;
    while |current| > LIMIT
      invariant chunks + Chunks(current) == Chunks(line)
      decreases |current|
    {
      chunks := chunks + [current[..LIMIT]];
      current := " " + current[LIMIT..];
    }
    chunks := chunks + [current];
    folded := Join(chunks);
  }

  // ----- The file

  /** filter(Boolean) drops empty lines. */
  function Kept(lines: seq<string>): seq<string> {
    if lines == [] then []
    else if lines[0] == "" then Kept(lines[1..])
    else [lines[0]] + Kept(lines[1..])
  }

  function FoldAll(lines: seq<string>): seq<string> {
    if lines == [] then [] else [Fold(lines[0])] + FoldAll(lines[1..])
  }

  function Render(lines: seq<string>): string {
    Join(FoldAll(Kept(lines))) + CRLF
  }

  method FoldLines(kept: seq<string>) returns (folded: seq<string>)
    ensures folded == FoldAll(kept)
  {
    hide Fold;
    folded := [];
    for i := 0 to |kept|
      invariant folded + FoldAll(kept[i..]) == FoldAll(kept)
    {
      var line := FoldLine(kept[i]);
      assert kept[i..][0] == kept[i] && kept[i..][1..] == kept[i + 1..];
      assert FoldAll(kept[i..]) == [line] + FoldAll(kept[i + 1..]);
      folded := folded + [line];
    }
    assert FoldAll(kept[|kept|..]) == [];
  }

  // ----- The reader's side: section 3.1 of RFC 5545

  predicate Blank(s: string) {
    s != "" && (s[0] == ' ' || s[0] == '\t')
  }

  function Unfold(s: string): string {
    if s == "" then ""
    else if CRLF <= s && Blank(s[2..]) then Unfold(s[3..])
    else [s[0]] + Unfold(s[1..])
  }

  /** The parts that end with a line break, and what follows the last one. */
  function SplitLines(s: string): seq<string> {
    if s == "" then []
    else if CRLF <= s then [""] + SplitLines(s[2..])
    else
      var rest := SplitLines(s[1..]);
      if rest == [] then [s] else [[s[0]] + rest[0]] + rest[1..]
  }

  function ReadLines(file: string): seq<string> {
    SplitLines(Unfold(file))
  }

  predicate HasBreak(s: string) {
    exists i :: 0 <= i < |s| && CRLF <= s[i..]
  }

  /** What a content line has to be like. */
  predicate Proper(line: string) {
    !HasBreak(line) && !Blank(line)
  }

  // ----- Lines that end with a break

  function Terminated(lines: seq<string>): string {
    if lines == [] then "" else lines[0] + CRLF + Terminated(lines[1..])
  }

  function AllChunks(lines: seq<string>): seq<string> {
    if lines == [] then [] else Chunks(lines[0]) + AllChunks(lines[1..])
  }

  lemma {:induction false} TerminatedAppend(a: seq<string>, b: seq<string>)
    ensures Terminated(a + b) == Terminated(a) + Terminated(b)
  {
    if a == [] {
      assert a + b == b;
    } else {
      TerminatedAppend(a[1..], b);
      assert (a + b)[1..] == a[1..] + b;
      assert Terminated(a) + Terminated(b) == a[0] + CRLF + (Terminated(a[1..]) + Terminated(b));
    }
  }

  lemma {:induction false} JoinIsTerminated(parts: seq<string>)
    requires parts != []
    ensures Join(parts) + CRLF == Terminated(parts)
  {
    if |parts| == 1 {
      assert parts[1..] == [];
      assert parts[0] + CRLF + "" == parts[0] + CRLF;
    } else {
      JoinIsTerminated(parts[1..]);
      assert Join(parts) + CRLF == parts[0] + CRLF + (Join(parts[1..]) + CRLF);
    }
  }

  lemma {:induction false} FoldedIsTerminated(lines: seq<string>)
    ensures Terminated(FoldAll(lines)) == Terminated(AllChunks(lines))
    ensures |FoldAll(lines)| == |lines|
  {
    if lines != [] {
      FoldedIsTerminated(lines[1..]);
      JoinIsTerminated(Chunks(lines[0]));
      TerminatedAppend(Chunks(lines[0]), AllChunks(lines[1..]));
      hide Chunks, Join;
    }
  }

  /** The rendered file consists of the physical lines, each with its line break. */
  lemma RenderIsTerminated(lines: seq<string>)
    requires Kept(lines) != []
    ensures Render(lines) == Terminated(AllChunks(Kept(lines)))
  {
    FoldedIsTerminated(Kept(lines));
    JoinIsTerminated(FoldAll(Kept(lines)));
  }

  // ----- Physical lines

  lemma {:induction false} ChunksShort(line: string)
    requires !HasBreak(line)
    ensures forall c :: c in Chunks(line) ==> |c| <= LIMIT && !HasBreak(c)
    decreases |line|
  {
    if |line| > LIMIT {
      PartHasNoBreak(line);
      ChunksShort(" " + line[LIMIT..]);
    }
  }

  lemma PartHasNoBreak(line: string)
    requires !HasBreak(line) && |line| > LIMIT
    ensures !HasBreak(line[..LIMIT]) && !HasBreak(line[LIMIT..]) && !HasBreak(" " + line[LIMIT..])
  {
    var head, tail := line[..LIMIT], line[LIMIT..];
    forall i | 0 <= i < |head| ensures !(CRLF <= head[i..]) {
      assert !(CRLF <= line[i..]);
      if i + 1 < |head| {
        assert head[i..][0] == line[i..][0] && head[i..][1] == line[i..][1];
      }
    }
    forall i | 0 <= i < |tail| ensures !(CRLF <= tail[i..]) {
      assert tail[i..] == line[LIMIT + i..];
    }
    var next := " " + tail;
    forall i | 0 <= i < |next| ensures !(CRLF <= next[i..]) {
      if i == 0 {
        assert next[i..][0] == ' ';
      } else {
        assert next[i..] == tail[i - 1..];
      }
    }
  }

  lemma {:induction false} AllChunksShort(lines: seq<string>)
    requires forall line :: line in lines ==> !HasBreak(line)
    ensures forall c :: c in AllChunks(lines) ==> |c| <= LIMIT && !HasBreak(c)
  {
    if lines != [] {
      ChunksShort(lines[0]);
      AllChunksShort(lines[1..]);
    }
  }

  lemma TailHasNoBreak(line: string)
    requires !HasBreak(line) && line != ""
    ensures !HasBreak(line[1..]) && !(CRLF <= line)
  {
    assert line[0..] == line;
    forall i | 0 <= i < |line| - 1 ensures !(CRLF <= line[1..][i..]) {
      assert line[1..][i..] == line[i + 1..];
    }
  }

  /** A line break that follows a line without one is the first one. */
  lemma NoEarlierBreak(line: string, rest: string)
    requires !HasBreak(line) && line != ""
    ensures !(CRLF <= line + CRLF + rest)
    ensures (line + CRLF + rest)[1..] == line[1..] + CRLF + rest
  {
    TailHasNoBreak(line);
    assert (line + CRLF + rest)[1] == if |line| > 1 then line[1] else '\r';
  }

  lemma {:induction false} SplitFirst(line: string, rest: string)
    requires !HasBreak(line)
    ensures SplitLines(line + CRLF + rest) == [line] + SplitLines(rest)
  {
    var s := line + CRLF + rest;
    if line == "" {
      assert s == CRLF + rest && s[2..] == rest;
    } else {
      TailHasNoBreak(line);
      SplitFirst(line[1..], rest);
      NoEarlierBreak(line, rest);
      assert [line[0]] + line[1..] == line;
    }
  }

  lemma {:induction false} SplitTerminated(lines: seq<string>)
    requires forall line :: line in lines ==> !HasBreak(line)
    ensures SplitLines(Terminated(lines)) == lines
  {
    if lines != [] {
      SplitTerminated(lines[1..]);
      SplitFirst(lines[0], Terminated(lines[1..]));
    }
  }

  /** Every physical line of the file has at most 72 code units. */
  lemma PhysicalLinesShort(lines: seq<string>)
    requires Kept(lines) != [] && forall line :: line in Kept(lines) ==> !HasBreak(line)
    ensures SplitLines(Render(lines)) == AllChunks(Kept(lines))
    ensures forall physical :: physical in SplitLines(Render(lines)) ==> |physical| <= LIMIT
  {
    hide Render, AllChunks, SplitLines, Kept;
    RenderIsTerminated(lines);
    AllChunksShort(Kept(lines));
    SplitTerminated(AllChunks(Kept(lines)));
  }

  // ----- Unfolding

  lemma {:induction false} UnfoldSkips(line: string, rest: string)
    requires !HasBreak(line)
    ensures Unfold(line + CRLF + rest) == line + Unfold(CRLF + rest)
  {
    if line == "" {
      assert line + CRLF + rest == CRLF + rest;
    } else {
      TailHasNoBreak(line);
      UnfoldSkips(line[1..], rest);
      NoEarlierBreak(line, rest);
      assert line + Unfold(CRLF + rest) == [line[0]] + (line[1..] + Unfold(CRLF + rest));
    }
  }

  lemma UnfoldBreak(rest: string)
    ensures Unfold(CRLF + rest) == if Blank(rest) then Unfold(rest[1..]) else CRLF + Unfold(rest)
  {
    var s := CRLF + rest;
    assert s[2..] == rest;
    if Blank(rest) {
      assert s[3..] == rest[1..];
    } else {
      assert s[1..] == "\n" + rest;
      assert ("\n" + rest)[1..] == rest;
      assert Unfold("\n" + rest) == "\n" + Unfold(rest);
    }
  }

  lemma UnfoldSpace(rest: string)
    ensures Unfold(" " + rest) == " " + Unfold(rest)
  {
    assert (" " + rest)[1..] == rest;
  }

  /** Unfolding puts a folded line together again. */
  lemma {:induction false} UnfoldChunks(line: string, rest: string)
    requires !HasBreak(line) && !Blank(rest)
    ensures Unfold(Terminated(Chunks(line)) + rest) == line + CRLF + Unfold(rest)
    decreases |line|
  {
    hide Chunks, Unfold, Terminated, HasBreak, Blank;
    if |line| <= LIMIT {
      UnfoldShort(line, rest);
    } else {
      UnfoldLong(line, rest);
    }
  }

  lemma UnfoldShort(line: string, rest: string)
    requires |line| <= LIMIT && !HasBreak(line) && !Blank(rest)
    ensures Unfold(Terminated(Chunks(line)) + rest) == line + CRLF + Unfold(rest)
  {
    hide Chunks, Unfold, Terminated, HasBreak, Blank;
    TerminatedOne(line, rest);
    UnfoldSkips(line, rest);
    UnfoldBreak(rest);
    assert line + (CRLF + Unfold(rest)) == line + CRLF + Unfold(rest);
  }

  lemma TerminatedOne(line: string, rest: string)
    requires |line| <= LIMIT
    ensures Terminated(Chunks(line)) + rest == line + CRLF + rest
  {
    assert Chunks(line) == [line];
    hide Chunks;
    TerminatedSingle(line);
  }

  lemma TerminatedSingle(line: string)
    ensures Terminated([line]) == line + CRLF
  {
    assert [line][1..] == [];
    assert Terminated([line]) == line + CRLF + "";
  }

  /** The first chunk of a long line, and the rest, which starts with a space. */
  lemma TerminatedMore(line: string) returns (more: string)
    requires |line| > LIMIT
    ensures Terminated(Chunks(" " + line[LIMIT..])) == " " + more
    ensures Terminated(Chunks(line)) == line[..LIMIT] + CRLF + (" " + more)
  {
    var next := " " + line[LIMIT..];
    var text := Terminated(Chunks(next));
    assert text[0] == ' ' by {
      assert Chunks(next)[0][0] == ' ';
    }
    more := text[1..];
    assert Chunks(line) == [line[..LIMIT]] + Chunks(next);
    assert Chunks(line)[1..] == Chunks(next);
  }

  lemma UnfoldFold(head: string, more: string, rest: string)
    requires !HasBreak(head)
    ensures Unfold(head + CRLF + (" " + more) + rest) == head + Unfold(more + rest)
  {
    hide Unfold, HasBreak;
    var text := " " + (more + rest);
    assert head + CRLF + (" " + more) + rest == head + CRLF + text;
    UnfoldSkips(head, text);
    UnfoldBreak(text);
    assert text[1..] == more + rest;
  }

  lemma DropSpace(more: string, rest: string, tail: string, unfolded: string)
    requires Unfold(" " + more + rest) == " " + tail + CRLF + unfolded
    ensures Unfold(more + rest) == tail + CRLF + unfolded
  {
    hide Unfold;
    assert " " + more + rest == " " + (more + rest);
    UnfoldSpace(more + rest);
    assert (" " + Unfold(more + rest))[1..] == Unfold(more + rest);
    assert (" " + tail + CRLF + unfolded)[1..] == tail + CRLF + unfolded;
  }

  lemma {:induction false} UnfoldLong(line: string, rest: string)
    requires |line| > LIMIT && !HasBreak(line) && !Blank(rest)
    ensures Unfold(Terminated(Chunks(line)) + rest) == line + CRLF + Unfold(rest)
    decreases |line|, 0
  {
    var head, tail := line[..LIMIT], line[LIMIT..];
    PartHasNoBreak(line);
    var more := TerminatedMore(line);
    UnfoldChunks(" " + tail, rest);
    hide Chunks, Unfold, Terminated, HasBreak, Blank;
    UnfoldFold(head, more, rest);
    DropSpace(more, rest, tail, Unfold(rest));
    Reassembled(head, tail, Unfold(rest));
    assert line == head + tail;
  }

  lemma Reassembled(head: string, tail: string, rest: string)
    ensures head + (tail + CRLF + rest) == head + tail + CRLF + rest
  {
  }

  lemma {:induction false} UnfoldAll(lines: seq<string>)
    requires forall line :: line in lines ==> Proper(line) && line != ""
    ensures Unfold(Terminated(AllChunks(lines))) == Terminated(lines)
    ensures !Blank(Terminated(AllChunks(lines)))
  {
    if lines != [] {
      var rest := AllChunks(lines[1..]);
      assert lines[0] in lines;
      UnfoldAll(lines[1..]);
      TerminatedAppend(Chunks(lines[0]), rest);
      FirstUnit(lines[0], Terminated(rest));
      hide Chunks, Unfold, Blank;
      UnfoldChunks(lines[0], Terminated(rest));
    }
  }

  lemma FirstUnit(line: string, rest: string)
    requires line != "" && !Blank(line)
    ensures !Blank(Terminated(Chunks(line)) + rest)
  {
    assert Chunks(line)[0][0] == line[0];
  }

  /** Reading the file gives back the content lines. */
  lemma ReadRendered(lines: seq<string>)
    requires Kept(lines) != [] && forall line :: line in Kept(lines) ==> Proper(line)
    ensures ReadLines(Render(lines)) == Kept(lines)
  {
    KeptNotEmpty(lines);
    hide Render, AllChunks, SplitLines, Kept;
    RenderIsTerminated(lines);
    UnfoldAll(Kept(lines));
    SplitTerminated(Kept(lines));
  }

  lemma {:induction false} KeptNotEmpty(lines: seq<string>)
    ensures forall line :: line in Kept(lines) <==> line in lines && line != ""
  {
    if lines != [] {
      KeptNotEmpty(lines[1..]);
      assert lines == [lines[0]] + lines[1..];
    }
  }
}
