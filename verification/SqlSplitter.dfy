/**
 The splitter of scripts/db/apply-single-migration.ts: one pass over the text with three flags,
 proved to return the statements that the token grammar defines.
 */
module SqlSplitter {
  import opened Options
  import opened SqlTokens
  import opened SqlTheory

  /** String.prototype.indexOf for one character. */
  function IndexOf(s: string, c: char, from: nat): (i: int)
    requires from <= |s|
    ensures i == -1 || (from <= i < |s| && s[i] == c)
    ensures forall k :: from <= k < (if i == -1 then |s| else i) ==> s[k] != c
    decreases |s| - from
  {
    if from == |s| then -1 else if s[from] == c then from else IndexOf(s, c, from + 1)
  }

  lemma {:induction false} LineEndIsIndexOf(s: string, from: nat)
    requires from <= |s|
    ensures from + LineEnd(s[from..]) ==
            if IndexOf(s, '\n', from) == -1 then |s| else IndexOf(s, '\n', from) + 1
    decreases |s| - from
  {
    if from < |s| {
      LineEndIsIndexOf(s, from + 1);
      assert s[from..][1..] == s[from + 1..];
    }
  }

  // ----- What remains to be returned

  function Keep(segment: string): seq<string> {
    if Trim(segment) == "" then [] else [Trim(segment)]
  }

  /** How much of the token being read is left in rest, as the flags record it. */
  function TokenLeft(blockComment: bool, quote: Option<char>, dollarTag: Option<string>, rest: string): (n: nat)
    ensures n <= |rest|
  {
    if blockComment then BlockEnd(rest)
    else if quote.Some? then QuoteEnd(quote.value, rest)
    else if dollarTag.Some? then DollarEnd(dollarTag.value, rest)
    else 0
  }

  /**
   The statements still to come when current was read since the last separator and the first
   left characters of rest belong to an unfinished token.
   */
  function Resume(current: string, left: nat, rest: string): seq<string>
    requires left <= |rest|
  {
    var c := left + Cut(rest[left..]);
    Keep(current + rest[..c]) + if c == |rest| then [] else Statements(rest[c + 1..])
  }

  lemma ResumeStart(s: string)
    ensures Resume("", 0, s) == Statements(s)
  {
    hide Trim;
    assert s[0..] == s;
    var c := Cut(s);
    assert "" + s[..c] == s[..c];
    if c == |s| {
      assert s[..c] == s;
      StatementsSingle(s);
    } else {
      assert s == s[..c] + ";" + s[c + 1..];
      StatementsThen(s[..c], s[c + 1..]);
    }
  }

  /** Reading inside a token moves characters from rest to current. */
  lemma ResumeInToken(current: string, left: nat, rest: string, d: nat)
    requires d <= left <= |rest|
    ensures Resume(current, left, rest) == Resume(current + rest[..d], left - d, rest[d..])
  {
    hide Cut, Trim, Statements;
    var c := left + Cut(rest[left..]);
    assert rest[d..][left - d..] == rest[left..];
    assert current + rest[..c] == current + rest[..d] + rest[d..][..c - d];
    if c < |rest| {
      assert rest[d..][c - d + 1..] == rest[c + 1..];
    }
  }

  /** At the start of a token nothing but its own length is known. */
  lemma ResumeAtToken(current: string, rest: string)
    requires rest != "" && rest[0] != ';'
    ensures Resume(current, 0, rest) == Resume(current, TokenLength(rest), rest)
  {
    hide TokenLength, Trim, Statements;
    assert rest[0..] == rest;
  }

  lemma ResumeAtSeparator(current: string, rest: string)
    requires rest != "" && rest[0] == ';'
    ensures Resume(current, 0, rest) == Keep(current) + Resume("", 0, rest[1..])
  {
    hide Trim, Statements;
    ResumeStart(rest[1..]);
    assert rest[0..] == rest;
    assert current + rest[..0] == current;
  }

  lemma ResumeAtEnd(current: string)
    ensures Resume(current, 0, "") == Keep(current)
  {
    hide Trim;
    assert ""[0..] == "";
    assert current + ""[..0] == current;
  }

  /** The state of the loop: the flags, what was read since the last separator, and the position. */
  datatype Cursor = Cursor(
    blockComment: bool, quote: Option<char>, dollarTag: Option<string>, current: string, index: nat)
  {
    predicate InCode() {
      !blockComment && quote.None? && dollarTag.None?
    }
  }

  ghost predicate At(source: string, c: Cursor) {
    && c.index <= |source|
    && !(c.blockComment && (c.quote.Some? || c.dollarTag.Some?))
    && !(c.quote.Some? && c.dollarTag.Some?)
    && (c.quote.Some? ==> IsQuote(c.quote.value))
  }

  ghost function Left(source: string, c: Cursor): (n: nat)
    requires At(source, c)
    ensures n <= |source| - c.index
  {
    TokenLeft(c.blockComment, c.quote, c.dollarTag, source[c.index..])
  }

  ghost function Remaining(source: string, c: Cursor): seq<string>
    requires At(source, c)
  {
    Resume(c.current, Left(source, c), source[c.index..])
  }

  /** One step that reads d characters of the token at hand. */
  ghost predicate Reads(source: string, c: Cursor, c': Cursor, d: nat) {
    && At(source, c) && At(source, c')
    && c'.index == c.index + d
    && c'.current == c.current + source[c.index..c.index + d]
  }

  lemma StepStart(source: string)
    ensures Remaining(source, Cursor(false, None, None, "", 0)) == Statements(source)
  {
    hide Statements, Resume;
    ResumeStart(source);
    assert source[0..] == source;
  }

  lemma StepEnd(source: string, c: Cursor)
    requires At(source, c) && c.index == |source|
    ensures Remaining(source, c) == Keep(c.current)
  {
    hide Resume;
    assert source[c.index..] == "";
    ResumeAtEnd(c.current);
  }

  lemma StepInToken(source: string, c: Cursor, c': Cursor, d: nat)
    requires Reads(source, c, c', d)
    requires Left(source, c) == d + Left(source, c')
    ensures Remaining(source, c) == Remaining(source, c')
  {
    hide TokenLeft, Resume;
    var rest := source[c.index..];
    ResumeInToken(c.current, Left(source, c), rest, d);
    assert rest[d..] == source[c'.index..];
    assert rest[..d] == source[c.index..c.index + d];
  }

  lemma StepAtToken(source: string, c: Cursor, c': Cursor, d: nat)
    requires Reads(source, c, c', d)
    requires c.InCode() && c.index < |source| && source[c.index] != ';'
    requires TokenLength(source[c.index..]) == d + Left(source, c')
    ensures Remaining(source, c) == Remaining(source, c')
  {
    hide Resume;
    var rest := source[c.index..];
    ResumeAtToken(c.current, rest);
    ResumeInToken(c.current, TokenLength(rest), rest, d);
    assert rest[d..] == source[c'.index..];
    assert rest[..d] == source[c.index..c.index + d];
  }

  lemma StepAtSeparator(source: string, c: Cursor, c': Cursor)
    requires At(source, c) && c.InCode() && c.index < |source| && source[c.index] == ';'
    requires c' == c.(current := "", index := c.index + 1)
    ensures Remaining(source, c) == Keep(c.current) + Remaining(source, c')
  {
    hide Resume;
    ResumeAtSeparator(c.current, source[c.index..]);
    assert source[c.index..][1..] == source[c'.index..];
  }

  // ----- One lemma for each branch of the loop

  lemma Slices(source: string, i: nat)
    requires i < |source|
    ensures source[i..][0] == source[i] && source[i..i + 1] == [source[i]]
    ensures source[i..][1..] == source[i + 1..]
    ensures i + 1 < |source| ==>
              && source[i..][1] == source[i + 1] && source[i..i + 2] == [source[i], source[i + 1]]
              && source[i..][2..] == source[i + 2..]
  {
  }

  predicate Here(source: string, c: Cursor, x: char) {
    c.index < |source| && source[c.index] == x
  }

  predicate HereTwo(source: string, c: Cursor, x: char, y: char) {
    c.index + 1 < |source| && source[c.index] == x && source[c.index + 1] == y
  }

  /** c after reading the text x, with the given flags. */
  function Read(c: Cursor, x: string, blockComment: bool, quote: Option<char>, dollarTag: Option<string>): Cursor {
    Cursor(blockComment, quote, dollarTag, c.current + x, c.index + |x|)
  }

  lemma BlockClose(source: string, c: Cursor)
    requires At(source, c) && c.blockComment && HereTwo(source, c, '*', '/')
    ensures Remaining(source, c) == Remaining(source, Read(c, ['*', '/'], false, None, None))
  {
    Slices(source, c.index);
    StepInToken(source, c, Read(c, ['*', '/'], false, None, None), 2);
  }

  lemma BlockChar(source: string, c: Cursor)
    requires At(source, c) && c.blockComment && c.index < |source| && !HereTwo(source, c, '*', '/')
    ensures Remaining(source, c) == Remaining(source, Read(c, [source[c.index]], true, None, None))
  {
    Slices(source, c.index);
    StepInToken(source, c, Read(c, [source[c.index]], true, None, None), 1);
  }

  lemma BlockOpen(source: string, c: Cursor)
    requires At(source, c) && c.InCode() && HereTwo(source, c, '/', '*')
    ensures Remaining(source, c) == Remaining(source, Read(c, ['/', '*'], true, None, None))
  {
    Slices(source, c.index);
    StepAtToken(source, c, Read(c, ['/', '*'], true, None, None), 2);
  }

  /** A line comment runs to the next line feed, or to the end of the text. */
  lemma LineComment(source: string, c: Cursor, end: nat)
    requires At(source, c) && c.InCode() && HereTwo(source, c, '-', '-')
    requires end == c.index + LineEnd(source[c.index..])
    ensures c.index < end <= |source|
    ensures Remaining(source, c) == Remaining(source, Read(c, source[c.index..end], false, None, None))
  {
    hide BlockEnd, QuoteEnd, DollarEnd, TagLength, Remaining;
    Slices(source, c.index);
    var rest := source[c.index..];
    assert TokenLength(rest) == LineEnd(rest) > 0;
    hide TokenLength, LineEnd;
    StepAtToken(source, c, Read(c, source[c.index..end], false, None, None), end - c.index);
  }

  /** A dollar tag opens a string, closes it, or is skipped inside a string with another tag. */
  lemma DollarTag(source: string, c: Cursor, t: nat)
    requires At(source, c) && !c.blockComment && c.quote.None? && c.index < |source|
    requires 0 < t == TagLength(source[c.index..])
    ensures var tag := source[c.index..][..t];
            Remaining(source, c) ==
            Remaining(source, Read(c, tag, false, None,
                                   if c.dollarTag == Some(tag) then None
                                   else if c.dollarTag.None? then Some(tag) else c.dollarTag))
  {
    hide TagLength, BlockEnd, LineEnd, QuoteEnd, Remaining;
    var tag := source[c.index..][..t];
    assert source[c.index..][t..] == source[c.index + t..];
    assert source[c.index..c.index + t] == tag;
    TagStart(source[c.index..]);
    if c.dollarTag == Some(tag) {
      StepInToken(source, c, Read(c, tag, false, None, None), t);
    } else if c.dollarTag.None? {
      StepAtToken(source, c, Read(c, tag, false, None, Some(tag)), t);
    } else {
      StepInToken(source, c, Read(c, tag, false, None, c.dollarTag), t);
    }
  }

  lemma TagStart(s: string)
    requires TagLength(s) > 0
    ensures s[0] == '$' && !StartsBlock(s) && !StartsLine(s)
  {
  }

  lemma QuoteOpen(source: string, c: Cursor)
    requires At(source, c) && c.InCode() && c.index < |source| && IsQuote(source[c.index])
    ensures Remaining(source, c) ==
            Remaining(source, Read(c, [source[c.index]], false, Some(source[c.index]), None))
  {
    Slices(source, c.index);
    StepAtToken(source, c, Read(c, [source[c.index]], false, Some(source[c.index]), None), 1);
  }

  lemma QuoteEscape(source: string, c: Cursor)
    requires At(source, c) && c.quote == Some('\'') && HereTwo(source, c, '\'', '\'')
    ensures Remaining(source, c) == Remaining(source, Read(c, ['\'', '\''], false, c.quote, None))
  {
    Slices(source, c.index);
    StepInToken(source, c, Read(c, ['\'', '\''], false, c.quote, None), 2);
  }

  lemma QuoteClose(source: string, c: Cursor)
    requires At(source, c) && c.index < |source| && c.quote == Some(source[c.index])
    requires !HereTwo(source, c, '\'', '\'')
    ensures Remaining(source, c) == Remaining(source, Read(c, [source[c.index]], false, None, None))
  {
    Slices(source, c.index);
    StepInToken(source, c, Read(c, [source[c.index]], false, None, None), 1);
  }

  /** Any other character leaves the flags alone. */
  lemma OtherChar(source: string, c: Cursor)
    requires At(source, c) && c.index < |source| && !c.blockComment
    requires c.InCode() ==>
               && !Here(source, c, ';') && !IsQuote(source[c.index])
               && !HereTwo(source, c, '/', '*') && !HereTwo(source, c, '-', '-')
    requires c.quote.None? && Here(source, c, '$') ==> TagLength(source[c.index..]) == 0
    requires c.quote.Some? ==> !Here(source, c, c.quote.value)
    ensures Remaining(source, c) ==
            Remaining(source, Read(c, [source[c.index]], false, c.quote, c.dollarTag))
  {
    var c' := Read(c, [source[c.index]], false, c.quote, c.dollarTag);
    Slices(source, c.index);
    assert c.quote.None? ==> TagLength(source[c.index..]) == 0;
    if c.InCode() {
      StepAtToken(source, c, c', 1);
    } else {
      StepInToken(source, c, c', 1);
    }
  }

  method SplitSqlStatements(source: string) returns (statements: seq<string>)
    ensures statements == Statements(source)
  {
    hide Statements, Remaining, Trim, TagLength, IndexOf, LineEnd;
    statements := [];
    var current := "";
    var quote: Option<char> := None;
    var dollarTag: Option<string> := None;
    var blockComment := false;
    var index := 0;
    StepStart(source);

    while index < |source|
      invariant At(source, Cursor(blockComment, quote, dollarTag, current, index))
      invariant Statements(source) ==
                statements + Remaining(source, Cursor(blockComment, quote, dollarTag, current, index))
      decreases |source| - index
    {
      var c := source[index];
      var next := if index + 1 < |source| then Some(source[index + 1]) else None;
      ghost var here := Cursor(blockComment, quote, dollarTag, current, index);

      if blockComment {
        if c == '*' && next == Some('/') {
          BlockClose(source, here);
          current := current + [c, next.value];
          index := index + 2;
          blockComment := false;
          continue;
        }
        BlockChar(source, here);
        current := current + [c];
        index := index + 1;
        continue;
      }

      if quote.None? && dollarTag.None? && c == '/' && next == Some('*') {
        BlockOpen(source, here);
        current := current + [c, next.value];
        index := index + 2;
        blockComment := true;
        continue;
      }

      if quote.None? && dollarTag.None? && c == '-' && next == Some('-') {
        var lineEnd := IndexOf(source, '\n', index);
        LineEndIsIndexOf(source, index);
        LineComment(source, here, if lineEnd == -1 then |source| else lineEnd + 1);
        if lineEnd == -1 {
          current := current + source[index..|source|];
          index := |source|;
          break;
        }
        current := current + source[index..lineEnd + 1];
        index := lineEnd + 1;
        continue;
      }

      if quote.None? && c == '$' {
        var t := TagLength(source[index..]);
        if t > 0 {
          DollarTag(source, here, t);
          var tag := source[index..][..t];
          current := current + tag;
          index := index + t;
          if dollarTag == Some(tag) {
            dollarTag := None;
          } else if dollarTag.None? {
            dollarTag := Some(tag);
          }
          continue;
        }
      }

      if dollarTag.None? && quote.None? && (c == '\'' || c == '"') {
        QuoteOpen(source, here);
        quote := Some(c);
        current := current + [c];
        index := index + 1;
        continue;
      }

      if dollarTag.None? && quote == Some(c) {
        if c == '\'' && next == Some('\'') {
          QuoteEscape(source, here);
          current := current + [c, next.value];
          index := index + 2;
          continue;
        }
        QuoteClose(source, here);
        current := current + [c];
        quote := None;
        index := index + 1;
        continue;
      }

      if quote.None? && dollarTag.None? && c == ';' {
        StepAtSeparator(source, here, here.(current := "", index := index + 1));
        var statement := Trim(current);
        if statement != "" {
          statements := statements + [statement];
        }
        current := "";
        index := index + 1;
        continue;
      }

      OtherChar(source, here);
      current := current + [c];
      index := index + 1;
    }

    StepEnd(source, Cursor(blockComment, quote, dollarTag, current, index));
    var tail := Trim(current);
    if tail != "" {
      statements := statements + [tail];
    }
  }
}
