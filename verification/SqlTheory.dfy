/** Properties of the token grammar: it reads left to right, loses nothing, and inverts printing. */
module SqlTheory {
  import opened SqlTokens

  function Min(a: int, b: int): int {
    if a <= b then a else b
  }

  // ----- Reading left to right: cutting the input short only cuts the result short

  lemma {:induction false} BlockEndPrefix(s: string, k: nat)
    requires k <= |s|
    ensures BlockEnd(s[..k]) == Min(k, BlockEnd(s))
  {
    if |s| >= 2 && k > 0 && !(s[0] == '*' && s[1] == '/') {
      BlockEndPrefix(s[1..], k - 1);
      assert s[..k][1..] == s[1..][..k - 1];
    }
  }

  lemma {:induction false} LineEndPrefix(s: string, k: nat)
    requires k <= |s|
    ensures LineEnd(s[..k]) == Min(k, LineEnd(s))
  {
    if k > 0 && s[0] != '\n' {
      LineEndPrefix(s[1..], k - 1);
      assert s[..k][1..] == s[1..][..k - 1];
    }
  }

  lemma {:induction false} QuoteEndPrefix(quote: char, s: string, k: nat)
    requires k <= |s|
    ensures QuoteEnd(quote, s[..k]) == Min(k, QuoteEnd(quote, s))
  {
    if k > 0 {
      if s[0] != quote {
        QuoteEndPrefix(quote, s[1..], k - 1);
        assert s[..k][1..] == s[1..][..k - 1];
      } else if quote == '\'' && |s| > 1 && s[1] == '\'' && k > 1 {
        QuoteEndPrefix(quote, s[2..], k - 2);
        assert s[..k][2..] == s[2..][..k - 2];
      }
    }
  }

  lemma {:induction false} IdentRunPrefix(s: string, k: nat)
    requires k <= |s|
    ensures IdentRun(s[..k]) == Min(k, IdentRun(s))
  {
    if k > 0 && IsIdentPart(s[0]) {
      IdentRunPrefix(s[1..], k - 1);
      assert s[..k][1..] == s[1..][..k - 1];
    }
  }

  lemma TagLengthPrefix(s: string, k: nat)
    requires k <= |s|
    ensures TagLength(s[..k]) == if TagLength(s) <= k then TagLength(s) else 0
  {
    hide IdentRun;
    if k >= 2 {
      IdentRunPrefix(s[1..], k - 1);
      assert s[..k][1..] == s[1..][..k - 1];
    }
  }

  lemma {:induction false} DollarEndWithoutTag(tag: string, s: string)
    requires forall i :: 0 <= i < |s| ==> s[i] != '$'
    ensures DollarEnd(tag, s) == |s|
  {
    if s != "" {
      DollarEndWithoutTag(tag, s[1..]);
    }
  }

  lemma DollarEndTag(tag: string, a: string, b: string)
    requires a != "" && TagLength(a + b) == |a|
    ensures DollarEnd(tag, a + b) == if a == tag then |a| else |a| + DollarEnd(tag, b)
  {
    hide TagLength;
    assert (a + b)[..|a|] == a && (a + b)[|a|..] == b;
  }

  lemma {:induction false} DollarEndPrefix(tag: string, s: string, k: nat)
    requires k <= |s|
    ensures DollarEnd(tag, s[..k]) == Min(k, DollarEnd(tag, s))
    decreases |s|
  {
    hide TagLength;
    if k > 0 {
      var t := TagLength(s);
      TagLengthPrefix(s, k);
      if t == 0 {
        assert s[..k][1..] == s[1..][..k - 1];
        DollarEndPrefix(tag, s[1..], k - 1);
      } else if t <= k {
        var a, b := s[..t], s[t..];
        DollarEndPrefix(tag, b, k - t);
        assert s == a + b;
        assert s[..k] == a + b[..k - t];
        DollarEndTag(tag, a, b);
        DollarEndTag(tag, a, b[..k - t]);
      } else {
        DollarEndWithoutTag(tag, s[..k][1..]);
      }
    }
  }

  lemma TokenLengthPrefix(s: string, k: nat)
    requires 0 < k <= |s|
    requires TokenLength(s) <= k
    ensures TokenLength(s[..k]) == TokenLength(s)
  {
    hide BlockEnd, LineEnd, QuoteEnd, DollarEnd, TagLength;
    var p := s[..k];
    TagLengthPrefix(s, k);
    if StartsBlock(s) {
      BlockEndPrefix(s[2..], k - 2);
      assert p[2..] == s[2..][..k - 2];
    } else if StartsLine(s) {
      LineEndPrefix(s, k);
    } else if TagLength(s) > 0 {
      var t := TagLength(s);
      DollarEndPrefix(s[..t], s[t..], k - t);
      assert p[..t] == s[..t] && p[t..] == s[t..][..k - t];
    } else if IsQuote(s[0]) {
      QuoteEndPrefix(s[0], s[1..], k - 1);
      assert p[1..] == s[1..][..k - 1];
    }
  }

  lemma {:induction false} CutIdentifier(s: string)
    requires forall i :: 0 <= i < |s| ==> IsIdentPart(s[i])
    ensures Cut(s) == |s|
  {
    if s != "" {
      CutIdentifier(s[1..]);
    }
  }

  lemma CutWholeToken(s: string)
    requires s != "" && s[0] != ';' && TokenLength(s) == |s|
    ensures Cut(s) == |s|
  {
    assert s[|s|..] == "";
  }

  /** A token cut short is still one token, unless the cut falls inside a dollar tag. */
  lemma TokenCutShort(s: string, k: nat)
    requires 0 < k <= |s| && k < TokenLength(s)
    ensures TokenLength(s[..k]) == k || (k < TagLength(s) && TokenLength(s[..k]) == 1)
  {
    hide BlockEnd, LineEnd, QuoteEnd, DollarEnd, TagLength;
    var p := s[..k];
    TagLengthPrefix(s, k);
    assert p[1..] == s[1..][..k - 1];
    if StartsBlock(s) {
      if k >= 2 {
        BlockEndPrefix(s[2..], k - 2);
        assert p[2..] == s[2..][..k - 2];
      }
    } else if StartsLine(s) {
      LineEndPrefix(s, k);
    } else if TagLength(s) > 0 {
      var t := TagLength(s);
      if t <= k {
        DollarEndPrefix(s[..t], s[t..], k - t);
        assert p[..t] == s[..t] && p[t..] == s[t..][..k - t];
      }
    } else if IsQuote(s[0]) {
      QuoteEndPrefix(s[0], s[1..], k - 1);
    }
  }

  /** A token that is cut short contains no separator. */
  lemma CutInsideToken(s: string, k: nat)
    requires 0 < k <= |s| && k < TokenLength(s) && s[0] != ';'
    ensures Cut(s[..k]) == k
  {
    hide BlockEnd, LineEnd, QuoteEnd, DollarEnd;
    var p := s[..k];
    TokenCutShort(s, k);
    if TokenLength(p) == k {
      CutWholeToken(p);
    } else {
      CutIdentifier(p[1..]);
    }
  }

  lemma CutTokenThen(a: string, b: string)
    requires a != "" && a[0] != ';' && TokenLength(a + b) == |a|
    ensures Cut(a + b) == |a| + Cut(b)
  {
    assert (a + b)[|a|..] == b;
  }

  /** The first separator is found without looking past it. */
  lemma {:induction false} CutPrefix(s: string, k: nat)
    requires k <= |s|
    ensures Cut(s[..k]) == Min(k, Cut(s))
    decreases |s|
  {
    hide TokenLength;
    if k == 0 {
    } else if s[0] == ';' {
      assert s[..k][0] == ';';
    } else {
      var n := TokenLength(s);
      if n <= k {
        TokenLengthPrefix(s, k);
        var a, b := s[..n], s[n..];
        CutPrefix(b, k - n);
        assert s == a + b;
        assert s[..k] == a + b[..k - n];
        CutTokenThen(a, b);
        CutTokenThen(a, b[..k - n]);
      } else {
        CutInsideToken(s, k);
      }
    }
  }

  // ----- Nothing is lost: the segments are the text between top-level separators

  lemma SegmentsThen(a: string, b: string)
    requires Cut(a + ";" + b) == |a|
    ensures Segments(a + ";" + b) == [a] + Segments(b)
    ensures Cut(a) == |a|
  {
    var s := a + ";" + b;
    assert s[..|a|] == a && s[|a| + 1..] == b;
    CutPrefix(s, |a|);
  }

  lemma {:induction false} SegmentsRejoin(s: string)
    ensures Join(Segments(s), ";") == s
    ensures forall seg :: seg in Segments(s) ==> Cut(seg) == |seg|
    decreases |s|
  {
    var n := Cut(s);
    if n < |s| {
      var a, b := s[..n], s[n + 1..];
      assert s == a + ";" + b;
      SegmentsThen(a, b);
      SegmentsRejoin(b);
    }
  }

  // ----- Trimming

  lemma {:induction false} TrimEndAppend(a: string, b: string)
    requires Blank(b)
    ensures TrimEnd(a + b) == TrimEnd(a)
    decreases |b|
  {
    if b == "" {
      assert a + b == a;
    } else {
      var front := b[..|b| - 1];
      assert (a + b)[..|a + b| - 1] == a + front;
      TrimEndAppend(a, front);
    }
  }

  lemma {:induction false} TrimStartPrepend(a: string, b: string)
    requires Blank(a)
    ensures TrimStart(a + b) == TrimStart(b)
    decreases |a|
  {
    if a == "" {
      assert a + b == b;
    } else {
      assert (a + b)[1..] == a[1..] + b;
      TrimStartPrepend(a[1..], b);
    }
  }

  lemma {:induction false} TrimEndPrefix(s: string)
    ensures TrimEnd(s) <= s
    ensures TrimEnd(s) != "" ==> !IsBlank(TrimEnd(s)[|TrimEnd(s)| - 1])
    decreases |s|
  {
    if s != "" && IsBlank(s[|s| - 1]) {
      TrimEndPrefix(s[..|s| - 1]);
    }
  }

  /** Text up to a visible character survives TrimEnd. */
  lemma {:induction false} TrimEndKeeps(a: string, b: string)
    requires a != "" && !IsBlank(a[|a| - 1])
    ensures |TrimEnd(a + b)| >= |a|
    decreases |b|
  {
    if b != "" {
      assert (a + b)[..|a + b| - 1] == a + b[..|b| - 1];
      TrimEndKeeps(a, b[..|b| - 1]);
    } else {
      assert a + b == a;
    }
  }

  lemma TrimPadded(pre: string, t: string)
    requires Blank(pre) && t != "" && Trimmed(t)
    ensures Trim(pre + t) == t && Trim(t) == t
  {
    TrimStartPrepend(pre, t);
  }

  /** Trimming a segment leaves no separator in it and cannot be repeated. */
  lemma {:induction false} TrimSegment(seg: string)
    requires Cut(seg) == |seg|
    ensures Cut(Trim(seg)) == |Trim(seg)| && Trimmed(Trim(seg))
    decreases |seg|
  {
    if seg != "" && IsBlank(seg[0]) {
      assert TokenLength(seg) == 1;
      TrimSegment(seg[1..]);
    } else {
      TrimEndPrefix(seg);
      var out := TrimEnd(seg);
      CutPrefix(seg, |out|);
      assert seg[..|out|] == out;
    }
  }

  // ----- Splitting an emitted statement again

  lemma {:induction false} NonBlankMembers(segs: seq<string>, x: string)
    requires forall seg :: seg in segs ==> Cut(seg) == |seg|
    requires x in NonBlank(segs)
    ensures x != "" && Trimmed(x) && Cut(x) == |x|
  {
    if x in NonBlank(segs[1..]) {
      NonBlankMembers(segs[1..], x);
    } else {
      assert x == Trim(segs[0]);
      TrimSegment(segs[0]);
    }
  }

  lemma StatementIsAtomic(s: string, x: string)
    requires x in Statements(s)
    ensures x != "" && Trimmed(x) && Cut(x) == |x|
    ensures Statements(x) == [x]
  {
    SegmentsRejoin(s);
    NonBlankMembers(Segments(s), x);
    TrimPadded("", x);
    assert Segments(x) == [x];
    assert NonBlank([x][1..]) == [];
  }

  // ----- Closed statements are the ones after which a semicolon separates

  lemma {:induction false} BlockEndSemicolon(s: string)
    ensures BlockEnd(s + ";") ==
            if BlockEnd(s) >= 2 && s[BlockEnd(s) - 2] == '*' && s[BlockEnd(s) - 1] == '/' then BlockEnd(s)
            else |s| + 1
  {
    if |s| >= 2 && !(s[0] == '*' && s[1] == '/') {
      BlockEndSemicolon(s[1..]);
      assert (s + ";")[1..] == s[1..] + ";";
    } else if |s| == 1 {
      assert (s + ";")[1..] == ";";
    }
  }

  lemma {:induction false} LineEndSemicolon(s: string)
    ensures LineEnd(s + ";") ==
            if LineEnd(s) > 0 && s[LineEnd(s) - 1] == '\n' then LineEnd(s) else |s| + 1
  {
    if s != "" && s[0] != '\n' {
      LineEndSemicolon(s[1..]);
      assert (s + ";")[1..] == s[1..] + ";";
    } else if s == "" {
      assert s + ";" == ";";
      assert ";"[1..] == "";
    }
  }

  lemma {:induction false} QuoteEndSemicolon(quote: char, s: string)
    requires IsQuote(quote)
    ensures QuoteEnd(quote, s + ";") == if QuoteClosed(quote, s) then QuoteEnd(quote, s) else |s| + 1
  {
    if s == "" {
      assert s + ";" == ";";
      assert ";"[1..] == "";
    } else if s[0] != quote {
      QuoteEndSemicolon(quote, s[1..]);
      assert (s + ";")[1..] == s[1..] + ";";
    } else if quote == '\'' && |s| > 1 && s[1] == '\'' {
      QuoteEndSemicolon(quote, s[2..]);
      assert (s + ";")[2..] == s[2..] + ";";
    }
  }

  lemma {:induction false} IdentRunSemicolon(s: string)
    ensures IdentRun(s + ";") == IdentRun(s)
  {
    if s != "" {
      IdentRunSemicolon(s[1..]);
      assert (s + ";")[1..] == s[1..] + ";";
    }
  }

  lemma TagLengthSemicolon(s: string)
    ensures TagLength(s + ";") == TagLength(s)
  {
    if |s| >= 2 {
      IdentRunSemicolon(s[1..]);
      assert (s + ";")[1..] == s[1..] + ";";
    }
  }

  lemma {:induction false} DollarEndSemicolon(tag: string, s: string)
    ensures DollarEnd(tag, s + ";") == if DollarClosed(tag, s) then DollarEnd(tag, s) else |s| + 1
    decreases |s|
  {
    hide TagLength;
    var t := TagLength(s);
    TagLengthSemicolon(s);
    if s == "" {
      assert s + ";" == ";";
      assert ";"[1..] == "";
    } else if t == 0 {
      DollarEndSemicolon(tag, s[1..]);
      assert (s + ";")[1..] == s[1..] + ";";
    } else {
      DollarEndSemicolon(tag, s[t..]);
      assert (s + ";")[..t] == s[..t] && (s + ";")[t..] == s[t..] + ";";
    }
  }

  lemma TokenLengthSemicolon(s: string)
    requires s != "" && s[0] != ';'
    ensures TokenLength(s + ";") == if TokenClosed(s) then TokenLength(s) else |s| + 1
  {
    hide BlockEnd, LineEnd, QuoteEnd, DollarEnd, TagLength;
    var n := TokenLength(s);
    TagLengthSemicolon(s);
    if StartsBlock(s) {
      BlockEndSemicolon(s[2..]);
      assert (s + ";")[2..] == s[2..] + ";";
    } else if StartsLine(s) {
      LineEndSemicolon(s);
    } else if TagLength(s) > 0 {
      var t := TagLength(s);
      DollarEndSemicolon(s[..t], s[t..]);
      assert (s + ";")[..t] == s[..t] && (s + ";")[t..] == s[t..] + ";";
    } else if IsQuote(s[0]) {
      QuoteEndSemicolon(s[0], s[1..]);
      assert (s + ";")[1..] == s[1..] + ";";
    }
  }

  lemma {:induction false} ClosedMeansSeparable(s: string)
    ensures LexicallyClosed(s) <==> Cut(s + ";") == |s|
    ensures LexicallyClosed(s) ==> Cut(s) == |s|
    decreases |s|
  {
    if s == "" {
      assert s + ";" == ";";
    } else if s[0] != ';' {
      var n := TokenLength(s);
      TokenLengthSemicolon(s);
      assert (s + ";")[n..] == s[n..] + ";";
      ClosedMeansSeparable(s[n..]);
      CutPrefix(s + ";", |s|);
      assert (s + ";")[..|s|] == s;
    }
  }

  // ----- Printing and splitting

  /** The file that lists the statements, each but the last ended by ";" and a newline. */
  function Print(stmts: seq<string>): string {
    Join(stmts, ";\n")
  }

  lemma {:induction false} CutAfterBlank(pre: string, s: string)
    requires Blank(pre)
    ensures Cut(pre + s) == |pre| + Cut(s)
    decreases |pre|
  {
    if pre == "" {
      assert pre + s == s;
    } else {
      assert (pre + s)[1..] == pre[1..] + s;
      assert TokenLength(pre + s) == 1;
      CutAfterBlank(pre[1..], s);
    }
  }

  /** A semicolon after a closed statement separates whatever follows it. */
  lemma CutAfterClosed(t: string, rest: string)
    ensures LexicallyClosed(t) <==> Cut(t + ";" + rest) == |t|
  {
    ClosedMeansSeparable(t);
    CutPrefix(t + ";" + rest, |t| + 1);
    assert (t + ";" + rest)[..|t| + 1] == t + ";";
  }

  ghost predicate Printable(stmts: seq<string>) {
    forall t :: t in stmts ==> t != "" && Trimmed(t)
  }

  /** Every statement but the last is closed, and the last one contains no separator. */
  ghost predicate Separable(stmts: seq<string>) {
    && (forall i :: 0 <= i < |stmts| - 1 ==> LexicallyClosed(stmts[i]))
    && (stmts != [] ==> Cut(stmts[|stmts| - 1]) == |stmts[|stmts| - 1]|)
  }

  lemma StatementsThen(a: string, b: string)
    requires Cut(a + ";" + b) == |a|
    ensures Statements(a + ";" + b) == (if Trim(a) == "" then [] else [Trim(a)]) + Statements(b)
  {
    SegmentsThen(a, b);
    assert ([a] + Segments(b))[1..] == Segments(b);
  }

  lemma StatementsSingle(s: string)
    requires Cut(s) == |s|
    ensures Statements(s) == if Trim(s) == "" then [] else [Trim(s)]
  {
    assert Segments(s) == [s];
    assert NonBlank([s][1..]) == [];
  }

  lemma PrintCons(stmts: seq<string>)
    requires |stmts| > 1
    ensures Print(stmts) == stmts[0] + ";" + ("\n" + Print(stmts[1..]))
  {
    assert ";\n" == ";" + "\n";
  }

  lemma PadFirst(pre: string, t: string, rest: string)
    ensures pre + (t + ";" + rest) == (pre + t) + ";" + rest
  {
  }

  /** A closed statement, however padded, is split off whole. */
  lemma StatementsThenPadded(pre: string, t: string, rest: string)
    requires Blank(pre) && t != "" && Trimmed(t) && LexicallyClosed(t)
    ensures Statements(pre + (t + ";" + rest)) == [t] + Statements(rest)
  {
    CutAfterClosed(t, rest);
    CutAfterBlank(pre, t + ";" + rest);
    PadFirst(pre, t, rest);
    TrimPadded(pre, t);
    StatementsThen(pre + t, rest);
  }

  lemma StatementsPadded(pre: string, t: string)
    requires Blank(pre) && t != "" && Trimmed(t) && Cut(t) == |t|
    ensures Statements(pre + t) == [t]
  {
    CutAfterBlank(pre, t);
    TrimPadded(pre, t);
    StatementsSingle(pre + t);
  }

  lemma StatementsBlank(pre: string)
    requires Blank(pre)
    ensures Statements(pre) == []
  {
    assert pre + "" == pre;
    CutAfterBlank(pre, "");
    TrimStartPrepend(pre, "");
    StatementsSingle(pre);
  }

  lemma {:induction false} RoundTripAfter(pre: string, stmts: seq<string>)
    requires Blank(pre) && Printable(stmts) && Separable(stmts)
    ensures Statements(pre + Print(stmts)) == stmts
    decreases |stmts|
  {
    hide Statements, LexicallyClosed, Cut, Trimmed;
    if stmts == [] {
      assert pre + "" == pre;
      StatementsBlank(pre);
    } else {
      var t := stmts[0];
      assert t in stmts;
      if |stmts| == 1 {
        StatementsPadded(pre, t);
      } else {
        PrintCons(stmts);
        StatementsThenPadded(pre, t, "\n" + Print(stmts[1..]));
        RoundTripAfter("\n", stmts[1..]);
      }
    }
  }

  /** A segment that runs past the first statement is not that statement. */
  lemma MergedIsLonger(pre: string, t: string, tail: string)
    requires Blank(pre) && t != "" && Trimmed(t)
    ensures |Trim(pre + (t + ";" + tail))| > |t|
  {
    TrimStartPrepend(pre, t + ";" + tail);
    TrimEndKeeps(t + ";", tail);
  }

  lemma StatementsHead(s: string)
    requires Trim(s[..Cut(s)]) != ""
    ensures Statements(s) != [] && Statements(s)[0] == Trim(s[..Cut(s)])
  {
    if Cut(s) == |s| {
      assert s[..Cut(s)] == s;
    }
    assert Segments(s)[0] == s[..Cut(s)];
  }

  /** An unclosed statement swallows the semicolon written after it. */
  lemma UnclosedCut(t: string, rest: string)
    requires Cut(t) == |t| && !LexicallyClosed(t)
    ensures Cut(t + ";" + rest) > |t|
  {
    CutPrefix(t + ";" + rest, |t|);
    assert (t + ";" + rest)[..|t|] == t;
    CutAfterClosed(t, rest);
  }

  /** So something longer comes out first. */
  lemma UnclosedIsMerged(pre: string, t: string, rest: string)
    requires Blank(pre) && t != "" && Trimmed(t) && Cut(t) == |t| && !LexicallyClosed(t)
    ensures Statements(pre + (t + ";" + rest)) != []
    ensures |Statements(pre + (t + ";" + rest))[0]| > |t|
  {
    hide LexicallyClosed, TokenLength, TrimStart, TrimEnd, Segments, NonBlank;
    var body := t + ";" + rest;
    UnclosedCut(t, rest);
    CutAfterBlank(pre, body);
    var s, c := pre + body, Cut(body);
    var tail := body[|t| + 1..c];
    assert s[..Cut(s)] == pre + (t + ";" + tail);
    MergedIsLonger(pre, t, tail);
    StatementsHead(s);
  }

  lemma {:induction false} RoundTripNeedsSeparable(pre: string, stmts: seq<string>)
    requires Blank(pre) && Printable(stmts) && stmts != []
    requires forall t :: t in stmts ==> Cut(t) == |t|
    requires Statements(pre + Print(stmts)) == stmts
    ensures Separable(stmts)
    decreases |stmts|
  {
    hide Statements, LexicallyClosed, Cut, Trimmed;
    var t := stmts[0];
    assert t in stmts;
    if |stmts| > 1 {
      var rest := "\n" + Print(stmts[1..]);
      PrintCons(stmts);
      if !LexicallyClosed(t) {
        UnclosedIsMerged(pre, t, rest);
        assert false;
      }
      StatementsThenPadded(pre, t, rest);
      assert ([t] + Statements(rest))[1..] == Statements(rest);
      RoundTripNeedsSeparable("\n", stmts[1..]);
      assert forall i :: 0 < i < |stmts| ==> stmts[i] == stmts[1..][i - 1];
    }
  }

  /** Printing then splitting gives the statements back exactly when they are separable. */
  lemma RoundTrip(stmts: seq<string>)
    requires Printable(stmts)
    ensures Statements(Print(stmts)) == stmts <==> Separable(stmts)
  {
    assert "" + Print(stmts) == Print(stmts);
    if Separable(stmts) {
      RoundTripAfter("", stmts);
    }
    if Statements(Print(stmts)) == stmts && stmts != [] {
      forall t | t in stmts ensures Cut(t) == |t| {
        StatementIsAtomic(Print(stmts), t);
      }
      RoundTripNeedsSeparable("", stmts);
    }
  }

  /** In particular every list of closed statements survives. */
  lemma ClosedListsRoundTrip(stmts: seq<string>)
    requires Printable(stmts) && forall t :: t in stmts ==> LexicallyClosed(t)
    ensures Statements(Print(stmts)) == stmts
  {
    forall t | t in stmts ensures Cut(t) == |t| {
      ClosedMeansSeparable(t);
    }
    RoundTrip(stmts);
  }
}
