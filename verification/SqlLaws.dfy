/**
 Laws of the splitter that do not mention its grammar: what a dollar tag is, and that quoted text,
 semicolons included, stays inside the statement around it.
 */
module SqlLaws {
  import opened SqlTokens
  import opened SqlTheory

  predicate Letter(c: char) {
    'A' <= c <= 'Z' || 'a' <= c <= 'z' || c == '_'
  }

  predicate Digit(c: char) {
    '0' <= c <= '9'
  }

  /** What may stand between the two dollars of a tag: nothing, or an identifier. */
  predicate TagName(name: string) {
    name == "" || (Letter(name[0]) && forall i :: 0 < i < |name| ==> Letter(name[i]) || Digit(name[i]))
  }

  function Tag(name: string): string {
    "$" + name + "$"
  }

  lemma {:induction false} RunOfName(name: string, rest: string)
    requires forall i :: 0 <= i < |name| ==> Letter(name[i]) || Digit(name[i])
    ensures IdentRun(name + "$" + rest) == |name|
  {
    var s := name + "$" + rest;
    if name != "" {
      RunOfName(name[1..], rest);
      assert s[1..] == name[1..] + "$" + rest;
    }
  }

  /** A tag name between two dollars is a dollar tag, whatever follows. */
  lemma TagAtStart(name: string, rest: string)
    requires TagName(name)
    ensures TagLength(Tag(name) + rest) == |name| + 2
  {
    var s := Tag(name) + rest;
    if name == "" {
      assert s[1] == '$';
    } else {
      assert forall i :: 0 <= i < |name| ==> Letter(name[i]) || Digit(name[i]);
      RunOfName(name, rest);
      assert s[1..] == name + "$" + rest;
      assert s[1] == name[0];
    }
  }

  /** And there is no other dollar tag. */
  lemma OnlyTagNames(s: string)
    requires TagLength(s) > 0
    ensures TagName(s[1..TagLength(s) - 1]) && s[..TagLength(s)] == Tag(s[1..TagLength(s) - 1])
  {
    var n := TagLength(s);
    var name := s[1..n - 1];
    assert s[..n] == [s[0]] + name + [s[n - 1]];
    if name != "" {
      assert s[1] != '$';
      assert name[0] == s[1];
      assert forall i :: 0 <= i < |name| ==> name[i] == s[i + 1];
    }
  }

  // ----- Quoted text

  /** Text with every apostrophe doubled. */
  function Doubled(text: string): string {
    if text == "" then ""
    else (if text[0] == '\'' then "''" else [text[0]]) + Doubled(text[1..])
  }

  predicate Ends(body: string) {
    forall i :: 0 <= i < |body| - 1 ==> !(body[i] == '*' && body[i + 1] == '/')
  }

  ghost predicate DollarQuoted(q: string) {
    exists name, body :: TagName(name) && '$' !in body && q == Tag(name) + body + Tag(name)
  }

  ghost predicate SingleQuoted(q: string) {
    exists text :: q == "'" + Doubled(text) + "'"
  }

  ghost predicate DoubleQuoted(q: string) {
    exists body :: '"' !in body && q == "\"" + body + "\""
  }

  ghost predicate BlockComment(q: string) {
    exists body :: Ends(body) && q == "/*" + body + "*/"
  }

  ghost predicate LineComment(q: string) {
    exists body :: '\n' !in body && q == "--" + body + "\n"
  }

  lemma {:induction false} DollarBody(name: string, body: string, post: string)
    requires TagName(name) && '$' !in body
    ensures DollarEnd(Tag(name), body + Tag(name) + post) == |body| + |name| + 2
  {
    var s := body + Tag(name) + post;
    if body == "" {
      TagAtStart(name, post);
      assert s == Tag(name) + post;
      assert s[..|name| + 2] == Tag(name);
    } else {
      DollarBody(name, body[1..], post);
      assert s[1..] == body[1..] + Tag(name) + post;
      assert s[0] == body[0];
    }
  }

  lemma {:induction false} SingleBody(text: string, post: string)
    requires post == "" || post[0] != '\''
    ensures QuoteEnd('\'', Doubled(text) + "'" + post) == |Doubled(text)| + 1
  {
    var s := Doubled(text) + "'" + post;
    if text != "" {
      SingleBody(text[1..], post);
      if text[0] == '\'' {
        assert s[2..] == Doubled(text[1..]) + "'" + post;
      } else {
        assert s[1..] == Doubled(text[1..]) + "'" + post;
      }
    }
  }

  lemma {:induction false} DoubleBody(body: string, post: string)
    requires '"' !in body
    ensures QuoteEnd('"', body + "\"" + post) == |body| + 1
  {
    var s := body + "\"" + post;
    if body != "" {
      DoubleBody(body[1..], post);
      assert s[1..] == body[1..] + "\"" + post;
    }
  }

  lemma {:induction false} BlockBody(body: string, post: string)
    requires Ends(body)
    ensures BlockEnd(body + "*/" + post) == |body| + 2
  {
    var s := body + "*/" + post;
    if body != "" {
      assert forall i :: 0 <= i < |body| - 1 ==> body[1..][i] == body[i + 1];
      BlockBody(body[1..], post);
      assert s[1..] == body[1..] + "*/" + post;
      assert s[1] == if |body| > 1 then body[1] else '*';
    }
  }

  lemma {:induction false} LineBody(body: string, post: string)
    requires '\n' !in body
    ensures LineEnd(body + "\n" + post) == |body| + 1
  {
    var s := body + "\n" + post;
    if body != "" {
      LineBody(body[1..], post);
      assert s[1..] == body[1..] + "\n" + post;
    }
  }

  lemma DollarToken(name: string, body: string, post: string)
    requires TagName(name) && '$' !in body
    ensures TokenLength(Tag(name) + body + Tag(name) + post) == 2 * |name| + |body| + 4
  {
    var rest := body + Tag(name) + post;
    var s := Tag(name) + rest;
    TagAtStart(name, rest);
    DollarBody(name, body, post);
    assert s[0] == '$';
    assert s[..|name| + 2] == Tag(name) && s[|name| + 2..] == rest;
    assert s == Tag(name) + body + Tag(name) + post;
  }

  lemma SingleToken(text: string, post: string)
    requires post == "" || post[0] != '\''
    ensures TokenLength("'" + Doubled(text) + "'" + post) == |Doubled(text)| + 2
  {
    var s := "'" + Doubled(text) + "'" + post;
    SingleBody(text, post);
    assert s[0] == '\'' && s[1..] == Doubled(text) + "'" + post;
    assert TagLength(s) == 0;
  }

  lemma DoubleToken(body: string, post: string)
    requires '"' !in body
    ensures TokenLength("\"" + body + "\"" + post) == |body| + 2
  {
    var s := "\"" + body + "\"" + post;
    DoubleBody(body, post);
    assert s[0] == '"' && s[1..] == body + "\"" + post;
    assert TagLength(s) == 0;
  }

  lemma BlockToken(body: string, post: string)
    requires Ends(body)
    ensures TokenLength("/*" + body + "*/" + post) == |body| + 4
  {
    var s := "/*" + body + "*/" + post;
    BlockBody(body, post);
    assert s[0] == '/' && s[1] == '*' && s[2..] == body + "*/" + post;
  }

  lemma LineToken(body: string, post: string)
    requires '\n' !in body
    ensures TokenLength("--" + body + "\n" + post) == |body| + 3
  {
    var s := "--" + body + "\n" + post;
    LineBody("--" + body, post);
    assert s == ("--" + body) + "\n" + post;
    assert s[0] == '-' && s[1] == '-';
  }

  // ----- Main results

  /** Reading a first continues its segment with what follows, and with nothing else. */
  ghost predicate Continues(a: string, post: string) {
    Segments(a + post) == [a + Segments(post)[0]] + Segments(post)[1..]
  }

  lemma ContinuesTwice(a: string, b: string, post: string)
    requires Continues(a, b + post) && Continues(b, post)
    ensures Continues(a + b, post)
  {
    hide Segments;
    assert a + (b + post) == a + b + post;
    assert a + (b + Segments(post)[0]) == a + b + Segments(post)[0];
  }

  lemma NothingContinues(post: string)
    ensures Continues("", post)
  {
    var segs := Segments(post);
    hide Segments;
    assert "" + post == post && "" + segs[0] == segs[0] && segs == [segs[0]] + segs[1..];
  }

  lemma TokenContinues(a: string, post: string)
    requires a != "" && a[0] != ';' && TokenLength(a + post) == |a|
    ensures Continues(a, post)
  {
    hide TokenLength;
    CutTokenThen(a, post);
    var s, c := a + post, Cut(post);
    assert s[..|a| + c] == a + post[..c];
    if c == |post| {
      assert post[..c] == post;
    } else {
      assert s[|a| + c + 1..] == post[c + 1..];
    }
  }

  lemma DollarContinues(q: string, post: string)
    requires DollarQuoted(q)
    ensures Continues(q, post)
  {
    var name, body :| TagName(name) && '$' !in body && q == Tag(name) + body + Tag(name);
    DollarToken(name, body, post);
    hide TokenLength;
    assert q[0] == '$';
    TokenContinues(q, post);
  }

  lemma CommentContinues(q: string, post: string)
    requires BlockComment(q) || LineComment(q)
    ensures Continues(q, post)
  {
    hide Continues;
    if BlockComment(q) {
      var body :| Ends(body) && q == "/*" + body + "*/";
      BlockToken(body, post);
      hide TokenLength, Ends;
      TokenContinues(q, post);
    } else {
      var body :| '\n' !in body && q == "--" + body + "\n";
      LineToken(body, post);
      hide TokenLength;
      TokenContinues(q, post);
    }
  }

  lemma QuoteContinues(q: string, post: string)
    requires DoubleQuoted(q) || (SingleQuoted(q) && (post == "" || post[0] != '\''))
    ensures Continues(q, post)
  {
    hide Continues;
    if DoubleQuoted(q) {
      var body :| '"' !in body && q == "\"" + body + "\"";
      DoubleToken(body, post);
      hide TokenLength;
      TokenContinues(q, post);
    } else {
      var text :| q == "'" + Doubled(text) + "'";
      SingleToken(text, post);
      hide TokenLength, Doubled;
      TokenContinues(q, post);
    }
  }

  /**
   Text between two equal dollar tags, between quotation marks, or in a comment belongs to one
   segment with what comes after it; an apostrophe inside is written twice.
   */
  lemma QuotedTextContinues(q: string, post: string)
    requires || DollarQuoted(q) || DoubleQuoted(q) || BlockComment(q) || LineComment(q)
             || (SingleQuoted(q) && (post == "" || post[0] != '\''))
    ensures Continues(q, post)
  {
    hide Continues;
    if DollarQuoted(q) {
      DollarContinues(q, post);
    } else if BlockComment(q) || LineComment(q) {
      CommentContinues(q, post);
    } else {
      QuoteContinues(q, post);
    }
  }

  /** Characters that mean nothing to the splitter. */
  predicate Plain(text: string) {
    forall i :: 0 <= i < |text| ==> text[i] !in "'\"$/-;"
  }

  /** Plain text before anything belongs to the same segment. */
  lemma {:induction false} PlainTextContinues(text: string, post: string)
    requires Plain(text)
    ensures Continues(text, post)
  {
    hide Continues, Segments, TokenLength;
    if text == "" {
      NothingContinues(post);
    } else {
      var c, rest := text[0], text[1..];
      assert c in text;
      PlainTextContinues(rest, post);
      PlainToken(c, rest + post);
      TokenContinues([c], rest + post);
      ContinuesTwice([c], rest, post);
      assert text == [c] + rest;
    }
  }

  lemma PlainToken(c: char, post: string)
    requires c !in "'\"$/-;"
    ensures TokenLength([c] + post) == 1
  {
    var s := [c] + post;
    assert s[0] == c;
    assert c != '$' && c != '/' && c != '-' && !IsQuote(c) by {
      assert "'\"$/-;"[2] == '$' && "'\"$/-;"[3] == '/' && "'\"$/-;"[4] == '-';
      assert "'\"$/-;"[0] == '\'' && "'\"$/-;"[1] == '"';
    }
    assert TagLength(s) == 0;
  }

  /** A semicolon between statements ends a segment, and the text after it is read on its own. */
  lemma SemicolonSeparates(post: string)
    ensures Segments(";" + post) == [""] + Segments(post)
  {
    assert (";" + post)[..0] == "" && (";" + post)[1..] == post;
  }

  ghost predicate Holds(statement: string, q: string) {
    exists i :: 0 <= i <= |statement| - |q| && q <= statement[i..]
  }

  lemma {:induction false} TrimKeeps(a: string, q: string, b: string)
    requires q != "" && !IsBlank(q[0]) && !IsBlank(q[|q| - 1])
    ensures Holds(Trim(a + q + b), q)
  {
    var i := TrimStartKeeps(a, q + b);
    assert a + (q + b) == a + q + b;
    var left := a[i..] + q;
    assert a[i..] + (q + b) == left + b;
    TrimEndKeeps(left, b);
    TrimEndPrefix(left + b);
    var t := TrimEnd(left + b);
    assert t[|a| - i..|a| - i + |q|] == q;
    assert q <= t[|a| - i..];
  }

  lemma {:induction false} TrimStartKeeps(a: string, s: string) returns (i: nat)
    requires s != "" && !IsBlank(s[0])
    ensures i <= |a| && TrimStart(a + s) == a[i..] + s
  {
    if a != "" && IsBlank(a[0]) {
      i := TrimStartKeeps(a[1..], s);
      assert (a + s)[1..] == a[1..] + s;
      assert a[1..][i..] == a[i + 1..];
      i := i + 1;
    } else {
      i := 0;
      assert a[0..] == a;
    }
  }

  /**
   So a quoted text is found whole in one of the returned statements, whatever semicolons it
   contains, whatever comes after it, and after any plain text.
   */
  lemma QuotedTextStaysWhole(pre: string, q: string, post: string)
    requires Plain(pre) && q != "" && !IsBlank(q[0]) && !IsBlank(q[|q| - 1])
    requires || DollarQuoted(q) || DoubleQuoted(q) || BlockComment(q)
             || (SingleQuoted(q) && (post == "" || post[0] != '\''))
    ensures exists t :: t in Statements(pre + q + post) && Holds(t, q)
  {
    hide DollarQuoted, DoubleQuoted, BlockComment, SingleQuoted, Plain, Segments, Trim, IsBlank, Holds;
    QuotedTextContinues(q, post);
    PlainTextContinues(pre, q + post);
    ContinuesTwice(pre, q, post);
    HeldInFirst(pre + q + post, pre, q, Segments(post)[0]);
  }

  lemma HeldInFirst(s: string, pre: string, q: string, last: string)
    requires Segments(s)[0] == pre + q + last && q != "" && !IsBlank(q[0]) && !IsBlank(q[|q| - 1])
    ensures exists t :: t in Statements(s) && Holds(t, q)
  {
    hide Segments, Trim, IsBlank, Holds;
    TrimKeeps(pre, q, last);
    HoldsNothing(Trim(pre + q + last), q);
    assert Trim(Segments(s)[0]) in NonBlank(Segments(s));
  }

  lemma HoldsNothing(t: string, q: string)
    requires q != "" && Holds(t, q)
    ensures t != ""
  {
  }

  /** The characters of ECMA-262 that trimming removes: line terminators, tabs, and the space separators of Unicode. */
  predicate WhiteSpace(c: char) {
    || c in "\t\n\r \U{000B}\U{000C}\U{2028}\U{2029}\U{FEFF}"
    || c in "\U{00A0}\U{1680}\U{202F}\U{205F}\U{3000}"
    || c in "\U{2000}\U{2001}\U{2002}\U{2003}\U{2004}\U{2005}\U{2006}\U{2007}\U{2008}\U{2009}\U{200A}"
  }

  lemma BlankIsWhiteSpace(c: char)
    ensures IsBlank(c) <==> WhiteSpace(c)
  {
    var u := c as int;
    if 0x2000 <= u <= 0x200A {
      assert c == ("\U{2000}\U{2001}\U{2002}\U{2003}\U{2004}\U{2005}" +
                   "\U{2006}\U{2007}\U{2008}\U{2009}\U{200A}")[u - 0x2000];
    }
    if 0x09 <= u <= 0x0D {
      assert c == "\t\n\U{000B}\U{000C}\r"[u - 0x09];
    }
  }

  /** Text of nothing but white space is no statement. */
  lemma WhiteSpaceIsNoStatement(s: string)
    requires forall i :: 0 <= i < |s| ==> WhiteSpace(s[i])
    ensures Statements(s) == []
  {
    forall i | 0 <= i < |s| ensures IsBlank(s[i]) {
      BlankIsWhiteSpace(s[i]);
    }
    StatementsBlank(s);
  }
}
