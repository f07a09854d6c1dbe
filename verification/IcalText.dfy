/** TEXT escaping of the iCalendar writer: src/lib/provider-external-calendars.ts. A char stands for one code unit. */
module IcalText {

  /** All occurrences of one code unit replaced. */
  function Replace(s: string, c: char, sub: string): string {
    if s == "" then "" else (if s[0] == c then sub else [s[0]]) + Replace(s[1..], c, sub)
  }

  /** The four passes of the program. */
  function Escape(s: string): string {
    Replace(Replace(Replace(Replace(s, '\\', "\\\\"), '\n', "\\n"), ',', "\\,"), ';', "\\;")
  }

  function EscapeUnit(c: char): string {
    if c == '\\' then "\\\\" else if c == '\n' then "\\n" else if c == ',' then "\\," else if c == ';' then "\\;"
       else [c]
  }

  /** One pass with a table. */
  function EscapeOnce(s: string): string {
    if s == "" then "" else EscapeUnit(s[0]) + EscapeOnce(s[1..])
  }

  /** The reader's side: section 3.3.11 of RFC 5545. */
  function Unescape(s: string): string {
    if s == "" then ""
    else if s[0] == '\\' && |s| > 1 && s[1] in "\\;," then [s[1]] + Unescape(s[2..])
    else if s[0] == '\\' && |s| > 1 && s[1] in "nN" then "\n" + Unescape(s[2..])
    else [s[0]] + Unescape(s[1..])
  }

  lemma ReplaceFirst(d: char, s: string, c: char, sub: string)
    ensures Replace([d] + s, c, sub) == (if d == c then sub else [d]) + Replace(s, c, sub)
  {
    assert ([d] + s)[1..] == s;
  }

  lemma {:induction false} ReplaceAppend(a: string, b: string, c: char, sub: string)
    ensures Replace(a + b, c, sub) == Replace(a, c, sub) + Replace(b, c, sub)
  {
    if a == "" {
      assert a + b == b;
    } else {
      var d, rest := a[0], a[1..];
      assert a == [d] + rest && a + b == [d] + (rest + b);
      ReplaceFirst(d, rest, c, sub);
      ReplaceFirst(d, rest + b, c, sub);
      ReplaceAppend(rest, b, c, sub);
    }
  }

  lemma EscapeAppend(a: string, b: string)
    ensures Escape(a + b) == Escape(a) + Escape(b)
  {
    hide Replace;
    ReplaceAppend(a, b, '\\', "\\\\");
    var a1, b1 := Replace(a, '\\', "\\\\"), Replace(b, '\\', "\\\\");
    ReplaceAppend(a1, b1, '\n', "\\n");
    var a2, b2 := Replace(a1, '\n', "\\n"), Replace(b1, '\n', "\\n");
    ReplaceAppend(a2, b2, ',', "\\,");
    ReplaceAppend(Replace(a2, ',', "\\,"), Replace(b2, ',', "\\,"), ';', "\\;");
  }

  lemma ReplaceUnit(d: char, c: char, sub: string)
    ensures Replace([d], c, sub) == if d == c then sub else [d]
  {
    assert [d][1..] == "";
  }

  lemma ReplacePair(d: char, e: char, c: char, sub: string)
    requires d != c && e != c
    ensures Replace([d, e], c, sub) == [d, e]
  {
    assert [d, e] == [d] + [e];
    ReplaceAppend([d], [e], c, sub);
    ReplaceUnit(d, c, sub);
    ReplaceUnit(e, c, sub);
  }

  lemma EscapeOneUnit(c: char)
    ensures Escape([c]) == EscapeUnit(c)
  {
    ReplaceUnit(c, '\\', "\\\\");
    hide Replace;
    if c == '\\' {
      ReplacePair('\\', '\\', '\n', "\\n");
      ReplacePair('\\', '\\', ',', "\\,");
      ReplacePair('\\', '\\', ';', "\\;");
    } else {
      ReplaceUnit(c, '\n', "\\n");
      if c == '\n' {
        ReplacePair('\\', 'n', ',', "\\,");
        ReplacePair('\\', 'n', ';', "\\;");
      } else {
        ReplaceUnit(c, ',', "\\,");
        if c == ',' {
          ReplacePair('\\', ',', ';', "\\;");
        } else {
          ReplaceUnit(c, ';', "\\;");
        }
      }
    }
  }

  /** The four passes are the same as one pass: no pass touches what an earlier one inserted. */
  lemma {:induction false} EscapeIsOnePass(s: string)
    ensures Escape(s) == EscapeOnce(s)
  {
    if s != "" {
      EscapeIsOnePass(s[1..]);
      EscapeOneUnit(s[0]);
      hide Escape;
      EscapeAppend([s[0]], s[1..]);
      assert s == [s[0]] + s[1..];
    }
  }

  lemma UnescapeUnit(c: char, rest: string)
    ensures Unescape(EscapeUnit(c) + rest) == [c] + Unescape(rest)
  {
    var s := EscapeUnit(c) + rest;
    assert s[|EscapeUnit(c)|..] == rest;
  }

  lemma {:induction false} UnescapeEscapedOnce(s: string)
    ensures Unescape(EscapeOnce(s)) == s
  {
    if s != "" {
      UnescapeEscapedOnce(s[1..]);
      UnescapeUnit(s[0], EscapeOnce(s[1..]));
    }
  }

  /** A reader gets back the text that was written, whatever it is. */
  lemma UnescapeEscaped(s: string)
    ensures Unescape(Escape(s)) == s
  {
    EscapeIsOnePass(s);
    UnescapeEscapedOnce(s);
  }

  lemma {:induction false} EscapedOnceHasNoNewline(s: string)
    ensures '\n' !in EscapeOnce(s)
  {
    if s != "" {
      EscapedOnceHasNoNewline(s[1..]);
    }
  }

  lemma EscapedHasNoNewline(s: string)
    ensures '\n' !in Escape(s)
  {
    EscapeIsOnePass(s);
    EscapedOnceHasNoNewline(s);
  }
}
