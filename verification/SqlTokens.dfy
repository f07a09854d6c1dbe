/**
 The token grammar that scripts/db/apply-single-migration.ts gives to SQL text.

 A token is a block comment, a line comment, a dollar-quoted string, a quoted string, or one
 character. A semicolon that starts a token is a separator. The grammar is the script's own: block
 comments do not nest, `E''` strings get no special treatment, and a tag such as `$b$` inside a
 `$a$` string is skipped as a whole.
 */
module SqlTokens {

  predicate IsIdentStart(c: char) {
    'A' <= c <= 'Z' || 'a' <= c <= 'z' || c == '_'
  }

  predicate IsIdentPart(c: char) {
    IsIdentStart(c) || '0' <= c <= '9'
  }

  /** Number of identifier characters at the start of s. */
  function IdentRun(s: string): (n: nat)
    ensures n <= |s|
    ensures forall i :: 0 <= i < n ==> IsIdentPart(s[i])
  {
    if s == "" || !IsIdentPart(s[0]) then 0 else 1 + IdentRun(s[1..])
  }

  /** Length of the dollar tag (`$$` or `$name$`) at the start of s, or 0. */
  function TagLength(s: string): (n: nat)
    ensures n <= |s| && n != 1
    ensures n > 0 ==> s[0] == '$' && s[n - 1] == '$'
    ensures forall i :: 0 < i < n - 1 ==> IsIdentPart(s[i])
  {
    if |s| < 2 || s[0] != '$' then 0
    else if s[1] == '$' then 2
    else if !IsIdentStart(s[1]) then 0
    else
      var k := 1 + IdentRun(s[1..]);
      if k < |s| && s[k] == '$' then k + 1 else 0
  }

  /** Where a token ends, given the text after its opening delimiter. */
  function BlockEnd(s: string): (n: nat)
    ensures n <= |s|
  {
    if |s| < 2 then |s|
    else if s[0] == '*' && s[1] == '/' then 2
    else 1 + BlockEnd(s[1..])
  }

  function LineEnd(s: string): (n: nat)
    ensures n <= |s|
  {
    if s == "" then 0 else if s[0] == '\n' then 1 else 1 + LineEnd(s[1..])
  }

  function QuoteEnd(quote: char, s: string): (n: nat)
    ensures n <= |s|
  {
    if s == "" then 0
    else if s[0] != quote then 1 + QuoteEnd(quote, s[1..])
    else if quote == '\'' && |s| > 1 && s[1] == '\'' then 2 + QuoteEnd(quote, s[2..])
    else 1
  }

  function DollarEnd(tag: string, s: string): (n: nat)
    ensures n <= |s|
    decreases |s|
  {
    if s == "" then 0
    else
      var t := TagLength(s);
      if t == 0 then 1 + DollarEnd(tag, s[1..])
      else if s[..t] == tag then t
      else t + DollarEnd(tag, s[t..])
  }

  predicate StartsBlock(s: string) {
    |s| > 1 && s[0] == '/' && s[1] == '*'
  }

  predicate StartsLine(s: string) {
    |s| > 1 && s[0] == '-' && s[1] == '-'
  }

  predicate IsQuote(c: char) {
    c == '\'' || c == '"'
  }

  /** Length of the first token of s. */
  function TokenLength(s: string): (n: nat)
    requires s != ""
    ensures 0 < n <= |s|
  {
    if StartsBlock(s) then 2 + BlockEnd(s[2..])
    else if StartsLine(s) then LineEnd(s)
    else if TagLength(s) > 0 then
      var t := TagLength(s);
      t + DollarEnd(s[..t], s[t..])
    else if IsQuote(s[0]) then 1 + QuoteEnd(s[0], s[1..])
    else 1
  }

  /** Length of the text before the first separator of s, or |s| when there is none. */
  function Cut(s: string): (n: nat)
    ensures n <= |s|
    ensures n < |s| ==> s[n] == ';'
    decreases |s|
  {
    if s == "" || s[0] == ';' then 0
    else
      var n := TokenLength(s);
      n + Cut(s[n..])
  }

  /** The segments of s between its separators: one more than there are separators. */
  function Segments(s: string): (segs: seq<string>)
    ensures segs != []
    decreases |s|
  {
    var n := Cut(s);
    if n == |s| then [s] else [s[..n]] + Segments(s[n + 1..])
  }

  // ----- Trimming

  /** The characters removed by String.prototype.trim: WhiteSpace and LineTerminator of ECMA-262. */
  predicate IsBlank(c: char) {
    var u := c as int;
    || 0x09 <= u <= 0x0D || u == 0x20 || u == 0xA0 || u == 0x1680 || 0x2000 <= u <= 0x200A
    || u == 0x2028 || u == 0x2029 || u == 0x202F || u == 0x205F || u == 0x3000 || u == 0xFEFF
  }

  predicate Blank(s: string) {
    forall i :: 0 <= i < |s| ==> IsBlank(s[i])
  }

  function TrimStart(s: string): string {
    if s != "" && IsBlank(s[0]) then TrimStart(s[1..]) else s
  }

  function TrimEnd(s: string): string {
    if s != "" && IsBlank(s[|s| - 1]) then TrimEnd(s[..|s| - 1]) else s
  }

  function Trim(s: string): string {
    TrimEnd(TrimStart(s))
  }

  predicate Trimmed(s: string) {
    s == "" || (!IsBlank(s[0]) && !IsBlank(s[|s| - 1]))
  }

  function NonBlank(segs: seq<string>): seq<string> {
    if segs == [] then []
    else
      var head := Trim(segs[0]);
      (if head == "" then [] else [head]) + NonBlank(segs[1..])
  }

  /** What the splitter should return: the trimmed segments that are not blank. */
  function Statements(s: string): seq<string> {
    NonBlank(Segments(s))
  }

  // ----- Closed text

  /** The first token of s is complete: text appended after it cannot become part of it. */
  predicate TokenClosed(s: string)
    requires s != ""
  {
    var n := TokenLength(s);
    if StartsBlock(s) then n >= 4 && s[n - 2] == '*' && s[n - 1] == '/'
    else if StartsLine(s) then s[n - 1] == '\n'
    else if TagLength(s) > 0 then
      var t := TagLength(s);
      DollarClosed(s[..t], s[t..])
    else if IsQuote(s[0]) then QuoteClosed(s[0], s[1..])
    else true
  }

  predicate QuoteClosed(quote: char, s: string) {
    if s == "" then false
    else if s[0] != quote then QuoteClosed(quote, s[1..])
    else if quote == '\'' && |s| > 1 && s[1] == '\'' then QuoteClosed(quote, s[2..])
    else true
  }

  predicate DollarClosed(tag: string, s: string)
    decreases |s|
  {
    if s == "" then false
    else
      var t := TagLength(s);
      if t == 0 then DollarClosed(tag, s[1..])
      else s[..t] == tag || DollarClosed(tag, s[t..])
  }

  /** A statement with no separator in it whose every token is complete. */
  predicate LexicallyClosed(s: string)
    decreases |s|
  {
    s == "" ||
    (s[0] != ';' && TokenClosed(s) && LexicallyClosed(s[TokenLength(s)..]))
  }

  // ----- Joining

  function Join(parts: seq<string>, separator: string): string {
    if parts == [] then ""
    else if |parts| == 1 then parts[0]
    else parts[0] + separator + Join(parts[1..], separator)
  }
}
