/** Name matching of src/lib/provider-integration-mapping-workspace.ts. */
module NameSimilarity {

  /** The words of a name without accents, case and punctuation; aliases maps some words to others or to nothing. */
  const ALIASES: map<string, string> :=
    map["available" := "bar", "availability" := "bar", "best" := "bar", "mejor" := "bar", "disponible" := "bar",
        "double" := "doble", "king" := "king", "queen" := "queen",
        "room" := "", "rooms" := "", "habitacion" := "", "habitaciones" := "",
        "tarifa" := "", "tarifas" := "", "rate" := "", "rates" := "", "plan" := "", "plans" := "",
        "standard" := "estandar", "twin" := "twin"]

  function Alias(word: string): string {
    if word in ALIASES then ALIASES[word] else word
  }

  /** Aliased words, without empty and repeated ones, in order of first appearance. */
  function Tokens(words: seq<string>): seq<string> {
    if words == [] then []
    else
      var before, token := Tokens(words[..|words| - 1]), Alias(words[|words| - 1]);
      if token == "" || token in before then before else before + [token]
  }

  predicate Unrepeated(tokens: seq<string>) {
    forall i, j :: 0 <= i < j < |tokens| ==> tokens[i] != tokens[j]
  }

  lemma {:induction false} TokensUnrepeated(words: seq<string>)
    ensures Unrepeated(Tokens(words)) && "" !in Tokens(words)
  {
    if words != [] {
      TokensUnrepeated(words[..|words| - 1]);
    }
  }

  function Join(tokens: seq<string>): string {
    if tokens == [] then "" else if |tokens| == 1 then tokens[0] else tokens[0] + " " + Join(tokens[1..])
  }

  predicate Includes(s: string, part: string) {
    exists i :: 0 <= i <= |s| && part <= s[i..]
  }

  /** How many tokens of a occur in b. */
  function Shared(a: seq<string>, b: seq<string>): nat {
    if a == [] then 0 else (if a[0] in b then 1 else 0) + Shared(a[1..], b)
  }

  function Min(a: real, b: real): real { if a <= b then a else b }

  function Max(a: real, b: real): real { if a >= b then a else b }

  function Dice(a: seq<string>, b: seq<string>): real
    requires a != []
  {
    (2 * Shared(a, b)) as real / (|a| + |b|) as real
  }

  function Similarity(left: seq<string>, right: seq<string>): real {
    var a, b := Tokens(left), Tokens(right);
    if a == [] || b == [] then 0.0
    else if Join(a) == Join(b) then 0.99
    else
      var contains := if Includes(Join(a), Join(b)) || Includes(Join(b), Join(a)) then 0.82 else 0.0;
      Min(0.98, Max(Dice(a, b), contains))
  }

  /** The tokens of a, as a set. */
  function Elements(a: seq<string>): set<string> {
    set t | t in a
  }

  lemma ElementsFirst(a: seq<string>)
    requires a != []
    ensures Elements(a) == {a[0]} + Elements(a[1..])
  {
    assert a == [a[0]] + a[1..];
  }

  lemma IntersectionWith(x: string, a: set<string>, b: set<string>)
    requires x !in a
    ensures |({x} + a) * b| == |a * b| + if x in b then 1 else 0
  {
    assert ({x} + a) * b == if x in b then {x} + a * b else a * b;
  }

  lemma {:induction false} SharedIsIntersection(a: seq<string>, b: seq<string>)
    requires Unrepeated(a)
    ensures Shared(a, b) == |Elements(a) * Elements(b)|
  {
    if a != [] {
      ElementsFirst(a);
      assert a[0] !in Elements(a[1..]);
      assert a[0] in Elements(b) <==> a[0] in b;
      SharedIsIntersection(a[1..], b);
      hide Elements;
      IntersectionWith(a[0], Elements(a[1..]), Elements(b));
    }
  }

  /** It does not matter which of the two names is the local one. */
  lemma SimilaritySymmetric(left: seq<string>, right: seq<string>)
    ensures Similarity(left, right) == Similarity(right, left)
  {
    var a, b := Tokens(left), Tokens(right);
    TokensUnrepeated(left);
    TokensUnrepeated(right);
    SharedIsIntersection(a, b);
    SharedIsIntersection(b, a);
    assert Elements(a) * Elements(b) == Elements(b) * Elements(a);
    hide Tokens, Join, Includes, Shared, Elements;
    if a != [] && b != [] {
      assert Dice(a, b) == Dice(b, a);
    }
  }

  /** Words come from splitting at blanks. */
  predicate Words(words: seq<string>) {
    forall i :: 0 <= i < |words| ==> ' ' !in words[i]
  }

  lemma AliasIsWord(word: string)
    requires ' ' !in word
    ensures ' ' !in Alias(word)
  {
  }

  lemma {:induction false} TokensAreWords(words: seq<string>)
    requires Words(words)
    ensures Words(Tokens(words))
  {
    if words != [] {
      TokensAreWords(words[..|words| - 1]);
      AliasIsWord(words[|words| - 1]);
      hide Alias;
    }
  }

  function FirstBlank(s: string): nat {
    if s == "" || s[0] == ' ' then 0 else 1 + FirstBlank(s[1..])
  }

  lemma {:induction false} FirstBlankAfter(word: string, rest: string)
    requires ' ' !in word
    ensures FirstBlank(word) == |word| && FirstBlank(word + " " + rest) == |word|
  {
    if word == "" {
      assert word + " " + rest == " " + rest;
    } else {
      FirstBlankAfter(word[1..], rest);
      assert (word + " " + rest)[1..] == word[1..] + " " + rest;
    }
  }

  lemma JoinFirst(a: seq<string>)
    requires a != [] && ' ' !in a[0]
    ensures FirstBlank(Join(a)) == |a[0]| && a[0] <= Join(a)
    ensures |a| == 1 ==> Join(a) == a[0]
    ensures |a| > 1 ==> |Join(a)| > |a[0]| && Join(a)[|a[0]| + 1..] == Join(a[1..])
  {
    FirstBlankAfter(a[0], if |a| > 1 then Join(a[1..]) else "");
  }

  /** Joined with blanks, two lists of words are the same text only when they are the same list. */
  lemma {:induction false} JoinInjective(a: seq<string>, b: seq<string>)
    requires a != [] && b != [] && Words(a) && Words(b) && Join(a) == Join(b)
    ensures a == b
  {
    JoinFirst(a);
    JoinFirst(b);
    hide Join, FirstBlank;
    assert a[0] == b[0];
    assert a == [a[0]] + a[1..] && b == [b[0]] + b[1..];
    if |a| > 1 && |b| > 1 {
      JoinInjective(a[1..], b[1..]);
    }
  }

  /** The highest score is reserved for names with the same tokens in the same order. */
  lemma SimilarityRange(left: seq<string>, right: seq<string>)
    requires Words(left) && Words(right)
    ensures 0.0 <= Similarity(left, right) <= 0.99
    ensures Similarity(left, right) == 0.99 <==> Tokens(left) != [] && Tokens(left) == Tokens(right)
  {
    var a, b := Tokens(left), Tokens(right);
    TokensAreWords(left);
    TokensAreWords(right);
    hide Tokens, Join, Includes, Shared;
    if a != [] {
      DiceNotNegative(2 * Shared(a, b), |a| + |b|);
      if b != [] && Join(a) == Join(b) {
        JoinInjective(a, b);
      }
    }
  }

  lemma DiceNotNegative(n: nat, d: nat)
    requires d > 0
    ensures n as real / d as real >= 0.0
  {
  }
}
