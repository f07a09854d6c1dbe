/** The matching proposal described without its functions: what a row shows, and why an entity is suggested. */
module WorkspaceLaws {
  import opened Options
  import opened NameSimilarity
  import opened ChannelMapping
  import opened MappingWorkspace

  // ----- Names

  lemma TokensNext(words: seq<string>, w: string)
    ensures Tokens(words + [w])
            == if Alias(w) == "" || Alias(w) in Tokens(words) then Tokens(words) else Tokens(words) + [Alias(w)]
  {
    hide Alias;
    assert (words + [w])[..|words|] == words;
  }

  /** Words that say nothing are left out. */
  lemma SilentWordsLeftOut(words: seq<string>, w: string)
    requires || w == "room" || w == "rooms" || w == "habitacion" || w == "habitaciones" || w == "tarifa"
             || w == "tarifas" || w == "rate" || w == "rates" || w == "plan" || w == "plans"
    ensures Tokens(words + [w]) == Tokens(words)
  {
    SilentWords();
    MoreSilentWords();
    TokensNext(words, w);
    hide Tokens, Alias;
  }

  /** The words for the best available rate are one token. */
  lemma WordsForBestRate(words: seq<string>, w: string)
    requires w == "available" || w == "availability" || w == "best" || w == "mejor" || w == "disponible"
    ensures Tokens(words + [w]) == Tokens(words + ["bar"])
  {
    WordsForBar();
    MoreWordsForBar();
    TokensNext(words, w);
    TokensNext(words, "bar");
    hide Tokens, Alias;
  }

  /** And so are the English and Spanish words for a double and for a standard room. */
  lemma TranslatedWords(words: seq<string>)
    ensures Tokens(words + ["double"]) == Tokens(words + ["doble"])
    ensures Tokens(words + ["standard"]) == Tokens(words + ["estandar"])
  {
    WordsForDouble();
    WordsForStandard();
    TokensNext(words, "double");
    TokensNext(words, "doble");
    TokensNext(words, "standard");
    TokensNext(words, "estandar");
    hide Tokens, Alias;
  }

  lemma SilentWords()
    ensures Alias("room") == "" && Alias("rooms") == "" && Alias("habitacion") == ""
    ensures Alias("habitaciones") == "" && Alias("tarifa") == "" && Alias("tarifas") == ""
  {
  }

  lemma MoreSilentWords()
    ensures Alias("rate") == "" && Alias("rates") == "" && Alias("plan") == "" && Alias("plans") == ""
  {
  }

  lemma WordsForBar()
    ensures Alias("available") == "bar" && Alias("availability") == "bar" && Alias("bar") == "bar"
  {
  }

  lemma MoreWordsForBar()
    ensures Alias("best") == "bar" && Alias("mejor") == "bar" && Alias("disponible") == "bar"
  {
  }

  lemma WordsForDouble()
    ensures Alias("double") == "doble" && Alias("doble") == "doble"
  {
  }

  lemma WordsForStandard()
    ensures Alias("standard") == "estandar" && Alias("estandar") == "estandar"
  {
  }

  /** Every other word is its own token, once. */
  lemma {:induction false} TokensOfWords(words: seq<string>)
    ensures forall t :: t in Tokens(words) <==> t != "" && exists w :: w in words && Alias(w) == t
  {
    hide Alias;
    if words != [] {
      var init, last := words[..|words| - 1], words[|words| - 1];
      TokensOfWords(init);
      assert words == init + [last];
      assert forall w :: w in words <==> w in init || w == last;
    }
  }

  ghost predicate Occurs(s: string, part: string) {
    exists pre, post :: s == pre + part + post
  }

  lemma IncludesOccurs(s: string, part: string)
    ensures Includes(s, part) <==> Occurs(s, part)
  {
    if Includes(s, part) {
      var i :| 0 <= i <= |s| && part <= s[i..];
      assert s == s[..i] + part + s[i + |part|..];
    }
    if Occurs(s, part) {
      var pre, post :| s == pre + part + post;
      assert part <= s[|pre|..];
    }
  }

  /** Twice the number of shared tokens over the number of tokens of both. */
  ghost predicate IsDice(dice: real, a: seq<string>, b: seq<string>) {
    dice * (|a| + |b|) as real == (2 * |Elements(a) * Elements(b)|) as real
  }

  /**
   Nothing is similar to a name without tokens. Different names are scored by their shared tokens, at
   least with 0.82 when one text occurs in the other, and at most with 0.98.
   */
  lemma SimilarityOf(left: seq<string>, right: seq<string>, dice: real)
    requires Words(left) && Words(right) && IsDice(dice, Tokens(left), Tokens(right))
    ensures var a, b := Tokens(left), Tokens(right);
            var score := if Occurs(Join(a), Join(b)) || Occurs(Join(b), Join(a))
                         then (if dice < 0.82 then 0.82 else dice) else dice;
            Similarity(left, right) == if a == [] || b == [] then 0.0 else if a == b then 0.99
                                       else if score > 0.98 then 0.98 else score
  {
    var a, b := Tokens(left), Tokens(right);
    if a != [] && b != [] {
      TokensUnrepeated(left);
      SharedIsIntersection(a, b);
      IncludesOccurs(Join(a), Join(b));
      IncludesOccurs(Join(b), Join(a));
      TokensAreWords(left);
      TokensAreWords(right);
      hide Tokens, Join, Includes, Occurs, Shared, Elements, Words;
      if Join(a) == Join(b) {
        JoinInjective(a, b);
      }
      DiceIs(a, b, dice);
      hide Dice;
      assert dice >= 0.0;
    }
  }

  lemma DiceIs(a: seq<string>, b: seq<string>, dice: real)
    requires a != [] && IsDice(dice, a, b) && Shared(a, b) == |Elements(a) * Elements(b)|
    ensures Dice(a, b) == dice && dice >= 0.0
  {
    hide Shared, Elements;
    Quotient(dice, (2 * Shared(a, b)) as real, (|a| + |b|) as real);
  }

  lemma Quotient(q: real, n: real, d: real)
    requires q * d == n && d > 0.0 && n >= 0.0
    ensures q == n / d && q >= 0.0
  {
  }

  /** Belonging to the same room is worth 0.12, up to 0.99 in all. */
  lemma ScoreOf(words: seq<string>, parent: Option<string>, item: Remote)
    ensures var name := Similarity(words, item.words);
            Score(words, parent, item)
            == if parent.Some? && parent.value != "" && item.parent == Some(parent.value)
               then (if name > 0.87 then 0.99 else name + 0.12)
               else (if name > 0.99 then 0.99 else name)
  {
    hide Similarity;
  }

  // ----- Rows

  predicate ActiveFor(row: Row, kind: Kind, local: string) {
    row.mapping.kind == kind && row.mapping.local == local && row.mapping.status == Active
  }

  /** The current mapping is the first stored active one of the entity. */
  ghost predicate FirstActive(stored: seq<Row>, kind: Kind, local: string, external: string) {
    exists k :: 0 <= k < |stored| && ActiveFor(stored[k], kind, local) && stored[k].mapping.external == external
                && forall j :: 0 <= j < k ==> !ActiveFor(stored[j], kind, local)
  }

  lemma {:induction false} CurrentMappingExactly(kind: Kind, stored: seq<Row>, local: string)
    ensures match CurrentMapping(kind, stored, local)
            case Some(x) => FirstActive(stored, kind, local, x)
            case None => forall row :: row in stored ==> !ActiveFor(row, kind, local)
  {
    if stored != [] {
      var rest := stored[1..];
      CurrentMappingExactly(kind, rest, local);
      if ActiveFor(stored[0], kind, local) {
        assert FirstActive(stored, kind, local, stored[0].mapping.external);
      } else if CurrentMapping(kind, rest, local).Some? {
        var x := CurrentMapping(kind, rest, local).value;
        var k :| 0 <= k < |rest| && ActiveFor(rest[k], kind, local) && rest[k].mapping.external == x
                 && forall j :: 0 <= j < k ==> !ActiveFor(rest[j], kind, local);
        assert forall j :: 0 <= j < |rest| ==> stored[j + 1] == rest[j];
        assert forall j :: 0 < j < k + 1 ==> stored[j] == rest[j - 1];
        assert stored[k + 1] == rest[k];
      } else {
        assert forall row :: row in stored ==> row == stored[0] || row in rest;
      }
    }
  }

  lemma FirstActiveUnique(stored: seq<Row>, kind: Kind, local: string, x: string, y: string)
    requires FirstActive(stored, kind, local, x) && FirstActive(stored, kind, local, y)
    ensures x == y
  {
  }

  /** In a table that is a bijection there is only one. */
  lemma AnyActiveIsFirst(stored: seq<Row>, rows: Rows, kind: Kind, row: Row)
    requires Current(stored, rows) && Bijective(rows) && row in stored && ActiveFor(row, kind, row.mapping.local)
    ensures CurrentMapping(kind, stored, row.mapping.local) == Some(row.mapping.external)
  {
    var local := row.mapping.local;
    CurrentMappingExactly(kind, stored, local);
    if CurrentMapping(kind, stored, local).Some? {
      var x := CurrentMapping(kind, stored, local).value;
      var k :| 0 <= k < |stored| && ActiveFor(stored[k], kind, local) && stored[k].mapping.external == x;
      assert stored[k] in stored;
      assert stored[k].id != row.id ==> !Clash(rows[stored[k].id], rows[row.id]);
    }
  }

  /** An external id is free for row i when no stored active mapping and no earlier suggestion has it. */
  ghost predicate Free(kind: Kind, stored: seq<Row>, rows: seq<WorkRow>, i: nat, external: string)
    requires i <= |rows|
  {
    && (forall row :: row in stored && row.mapping.kind == kind && row.mapping.status == Active ==>
          row.mapping.external != external)
    && (forall j :: 0 <= j < i && rows[j].suggestion.Some? ==> rows[j].suggestion.value.external != external)
  }

  /** item is the first of the free candidates, by score and then by the order of names. */
  ghost predicate Leading(kind: Kind, stored: seq<Row>, rows: seq<WorkRow>, i: nat, local: Local,
                          parent: Option<string>, remote: seq<Remote>, item: Remote)
    requires i <= |rows|
  {
    && item in remote && Free(kind, stored, rows, i, item.id)
    && forall other :: other in remote && Free(kind, stored, rows, i, other.id) ==>
         Score(local.words, parent, other) < Score(local.words, parent, item)
         || (Score(local.words, parent, other) == Score(local.words, parent, item) && item.order <= other.order)
  }

  predicate FitsScore(confidence: Confidence, score: real) {
    match confidence
    case High => 0.88 <= score
    case Medium => 0.64 <= score < 0.88
    case Low => 0.42 <= score < 0.64
  }

  /** What a row of the workspace shows. */
  ghost predicate RowOk(kind: Kind, stored: seq<Row>, locals: seq<Local>, remote: seq<Remote>,
                        parents: map<string, string>, rows: seq<WorkRow>, i: nat)
    requires i < |rows| <= |locals|
  {
    var row, local := rows[i], locals[i];
    var parent := if local.parent in parents then Some(parents[local.parent]) else None;
    && row.local == local.id
    && (forall x :: row.current == Some(x) <==> FirstActive(stored, kind, local.id, x))
    && if exists r :: r in stored && ActiveFor(r, kind, local.id) then row.suggestion.None?
       else SuggestionOk(kind, stored, rows, i, local, parent, remote)
  }

  /** The suggestion of an unmapped entity is the first free candidate, if that scores at least 0.42. */
  ghost predicate SuggestionOk(kind: Kind, stored: seq<Row>, rows: seq<WorkRow>, i: nat, local: Local,
                               parent: Option<string>, remote: seq<Remote>)
    requires i < |rows|
  {
    match rows[i].suggestion
    case Some(s) =>
      exists item :: Leading(kind, stored, rows, i, local, parent, remote, item) && s.external == item.id
                     && FitsScore(s.confidence, Score(local.words, parent, item))
    case None =>
      forall item :: item in remote && Free(kind, stored, rows, i, item.id) ==> Score(local.words, parent, item) < 0.42
  }

  lemma SuggestionIsOk(kind: Kind, stored: seq<Row>, rows: seq<WorkRow>, i: nat, local: Local, parent: Option<string>,
                       remote: seq<Remote>, used: set<string>)
    requires i < |rows| && rows[i].suggestion == BestSuggestion(local.words, parent, remote, used)
    requires forall x :: x in used <==> !Free(kind, stored, rows, i, x)
    ensures SuggestionOk(kind, stored, rows, i, local, parent, remote)
  {
    hide Free, Score, BestSuggestion;
    SuggestionLeads(local.words, parent, remote, used);
    if rows[i].suggestion.Some? {
      var s := rows[i].suggestion.value;
      var item :| item in remote && item.id !in used && s.external == item.id
                  && FitsScore(s.confidence, Score(local.words, parent, item))
                  && forall other :: other in remote && other.id !in used ==>
                       Score(local.words, parent, other) < Score(local.words, parent, item)
                       || (Score(local.words, parent, other) == Score(local.words, parent, item)
                           && item.order <= other.order);
      assert Leading(kind, stored, rows, i, local, parent, remote, item);
    }
  }

  /** The external ids that are not free are those in the set that the pass keeps. */
  lemma {:induction false} UsedMeans(kind: Kind, stored: seq<Row>, locals: seq<Local>, remote: seq<Remote>,
                                     parents: map<string, string>, n: nat, external: string)
    requires n <= |locals|
    ensures var m := Match(kind, stored, locals, remote, parents, n);
            external in m.used <==> !Free(kind, stored, m.rows, n, external)
  {
    hide BestSuggestion, CurrentMapping;
    if n > 0 {
      UsedMeans(kind, stored, locals, remote, parents, n - 1, external);
      FreeNext(kind, stored, Match(kind, stored, locals, remote, parents, n - 1).rows,
               Match(kind, stored, locals, remote, parents, n).rows[n - 1], external);
      hide Free;
    }
  }

  lemma FreeNext(kind: Kind, stored: seq<Row>, rows: seq<WorkRow>, row: WorkRow, external: string)
    ensures Free(kind, stored, rows + [row], |rows| + 1, external)
            <==> Free(kind, stored, rows, |rows|, external)
                 && (row.suggestion.Some? ==> row.suggestion.value.external != external)
  {
    var longer := rows + [row];
    assert longer[|rows|] == row && forall j :: 0 <= j < |rows| ==> longer[j] == rows[j];
  }

  lemma LastRowOk(kind: Kind, stored: seq<Row>, locals: seq<Local>, remote: seq<Remote>, parents: map<string, string>,
                  n: nat)
    requires n < |locals|
    ensures RowOk(kind, stored, locals, remote, parents, Match(kind, stored, locals, remote, parents, n + 1).rows, n)
  {
    var before := Match(kind, stored, locals, remote, parents, n);
    var rows, local := Match(kind, stored, locals, remote, parents, n + 1).rows, locals[n];
    var parent := Lookup(parents, local.parent);
    var current := CurrentMapping(kind, stored, local.id);
    var suggestion := if current.Some? then None else BestSuggestion(local.words, parent, remote, before.used);
    assert rows == before.rows + [WorkRow(local.id, current, suggestion)];
    forall x ensures x in before.used <==> !Free(kind, stored, rows, n, x) {
      UsedMeans(kind, stored, locals, remote, parents, n, x);
      SameFree(kind, stored, before.rows, rows, n, x);
    }
    CurrentMappingExactly(kind, stored, local.id);
    CurrentIsFirst(kind, stored, local.id);
    hide Match, Free, Score, CurrentMapping, FirstActive, BestSuggestion, SuggestionOk;
    assert rows[n].current == CurrentMapping(kind, stored, local.id);
    if rows[n].current.None? {
      SuggestionIsOk(kind, stored, rows, n, local, parent, remote, before.used);
    }
  }

  lemma CurrentIsFirst(kind: Kind, stored: seq<Row>, local: string)
    ensures forall x :: CurrentMapping(kind, stored, local) == Some(x) <==> FirstActive(stored, kind, local, x)
  {
    CurrentMappingExactly(kind, stored, local);
    forall x | FirstActive(stored, kind, local, x) ensures CurrentMapping(kind, stored, local) == Some(x) {
      var k :| 0 <= k < |stored| && ActiveFor(stored[k], kind, local) && stored[k].mapping.external == x;
      assert stored[k] in stored;
      if CurrentMapping(kind, stored, local).Some? {
        FirstActiveUnique(stored, kind, local, x, CurrentMapping(kind, stored, local).value);
      }
    }
  }

  lemma SameFree(kind: Kind, stored: seq<Row>, a: seq<WorkRow>, b: seq<WorkRow>, n: nat, external: string)
    requires n <= |a| && n <= |b| && forall j :: 0 <= j < n ==> a[j] == b[j]
    ensures Free(kind, stored, a, n, external) == Free(kind, stored, b, n, external)
  {
  }

  lemma SuggestionLeads(words: seq<string>, parent: Option<string>, remote: seq<Remote>, used: set<string>)
    ensures match BestSuggestion(words, parent, remote, used)
            case Some(s) =>
              exists item :: item in remote && item.id !in used && s.external == item.id
                && FitsScore(s.confidence, Score(words, parent, item))
                && forall other :: other in remote && other.id !in used ==>
                     Score(words, parent, other) < Score(words, parent, item)
                     || (Score(words, parent, other) == Score(words, parent, item) && item.order <= other.order)
            case None => forall item :: item in remote && item.id !in used ==> Score(words, parent, item) < 0.42
  {
    BestIsFirst(words, parent, remote, used);
    hide Score, Best;
  }

  /** Every row of a pass is so. */
  lemma {:induction false} RowsOk(kind: Kind, stored: seq<Row>, locals: seq<Local>, remote: seq<Remote>,
                                  parents: map<string, string>, n: nat, i: nat)
    requires i < n <= |locals|
    ensures RowOk(kind, stored, locals, remote, parents, Match(kind, stored, locals, remote, parents, n).rows, i)
  {
    if i == n - 1 {
      LastRowOk(kind, stored, locals, remote, parents, i);
    } else {
      RowsOk(kind, stored, locals, remote, parents, n - 1, i);
      hide RowOk;
      EarlierRowOk(kind, stored, locals, remote, parents, Match(kind, stored, locals, remote, parents, n - 1).rows,
                   Match(kind, stored, locals, remote, parents, n).rows, i);
    }
  }

  lemma EarlierRowOk(kind: Kind, stored: seq<Row>, locals: seq<Local>, remote: seq<Remote>,
                     parents: map<string, string>, a: seq<WorkRow>, b: seq<WorkRow>, i: nat)
    requires i < |a| < |b| <= |locals| && RowOk(kind, stored, locals, remote, parents, a, i)
    requires forall j :: 0 <= j < |a| ==> a[j] == b[j]
    ensures RowOk(kind, stored, locals, remote, parents, b, i)
  {
    forall x ensures Free(kind, stored, a, i, x) == Free(kind, stored, b, i, x) {
      SameFree(kind, stored, a, b, i, x);
    }
    hide Free, Score, FirstActive;
    var local := locals[i];
    var parent := if local.parent in parents then Some(parents[local.parent]) else None;
    forall item ensures Leading(kind, stored, a, i, local, parent, remote, item)
                        == Leading(kind, stored, b, i, local, parent, remote, item) {
    }
    hide Leading;
  }

  // ----- The rooms that rate plans look at

  /** The room counts as mapped, or as suggested with high confidence. */
  predicate StandsFor(row: WorkRow, external: string) {
    external != "" && (row.current == Some(external) ||
                       (row.current.None? && row.suggestion == Some(Suggestion(external, High))))
  }

  lemma {:induction false} ParentsOfRates(rows: seq<WorkRow>, n: nat, local: string, external: string)
    requires n <= |rows| && forall i, j :: 0 <= i < j < |rows| ==> rows[i].local != rows[j].local
    ensures local in RoomExternals(rows, n) && RoomExternals(rows, n)[local] == external
            <==> exists i :: 0 <= i < n && rows[i].local == local && StandsFor(rows[i], external)
  {
    if n > 0 {
      ParentsOfRates(rows, n - 1, local, external);
      RoomStandsFor(rows[n - 1], external);
      ParentsAreEarlier(rows, n - 1, rows[n - 1].local);
      hide RoomExternal, StandsFor;
    }
  }

  lemma RoomStandsFor(row: WorkRow, external: string)
    ensures StandsFor(row, external) <==> external != "" && RoomExternal(row) == Some(external)
  {
  }

  lemma {:induction false} ParentsAreEarlier(rows: seq<WorkRow>, n: nat, local: string)
    requires n <= |rows| && forall i :: 0 <= i < n ==> rows[i].local != local
    ensures local !in RoomExternals(rows, n)
  {
    if n > 0 {
      ParentsAreEarlier(rows, n - 1, local);
    }
  }

  // ----- Main result

  /** The workspace of a catalog: every room and every rate plan has its row, rate plans look at their room. */
  lemma WorkspaceRows(stored: seq<Row>, variants: seq<Local>, plans: seq<Local>, remoteRooms: seq<Remote>,
                      remotePlans: seq<Remote>)
    ensures var rooms := Rooms(stored, variants, remoteRooms);
            var rates := Rates(stored, rooms, plans, remotePlans);
            && |rooms| == |variants| && |rates| == |plans|
            && (forall i :: 0 <= i < |variants| ==> RowOk(RoomType, stored, variants, remoteRooms, map[], rooms, i))
            && (forall i :: 0 <= i < |plans| ==>
                  RowOk(RatePlan, stored, plans, remotePlans, RoomExternals(rooms, |rooms|), rates, i))
  {
    var rooms := Rooms(stored, variants, remoteRooms);
    hide RowOk, Match;
    forall i | 0 <= i < |variants| ensures RowOk(RoomType, stored, variants, remoteRooms, map[], rooms, i) {
      RowsOk(RoomType, stored, variants, remoteRooms, map[], |variants|, i);
    }
    forall i | 0 <= i < |plans|
      ensures RowOk(RatePlan, stored, plans, remotePlans, RoomExternals(rooms, |rooms|),
                    Rates(stored, rooms, plans, remotePlans), i)
    {
      RowsOk(RatePlan, stored, plans, remotePlans, RoomExternals(rooms, |rooms|), |plans|, i);
    }
  }
}
