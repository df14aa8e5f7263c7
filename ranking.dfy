/**
 * Ranking the candidate blueprints: each is scored on its own against the
 * shared context (biome, selected species, current buildings), the entries
 * are sorted by total, highest first, and the first entry is the winner.
 *
 * The sort is `Array.prototype.sort` with a comparator on totals, which
 * ECMA-262 requires to be stable. It is modelled by an insertion sort, and
 * `StableSortIsUnique` shows that every stable descending sort returns
 * exactly the same sequence.
 */
module Ranking {
  import opened Wrappers
  import opened Catalog
  import opened Calculator

  /** One scored blueprint: its 1-based input position, its key, its score and its detail string. */
  datatype Entry = Entry(option: nat, buildingKey: string, score: ScoreResult, details: string)

  function Total(e: Entry): int {
    e.score.total
  }

  /** The entry the scoring loop pushes for the blueprint at input position i. */
  function EntryAt(data: GameData, blueprints: seq<string>, i: nat, biomeKey: string, species: seq<string>, current: seq<string>): (e: Entry)
    requires i < |blueprints| && ScoreDetailsText(data, blueprints[i], species).Some?
    ensures e.option == i + 1 && e.buildingKey == blueprints[i]
    ensures Some(e.score) == Score(data, blueprints[i], biomeKey, species, current)
    ensures Some(e.details) == ScoreDetailsText(data, blueprints[i], species)
  {
    Entry(i + 1, blueprints[i],
          Score(data, blueprints[i], biomeKey, species, current).value,
          ScoreDetailsText(data, blueprints[i], species).value)
  }

  /** Every blueprint has a detail string, so no lookup in the loop throws. */
  predicate AllDescribed(data: GameData, blueprints: seq<string>, species: seq<string>) {
    forall i | 0 <= i < |blueprints| :: ScoreDetailsText(data, blueprints[i], species).Some?
  }

  /** Over the game's catalog, the loop fails exactly when some blueprint key is unknown. */
  lemma GameDescribesKnownKeys(blueprints: seq<string>, species: seq<string>)
    ensures AllDescribed(Game, blueprints, species) <==> forall i | 0 <= i < |blueprints| :: blueprints[i] in Game.buildings
  {
    forall i | 0 <= i < |blueprints| && blueprints[i] in Game.buildings
      ensures ScoreDetailsText(Game, blueprints[i], species).Some?
    {
      GameDetailsDefined(blueprints[i], species);
    }
  }

  /**
   * The body of the scoring loop for blueprint i: its score, then its detail
   * string. A detail string that throws (an unknown key) gives `None`.
   */
  method ScoreEntry(data: GameData, blueprints: seq<string>, i: nat, biomeKey: string, species: seq<string>, current: seq<string>)
    returns (r: Option<Entry>)
    requires i < |blueprints|
    ensures r.Some? <==> ScoreDetailsText(data, blueprints[i], species).Some?
    ensures r.Some? ==> r.value == EntryAt(data, blueprints, i, biomeKey, species, current)
  {
    var scoreResult := CalculateBlueprintScore(data, blueprints[i], biomeKey, species, current);
    var details := ScoreDetailsText(data, blueprints[i], species);
    if details.None? {
      return None;
    }
    r := Some(Entry(i + 1, blueprints[i], scoreResult.value, details.value));
  }

  /**
   * The scoring loop: one entry per blueprint, in input order. Each entry
   * depends only on its own blueprint and the shared context. A blueprint
   * whose detail string throws makes the caller's catch turn the whole
   * calculation into a failure: `None`.
   */
  method ScoreBlueprints(data: GameData, blueprints: seq<string>, biomeKey: string, species: seq<string>, current: seq<string>)
    returns (r: Option<seq<Entry>>)
    ensures r.Some? <==> AllDescribed(data, blueprints, species)
    ensures r.Some? ==> |r.value| == |blueprints|
    ensures r.Some? ==> forall i | 0 <= i < |blueprints| ::
      r.value[i] == EntryAt(data, blueprints, i, biomeKey, species, current)
  {
    var scores: seq<Entry> := [];
    for i := 0 to |blueprints|
      invariant |scores| == i
      invariant ScoredPrefix(data, blueprints, biomeKey, species, current, scores)
    {
      var entry := ScoreEntry(data, blueprints, i, biomeKey, species, current);
      if entry.None? {
        return None;
      }
      ScoredPrefixGrows(data, blueprints, biomeKey, species, current, scores, entry.value);
      scores := scores + [entry.value];
    }
    forall j | 0 <= j < |blueprints|
      ensures ScoreDetailsText(data, blueprints[j], species).Some?
      ensures scores[j] == EntryAt(data, blueprints, j, biomeKey, species, current)
    {
      assert ScoredAt(data, blueprints, biomeKey, species, current, j, scores[j]);
    }
    r := Some(scores);
  }

  /** Entry e is the one the scoring loop pushes for blueprint j. */
  predicate ScoredAt(data: GameData, blueprints: seq<string>, biomeKey: string, species: seq<string>, current: seq<string>, j: nat, e: Entry) {
    && j < |blueprints|
    && ScoreDetailsText(data, blueprints[j], species).Some?
    && e == EntryAt(data, blueprints, j, biomeKey, species, current)
  }

  /** The loop's invariant: scores holds the entries of the first |scores| blueprints. */
  predicate ScoredPrefix(data: GameData, blueprints: seq<string>, biomeKey: string, species: seq<string>, current: seq<string>, scores: seq<Entry>) {
    forall j | 0 <= j < |scores| :: ScoredAt(data, blueprints, biomeKey, species, current, j, scores[j])
  }

  /** A property of each (position, element) pair survives appending a pair that has it. */
  lemma AppendKeepsPointwise(xs: seq<Entry>, x: Entry, P: (nat, Entry) -> bool)
    requires forall j | 0 <= j < |xs| :: P(j, xs[j])
    requires P(|xs|, x)
    ensures forall j | 0 <= j < |xs| + 1 :: P(j, (xs + [x])[j])
  {
    forall j | 0 <= j < |xs| + 1
      ensures P(j, (xs + [x])[j])
    {
      if j < |xs| {
        assert (xs + [x])[j] == xs[j];
      }
    }
  }

  lemma ScoredPrefixGrows(data: GameData, blueprints: seq<string>, biomeKey: string, species: seq<string>, current: seq<string>, scores: seq<Entry>, e: Entry)
    requires ScoredPrefix(data, blueprints, biomeKey, species, current, scores)
    requires ScoredAt(data, blueprints, biomeKey, species, current, |scores|, e)
    ensures ScoredPrefix(data, blueprints, biomeKey, species, current, scores + [e])
  {
    AppendKeepsPointwise(scores, e, (j: nat, x: Entry) => ScoredAt(data, blueprints, biomeKey, species, current, j, x));
  }

  // ---------------------------------------------------------------------------
  // The stable descending sort

  /** Puts x in front of the first entry whose total is not above x's. */
  function Insert(x: Entry, sorted: seq<Entry>): (r: seq<Entry>)
    ensures multiset(r) == multiset(sorted) + multiset{x}
  {
    if sorted == [] || Total(sorted[0]) <= Total(x) then [x] + sorted
    else
      assert sorted == [sorted[0]] + sorted[1..];
      [sorted[0]] + Insert(x, sorted[1..])
  }

  /** Insertion sort by total, highest first; an earlier entry goes before a later one with the same total. */
  function SortByTotal(s: seq<Entry>): (r: seq<Entry>)
    ensures multiset(r) == multiset(s)
  {
    if s == [] then []
    else
      assert s == [s[0]] + s[1..];
      Insert(s[0], SortByTotal(s[1..]))
  }

  /** Totals never increase along the list. */
  predicate Descending(s: seq<Entry>) {
    forall i, j | 0 <= i < j < |s| :: Total(s[i]) >= Total(s[j])
  }

  /** The input order: options strictly increase, as the scoring loop numbers them. */
  predicate OptionsIncreasing(s: seq<Entry>) {
    forall i, j | 0 <= i < j < |s| :: s[i].option < s[j].option
  }

  /** Entries with equal totals keep their input order. */
  predicate TiesInInputOrder(s: seq<Entry>) {
    forall i, j | 0 <= i < j < |s| && Total(s[i]) == Total(s[j]) :: s[i].option < s[j].option
  }

  /** A property every entry has, x included, is one every entry of the insertion result has. */
  lemma {:induction false} InsertKeepsAll(x: Entry, sorted: seq<Entry>, P: Entry -> bool)
    requires P(x) && forall i | 0 <= i < |sorted| :: P(sorted[i])
    ensures forall i | 0 <= i < |Insert(x, sorted)| :: P(Insert(x, sorted)[i])
  {
    if sorted != [] && Total(sorted[0]) > Total(x) {
      InsertKeepsAll(x, sorted[1..], P);
      var rest := Insert(x, sorted[1..]);
      assert forall i | 1 <= i < |rest| + 1 :: ([sorted[0]] + rest)[i] == rest[i - 1];
    }
  }

  /** A property every input entry has is one every entry of the sorted list has. */
  lemma {:induction false} SortKeepsAll(s: seq<Entry>, P: Entry -> bool)
    requires forall i | 0 <= i < |s| :: P(s[i])
    ensures forall i | 0 <= i < |SortByTotal(s)| :: P(SortByTotal(s)[i])
  {
    if s != [] {
      SortKeepsAll(s[1..], P);
      InsertKeepsAll(s[0], SortByTotal(s[1..]), P);
    }
  }

  /** Dropping the first entry keeps a list descending. */
  lemma DescendingTail(s: seq<Entry>)
    requires s != [] && Descending(s)
    ensures Descending(s[1..])
  {
    forall i, j | 0 <= i < j < |s| - 1
      ensures Total(s[1..][i]) >= Total(s[1..][j])
    {
      assert s[1..][i] == s[i + 1] && s[1..][j] == s[j + 1];
    }
  }

  lemma {:induction false} InsertDescending(x: Entry, sorted: seq<Entry>)
    requires Descending(sorted)
    ensures Descending(Insert(x, sorted))
  {
    if sorted != [] && Total(sorted[0]) > Total(x) {
      var head := sorted[0];
      var tail := sorted[1..];
      DescendingTail(sorted);
      assert forall i | 0 <= i < |tail| :: tail[i] == sorted[i + 1];
      InsertDescending(x, tail);
      var rest := Insert(x, tail);
      InsertKeepsAll(x, tail, (e: Entry) => Total(e) <= Total(head));
      var r := [head] + rest;
      forall i, j | 0 <= i < j < |r|
        ensures Total(r[i]) >= Total(r[j])
      {
        if i == 0 {
          assert r[j] == rest[j - 1];
        } else {
          assert r[i] == rest[i - 1] && r[j] == rest[j - 1];
        }
      }
    } else {
      var r := [x] + sorted;
      forall i, j | 0 <= i < j < |r|
        ensures Total(r[i]) >= Total(r[j])
      {
        if i == 0 {
          assert r[j] == sorted[j - 1];
        } else {
          assert r[i] == sorted[i - 1] && r[j] == sorted[j - 1];
        }
      }
    }
  }

  /** The sorted list is in descending order of totals. */
  lemma {:induction false} SortByTotalDescending(s: seq<Entry>)
    ensures Descending(SortByTotal(s))
  {
    if s != [] {
      SortByTotalDescending(s[1..]);
      InsertDescending(s[0], SortByTotal(s[1..]));
    }
  }

  /** Dropping the first entry keeps ties in input order. */
  lemma TiesInInputOrderTail(s: seq<Entry>)
    requires s != [] && TiesInInputOrder(s)
    ensures TiesInInputOrder(s[1..])
  {
    forall i, j | 0 <= i < j < |s| - 1 && Total(s[1..][i]) == Total(s[1..][j])
      ensures s[1..][i].option < s[1..][j].option
    {
      assert s[1..][i] == s[i + 1] && s[1..][j] == s[j + 1];
    }
  }

  lemma {:induction false} InsertKeepsTiesInOrder(x: Entry, sorted: seq<Entry>)
    requires TiesInInputOrder(sorted)
    requires forall i | 0 <= i < |sorted| :: x.option < sorted[i].option
    ensures TiesInInputOrder(Insert(x, sorted))
  {
    if sorted != [] && Total(sorted[0]) > Total(x) {
      var head := sorted[0];
      var tail := sorted[1..];
      TiesInInputOrderTail(sorted);
      assert forall i | 0 <= i < |tail| :: tail[i] == sorted[i + 1];
      InsertKeepsTiesInOrder(x, tail);
      var rest := Insert(x, tail);
      InsertKeepsAll(x, tail, (e: Entry) => Total(e) == Total(head) ==> head.option < e.option);
      var r := [head] + rest;
      forall i, j | 0 <= i < j < |r| && Total(r[i]) == Total(r[j])
        ensures r[i].option < r[j].option
      {
        if i == 0 {
          assert r[j] == rest[j - 1];
        } else {
          assert r[i] == rest[i - 1] && r[j] == rest[j - 1];
        }
      }
    } else {
      var r := [x] + sorted;
      forall i, j | 0 <= i < j < |r| && Total(r[i]) == Total(r[j])
        ensures r[i].option < r[j].option
      {
        if i == 0 {
          assert r[j] == sorted[j - 1];
        } else {
          assert r[i] == sorted[i - 1] && r[j] == sorted[j - 1];
        }
      }
    }
  }

  /** Entries with equal totals leave the sort in the order they came in: the sort is stable. */
  lemma {:induction false} SortByTotalStable(s: seq<Entry>)
    requires OptionsIncreasing(s)
    ensures TiesInInputOrder(SortByTotal(s))
  {
    if s != [] {
      var first := s[0];
      SortByTotalStable(s[1..]);
      SortKeepsAll(s[1..], (e: Entry) => first.option < e.option);
      InsertKeepsTiesInOrder(first, SortByTotal(s[1..]));
    }
  }

  /** a goes before b in a stable descending order. */
  predicate Before(a: Entry, b: Entry) {
    Total(a) > Total(b) || (Total(a) == Total(b) && a.option < b.option)
  }

  /** Before is asymmetric: it never holds both ways. */
  lemma BeforeAsymmetric(a: Entry, b: Entry)
    ensures !(Before(a, b) && Before(b, a))
  {
  }

  /** Every earlier entry comes strictly before every later one. */
  predicate StrictlyOrdered(t: seq<Entry>) {
    forall i, j | 0 <= i < j < |t| :: Before(t[i], t[j])
  }

  /** Dropping the first entry keeps a list strictly ordered. */
  lemma StrictlyOrderedTail(t: seq<Entry>)
    requires t != [] && StrictlyOrdered(t)
    ensures StrictlyOrdered(t[1..])
  {
    forall i, j | 0 <= i < j < |t| - 1
      ensures Before(t[1..][i], t[1..][j])
    {
      assert t[1..][i] == t[i + 1] && t[1..][j] == t[j + 1];
    }
  }

  /** Two non-empty strictly ordered lists with the same elements open with the same entry. */
  lemma StrictlyOrderedHeads(t: seq<Entry>, u: seq<Entry>)
    requires t != [] && u != []
    requires StrictlyOrdered(t) && StrictlyOrdered(u)
    requires multiset(t) == multiset(u)
    ensures t[0] == u[0]
  {
    assert t[0] in multiset(u) && u[0] in multiset(t);
    var k :| 0 <= k < |u| && u[k] == t[0];
    var m :| 0 <= m < |t| && t[m] == u[0];
    if k != 0 && m != 0 {
      assert Before(u[0], u[k]);
      assert Before(t[0], t[m]);
      BeforeAsymmetric(t[0], u[0]);
    }
  }

  /** Two strictly ordered lists with the same elements are the same list. */
  lemma {:induction false} StrictlyOrderedUnique(t: seq<Entry>, u: seq<Entry>)
    requires StrictlyOrdered(t) && StrictlyOrdered(u)
    requires multiset(t) == multiset(u)
    ensures t == u
  {
    assert |t| == |multiset(t)| == |multiset(u)| == |u|;
    if t != [] {
      StrictlyOrderedHeads(t, u);
      StrictlyOrderedTail(t);
      StrictlyOrderedTail(u);
      assert t == [t[0]] + t[1..] && u == [u[0]] + u[1..];
      assert multiset(t[1..]) == multiset(t) - multiset{t[0]};
      assert multiset(u[1..]) == multiset(u) - multiset{u[0]};
      StrictlyOrderedUnique(t[1..], u[1..]);
    }
  }

  /**
   * Any list that is a permutation of the input, descending by total and
   * stable (equal totals in input order) is the insertion sort's result: the
   * model's sort returns what every conforming stable sort returns.
   */
  lemma StableSortIsUnique(s: seq<Entry>, t: seq<Entry>)
    requires OptionsIncreasing(s)
    requires multiset(t) == multiset(s)
    requires Descending(t) && TiesInInputOrder(t)
    ensures t == SortByTotal(s)
  {
    var u := SortByTotal(s);
    SortByTotalDescending(s);
    SortByTotalStable(s);
    StrictlyOrderedUnique(t, u);
  }

  /** A permutation has the length and the members of the sequence it rearranges. */
  lemma SameMembers(xs: seq<Entry>, ys: seq<Entry>)
    requires multiset(xs) == multiset(ys)
    ensures |xs| == |ys|
    ensures forall e | e in xs :: e in ys
    ensures forall e | e in ys :: e in xs
  {
    assert |xs| == |multiset(xs)| == |multiset(ys)| == |ys|;
    forall e | e in xs
      ensures e in ys
    {
      assert e in multiset(ys);
    }
    forall e | e in ys
      ensures e in xs
    {
      assert e in multiset(xs);
    }
  }

  /** The winner, the first entry of a non-empty ranking, has the highest total. */
  function Winner(ranking: seq<Entry>): (w: Entry)
    requires ranking != [] && Descending(ranking)
    ensures w in ranking && forall e | e in ranking :: Total(e) <= Total(w)
  {
    ranking[0]
  }

  /**
   * Lines 55-81 of `calculateOptimalBlueprint`: score every blueprint, then
   * sort the entries by total, highest first.
   */
  method RankBlueprints(data: GameData, blueprints: seq<string>, biomeKey: string, species: seq<string>, current: seq<string>)
    returns (ranking: Option<seq<Entry>>)
    ensures ranking.Some? <==> AllDescribed(data, blueprints, species)
    ensures ranking.Some? ==> |ranking.value| == |blueprints|
    ensures ranking.Some? ==> Descending(ranking.value) && TiesInInputOrder(ranking.value)
    ensures ranking.Some? ==> forall e | e in ranking.value ::
      exists i | 0 <= i < |blueprints| :: e == EntryAt(data, blueprints, i, biomeKey, species, current)
    ensures ranking.Some? ==> forall i | 0 <= i < |blueprints| ::
      EntryAt(data, blueprints, i, biomeKey, species, current) in ranking.value
  {
    var scores := ScoreBlueprints(data, blueprints, biomeKey, species, current);
    if scores.None? {
      return None;
    }
    var entries := scores.value;
    assert OptionsIncreasing(entries);
    var sorted := SortByTotal(entries);
    SortByTotalDescending(entries);
    SortByTotalStable(entries);
    SameMembers(entries, sorted);
    forall e | e in sorted
      ensures exists i | 0 <= i < |blueprints| :: e == EntryAt(data, blueprints, i, biomeKey, species, current)
    {
      var i :| 0 <= i < |entries| && entries[i] == e;
    }
    ranking := Some(sorted);
  }
}
