/**
 * The criminal-database similarity search (`search_similar_faces` in
 * criminal_face_generator.py) and the description concatenation of
 * `refine_face`. Scores are exact fractions compared by cross-multiplication.
 */
module FaceSearch {
  import opened Wrappers
  import opened Strings

  // ---------------------------------------------------------------------
  // Exact scores

  /** The fraction num/den. */
  datatype Ratio = Ratio(num: nat, den: nat)

  /** A fraction with a positive denominator. */
  type Score = r: Ratio | r.den > 0 witness Ratio(0, 1)

  /** a < b, decided by cross-multiplication. */
  predicate Below(a: Score, b: Score) {
    a.num * b.den < b.num * a.den
  }

  /** a and b denote the same number. */
  predicate SameValue(a: Score, b: Score) {
    a.num * b.den == b.num * a.den
  }

  /** The similarity threshold 0.2. */
  const Threshold: Score := Ratio(1, 5)

  /** Scaling by a positive factor keeps order and equality. */
  lemma Scale(x: int, y: int, z: int)
    requires z > 0
    ensures x < y <==> x * z < y * z
    ensures x == y <==> x * z == y * z
  {
    assert y * z - x * z == (y - x) * z;
    if x < y {
      PositiveProduct(y - x, z);
    } else if y < x {
      PositiveProduct(x - y, z);
    }
  }

  lemma PositiveProduct(x: int, y: int)
    requires x > 0 && y > 0
    ensures x * y > 0
  {
  }

  /** The three cross-multiplied products that relate a, b and c through the middle denominator. */
  lemma Rescaled(a: Score, b: Score, c: Score)
    ensures Below(a, b) <==> a.num * b.den * c.den < b.num * a.den * c.den
    ensures Below(b, c) <==> b.num * a.den * c.den < c.num * b.den * a.den
    ensures Below(a, c) <==> a.num * c.den * b.den < c.num * a.den * b.den
    ensures SameValue(a, b) <==> a.num * b.den * c.den == b.num * a.den * c.den
    ensures SameValue(b, c) <==> b.num * a.den * c.den == c.num * b.den * a.den
    ensures SameValue(a, c) <==> a.num * c.den * b.den == c.num * a.den * b.den
  {
    Scale(a.num * b.den, b.num * a.den, c.den);
    Scale(b.num * c.den, c.num * b.den, a.den);
    Scale(a.num * c.den, c.num * a.den, b.den);
    assert b.num * c.den * a.den == b.num * a.den * c.den;
    assert c.num * b.den * a.den == c.num * a.den * b.den;
    assert a.num * b.den * c.den == a.num * c.den * b.den;
  }

  /** `Below` is transitive, also across equal values. */
  lemma BelowTransitive(a: Score, b: Score, c: Score)
    ensures Below(a, b) && Below(b, c) ==> Below(a, c)
    ensures Below(a, b) && SameValue(b, c) ==> Below(a, c)
    ensures SameValue(a, b) && Below(b, c) ==> Below(a, c)
    ensures SameValue(a, b) && SameValue(b, c) ==> SameValue(a, c)
  {
    Rescaled(a, b, c);
  }

  /** Any two scores are ordered one way, the other, or equal, and exactly one of these holds. */
  lemma Trichotomy(a: Score, b: Score)
    ensures Below(a, b) || SameValue(a, b) || Below(b, a)
    ensures !(Below(a, b) && SameValue(a, b)) && !(Below(a, b) && Below(b, a)) && !(SameValue(a, b) && Below(b, a))
  {
  }

  // ---------------------------------------------------------------------
  // Word sets and the Jaccard score

  /** The words of `s` after lower-casing and splitting on whitespace; punctuation stays attached. */
  function WordSet(s: string): (ws: set<string>)
    ensures forall w | w in ws :: w != [] && forall i | 0 <= i < |w| :: !IsSpace(w[i])
  {
    set w | w in Words(Lower(s))
  }

  /** A description has no words exactly when it is blank. */
  lemma WordSetEmptyIffBlank(s: string)
    ensures WordSet(s) == {} <==> IsBlank(s)
  {
    var words := Words(Lower(s));
    WordsEmptyIffBlank(Lower(s));
    LowerKeepsBlank(s);
    if words != [] {
      assert words[0] in WordSet(s);
    }
  }

  /** A subset is no larger than its superset. */
  lemma {:induction false} SubsetNoLarger<T>(a: set<T>, b: set<T>)
    requires a <= b
    ensures |a| <= |b|
    decreases |b|
  {
    if a != {} {
      var x :| x in a;
      SubsetNoLarger(a - {x}, b - {x});
    }
  }

  /**
   * |t ∩ c| / |t ∪ c|: a value between 0 and 1, which is 0 exactly when
   * the two word sets share no word.
   */
  function Jaccard(t: set<string>, c: set<string>): (r: Score)
    requires t + c != {}
    ensures r.num <= r.den
    ensures r.num == 0 <==> t * c == {}
    ensures !Below(r, Ratio(0, 1)) && !Below(Ratio(1, 1), r)
  {
    SubsetNoLarger(t * c, t + c);
    Ratio(|t * c|, |t + c|)
  }

  // ---------------------------------------------------------------------
  // The database and the filters

  datatype Criminal = Criminal(id: nat, description: string, crimeType: string, location: string)

  /** A result record: the database entry with its similarity score attached. */
  datatype Match = Match(criminal: Criminal, score: Score)

  /** The built-in mock database. */
  const Database: seq<Criminal> := [
    Criminal(1, "male, brown hair, beard, scar on left cheek", "robbery", "downtown"),
    Criminal(2, "female, blonde hair, blue eyes, small nose", "fraud", "suburbs"),
    Criminal(3, "male, black hair, brown eyes, thick eyebrows", "assault", "downtown"),
    Criminal(4, "male, grey hair, mustache, wrinkles", "robbery", "city center")
  ]

  /** Ids ascend in database order and no description is blank (so no score divides by zero). */
  predicate WellFormed(db: seq<Criminal>) {
    IdsAscending(db) && NoneBlank(db)
  }

  lemma DatabaseWellFormed()
    ensures WellFormed(Database)
  {
    forall k | 0 <= k < |Database| ensures !IsBlank(Database[k].description) {
      assert !IsSpace(Database[k].description[0]);
    }
  }

  /** A filter is in force when it is given and non-empty; `None` and "" exclude nothing. */
  predicate Active(filter: Option<string>) {
    filter.Some? && filter.value != ""
  }

  predicate Passes(c: Criminal, crime: Option<string>, location: Option<string>) {
    && (!Active(crime) || c.crimeType == crime.value)
    && (!Active(location) || c.location == location.value)
  }

  /** The score of entry `c` against the target's word set. */
  function ScoreOf(target: set<string>, c: Criminal): Score
    requires !IsBlank(c.description)
  {
    WordSetEmptyIffBlank(c.description);
    Jaccard(target, WordSet(c.description))
  }

  /** Entry `c` passes both filters and scores strictly above 0.2. */
  predicate Qualifies(c: Criminal, target: set<string>, crime: Option<string>, location: Option<string>)
    requires !IsBlank(c.description)
  {
    Passes(c, crime, location) && Below(Threshold, ScoreOf(target, c))
  }

  predicate NoneBlank(db: seq<Criminal>) {
    forall k | 0 <= k < |db| :: !IsBlank(db[k].description)
  }

  /** `m` is entry `c` of the database with its own score attached, and that entry qualifies. */
  predicate Reported(m: Match, target: set<string>, crime: Option<string>, location: Option<string>) {
    && !IsBlank(m.criminal.description)
    && m.score == ScoreOf(target, m.criminal)
    && Qualifies(m.criminal, target, crime, location)
  }

  /** The qualifying entries of `db` with their scores, in database order. */
  function Filtered(db: seq<Criminal>, target: set<string>, crime: Option<string>, location: Option<string>): seq<Match>
    requires NoneBlank(db)
    decreases |db|
  {
    if db == [] then []
    else
      var c := db[|db| - 1];
      var rest := Filtered(db[..|db| - 1], target, crime, location);
      if Qualifies(c, target, crime, location) then rest + [Match(c, ScoreOf(target, c))] else rest
  }

  predicate IdsAscending(db: seq<Criminal>) {
    forall k, l | 0 <= k < l < |db| :: db[k].id < db[l].id
  }

  predicate IdsIncrease(s: seq<Match>) {
    forall k, l | 0 <= k < l < |s| :: s[k].criminal.id < s[l].criminal.id
  }

  /** Every reported match is a qualifying database entry carrying its own score. */
  lemma {:induction false} FilteredSound(db: seq<Criminal>, target: set<string>, crime: Option<string>, location: Option<string>)
    requires NoneBlank(db)
    ensures forall m | m in Filtered(db, target, crime, location) :: m.criminal in db && Reported(m, target, crime, location)
    decreases |db|
  {
    if db != [] {
      var init := db[..|db| - 1];
      FilteredSound(init, target, crime, location);
      assert forall c | c in init :: c in db;
    }
  }

  /** Every qualifying database entry is reported. */
  lemma {:induction false} FilteredComplete(db: seq<Criminal>, target: set<string>, crime: Option<string>, location: Option<string>)
    requires NoneBlank(db)
    ensures forall c | c in db && Qualifies(c, target, crime, location) :: Match(c, ScoreOf(target, c)) in Filtered(db, target, crime, location)
    decreases |db|
  {
    if db != [] {
      var init := db[..|db| - 1];
      FilteredComplete(init, target, crime, location);
      assert db == init + [db[|db| - 1]];
      assert forall c | c in db :: c in init || c == db[|db| - 1];
    }
  }

  /** The matches keep the database order, so with ascending ids in the database their ids ascend too. */
  lemma {:induction false} FilteredAscending(db: seq<Criminal>, target: set<string>, crime: Option<string>, location: Option<string>)
    requires NoneBlank(db) && IdsAscending(db)
    ensures IdsIncrease(Filtered(db, target, crime, location))
    decreases |db|
  {
    if db != [] {
      var init, c := db[..|db| - 1], db[|db| - 1];
      FilteredAscending(init, target, crime, location);
      var rest := Filtered(init, target, crime, location);
      if Qualifies(c, target, crime, location) {
        var m := Match(c, ScoreOf(target, c));
        assert Filtered(db, target, crime, location) == rest + [m];
        FilteredSound(init, target, crime, location);
        IdsBelowLast(db, rest);
        AppendAscending(rest, m);
      }
    }
  }

  /** Matches drawn from all but the last entry of an ascending database have smaller ids than that entry. */
  lemma IdsBelowLast(db: seq<Criminal>, s: seq<Match>)
    requires db != [] && IdsAscending(db)
    requires forall m | m in s :: m.criminal in db[..|db| - 1]
    ensures forall m | m in s :: m.criminal.id < db[|db| - 1].id
  {
    forall m | m in s ensures m.criminal.id < db[|db| - 1].id {
      var k :| 0 <= k < |db| - 1 && db[..|db| - 1][k] == m.criminal;
      assert db[k] == m.criminal;
    }
  }

  /** Appending a match whose id exceeds every id already present keeps ids ascending. */
  lemma AppendAscending(s: seq<Match>, m: Match)
    requires IdsIncrease(s)
    requires forall n | n in s :: n.criminal.id < m.criminal.id
    ensures IdsIncrease(s + [m])
  {
    var r := s + [m];
    forall k, l | 0 <= k < l < |r| ensures r[k].criminal.id < r[l].criminal.id {
      assert r[k] == s[k];
      if l < |s| {
        assert r[l] == s[l];
      }
    }
  }

  // ---------------------------------------------------------------------
  // Ordering

  /** m comes first: a higher score, or the same score and a smaller id (earlier in the database). */
  predicate Before(m: Match, n: Match) {
    Below(n.score, m.score) || (SameValue(m.score, n.score) && m.criminal.id < n.criminal.id)
  }

  lemma BeforeTransitive(m: Match, n: Match, o: Match)
    requires Before(m, n) && Before(n, o)
    ensures Before(m, o)
  {
    BelowTransitive(o.score, n.score, m.score);
    BelowTransitive(m.score, n.score, o.score);
  }

  /** Matches of different entries are always ordered one way or the other. */
  lemma BeforeTotal(m: Match, n: Match)
    requires m.criminal.id != n.criminal.id
    ensures Before(m, n) || Before(n, m)
  {
    Trichotomy(m.score, n.score);
  }

  predicate Ordered(s: seq<Match>) {
    forall k, l | 0 <= k < l < |s| :: Before(s[k], s[l])
  }

  predicate DistinctIds(s: seq<Match>) {
    forall k, l | 0 <= k < l < |s| :: s[k].criminal.id != s[l].criminal.id
  }

  /** The first `n` matches are in `Before` order. */
  predicate OrderedUpTo(s: seq<Match>, n: int) {
    forall k, l | 0 <= k < l < n && l < |s| :: Before(s[k], s[l])
  }

  /**
   * Insertion of `s[j]` into the ordered prefix is under way: the first
   * `i + 1` matches are in order except against position `j`, where the
   * match being inserted is still looking for its place.
   */
  predicate Inserting(s: seq<Match>, i: int, j: int) {
    && 0 <= j <= i < |s|
    && forall k, l | 0 <= k < l <= i && l != j :: Before(s[k], s[l])
  }

  /** `s` with positions `j - 1` and `j` exchanged. */
  function Swapped(s: seq<Match>, j: int): (r: seq<Match>)
    requires 0 < j < |s|
    ensures |r| == |s| && r[j - 1] == s[j] && r[j] == s[j - 1]
    ensures forall k | 0 <= k < |s| && k != j - 1 && k != j :: r[k] == s[k]
    ensures multiset(r) == multiset(s)
  {
    s[j - 1 := s[j]][j := s[j - 1]]
  }

  /** Moving the inserted match one place down keeps the insertion invariant. */
  lemma SwapStep(s: seq<Match>, i: int, j: int)
    requires Inserting(s, i, j) && j > 0 && Before(s[j], s[j - 1])
    ensures Inserting(Swapped(s, j), i, j - 1)
  {
    var r := Swapped(s, j);
    forall k, l | 0 <= k < l <= i && l != j - 1 ensures Before(r[k], r[l]) {
      if k == j - 1 && l == j {
      } else if k == j - 1 {
        assert r[k] == s[j] && r[l] == s[l];
      } else if k == j {
        assert r[k] == s[j - 1] && r[l] == s[l];
      } else if l == j {
        assert r[k] == s[k] && r[l] == s[j - 1];
      } else {
        assert r[k] == s[k] && r[l] == s[l];
      }
    }
  }

  lemma SwapKeepsDistinct(s: seq<Match>, j: int)
    requires 0 < j < |s| && DistinctIds(s)
    ensures DistinctIds(Swapped(s, j))
  {
    var r := Swapped(s, j);
    forall k, l | 0 <= k < l < |r| ensures r[k].criminal.id != r[l].criminal.id {
      var k' := if k == j - 1 then j else if k == j then j - 1 else k;
      var l' := if l == j - 1 then j else if l == j then j - 1 else l;
      assert r[k] == s[k'] && r[l] == s[l'];
      assert k' != l';
      if k' < l' {
      } else {
      }
    }
  }

  /** Once the inserted match is not `Before` its left neighbour, the first `i + 1` matches are ordered. */
  lemma InsertDone(s: seq<Match>, i: int, j: int)
    requires Inserting(s, i, j) && DistinctIds(s)
    requires j == 0 || !Before(s[j], s[j - 1])
    ensures OrderedUpTo(s, i + 1)
  {
    if j > 0 {
      BeforeTotal(s[j - 1], s[j]);
      forall k | 0 <= k < j ensures Before(s[k], s[j]) {
        if k < j - 1 {
          BeforeTransitive(s[k], s[j - 1], s[j]);
        }
      }
    }
  }

  /** Insertion sort by adjacent swaps into `Before` order. */
  method SortMatches(a: array<Match>)
    requires DistinctIds(a[..])
    modifies a
    ensures Ordered(a[..])
    ensures multiset(a[..]) == multiset(old(a[..]))
    ensures DistinctIds(a[..])
  {
    var i := 0;
    while i < a.Length
      invariant 0 <= i <= a.Length
      invariant OrderedUpTo(a[..], i)
      invariant multiset(a[..]) == multiset(old(a[..]))
      invariant DistinctIds(a[..])
    {
      var j := i;
      while j > 0 && Before(a[j], a[j - 1])
        invariant Inserting(a[..], i, j)
        invariant multiset(a[..]) == multiset(old(a[..]))
        invariant DistinctIds(a[..])
      {
        ghost var s := a[..];
        SwapStep(s, i, j);
        SwapKeepsDistinct(s, j);
        a[j - 1], a[j] := a[j], a[j - 1];
        assert a[..] == Swapped(s, j);
        j := j - 1;
      }
      InsertDone(a[..], i, j);
      i := i + 1;
    }
  }

  // ---------------------------------------------------------------------
  // The search

  /** One more database entry: it is appended to the matches when it qualifies. */
  lemma FilteredStep(db: seq<Criminal>, k: int, target: set<string>, crime: Option<string>, location: Option<string>)
    requires NoneBlank(db) && 0 <= k < |db|
    ensures NoneBlank(db[..k]) && NoneBlank(db[..k + 1])
    ensures Filtered(db[..k + 1], target, crime, location)
      == if Qualifies(db[k], target, crime, location)
         then Filtered(db[..k], target, crime, location) + [Match(db[k], ScoreOf(target, db[k]))]
         else Filtered(db[..k], target, crime, location)
  {
    assert db[..k + 1][..k] == db[..k];
  }

  /** With no target words nothing scores above 0.2, so nothing is reported. */
  lemma {:induction false} NoWordsNoMatches(db: seq<Criminal>, crime: Option<string>, location: Option<string>)
    requires NoneBlank(db)
    ensures Filtered(db, {}, crime, location) == []
    decreases |db|
  {
    if db != [] {
      NoWordsNoMatches(db[..|db| - 1], crime, location);
      assert ScoreOf({}, db[|db| - 1]).num == 0;
    }
  }

  /**
   * `search_similar_faces` over a database: keeps the entries that pass
   * the filters and score above 0.2, attaches the score and orders them by
   * descending score, ties in database order.
   */
  method Search(db: seq<Criminal>, target: string, crime: Option<string>, location: Option<string>)
    returns (result: seq<Match>)
    requires WellFormed(db)
    ensures multiset(result) == multiset(Filtered(db, WordSet(target), crime, location))
    ensures Ordered(result)
    ensures DistinctIds(result)
    ensures forall m | m in result :: m.criminal in db && Reported(m, WordSet(target), crime, location)
    ensures IsBlank(target) ==> result == []
  {
    var words := WordSet(target);
    var found: seq<Match> := [];
    for k := 0 to |db|
      invariant found == Filtered(db[..k], words, crime, location)
    {
      var c := db[k];
      FilteredStep(db, k, words, crime, location);
      if Active(crime) && c.crimeType != crime.value {
        continue;
      }
      if Active(location) && c.location != location.value {
        continue;
      }
      var score := ScoreOf(words, c);
      if Below(Threshold, score) {
        found := found + [Match(c, score)];
      }
    }
    assert db[..|db|] == db;
    FilteredAscending(db, words, crime, location);
    FilteredSound(db, words, crime, location);
    var a := new Match[|found|](i requires 0 <= i < |found| => found[i]);
    assert a[..] == found;
    SortMatches(a);
    result := a[..];
    assert forall m | m in result :: m in multiset(found);
    if IsBlank(target) {
      WordSetEmptyIffBlank(target);
      NoWordsNoMatches(db, crime, location);
    }
  }

  /** `search_similar_faces` on the built-in database. */
  method SearchSimilarFaces(target: string, crime: Option<string>, location: Option<string>)
    returns (result: seq<Match>)
    ensures WellFormed(Database)
    ensures multiset(result) == multiset(Filtered(Database, WordSet(target), crime, location))
    ensures Ordered(result)
    ensures DistinctIds(result)
    ensures forall m | m in result :: m.criminal in Database && Reported(m, WordSet(target), crime, location)
    ensures IsBlank(target) ==> result == []
    ensures |result| <= |Database|
  {
    DatabaseWellFormed();
    var db := Database;
    result := Search(db, target, crime, location);
    FilteredBounded(db, WordSet(target), crime, location);
    assert |multiset(result)| == |result|;
  }

  /** At most one match per database entry. */
  lemma {:induction false} FilteredBounded(db: seq<Criminal>, target: set<string>, crime: Option<string>, location: Option<string>)
    requires NoneBlank(db)
    ensures |Filtered(db, target, crime, location)| <= |db|
    decreases |db|
  {
    if db != [] {
      FilteredBounded(db[..|db| - 1], target, crime, location);
    }
  }

  /** Two ordered lists with the same elements start with the same match. */
  lemma SameFirst(s: seq<Match>, t: seq<Match>)
    requires Ordered(s) && Ordered(t) && multiset(s) == multiset(t) && s != []
    ensures t != [] && s[0] == t[0]
  {
    assert s[0] in multiset(t);
    assert t[0] in multiset(s);
    var i :| 0 <= i < |t| && t[i] == s[0];
    var j :| 0 <= j < |s| && s[j] == t[0];
    if i != 0 && j != 0 {
      BeforeTransitive(s[0], t[0], s[0]);
    }
  }

  /** Removing the first match leaves the rest of the elements, still in order. */
  lemma DropFirst(s: seq<Match>)
    requires s != []
    ensures multiset(s[1..]) == multiset(s) - multiset{s[0]}
    ensures Ordered(s) ==> Ordered(s[1..])
  {
    assert s == [s[0]] + s[1..];
    if Ordered(s) {
      forall k, l | 0 <= k < l < |s| - 1 ensures Before(s[1..][k], s[1..][l]) {
        assert s[1..][k] == s[k + 1] && s[1..][l] == s[l + 1];
      }
    }
  }

  /** An ordered list of matches is determined by its elements: the search result is the unique ordering of the qualifying matches. */
  lemma {:induction false} OrderedUnique(s: seq<Match>, t: seq<Match>)
    requires Ordered(s) && Ordered(t) && multiset(s) == multiset(t)
    ensures s == t
    decreases |s|
  {
    if s == [] {
      assert |t| == |multiset(t)| == 0;
    } else {
      SameFirst(s, t);
      DropFirst(s);
      DropFirst(t);
      OrderedUnique(s[1..], t[1..]);
      assert s == [s[0]] + s[1..] && t == [t[0]] + t[1..];
    }
  }

  // ---------------------------------------------------------------------
  // Refinement

  /** `refine_face`'s combined description: the original, a comma and a space, then the additional details. */
  function RefineDescription(original: string, additional: string): (r: string)
    ensures |r| == |original| + 2 + |additional|
    ensures r[..|original|] == original && r[|original|..|original| + 2] == ", " && r[|original| + 2..] == additional
  {
    original + ", " + additional
  }

  /**
   * As a search target, the refined description has the words of the
   * original (its last word with a comma attached) and every word of the
   * additional details, and nothing else.
   */
  lemma RefinedWords(original: string, additional: string)
    ensures WordSet(RefineDescription(original, additional)) == WordSet(original + ",") + WordSet(additional)
    ensures WordSet(additional) <= WordSet(RefineDescription(original, additional))
  {
    var head, tail := original + ",", " " + additional;
    assert RefineDescription(original, additional) == head + tail;
    LowerAppend(head, tail);
    LowerAppend(" ", additional);
    assert Lower(" ") == " ";
    var lt := Lower(tail);
    assert lt == [' '] + Lower(additional);
    WordsAppend(Lower(head), lt);
    WordsAfterSpace(' ', Lower(additional));
    var x, y := Words(Lower(head)), Words(Lower(additional));
    assert Words(Lower(head + tail)) == x + y;
    ElementsOfConcat(x, y);
  }

  lemma ElementsOfConcat(x: seq<string>, y: seq<string>)
    ensures (set w | w in x + y) == (set w | w in x) + (set w | w in y)
  {
    forall w ensures w in x + y <==> w in x || w in y {
    }
  }
}
