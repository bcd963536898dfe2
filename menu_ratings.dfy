/** The menu's star ratings (components/Menu.tsx): every stored feedback's per-product scores
    are folded into a total and a count per product, turned into an average, and drawn as five
    partly filled stars. */
module MenuRatings {
  import opened Wrappers

  /** One product's four scores in a feedback row; None stands for a value that is not a number. */
  datatype Scores = Scores(taste: Option<real>, texture: Option<real>, smell: Option<real>, aftertaste: Option<real>)

  /** A row of the `feedbacks` table: its `ratings` object, as (product name, scores) entries in
      enumeration order, or None when the column is empty. */
  datatype FeedbackRow = FeedbackRow(ratings: Option<seq<(string, Scores)>>)

  /** The running sums kept per product. */
  datatype Tally = Tally(total: real, count: nat)

  /** What the menu shows per product. */
  datatype Rating = Rating(average: real, count: nat)

  /** The mean of the four scores of one entry, a non-number counting as 0. */
  function Mean(s: Scores): real {
    (NumOr0(s.taste) + NumOr0(s.texture) + NumOr0(s.smell) + NumOr0(s.aftertaste)) / 4.0
  }

  /** A row without ratings contributes no entry. */
  function RowEntries(row: FeedbackRow): seq<(string, Scores)> {
    if row.ratings.Some? then row.ratings.value else []
  }

  /** All entries, row after row. */
  function Entries(rows: seq<FeedbackRow>): seq<(string, Scores)> {
    if rows == [] then [] else Entries(rows[..|rows| - 1]) + RowEntries(rows[|rows| - 1])
  }

  /** The number of entries rating `name`. */
  function Count(entries: seq<(string, Scores)>, name: string): nat {
    if entries == [] then 0
    else Count(entries[..|entries| - 1], name) + (if entries[|entries| - 1].0 == name then 1 else 0)
  }

  /** The sum of the means of the entries rating `name`. */
  function Total(entries: seq<(string, Scores)>, name: string): real {
    if entries == [] then 0.0
    else Total(entries[..|entries| - 1], name) + (if entries[|entries| - 1].0 == name then Mean(entries[|entries| - 1].1) else 0.0)
  }

  /** The running map holds, for every product rated so far and only for those, its total and
      count over `entries`. */
  ghost predicate TallyHolds(tally: map<string, Tally>, entries: seq<(string, Scores)>) {
    forall name ::
      && (name in tally <==> Count(entries, name) > 0)
      && (name in tally ==> tally[name] == Tally(Total(entries, name), Count(entries, name)))
  }

  /** A product no entry rates has total 0. */
  lemma {:induction false} UnratedTotalZero(entries: seq<(string, Scores)>, name: string)
    requires Count(entries, name) == 0
    ensures Total(entries, name) == 0.0
  {
    if entries != [] {
      UnratedTotalZero(entries[..|entries| - 1], name);
    }
  }

  /** One more entry: its product's total grows by the entry's mean and its count by one. */
  lemma AddEntryHolds(tally: map<string, Tally>, entries: seq<(string, Scores)>, e: (string, Scores))
    requires TallyHolds(tally, entries)
    ensures var t := if e.0 in tally then tally[e.0] else Tally(0.0, 0);
            TallyHolds(tally[e.0 := Tally(t.total + Mean(e.1), t.count + 1)], entries + [e])
  {
    var t := if e.0 in tally then tally[e.0] else Tally(0.0, 0);
    var r := tally[e.0 := Tally(t.total + Mean(e.1), t.count + 1)];
    var es := entries + [e];
    assert es[..|entries|] == entries;
    forall name
      ensures name in r <==> Count(es, name) > 0
      ensures name in r ==> r[name] == Tally(Total(es, name), Count(es, name))
    {
      assert Count(es, name) == Count(entries, name) + (if e.0 == name then 1 else 0);
      assert Total(es, name) == Total(entries, name) + (if e.0 == name then Mean(e.1) else 0.0);
      if name == e.0 && name !in tally {
        UnratedTotalZero(entries, name);
      }
    }
  }

  /** The inner `forEach` over one row's entries. */
  method AddRow(tally: map<string, Tally>, row: FeedbackRow, ghost seen: seq<(string, Scores)>)
    returns (r: map<string, Tally>)
    requires TallyHolds(tally, seen)
    ensures TallyHolds(r, seen + RowEntries(row))
  {
    r := tally;
    if row.ratings.None? {
      assert seen + RowEntries(row) == seen;
      return;
    }
    var entries := row.ratings.value;
    var j := 0;
    assert seen + entries[..0] == seen;
    while j < |entries|
      invariant 0 <= j <= |entries|
      invariant TallyHolds(r, seen + entries[..j])
    {
      var name := entries[j].0;
      var scores := entries[j].1;
      var t := if name in r then r[name] else Tally(0.0, 0);
      var taste := NumOr0(scores.taste);
      var texture := NumOr0(scores.texture);
      var smell := NumOr0(scores.smell);
      var aftertaste := NumOr0(scores.aftertaste);
      var avg := (taste + texture + smell + aftertaste) / 4.0;
      AddEntryHolds(r, seen + entries[..j], entries[j]);
      r := r[name := Tally(t.total + avg, t.count + 1)];
      assert seen + entries[..j + 1] == (seen + entries[..j]) + [entries[j]];
      j := j + 1;
    }
    assert entries[..j] == entries;
  }

  /** The second loop: every tallied product gets its average and count. */
  method Finalize(tally: map<string, Tally>) returns (ratings: map<string, Rating>)
    requires forall name :: name in tally ==> tally[name].count > 0
    ensures ratings.Keys == tally.Keys
    ensures forall name :: name in ratings ==>
              ratings[name] == Rating(tally[name].total / tally[name].count as real, tally[name].count)
  {
    ratings := map[];
    var keys := tally.Keys;
    while keys != {}
      invariant keys <= tally.Keys
      invariant ratings.Keys == tally.Keys - keys
      invariant forall name :: name in ratings ==>
                  ratings[name] == Rating(tally[name].total / tally[name].count as real, tally[name].count)
      decreases |keys|
    {
      var key :| key in keys;
      ratings := ratings[key := Rating(tally[key].total / tally[key].count as real, tally[key].count)];
      keys := keys - {key};
    }
  }

  /** `fetchRatings`, the read abstracted to its rows: exactly the products some feedback rated
      appear, each with the number of entries rating it (so at least one) and the mean of their
      means. */
  method AggregateRatings(rows: seq<FeedbackRow>) returns (ratings: map<string, Rating>)
    ensures forall name :: name in ratings <==> Count(Entries(rows), name) > 0
    ensures forall name :: name in ratings ==>
              && ratings[name].count == Count(Entries(rows), name) >= 1
              && ratings[name].average == Total(Entries(rows), name) / Count(Entries(rows), name) as real
  {
    var tally: map<string, Tally> := map[];
    var i := 0;
    while i < |rows|
      invariant 0 <= i <= |rows|
      invariant TallyHolds(tally, Entries(rows[..i]))
    {
      assert rows[..i + 1][..i] == rows[..i];
      tally := AddRow(tally, rows[i], Entries(rows[..i]));
      i := i + 1;
    }
    assert rows[..i] == rows;
    ratings := Finalize(tally);
  }

  /** A row without ratings changes no product's count or total. */
  lemma {:induction false} RowWithoutRatingsIgnored(rows: seq<FeedbackRow>, row: FeedbackRow)
    requires row.ratings.None?
    ensures Entries(rows + [row]) == Entries(rows)
  {
    assert (rows + [row])[..|rows|] == rows;
  }

  /** The total of a product's entries lies between count × the smallest mean and count × the
      largest. */
  lemma {:induction false} TotalBounds(entries: seq<(string, Scores)>, name: string, lo: real, hi: real)
    requires forall i :: 0 <= i < |entries| && entries[i].0 == name ==> lo <= Mean(entries[i].1) <= hi
    ensures Count(entries, name) as real * lo <= Total(entries, name) <= Count(entries, name) as real * hi
  {
    if entries != [] {
      var prefix := entries[..|entries| - 1];
      var last := entries[|entries| - 1];
      forall i | 0 <= i < |prefix| && prefix[i].0 == name
        ensures lo <= Mean(prefix[i].1) <= hi
      {
        assert prefix[i] == entries[i];
      }
      TotalBounds(prefix, name, lo, hi);
      var c := Count(prefix, name) as real;
      var t := Total(prefix, name);
      if last.0 == name {
        assert lo <= Mean(last.1) <= hi;
        assert Count(entries, name) as real == c + 1.0 && Total(entries, name) == t + Mean(last.1);
        AddBetween(c, t, Mean(last.1), lo, hi);
      } else {
        assert Count(entries, name) == Count(prefix, name) && Total(entries, name) == t;
      }
    }
  }

  /** Adding a value between lo and hi to a total between c × lo and c × hi gives one between
      (c + 1) × lo and (c + 1) × hi. */
  lemma AddBetween(c: real, t: real, m: real, lo: real, hi: real)
    requires c * lo <= t <= c * hi && lo <= m <= hi
    ensures (c + 1.0) * lo <= t + m <= (c + 1.0) * hi
  {
    assert (c + 1.0) * lo == c * lo + lo && (c + 1.0) * hi == c * hi + hi;
  }

  /** Every average lies between the smallest and the largest mean of the entries it averages. */
  lemma AverageBounds(entries: seq<(string, Scores)>, name: string, lo: real, hi: real)
    requires Count(entries, name) > 0
    requires forall i :: 0 <= i < |entries| && entries[i].0 == name ==> lo <= Mean(entries[i].1) <= hi
    ensures lo <= Total(entries, name) / Count(entries, name) as real <= hi
  {
    TotalBounds(entries, name, lo, hi);
    QuotientBetween(Total(entries, name), Count(entries, name) as real, lo, hi);
  }

  /** Dividing by a positive count keeps a total between count × lo and count × hi between lo
      and hi. */
  lemma QuotientBetween(t: real, c: real, lo: real, hi: real)
    requires c > 0.0 && c * lo <= t <= c * hi
    ensures lo <= t / c <= hi
  {
    var q := t / c;
    assert q * c == t;
    assert c * (q - lo) >= 0.0 && c * (hi - q) >= 0.0;
  }

  /** The scores a form can give (nothing, or 1 to 5 stars) keep each mean within 0..5. */
  predicate ScoreInStars(x: Option<real>) {
    x.None? || 0.0 <= x.value <= 5.0
  }

  predicate ScoresInStars(s: Scores) {
    ScoreInStars(s.taste) && ScoreInStars(s.texture) && ScoreInStars(s.smell) && ScoreInStars(s.aftertaste)
  }

  /** With scores in 0..5 every average shown lies in 0..5. */
  lemma AverageWithinStars(entries: seq<(string, Scores)>, name: string)
    requires Count(entries, name) > 0
    requires forall i :: 0 <= i < |entries| ==> ScoresInStars(entries[i].1)
    ensures 0.0 <= Total(entries, name) / Count(entries, name) as real <= 5.0
  {
    forall i | 0 <= i < |entries| && entries[i].0 == name
      ensures 0.0 <= Mean(entries[i].1) <= 5.0
    {
      assert ScoresInStars(entries[i].1);
    }
    AverageBounds(entries, name, 0.0, 5.0);
  }

  // ---------------------------------------------------------------------------------------
  // The stars
  // ---------------------------------------------------------------------------------------

  /** How much of star `star` (1..5) is filled for an average `rating`, in percent. */
  function FillPercentage(rating: real, star: int): (f: real)
    ensures 0.0 <= f <= 100.0
    ensures rating >= star as real ==> f == 100.0
    ensures rating <= (star - 1) as real ==> f == 0.0
    ensures (star - 1) as real <= rating <= star as real ==> f == (rating - (star - 1) as real) * 100.0
  {
    var raw := (rating - (star - 1) as real) * 100.0;
    var capped := if raw < 100.0 then raw else 100.0;
    if capped > 0.0 then capped else 0.0
  }

  /** A better average never fills a star less, and a later star is never fuller than an
      earlier one. */
  lemma FillMonotone(r1: real, r2: real, s1: int, s2: int)
    requires r1 <= r2 && s1 <= s2
    ensures FillPercentage(r1, s2) <= FillPercentage(r2, s1)
  {
  }
}
