/** What the columns of a row say, case by case, and that the functions which read them read just that. */
module Rows {
  import opened Wrappers
  import opened Time
  import opened Readest

  /** The deletion column holds something other than nothing and the text "null", readable or not. */
  predicate Tombstone(r: BookRow) {
    match r.deletedAt
    case At(_) => true
    case Blank => true
    case Garbage => true
    case Empty => false
    case NullText => false
  }

  /** Thirty-two zeros: the row the server sends in place of a book. */
  predicate Placeholder(h: string) { |h| == 32 && forall i :: 0 <= i < 32 ==> h[i] == '0' }

  /** The percentage a progress tuple stands for, in units of 1e-5: the whole for anything read past the end, and
      otherwise the nearest one, halves going up. */
  predicate Shows(r: BookRow, pct: int) {
    && r.progress.Some? && r.progress.value.total > 0.0 && r.progress.value.cur >= 0.0
    && if r.progress.value.cur > r.progress.value.total then pct == 100000
       else pct as real <= r.progress.value.cur / r.progress.value.total * 100000.0 + 0.5 < pct as real + 1.0
  }

  /** The second a stamp falls in, before or after the epoch; nothing is the epoch; and what cannot be read is the time
      of the pass. */
  predicate Dates(s: Stamp, now: int, second: int) {
    match s
    case At(ms) => if ms >= 0 then second * 1000 <= ms < (second + 1) * 1000
      else (second - 1) * 1000 < ms <= second * 1000
    case Empty => second == 0
    case Blank => second == 0
    case NullText => second == now
    case Garbage => second == now
  }

  lemma DeletedIsTombstone(r: BookRow)
    ensures r.IsDeleted() <==> Tombstone(r)
  {
  }

  lemma DummyIsPlaceholder(r: BookRow)
    ensures r.IsDummy() <==> Placeholder(r.hash)
  {
    if Placeholder(r.hash) {
      forall i | 0 <= i < 32 ensures r.hash[i] == DUMMY_HASH[i] {
        assert r.hash[i] == '0' == DUMMY_HASH[i];
      }
      assert r.hash == DUMMY_HASH;
    }
  }

  lemma FloorIs(x: real, n: int)
    ensures x.Floor == n <==> n as real <= x < n as real + 1.0
  {
  }

  lemma PercentageIsShown(r: BookRow, pct: int)
    ensures r.Percentage() == Some(pct) <==> Shows(r, pct)
  {
    if r.progress.Some? && r.progress.value.total > 0.0 && r.progress.value.cur >= 0.0 {
      var cur, total := r.progress.value.cur, r.progress.value.total;
      FloorIs(Ratio(cur, total) * 100000.0 + 0.5, pct);
      if cur > total {
        FloorIs(100000.5, pct);
      } else {
        assert Ratio(cur, total) == cur / total;
      }
    }
  }

  lemma PercentageExists(r: BookRow)
    ensures r.Percentage().Some? <==> exists pct :: Shows(r, pct)
  {
    if r.Percentage().Some? {
      PercentageIsShown(r, r.Percentage().value);
    } else {
      forall pct | Shows(r, pct) ensures false {
        PercentageIsShown(r, pct);
      }
    }
  }

  lemma UpdatedIsDated(r: BookRow, now: int)
    ensures Dates(r.updatedAt, now, UpdatedSeconds(r, now))
  {
  }
}
