/** What each phase of a pass does to one hash, and what it leaves alone. Every theorem about whole passes
    is a statement about one hash at a time, put together from these. */
module Projection {
  import opened Wrappers
  import opened Readest
  import opened State
  import opened SyncPass

  /******* Queues seen from one hash *******/

  ghost predicate Distinct(hs: seq<string>) {
    forall i, j :: 0 <= i < j < |hs| ==> hs[i] != hs[j]
  }

  /** The queued items of one hash, in order. */
  function ItemsFor(items: seq<PushItem>, h: string): (r: seq<PushItem>)
    ensures forall p :: p in r ==> p.hash == h && p in items
  {
    if items == [] then []
    else if items[0].hash == h then [items[0]] + ItemsFor(items[1..], h)
    else ItemsFor(items[1..], h)
  }

  lemma {:induction false} ItemsForAppend(a: seq<PushItem>, b: seq<PushItem>, h: string)
    ensures ItemsFor(a + b, h) == ItemsFor(a, h) + ItemsFor(b, h)
  {
    if a == [] {
      assert a + b == b;
    } else {
      assert (a + b)[1..] == a[1..] + b;
      ItemsForAppend(a[1..], b, h);
    }
  }

  lemma {:induction false} HashesAppend(a: seq<BookRow>, b: seq<BookRow>)
    ensures Hashes(a + b) == Hashes(a) + Hashes(b)
  {
    if a == [] {
      assert a + b == b;
    } else {
      assert (a + b)[1..] == a[1..] + b;
      HashesAppend(a[1..], b);
    }
  }

  /** The row that rowByHash keeps for a hash that occurs once. */
  lemma {:induction false} RowByHashOnce(rows: seq<BookRow>, r: BookRow)
    requires r in rows && multiset(Hashes(rows))[r.hash] == 1
    ensures RowByHash(rows)[r.hash] == r
  {
    CountTail(rows, r.hash);
    if rows[0] == r {
      assert r.hash !in multiset(Hashes(rows[1..]));
    } else {
      var i :| 0 <= i < |rows| && rows[i] == r;
      assert rows[1..][i - 1] == r;
      assert Hashes(rows[1..])[i - 1] == r.hash;
      assert r.hash in multiset(Hashes(rows[1..]));
      RowByHashOnce(rows[1..], r);
    }
  }

  /** Of several rows with one hash rowByHash keeps the last. */
  lemma {:induction false} LaterRowWins(rows: seq<BookRow>, i: nat)
    requires i < |rows| && forall j :: i < j < |rows| ==> rows[j].hash != rows[i].hash
    ensures rows[i].hash in RowByHash(rows) && RowByHash(rows)[rows[i].hash] == rows[i]
  {
    var rest := rows[1..];
    if i > 0 {
      assert forall j :: 0 <= j < |rest| ==> rest[j] == rows[j + 1];
      LaterRowWins(rest, i - 1);
    } else {
      forall j | 0 <= j < |rest| ensures Hashes(rest)[j] != rows[0].hash {
        assert rest[j] == rows[j + 1];
      }
    }
  }

  lemma CountTail(rows: seq<BookRow>, h: string)
    requires rows != []
    ensures multiset(Hashes(rows))[h] == multiset(Hashes(rows[1..]))[h] + (if rows[0].hash == h then 1 else 0)
  {
    assert multiset(Hashes(rows)) == multiset([rows[0].hash]) + multiset(Hashes(rows[1..]));
  }

  /******* Classification *******/

  /** A row that classification ignores as far as hash h is concerned. */
  predicate Foreign(row: BookRow, h: string) { row.IsDummy() || row.hash != h }

  ghost predicate AllForeign(rows: seq<BookRow>, h: string) { forall r :: r in rows ==> Foreign(r, h) }

  /** The part of the classification result that concerns one hash. */
  ghost predicate SameFor(h: string, a: Classified, b: Classified) {
    && a.data.At(h) == b.data.At(h)
    && ItemsFor(a.toPush, h) == ItemsFor(b.toPush, h)
    && multiset(Hashes(a.toMatch))[h] == multiset(Hashes(b.toMatch))[h]
  }

  lemma ClassifyRowForeign(cfg: Config, now: int, c: Classified, row: BookRow, h: string)
    requires Foreign(row, h)
    ensures SameFor(h, c, ClassifyRow(cfg, now, c, row))
  {
    if !row.IsDummy() {
      match VerdictOf(cfg, now, c.data, row)
      case Push(item) =>
        ItemsForAppend(c.toPush, [item], h);
        assert item.hash != h;
      case Resolve =>
        HashesAppend(c.toMatch, [row]);
      case _ =>
    }
  }

  lemma {:induction false} ClassifyForeign(cfg: Config, now: int, c: Classified, rows: seq<BookRow>, h: string)
    requires AllForeign(rows, h)
    ensures SameFor(h, c, Classify(cfg, now, c, rows))
    decreases rows
  {
    if rows != [] {
      ClassifyRowForeign(cfg, now, c, rows[0], h);
      ClassifyForeign(cfg, now, ClassifyRow(cfg, now, c, rows[0]), rows[1..], h);
    }
  }

  /** The verdict on a row is a matter of its own hash. */
  lemma VerdictLocal(cfg: Config, now: int, a: Data, b: Data, row: BookRow)
    requires a.At(row.hash) == b.At(row.hash)
    ensures VerdictOf(cfg, now, a, row) == VerdictOf(cfg, now, b, row)
  {
  }

  /** What classification has done to hash h once it has seen row r, the only row of that hash. */
  ghost predicate Classed(cfg: Config, now: int, d: Data, r: BookRow, c: Classified) {
    var v := VerdictOf(cfg, now, d, r);
    && c.data.At(r.hash) == (if v.Forget? then Slot(None, None) else d.At(r.hash))
    && ItemsFor(c.toPush, r.hash) == (if v.Push? then [v.item] else [])
    && multiset(Hashes(c.toMatch))[r.hash] == (if v.Resolve? then 1 else 0)
    && (v.Resolve? ==> r in c.toMatch)
  }

  lemma ClassifyRowHit(cfg: Config, now: int, c: Classified, r: BookRow)
    requires !r.IsDummy() && ItemsFor(c.toPush, r.hash) == [] && r.hash !in Hashes(c.toMatch)
    ensures Classed(cfg, now, c.data, r, ClassifyRow(cfg, now, c, r))
  {
    match VerdictOf(cfg, now, c.data, r)
    case Push(item) =>
      ItemsForAppend(c.toPush, [item], r.hash);
    case Resolve =>
      HashesAppend(c.toMatch, [r]);
      assert Hashes([r]) == [r.hash];
      assert (c.toMatch + [r])[|c.toMatch|] == r;
    case _ =>
  }

  lemma {:induction false} ToMatchGrows(cfg: Config, now: int, c: Classified, rows: seq<BookRow>)
    ensures forall r :: r in c.toMatch ==> r in Classify(cfg, now, c, rows).toMatch
    ensures forall r :: r in Classify(cfg, now, c, rows).toMatch ==> r in c.toMatch || r in rows
    decreases rows
  {
    if rows != [] {
      ToMatchGrows(cfg, now, ClassifyRow(cfg, now, c, rows[0]), rows[1..]);
    }
  }

  lemma RestForeign(rows: seq<BookRow>)
    requires Distinct(Hashes(rows)) && rows != []
    ensures AllForeign(rows[1..], rows[0].hash)
  {
    forall q | q in rows[1..] ensures Foreign(q, rows[0].hash) {
      var j :| 0 <= j < |rows[1..]| && rows[1..][j] == q;
      assert Hashes(rows)[j + 1] == q.hash && Hashes(rows)[0] == rows[0].hash;
    }
  }

  lemma {:induction false} ClassifyHit(cfg: Config, now: int, c: Classified, rows: seq<BookRow>, r: BookRow)
    requires Distinct(Hashes(rows)) && r in rows && !r.IsDummy()
    requires ItemsFor(c.toPush, r.hash) == [] && r.hash !in Hashes(c.toMatch)
    ensures Classed(cfg, now, c.data, r, Classify(cfg, now, c, rows))
    decreases rows
  {
    var next := ClassifyRow(cfg, now, c, rows[0]);
    var i :| 0 <= i < |rows| && rows[i] == r;
    assert Hashes(rows) == [rows[0].hash] + Hashes(rows[1..]);
    if i == 0 {
      ClassifyRowHit(cfg, now, c, r);
      RestForeign(rows);
      ClassifyForeign(cfg, now, next, rows[1..], r.hash);
      ToMatchGrows(cfg, now, next, rows[1..]);
    } else {
      assert rows[1..][i - 1] == r;
      assert Hashes(rows)[0] != Hashes(rows)[i];
      ClassifyRowForeign(cfg, now, c, rows[0], r.hash);
      VerdictLocal(cfg, now, c.data, next.data, r);
      assert r.hash !in multiset(Hashes(next.toMatch));
      DistinctTail(Hashes(rows));
      ClassifyHit(cfg, now, next, rows[1..], r);
    }
  }

  lemma DistinctTail(hs: seq<string>)
    requires Distinct(hs) && hs != []
    ensures Distinct(hs[1..])
  {
    forall i, j | 0 <= i < j < |hs[1..]| ensures hs[1..][i] != hs[1..][j] {
      assert hs[1..][i] == hs[i + 1] && hs[1..][j] == hs[j + 1];
    }
  }
}
