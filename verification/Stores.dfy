/** The values a store goes through between two moments, setter by setter. */
module Stores {
  import opened State
  import opened Readest
  import opened SyncPass

  /** Two stores agree on the cursor and on every hash outside `touch`. */
  ghost predicate Agrees(x: Data, d: Data, touch: set<string>) {
    x.watermarkMs == d.watermarkMs && forall h :: h !in touch ==> x.At(h) == d.At(h)
  }

  /** From store d with past a to store e with past b nothing outside `touch` was ever different. */
  ghost predicate Stays(a: seq<Data>, d: Data, b: seq<Data>, e: Data, touch: set<string>) {
    a <= b && Agrees(e, d, touch) && forall i :: |a| <= i < |b| ==> Agrees(b[i], d, touch)
  }

  lemma AgreesThen(x: Data, y: Data, z: Data, touch: set<string>)
    requires Agrees(x, y, touch) && Agrees(y, z, touch)
    ensures Agrees(x, z, touch)
  {
    forall h | h !in touch ensures x.At(h) == z.At(h) {
      assert x.At(h) == y.At(h);
    }
  }

  lemma StaysThen(a: seq<Data>, d: Data, b: seq<Data>, e: Data, c: seq<Data>, g: Data, touch: set<string>)
    requires Stays(a, d, b, e, touch) && Stays(b, e, c, g, touch)
    ensures Stays(a, d, c, g, touch)
  {
    AgreesThen(g, e, d, touch);
    forall i | |a| <= i < |c| ensures Agrees(c[i], d, touch) {
      if i < |b| {
        assert c[i] == b[i];
      } else {
        AgreesThen(c[i], e, d, touch);
      }
    }
  }

  /** Every setter of one hash. */
  lemma SettersAgree(d: Data, h: string, rec: MatchRecord, at: int, touch: set<string>)
    requires h in touch
    ensures Agrees(d.SetMatch(h, rec), d, touch) && Agrees(d.DeleteMatch(h), d, touch)
    ensures Agrees(d.SetUnmatched(h, at), d, touch) && Agrees(d.ClearUnmatched(h), d, touch)
  {
  }

  lemma OneSetter(a: seq<Data>, d: Data, b: seq<Data>, e: Data, touch: set<string>)
    requires b == a + [e] && Agrees(e, d, touch)
    ensures Stays(a, d, b, e, touch)
  {
  }

  lemma TwoSetters(a: seq<Data>, d: Data, mid: Data, b: seq<Data>, e: Data, touch: set<string>)
    requires b == a + [mid] + [e] && Agrees(mid, d, touch) && Agrees(e, mid, touch)
    ensures Stays(a, d, b, e, touch)
  {
    OneSetter(a, d, a + [mid], mid, touch);
    OneSetter(a + [mid], mid, b, e, touch);
    StaysThen(a, d, a + [mid], mid, b, e, touch);
  }

  /** From the n-th value on, the store was what it had been but for the hashes in `touch`, or it was the result. */
  ghost predicate Until(stores: seq<Data>, n: nat, d: Data, touch: set<string>, result: Data) {
    forall i :: n <= i < |stores| ==> Agrees(stores[i], d, touch) || stores[i] == result
  }

  lemma UntilEnd(a: seq<Data>, d: Data, b: seq<Data>, e: Data, touch: set<string>, c: seq<Data>, result: Data)
    requires Stays(a, d, b, e, touch) && c == b + [result]
    ensures a <= c && Until(c, |a|, d, touch, result)
  {
    assert a <= c;
    forall i | |a| <= i < |c| ensures Agrees(c[i], d, touch) || c[i] == result {
      assert i < |b| ==> c[i] == b[i];
    }
  }

  lemma UntilAfter(a: seq<Data>, b: seq<Data>, c: seq<Data>, d0: Data, d: Data, touch: set<string>, result: Data)
    requires a <= b <= c && Agrees(d, d0, touch)
    requires Until(b, |a|, d0, touch, result) && Until(c, |b|, d, touch, result)
    ensures Until(c, |a|, d0, touch, result)
  {
    forall i | |a| <= i < |c| ensures Agrees(c[i], d0, touch) || c[i] == result {
      if i < |b| {
        assert c[i] == b[i];
      } else if c[i] != result {
        AgreesThen(c[i], d, d0, touch);
      }
    }
  }

  /******* What a pass may touch *******/

  /** The hashes that an answer names, and the answers of a trace that name only hashes of a set. */
  ghost predicate AnswerIn(r: MatchResponse, touch: set<string>) {
    (forall m :: m in r.matches ==> m.hash in touch) && (forall h :: h in r.unmatched ==> h in touch)
  }

  ghost predicate TraceIn(trace: seq<Event>, touch: set<string>) {
    forall e :: e in trace && e.MatchCheck? && e.found.Ok? ==> AnswerIn(e.found.value, touch)
  }

  /** The hashes that a pass may touch: those of the pulled rows, and any that the match-check answers name. */
  ghost function Touched(rows: seq<BookRow>, trace: seq<Event>): set<string> {
    (set r | r in rows :: r.hash)
    + (set e, m | e in trace && e.MatchCheck? && e.found.Ok? && m in e.found.value.matches :: m.hash)
    + (set e, h | e in trace && e.MatchCheck? && e.found.Ok? && h in e.found.value.unmatched :: h)
  }

  ghost predicate RowsIn(rows: seq<BookRow>, touch: set<string>) { forall r :: r in rows ==> r.hash in touch }

  lemma TouchedTrace(rows: seq<BookRow>, trace: seq<Event>)
    ensures RowsIn(rows, Touched(rows, trace)) && TraceIn(trace, Touched(rows, trace))
  {
  }
}
