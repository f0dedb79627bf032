/** The row view the engine classifies on (internal/readest/models.go). */
module Readest {
  import opened Wrappers
  import opened Time

  /** A timestamp column: absent, only white space, the text "null", not parseable, or a time. */
  datatype Stamp = Empty | Blank | NullText | Garbage | At(ms: int)
  {
    /** util.ISOToMs: blank text is time zero without an error. */
    function ToMs(): Option<int> {
      match this
      case Empty => Some(0)
      case Blank => Some(0)
      case NullText => None
      case Garbage => None
      case At(ms) => Some(ms)
    }

    /** The same with the error ignored. */
    function OrZero(): int {
      if ToMs().Some? then ToMs().value else 0
    }
  }

  const DUMMY_HASH := "00000000000000000000000000000000"

  datatype Progress = Progress(cur: real, total: real)

  datatype BookRow = BookRow(
    hash: string,
    progress: Option<Progress>,
    updatedAt: Stamp,
    deletedAt: Stamp,
    syncedAt: Stamp,
    readingStatus: string)
  {
    predicate IsDummy() { hash == DUMMY_HASH }

    predicate IsDeleted() { deletedAt != Empty && deletedAt != NullText }

    function Percentage(): Option<int> {
      if progress.None? then None else Percent(progress.value.cur, progress.value.total)
    }

    function WatermarkMs(): int {
      MaxOf([syncedAt.OrZero(), updatedAt.OrZero(), deletedAt.OrZero()])
    }
  }

  /** updatedSeconds (internal/sync/engine.go:648-654). */
  function UpdatedSeconds(row: BookRow, fallback: int): int {
    var ms := row.updatedAt.ToMs();
    if ms.None? then fallback else MsToSeconds(ms.value)
  }

  /** The cursor contribution of a row is the latest of its three timestamps that is a time, floored at zero. */
  lemma WatermarkIsLatest(row: BookRow)
    ensures row.WatermarkMs() >= 0
    ensures forall s :: s in [row.syncedAt, row.updatedAt, row.deletedAt] && s.At? ==> s.ms <= row.WatermarkMs()
    ensures row.WatermarkMs() == 0 || At(row.WatermarkMs()) in [row.syncedAt, row.updatedAt, row.deletedAt]
  {
    var a, b, c := row.syncedAt.OrZero(), row.updatedAt.OrZero(), row.deletedAt.OrZero();
    assert a in [a, b, c] && b in [a, b, c] && c in [a, b, c];
  }
}
