/**
  The durable store: one row per query, written in all-or-nothing batches that may fail.
 */
module Persistence {
  import opened Model

  type Rows = map<string, Candidate>

  /** How a transaction ends. A commit may report an error although its rows were written. */
  datatype Outcome = Committed | Failed | FailedAfterCommit

  function Written(rows: Rows, batch: Rows, outcome: Outcome): Rows {
    if outcome == Failed then rows else rows + batch
  }

  class Store {
    var rows: Rows
    var writes: nat

    constructor (rows: Rows)
      ensures this.rows == rows && writes == 0
    {
      this.rows, writes := rows, 0;
    }

    /** The outcome stands for what the database does; an empty batch never reaches it. */
    method PersistBatch(batch: Rows, outcome: Outcome) returns (ok: bool)
      modifies this
      ensures ok <==> batch == map[] || outcome == Committed
      ensures rows == Written(old(rows), batch, outcome)
      ensures outcome == Failed ==> rows == old(rows)
      ensures outcome != Failed ==> forall q | q in batch :: q in rows && rows[q] == batch[q]
      ensures outcome != Failed ==> forall q | q !in batch :: q in rows <==> q in old(rows)
      ensures outcome != Failed ==> forall q | q !in batch && q in old(rows) :: rows[q] == old(rows)[q]
      ensures writes == old(writes) + if ok then |batch| else 0
    {
      if |batch| == 0 {
        assert batch == map[];
        assert rows + batch == rows;
        return true;
      }
      if outcome == Failed {
        return false;
      }
      rows := rows + batch;
      if outcome == FailedAfterCommit {
        return false;
      }
      writes := writes + |batch|;
      return true;
    }
  }
}
