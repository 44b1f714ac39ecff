/** The reverse log that restores a UTXO set after a block fails part-way (core/chain.go). */
module UndoLog {
  import opened Types

  /** What an outpoint held before one write. */
  datatype Undo = Undo(op: OutPoint, prior: Option<Entry>)

  function Record(u: Utxo, op: OutPoint): Undo {
    Undo(op, if op in u then Some(u[op]) else None)
  }

  function Revert(u: Utxo, item: Undo): Utxo {
    match item.prior
    case Some(entry) => u[item.op := entry]
    case None => u - {item.op}
  }

  /** Play the log backwards. */
  function Unwind(u: Utxo, log: seq<Undo>): Utxo
    decreases |log|
  {
    if log == [] then u
    else Unwind(Revert(u, log[|log| - 1]), log[..|log| - 1])
  }

  /** Recording before a write or a delete leaves the unwound set unchanged, even when the same
      outpoint was already touched by an earlier step of the log. */
  lemma {:induction false} RecordedWrite(u: Utxo, log: seq<Undo>, op: OutPoint, entry: Entry)
    ensures Unwind(u[op := entry], log + [Record(u, op)]) == Unwind(u, log)
  {
    var item := Record(u, op);
    assert (log + [item])[..|log|] == log;
    assert Revert(u[op := entry], item) == u;
  }

  lemma {:induction false} RecordedDelete(u: Utxo, log: seq<Undo>, op: OutPoint)
    ensures Unwind(u - {op}, log + [Record(u, op)]) == Unwind(u, log)
  {
    var item := Record(u, op);
    assert (log + [item])[..|log|] == log;
    assert Revert(u - {op}, item) == u;
  }
}
