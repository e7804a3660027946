/**
  Best-effort history writes inside the caller's transaction. Postgres aborts a whole
  transaction after any failed statement until it is rolled back, fully or to a
  savepoint; the guarded insert must leave the caller's own writes out of that.
 */
module History {
  import opened Stamps

  /** A row written in the transaction: one of the caller's, or a history row. */
  datatype Entry = Own(id: nat) | Recorded(id: nat)

  /** How a statement ends: fine, failed before reaching the server, or failed on it. */
  datatype Fault = NoFault | ClientFault | ServerFault

  /** The transaction: rows so far, the rows at each open savepoint, and the abort flag. */
  datatype Tx = Tx(rows: seq<Entry>, savepoints: seq<seq<Entry>>, aborted: bool) {
    /** Any statement but a rollback: an aborted transaction refuses it. */
    predicate Refuses(fault: Fault) { aborted || fault != NoFault }

    function AfterRefusal(fault: Fault): Tx { this.(aborted := aborted || fault == ServerFault) }
  }

  datatype Probe = Absent | Present | ProbeRaises

  /** One guarded write: was its row built, what the probe says, and the four faults. */
  datatype Guarded = Guarded(
    id: nat,
    built: bool,
    probe: Probe,
    begin: Fault,
    execute: Fault,
    release: Fault,
    rollback: Fault)

  class Session {
    var tx: Tx

    /** An INSERT. */
    method Execute(e: Entry, fault: Fault) returns (raised: bool)
      modifies this
      ensures raised == old(tx).Refuses(fault)
      ensures tx == if raised then old(tx).AfterRefusal(fault) else old(tx).(rows := old(tx).rows + [e])
    {
      if tx.aborted || fault != NoFault {
        tx := tx.AfterRefusal(fault);
        return true;
      }
      tx := tx.(rows := tx.rows + [e]);
      return false;
    }

    /** SAVEPOINT. */
    method BeginNested(fault: Fault) returns (raised: bool)
      modifies this
      ensures raised == old(tx).Refuses(fault)
      ensures tx == if raised then old(tx).AfterRefusal(fault)
                    else old(tx).(savepoints := old(tx).savepoints + [old(tx).rows])
    {
      if tx.aborted || fault != NoFault {
        tx := tx.AfterRefusal(fault);
        return true;
      }
      tx := tx.(savepoints := tx.savepoints + [tx.rows]);
      return false;
    }

    /** RELEASE SAVEPOINT: the innermost one closes and its rows stay. */
    method Release(fault: Fault) returns (raised: bool)
      requires tx.savepoints != []
      modifies this
      ensures raised == old(tx).Refuses(fault)
      ensures tx == if raised then old(tx).AfterRefusal(fault)
                    else old(tx).(savepoints := old(tx).savepoints[..|old(tx).savepoints| - 1])
    {
      if tx.aborted || fault != NoFault {
        tx := tx.AfterRefusal(fault);
        return true;
      }
      tx := tx.(savepoints := tx.savepoints[..|tx.savepoints| - 1]);
      return false;
    }

    /** ROLLBACK TO SAVEPOINT: allowed even when aborted, and lifts the abort. */
    method RollbackTo(fault: Fault) returns (raised: bool)
      requires tx.savepoints != []
      modifies this
      ensures raised == (fault != NoFault)
      ensures tx == if raised then old(tx).AfterRefusal(fault)
                    else Tx(old(tx).savepoints[|old(tx).savepoints| - 1],
                            old(tx).savepoints[..|old(tx).savepoints| - 1], false)
    {
      if fault != NoFault {
        tx := tx.AfterRefusal(fault);
        return true;
      }
      var last := |tx.savepoints| - 1;
      tx := Tx(tx.savepoints[last], tx.savepoints[..last], false);
      return false;
    }

    /**
      `with best_effort(what, session): execute(...)`. A failed body or release is rolled
      back and swallowed. A failed SAVEPOINT is swallowed too, but then the generator ends
      without yielding and the context manager itself raises: it does reach the caller.
     */
    method BestEffortInsert(w: Guarded) returns (raised: bool)
      modifies this
      ensures raised == old(tx).Refuses(w.begin)
      ensures tx == Inserted(old(tx), w)
    {
      var refused := BeginNested(w.begin);
      if refused {
        return true;
      }
      var failed := Execute(Recorded(w.id), w.execute);
      if !failed {
        failed := Release(w.release);
      }
      if failed {
        var _ := RollbackTo(w.rollback);
      }
      return false;
    }

    /**
      `_insert_guarded`: probe, then insert, both inside an outer `best_effort` that
      shares no transaction. It never raises, because the outer one absorbs the inner.
     */
    method InsertGuarded(w: Guarded) returns (raised: bool)
      modifies this
      ensures !raised
      ensures tx == if w.probe.Present? then Inserted(old(tx), w) else old(tx)
    {
      raised := w.probe.ProbeRaises?;
      if !raised && w.probe.Present? {
        raised := BestEffortInsert(w);
      }
      if raised {
        raised := false;
      }
    }

    /** `record_alert_event`: build the row, and write it only when it could be built. */
    method RecordAlertEvent(w: Guarded) returns (raised: bool)
      modifies this
      ensures !raised
      ensures tx == AfterGuarded(old(tx), w)
    {
      raised := false;
      if w.built {
        raised := InsertGuarded(w);
      }
    }
  }

  // ------------------------------------------------------------ one guarded write

  /** The transaction after one best-effort insert. */
  function Inserted(tx: Tx, w: Guarded): Tx {
    if tx.Refuses(w.begin) then tx.AfterRefusal(w.begin)
    else if w.execute == NoFault && w.release == NoFault then tx.(rows := tx.rows + [Recorded(w.id)])
    else if w.rollback == NoFault then tx
    else
      Tx(if w.execute == NoFault then tx.rows + [Recorded(w.id)] else tx.rows,
         tx.savepoints + [tx.rows],
         w.execute == ServerFault || (w.execute == NoFault && w.release == ServerFault) || w.rollback == ServerFault)
  }

  function AfterGuarded(tx: Tx, w: Guarded): Tx {
    if w.built && w.probe.Present? then Inserted(tx, w) else tx
  }

  predicate Attempts(w: Guarded) { w.built && w.probe.Present? }

  /** The insert went through. */
  predicate Lands(w: Guarded) {
    Attempts(w) && w.begin == NoFault && w.execute == NoFault && w.release == NoFault
  }

  /** It got as far as having something to roll back to. */
  predicate RollsBack(w: Guarded) {
    Attempts(w) && w.begin == NoFault && !(w.execute == NoFault && w.release == NoFault)
  }

  /** The server did not reject SAVEPOINT, and the rollback, when one is needed, worked. */
  predicate Contained(w: Guarded) {
    Attempts(w) ==> w.begin != ServerFault && (RollsBack(w) ==> w.rollback == NoFault)
  }

  /**
    The exact guarantee of the savepoint: on a healthy transaction the guarded write adds
    its row if it lands, and otherwise leaves no trace, if and only if it is contained.
   */
  lemma HarmlessExactlyWhenContained(tx: Tx, w: Guarded)
    requires !tx.aborted
    ensures AfterGuarded(tx, w) == tx.(rows := tx.rows + if Lands(w) then [Recorded(w.id)] else [])
            <==> Contained(w)
  {
    if RollsBack(w) && w.rollback != NoFault {
      assert |AfterGuarded(tx, w).savepoints| == |tx.savepoints| + 1;
    }
  }

  // ------------------------------------------------------------ whole transactions

  /**
    What a transaction is made of: the caller's own statements, guarded history writes,
    and the reads `record_notification_decision` makes under a `best_effort` that was
    not given the session, so without a savepoint.
   */
  datatype Op =
    | Write(id: nat)
    | Record(w: Guarded)
    | BareRead(fault: Fault)

  function Step(tx: Tx, op: Op): Tx {
    match op
    case Write(id) => if tx.aborted then tx else tx.(rows := tx.rows + [Own(id)])
    case Record(w) => AfterGuarded(tx, w)
    case BareRead(fault) => if tx.Refuses(fault) then tx.AfterRefusal(fault) else tx
  }

  function Run(tx: Tx, ops: seq<Op>): Tx
    decreases |ops|
  {
    if ops == [] then tx else Run(Step(tx, ops[0]), ops[1..])
  }

  /** The operation leaves a healthy transaction aborted. */
  predicate Aborts(op: Op) {
    match op
    case Write(_) => false
    case Record(w) =>
      Attempts(w) && (w.begin == ServerFault
                      || (RollsBack(w) && w.rollback != NoFault
                          && (w.execute == ServerFault || (w.execute == NoFault && w.release == ServerFault) || w.rollback == ServerFault)))
    case BareRead(fault) => fault == ServerFault
  }

  /** The caller's own rows, in order. */
  function OwnRows(rows: seq<Entry>): seq<Entry> { Filter(rows, (e: Entry) => e.Own?) }

  function HistoryRows(rows: seq<Entry>): seq<Entry> { Filter(rows, (e: Entry) => e.Recorded?) }

  function Writes(ops: seq<Op>): seq<Entry> {
    if ops == [] then []
    else (if ops[0].Write? then [Own(ops[0].id)] else []) + Writes(ops[1..])
  }

  function Landed(ops: seq<Op>): seq<Entry> {
    if ops == [] then []
    else (if ops[0].Record? && Lands(ops[0].w) then [Recorded(ops[0].w.id)] else []) + Landed(ops[1..])
  }

  lemma {:induction false} AbortIsFinal(tx: Tx, ops: seq<Op>)
    requires tx.aborted
    ensures Run(tx, ops) == tx
    decreases |ops|
  {
    if ops == [] {
    } else {
      AbortIsFinal(tx, ops[1..]);
    }
  }

  /** What one operation does to the caller's rows and to the abort flag. */
  lemma StepKeepsOwnRows(tx: Tx, op: Op)
    requires !tx.aborted
    ensures Step(tx, op).aborted <==> Aborts(op)
    ensures OwnRows(Step(tx, op).rows) == OwnRows(tx.rows) + Writes([op])
  {
    assert [op][1..] == [];
    match op
    case Write(id) =>
      FilterConcat(tx.rows, [Own(id)], (e: Entry) => e.Own?);
      FilterOne(Own(id), (e: Entry) => e.Own?);
    case Record(w) =>
      FilterConcat(tx.rows, [Recorded(w.id)], (e: Entry) => e.Own?);
      FilterOne(Recorded(w.id), (e: Entry) => e.Own?);
    case BareRead(_) =>
  }

  /**
    Safety over every interleaving: the caller can still commit, with every one of its
    writes in order, if and only if no operation aborts. In particular a history insert
    that fails on the server and is rolled back never costs the reading.
   */
  lemma {:induction false} CallerSurvivesIffNothingAborts(tx: Tx, ops: seq<Op>)
    requires !tx.aborted
    ensures !Run(tx, ops).aborted <==> forall op | op in ops :: !Aborts(op)
    ensures !Run(tx, ops).aborted ==> OwnRows(Run(tx, ops).rows) == OwnRows(tx.rows) + Writes(ops)
    decreases |ops|
  {
    if ops == [] {
    } else {
      var next, rest := Step(tx, ops[0]), ops[1..];
      StepKeepsOwnRows(tx, ops[0]);
      LogsOfCons(ops);
      assert forall op | op in ops :: op == ops[0] || op in rest;
      assert ops[0] in ops;
      if next.aborted {
        AbortIsFinal(next, rest);
      } else {
        CallerSurvivesIffNothingAborts(next, rest);
        ConcatAssociates(OwnRows(tx.rows), Writes([ops[0]]), Writes(rest));
      }
    }
  }

  /** Contained: the guarded writes are, and no bare read fails on the server. */
  predicate OpContained(op: Op) {
    match op
    case Write(_) => true
    case Record(w) => Contained(w)
    case BareRead(fault) => fault != ServerFault
  }

  lemma StepKeepsHistory(tx: Tx, op: Op)
    requires !tx.aborted && OpContained(op)
    ensures HistoryRows(Step(tx, op).rows)
            == HistoryRows(tx.rows) + if op.Record? && Lands(op.w) then [Recorded(op.w.id)] else []
  {
    match op
    case Write(id) =>
      FilterConcat(tx.rows, [Own(id)], (e: Entry) => e.Recorded?);
      FilterOne(Own(id), (e: Entry) => e.Recorded?);
    case Record(w) =>
      FilterConcat(tx.rows, [Recorded(w.id)], (e: Entry) => e.Recorded?);
      FilterOne(Recorded(w.id), (e: Entry) => e.Recorded?);
    case BareRead(_) =>
  }

  lemma ContainedStep(tx: Tx, op: Op)
    requires !tx.aborted && OpContained(op)
    ensures var t := Step(tx, op);
            && !t.aborted && t.savepoints == tx.savepoints
            && HistoryRows(t.rows) == HistoryRows(tx.rows) + Landed([op])
            && OwnRows(t.rows) == OwnRows(tx.rows) + Writes([op])
  {
    assert [op][1..] == [];
    StepKeepsOwnRows(tx, op);
    StepKeepsHistory(tx, op);
    if op.Record? {
      HarmlessExactlyWhenContained(tx, op.w);
    }
  }

  /**
    With every write contained, the transaction ends healthy at the depth it started at,
    and the history gains exactly the inserts that landed, in order.
   */
  lemma {:induction false} HistoryGainsExactlyTheLanded(tx: Tx, ops: seq<Op>)
    requires !tx.aborted && forall op | op in ops :: OpContained(op)
    ensures var t := Run(tx, ops);
            && !t.aborted && t.savepoints == tx.savepoints
            && HistoryRows(t.rows) == HistoryRows(tx.rows) + Landed(ops)
            && OwnRows(t.rows) == OwnRows(tx.rows) + Writes(ops)
    decreases |ops|
  {
    if ops == [] {
    } else {
      var next, rest := Step(tx, ops[0]), ops[1..];
      assert ops[0] in ops;
      ContainedStep(tx, ops[0]);
      HistoryGainsExactlyTheLanded(next, rest);
      LogsOfCons(ops);
      ConcatAssociates(HistoryRows(tx.rows), Landed([ops[0]]), Landed(rest));
      ConcatAssociates(OwnRows(tx.rows), Writes([ops[0]]), Writes(rest));
    }
  }

  lemma LogsOfCons(ops: seq<Op>)
    requires ops != []
    ensures Writes(ops) == Writes([ops[0]]) + Writes(ops[1..])
    ensures Landed(ops) == Landed([ops[0]]) + Landed(ops[1..])
  {
    assert [ops[0]][1..] == [];
  }

  /** What a commit leaves in the database: an aborted transaction commits nothing. */
  function Committed(tx: Tx): seq<Entry> { if tx.aborted then [] else tx.rows }

  /**
    A delivery row already written is lost to a bare read failing on the server, where a
    guarded insert failing the same way leaves it alone.
   */
  lemma BareReadCostsEarlierWrites(row: nat)
    ensures var healthy := Tx([], [], false);
            var failing := Guarded(0, true, Present, NoFault, ServerFault, NoFault, NoFault);
            && Committed(Run(healthy, [Write(row), BareRead(ServerFault)])) == []
            && Committed(Run(healthy, [Write(row), Record(failing)])) == [Own(row)]
  {
    var healthy := Tx([], [], false);
    var written := Tx([Own(row)], [], false);
    var failing := Guarded(0, true, Present, NoFault, ServerFault, NoFault, NoFault);
    forall op: Op ensures Run(healthy, [Write(row), op]) == Step(written, op) {
      assert [Write(row), op][1..] == [op] && [op][1..] == [];
      assert Run(written, [op]) == Run(Step(written, op), []);
      assert Step(healthy, Write(row)) == written;
    }
  }
}
