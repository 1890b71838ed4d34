/** The statement machine of store/postgres does what the atomic operations of store/memory do:
    every statement either leaves the committed tables alone, or answers its call and changes
    them exactly as the atomic operation would at that instant. */
module PostgresRefinement {
  import opened Entities
  import opened RefreshStore
  import opened PostgresRefresh

  /** One step of the back end, with what it answers, if anything. */
  datatype Step = Begin(p: nat, op: Op) | Sql(p: nat, stmt: Stmt) | Abort(p: nat)

  ghost predicate NextStep(pg: Pg, pg': Pg, step: Step, ev: Event) {
    match step
    case Begin(p, op) => PostgresRefresh.Begin(pg, pg', p, op) && ev == Quiet
    case Sql(p, stmt) => p in pg.txs && Statement(pg, pg', p, stmt, ev)
    case Abort(p) => PostgresRefresh.Abort(pg, pg', p) && ev == Quiet
  }

  // ----- an answer is an atomic operation -----

  lemma RevocationCommits(t: Tables, born: set<string>, tx: Tx)
    requires TxOk(t, born, tx) && tx.Revoking? && tx.todo == {}
    ensures t.tokens + tx.writes == RevokeFamily(t.tokens, tx.root, tx.now)
  {
  }

  lemma DeletionCommits(t: Tables, born: set<string>, tx: Tx)
    requires TxOk(t, born, tx) && tx.Erasing? && tx.todo == {}
    ensures t.tokens - tx.doomed == Without(t.tokens, tx.id)
  {
  }

  /** The read that follows an unmatched UPDATE is about to meet a live row. */
  predicate Misreads(pg: Pg, p: nat) {
    p in pg.txs && pg.txs[p].Classifying? && Matches(pg.tables.tokens, pg.txs[p].hash, pg.txs[p].now)
  }

  /** A statement that answers performs the atomic operation, unless it is such a read, which
      reports the live row as expired and changes nothing. */
  lemma AnswersAreAtomic(pg: Pg, pg': Pg, p: nat, stmt: Stmt, ev: Event)
    requires Inv(pg) && p in pg.txs && Statement(pg, pg', p, stmt, ev)
    ensures ev == Quiet ==> pg'.tables == pg.tables && pg'.born == pg.born
    ensures ev.Answer? ==> ev.op == OpOf(pg.txs[p]) && pg'.born == Born(pg.born, ev.op, ev.r)
    ensures ev.Answer? && !Misreads(pg, p) ==> Exec(pg.tables, ev.op, ev.r, pg'.tables)
    ensures Misreads(pg, p) ==>
              pg'.tables == pg.tables && ev == Answer(OpOf(pg.txs[p]), Expired(pg.tables.tokens[pg.txs[p].hash]))
  {
    var tx := pg.txs[p];
    assert TxOk(pg.tables, pg.born, tx);
    if tx.Revoking? && tx.todo == {} {
      RevocationCommits(pg.tables, pg.born, tx);
    } else if tx.Erasing? && tx.todo == {} {
      DeletionCommits(pg.tables, pg.born, tx);
    }
  }

  // ----- what a commit leaves to the others -----

  lemma InsertLeaves(t: Tables, born: set<string>, token: RefreshToken, tx: Tx)
    requires KeysOk(t, born) && TxOk(t, born, tx) && token.hash !in born
    requires token.parent != "" ==> token.parent in t.tokens && !Owns(tx, token.parent)
    requires !OwnsUser(tx, token.userId) && Apart(SaveToken(token), OpOf(tx))
    ensures TxOk(t.(tokens := t.tokens[token.hash := token]), born + {token.hash}, tx)
  {
  }

  lemma RotationLeaves(t: Tables, born: set<string>, hash: string, now: int, tx: Tx)
    requires KeysOk(t, born) && TxOk(t, born, tx) && Matches(t.tokens, hash, now) && !Owns(tx, hash)
    ensures TxOk(t.(tokens := t.tokens[hash := Rotation(t.tokens[hash], now)]), born, tx)
  {
  }

  lemma RevocationLeaves(t: Tables, born: set<string>, done: Tx, tx: Tx)
    requires KeysOk(t, born) && TxOk(t, born, tx) && TxOk(t, born, done) && done.Revoking? && Compatible(done, tx)
    ensures TxOk(t.(tokens := t.tokens + done.writes), born, tx)
  {
    assert forall h :: h in done.writes ==> Owns(done, h);
  }

  lemma DeletionLeaves(t: Tables, born: set<string>, done: Tx, tx: Tx)
    requires KeysOk(t, born) && TxOk(t, born, tx) && TxOk(t, born, done) && done.Erasing? && Compatible(done, tx)
    ensures TxOk(Tables(t.users - {done.id}, t.tokens - done.doomed), born, tx)
  {
    assert forall h :: h in done.doomed ==> Owns(done, h);
    assert OwnsUser(done, done.id);
  }

  lemma OthersStayOk(pg: Pg, pg': Pg, p: nat, stmt: Stmt, ev: Event, q: nat)
    requires Inv(pg) && p in pg.txs && q in pg.txs && p != q && Statement(pg, pg', p, stmt, ev) && ev.Answer?
    ensures TxOk(pg'.tables, pg'.born, pg.txs[q])
  {
    var t, born, tx, other := pg.tables, pg.born, pg.txs[p], pg.txs[q];
    assert TxOk(t, born, tx) && TxOk(t, born, other) && Compatible(tx, other) && Compatible(other, tx);
    match tx
    case Revoking(_, _, _, _, _) => RevocationLeaves(t, born, tx, other);
    case Erasing(_, _, _) => DeletionLeaves(t, born, tx, other);
    case Inserted(token) =>
      assert Shares(tx, token.parent) && SharesUser(tx, token.userId);
      InsertLeaves(t, born, token, other);
    case Starting(op) => FirstLeaves(pg, pg', p, op, ev, q);
    case _ =>
  }

  lemma FirstLeaves(pg: Pg, pg': Pg, p: nat, op: Op, ev: Event, q: nat)
    requires p in pg.txs && pg.txs[p] == Starting(op) && q in pg.txs && p != q && First(pg, pg', p, op, ev)
    requires ev.Answer?
    requires KeysOk(pg.tables, pg.born) && TxOk(pg.tables, pg.born, pg.txs[p]) && TxOk(pg.tables, pg.born, pg.txs[q])
    requires Compatible(pg.txs[p], pg.txs[q])
    ensures TxOk(pg'.tables, pg'.born, pg.txs[q])
  {
    if pg'.tables != pg.tables {
      match op
      case SaveToken(token) => InsertLeaves(pg.tables, pg.born, token, pg.txs[q]);
      case Rotate(hash, now) => RotationLeaves(pg.tables, pg.born, hash, now, pg.txs[q]);
      case _ =>
    }
  }

  // ----- the mover itself -----

  lemma MoverStaysOk(pg: Pg, pg': Pg, p: nat, stmt: Stmt, ev: Event)
    requires Inv(pg) && p in pg.txs && Statement(pg, pg', p, stmt, ev) && ev == Quiet
    ensures p in pg'.txs && TxOk(pg.tables, pg.born, pg'.txs[p])
    ensures OpOf(pg'.txs[p]) == OpOf(pg.txs[p])
  {
    assert TxOk(pg.tables, pg.born, pg.txs[p]);
  }

  lemma MoverStaysCompatible(pg: Pg, pg': Pg, p: nat, stmt: Stmt, ev: Event, q: nat)
    requires Inv(pg) && p in pg.txs && q in pg.txs && p != q && Statement(pg, pg', p, stmt, ev) && ev == Quiet
    ensures p in pg'.txs && Compatible(pg'.txs[p], pg.txs[q]) && Compatible(pg.txs[q], pg'.txs[p])
  {
    var tx, other := pg.txs[p], pg.txs[q];
    MoverStaysOk(pg, pg', p, stmt, ev);
    var tx' := pg'.txs[p];
    assert Compatible(tx, other) && Compatible(other, tx);
    forall h
      ensures Owns(tx', h) ==> !Owns(other, h) && !Shares(other, h)
      ensures Owns(other, h) ==> !Owns(tx', h) && !Shares(tx', h)
    {
      assert Owns(tx, h) ==> !Owns(other, h) && !Shares(other, h);
      assert Owns(other, h) ==> !Owns(tx, h) && !Shares(tx, h);
    }
    forall id
      ensures OwnsUser(tx', id) ==> !OwnsUser(other, id) && !SharesUser(other, id)
      ensures OwnsUser(other, id) ==> !OwnsUser(tx', id) && !SharesUser(tx', id)
    {
      assert OwnsUser(tx, id) ==> !OwnsUser(other, id) && !SharesUser(other, id);
      assert OwnsUser(other, id) ==> !OwnsUser(tx, id) && !SharesUser(tx, id);
    }
  }

  lemma InvStep(pg: Pg, pg': Pg, step: Step, ev: Event)
    requires Inv(pg) && NextStep(pg, pg', step, ev)
    ensures Inv(pg')
  {
    match step
    case Sql(p, stmt) => SqlKeepsInv(pg, pg', p, stmt, ev);
    case Begin(p, op) => BeginKeepsInv(pg, pg', p, op);
    case Abort(p) => AbortKeepsInv(pg, pg', p);
  }

  lemma BeginKeepsInv(pg: Pg, pg': Pg, p: nat, op: Op)
    requires Inv(pg) && PostgresRefresh.Begin(pg, pg', p, op)
    ensures Inv(pg')
  {
    forall q | q in pg.txs
      ensures Compatible(pg'.txs[p], pg.txs[q]) && Compatible(pg.txs[q], pg'.txs[p])
    {
    }
  }

  lemma AbortKeepsInv(pg: Pg, pg': Pg, p: nat)
    requires Inv(pg) && PostgresRefresh.Abort(pg, pg', p)
    ensures Inv(pg')
  {
    assert forall q :: q in pg'.txs ==> q in pg.txs && pg'.txs[q] == pg.txs[q];
  }

  lemma SqlKeepsInv(pg: Pg, pg': Pg, p: nat, stmt: Stmt, ev: Event)
    requires Inv(pg) && p in pg.txs && Statement(pg, pg', p, stmt, ev)
    ensures Inv(pg')
  {
    AnswersAreAtomic(pg, pg', p, stmt, ev);
    if ev == Quiet {
      MoverStaysOk(pg, pg', p, stmt, ev);
      forall q | q in pg.txs && q != p
        ensures Compatible(pg'.txs[p], pg.txs[q]) && Compatible(pg.txs[q], pg'.txs[p])
      {
        MoverStaysCompatible(pg, pg', p, stmt, ev, q);
      }
      assert pg'.txs == pg.txs[p := pg'.txs[p]];
    } else {
      assert pg'.txs == pg.txs - {p};
      forall q | q in pg'.txs
        ensures TxOk(pg'.tables, pg'.born, pg'.txs[q])
      {
        OthersStayOk(pg, pg', p, stmt, ev, q);
      }
    }
  }

  // ----- runs -----

  ghost predicate RunOf(run: seq<Pg>, steps: seq<Step>, evs: seq<Event>) {
    && |run| == |steps| + 1 == |evs| + 1
    && run[0] == Pg(Tables({}, map[]), {}, map[])
    && forall i :: 0 <= i < |steps| ==> NextStep(run[i], run[i + 1], steps[i], evs[i])
  }

  lemma {:induction false} InvAlways(run: seq<Pg>, steps: seq<Step>, evs: seq<Event>, i: nat)
    requires RunOf(run, steps, evs) && i < |run|
    ensures Inv(run[i])
  {
    if i > 0 {
      InvAlways(run, steps, evs, i - 1);
      InvStep(run[i - 1], run[i], steps[i - 1], evs[i - 1]);
    }
  }

  /** In every interleaving of statements, the committed tables move only by atomic operations:
      those the back end answers, with the answers it gives, when it gives them. The one answer
      that is not atomic then and there, a misread, moves nothing. */
  lemma CommittedTablesAreAtomic(run: seq<Pg>, steps: seq<Step>, evs: seq<Event>, i: nat)
    requires RunOf(run, steps, evs) && i < |steps|
    ensures evs[i] == Quiet || Misreads(run[i], steps[i].p) ==> run[i + 1].tables == run[i].tables
    ensures evs[i].Answer? && !Misreads(run[i], steps[i].p) ==>
              Exec(run[i].tables, evs[i].op, evs[i].r, run[i + 1].tables)
  {
    InvAlways(run, steps, evs, i);
    if steps[i].Sql? {
      AnswersAreAtomic(run[i], run[i + 1], steps[i].p, steps[i].stmt, evs[i]);
    }
  }

  ghost predicate EndedRoot(t: Tables, h: string) {
    h != "" && h in t.tokens && t.tokens[h].parent == "" && t.tokens[h].endedAt.Some?
  }

  ghost predicate EndedRootsHaveNoLiveChild(t: Tables) {
    forall c :: c in t.tokens && EndedRoot(t, t.tokens[c].parent) ==> t.tokens[c].revoked
  }

  /** No committed state ever holds an unrevoked child under an ended root, for any calls. */
  lemma {:induction false} NoLiveChildUnderEndedRoot(run: seq<Pg>, steps: seq<Step>, evs: seq<Event>, i: nat)
    requires RunOf(run, steps, evs) && i < |run|
    ensures EndedRootsHaveNoLiveChild(run[i].tables)
  {
    if i > 0 {
      NoLiveChildUnderEndedRoot(run, steps, evs, i - 1);
      CommittedTablesAreAtomic(run, steps, evs, i - 1);
      InvAlways(run, steps, evs, i - 1);
      if evs[i - 1].Answer? && !Misreads(run[i - 1], steps[i - 1].p) {
        var pg, p := run[i - 1], steps[i - 1].p;
        AnswersAreAtomic(pg, run[i], p, steps[i - 1].stmt, evs[i - 1]);
        assert TxOk(pg.tables, pg.born, pg.txs[p]);
        AtomicKeepsChildrenRevoked(pg.tables, pg.born, evs[i - 1].op, evs[i - 1].r, run[i].tables);
      }
    }
  }

  lemma AtomicKeepsChildrenRevoked(t: Tables, born: set<string>, op: Op, r: Result, t': Tables)
    requires KeysOk(t, born) && EndedRootsHaveNoLiveChild(t) && Exec(t, op, r, t')
    requires CallOk(born, op)
    ensures EndedRootsHaveNoLiveChild(t')
  {
    forall c | c in t'.tokens && EndedRoot(t', t'.tokens[c].parent)
      ensures t'.tokens[c].revoked
    {
      if c in t.tokens && EndedRoot(t, t.tokens[c].parent) {
        assert t.tokens[c].revoked;
      }
    }
  }

  // ----- rotation in two statements -----

  /** One step: a hash that was ever stored is not stored anew, and while its row is there its
      expiry stands and it is never un-revoked. */
  lemma RowAges(pg: Pg, pg': Pg, step: Step, ev: Event, h: string)
    requires Inv(pg) && NextStep(pg, pg', step, ev) && h in pg.born
    ensures h in pg'.born && Aged(pg.tables.tokens, pg'.tables.tokens, h)
  {
    if step.Sql? {
      AnswersAreAtomic(pg, pg', step.p, step.stmt, ev);
      assert TxOk(pg.tables, pg.born, pg.txs[step.p]);
      if ev.Answer? && !Misreads(pg, step.p) {
        AtomicAges(pg.tables, ev.op, ev.r, pg'.tables, h);
      }
    }
  }

  predicate Aged(tokens: map<string, RefreshToken>, tokens': map<string, RefreshToken>, h: string) {
    h in tokens' ==>
      && h in tokens && tokens'[h].expiresAt == tokens[h].expiresAt && (tokens[h].revoked ==> tokens'[h].revoked)
  }

  lemma AtomicAges(t: Tables, op: Op, r: Result, t': Tables, h: string)
    requires Exec(t, op, r, t') && (op.SaveToken? ==> op.token.hash != h)
    ensures Aged(t.tokens, t'.tokens, h)
  {
  }

  lemma {:induction false} RowsOnlyAge(run: seq<Pg>, steps: seq<Step>, evs: seq<Event>, i: nat, j: nat, h: string)
    requires RunOf(run, steps, evs) && i <= j < |run| && h in run[i].born
    ensures h in run[j].born && Aged(run[i].tables.tokens, run[j].tables.tokens, h)
    decreases j
  {
    if i < j {
      RowsOnlyAge(run, steps, evs, i, j - 1, h);
      InvAlways(run, steps, evs, j - 1);
      RowAges(run[j - 1], run[j], steps[j - 1], evs[j - 1], h);
    }
  }

  /** Step i is p's conditional UPDATE, and it matches nothing. */
  ghost predicate UnmatchedUpdate(run: seq<Pg>, steps: seq<Step>, evs: seq<Event>, i: nat, p: nat, hash: string,
      now: int) {
    && i < |steps| == |evs| && |run| == |steps| + 1
    && p in run[i].txs && run[i].txs[p] == Starting(Rotate(hash, now)) && steps[i] == Sql(p, Run) && evs[i] == Quiet
  }

  /** From there p waits until step j, its read. */
  ghost predicate RotationCall(run: seq<Pg>, steps: seq<Step>, evs: seq<Event>, i: nat, j: nat, p: nat, hash: string,
      now: int) {
    && UnmatchedUpdate(run, steps, evs, i, p, hash, now)
    && i < j < |steps| && steps[j] == Sql(p, Run)
    && forall m :: i < m <= j ==> p in run[m].txs && run[m].txs[p] == Classifying(hash, now)
  }

  /** The answer of step j is the atomic rotation's at some instant between the two statements. */
  ghost predicate AtomicAtSomeInstant(run: seq<Pg>, evs: seq<Event>, i: nat, j: nat, hash: string, now: int)
    requires j < |run| && j < |evs|
  {
    evs[j].Answer? && exists k :: i <= k <= j && Exec(run[k].tables, Rotate(hash, now), evs[j].r, run[k].tables)
  }

  /** A token that was stored before, whether its row is still there or not, is classified as
      the atomic rotation does at an instant of the call, whatever rotations, revocations and
      deletions come in between. */
  lemma StoredIsClassifiedAtomically(
    run: seq<Pg>, steps: seq<Step>, evs: seq<Event>, i: nat, j: nat, p: nat, hash: string, now: int)
    requires RunOf(run, steps, evs) && RotationCall(run, steps, evs, i, j, p, hash, now) && hash in run[i].born
    ensures AtomicAtSomeInstant(run, evs, i, j, hash, now)
  {
    assert NextStep(run[i], run[i + 1], steps[i], evs[i]) && NextStep(run[j], run[j + 1], steps[j], evs[j]);
    assert !Matches(run[i].tables.tokens, hash, now);
    RowsOnlyAge(run, steps, evs, i, j, hash);
    assert !Matches(run[j].tables.tokens, hash, now);
    assert Exec(run[j].tables, Rotate(hash, now), evs[j].r, run[j].tables);
  }

  // ----- the converse -----

  /** From state i on, the atomic rotation never finds the token expired. */
  ghost predicate NeverExpired(run: seq<Pg>, i: nat, hash: string, now: int) {
    forall k :: i <= k < |run| ==> !RotateResult(run[k].tables.tokens, hash, now).Expired?
  }

  /** A run of which p has waited for its read since step i, with nothing expired meanwhile. */
  ghost predicate Waiting(run: seq<Pg>, steps: seq<Step>, evs: seq<Event>, i: nat, p: nat, hash: string, now: int) {
    && RunOf(run, steps, evs) && UnmatchedUpdate(run, steps, evs, i, p, hash, now) && NeverExpired(run, i, hash, now)
    && forall m :: i < m < |run| ==> p in run[m].txs && run[m].txs[p] == Classifying(hash, now)
  }

  lemma Continue(run: seq<Pg>, steps: seq<Step>, evs: seq<Event>, i: nat, p: nat, hash: string, now: int,
                 pg: Pg, step: Step, ev: Event) returns (run': seq<Pg>, steps': seq<Step>, evs': seq<Event>)
    requires Waiting(run, steps, evs, i, p, hash, now) && NextStep(run[|run| - 1], pg, step, ev)
    requires p in pg.txs && pg.txs[p] == Classifying(hash, now) && !RotateResult(pg.tables.tokens, hash, now).Expired?
    ensures run' == run + [pg] && steps' == steps + [step] && evs' == evs + [ev]
    ensures Waiting(run', steps', evs', i, p, hash, now)
  {
    run', steps', evs' := run + [pg], steps + [step], evs + [ev];
    forall m | 0 <= m < |steps'|
      ensures NextStep(run'[m], run'[m + 1], steps'[m], evs'[m])
    {
      if m < |steps| { assert NextStep(run[m], run[m + 1], steps[m], evs[m]); }
    }
  }

  /** Every other transaction may roll back. */
  lemma {:induction false} OthersAbort(run: seq<Pg>, steps: seq<Step>, evs: seq<Event>, i: nat, p: nat, hash: string,
      now: int)
    returns (run': seq<Pg>, steps': seq<Step>, evs': seq<Event>)
    requires Waiting(run, steps, evs, i, p, hash, now)
    ensures Waiting(run', steps', evs', i, p, hash, now) && run <= run' && steps <= steps' && evs <= evs'
    ensures run'[|run'| - 1] == run[|run| - 1].(txs := map[p := Classifying(hash, now)])
    decreases |run[|run| - 1].txs|
  {
    var pg := run[|run| - 1];
    if q :| q in pg.txs && q != p {
      var next := pg.(txs := pg.txs - {q});
      assert next.txs.Keys == pg.txs.Keys - {q};
      run', steps', evs' := Continue(run, steps, evs, i, p, hash, now, next, Abort(q), Quiet);
      run', steps', evs' := OthersAbort(run', steps', evs', i, p, hash, now);
    } else {
      run', steps', evs' := run, steps, evs;
      assert pg.txs == map[p := Classifying(hash, now)];
    }
  }

  function Alone(t: Tables, born: set<string>, p: nat, hash: string, now: int): Pg {
    Pg(t, born, map[p := Classifying(hash, now)])
  }

  /** A user "u" is there, created if need be. */
  lemma SomeUser(run: seq<Pg>, steps: seq<Step>, evs: seq<Event>, i: nat, p: nat, hash: string, now: int, t: Tables,
      born: set<string>)
    returns (run': seq<Pg>, steps': seq<Step>, evs': seq<Event>)
    requires Waiting(run, steps, evs, i, p, hash, now) && run[|run| - 1] == Alone(t, born, p, hash, now)
    ensures Waiting(run', steps', evs', i, p, hash, now) && run <= run' && steps <= steps' && evs <= evs'
    ensures run'[|run'| - 1] == Alone(t.(users := t.users + {"u"}), born, p, hash, now)
  {
    var q, op := p + 1, CreateUser("u");
    var begun := Alone(t, born, p, hash, now).(txs := map[p := Classifying(hash, now), q := Starting(op)]);
    run', steps', evs' := Continue(run, steps, evs, i, p, hash, now, begun, Begin(q, op), Quiet);
    var r := if "u" in t.users then UserExists else Ok;
    var done := Alone(t.(users := t.users + {"u"}), born, p, hash, now);
    assert begun.txs - {q} == done.txs;
    assert "u" in t.users ==> t.users + {"u"} == t.users;
    run', steps', evs' := Continue(run', steps', evs', i, p, hash, now, done, Sql(q, Run), Answer(op, r));
  }

  /** The token is issued while p waits. */
  lemma TokenArrives(run: seq<Pg>, steps: seq<Step>, evs: seq<Event>, i: nat, p: nat, hash: string, now: int,
      t: Tables, born: set<string>)
    returns (run': seq<Pg>, steps': seq<Step>, evs': seq<Event>)
    requires Waiting(run, steps, evs, i, p, hash, now) && run[|run| - 1] == Alone(t, born, p, hash, now)
    requires "u" in t.users && hash !in born
    ensures Waiting(run', steps', evs', i, p, hash, now) && run <= run' && steps <= steps' && evs <= evs'
    ensures Misreads(run'[|run'| - 1], p)
  {
    var token := RefreshToken(hash, "u", "", now + 1, false, None, None);
    var q, op := p + 1, SaveToken(token);
    var begun := Alone(t, born, p, hash, now).(txs := map[p := Classifying(hash, now), q := Starting(op)]);
    run', steps', evs' := Continue(run, steps, evs, i, p, hash, now, begun, Begin(q, op), Quiet);
    var done := Alone(t.(tokens := t.tokens[hash := token]), born + {hash}, p, hash, now);
    assert begun.txs - {q} == done.txs;
    run', steps', evs' := Continue(run', steps', evs', i, p, hash, now, done, Sql(q, Run), Answer(op, Ok));
  }

  /** A token never stored before may be issued in between, and is then reported as expired
      though the atomic rotation finds it expired at no instant of the call. */
  lemma UnstoredMayBeMisread(run: seq<Pg>, steps: seq<Step>, evs: seq<Event>, p: nat, hash: string, now: int)
    returns (run': seq<Pg>, steps': seq<Step>, evs': seq<Event>, j: nat)
    requires RunOf(run, steps, evs) && |steps| > 0 && UnmatchedUpdate(run, steps, evs, |steps| - 1, p, hash, now)
    requires hash !in run[|steps| - 1].born
    ensures RunOf(run', steps', evs') && run <= run' && steps <= steps' && evs <= evs'
    ensures RotationCall(run', steps', evs', |steps| - 1, j, p, hash, now)
    ensures !AtomicAtSomeInstant(run', evs', |steps| - 1, j, hash, now)
  {
    var i := |steps| - 1;
    InvAlways(run, steps, evs, i);
    InvAlways(run, steps, evs, i + 1);
    assert NextStep(run[i], run[i + 1], steps[i], evs[i]);
    var t, born := run[i].tables, run[i].born;
    assert run[i + 1].tables == t && run[i + 1].born == born && hash !in t.tokens;
    run', steps', evs' := OthersAbort(run, steps, evs, i, p, hash, now);
    run', steps', evs' := SomeUser(run', steps', evs', i, p, hash, now, t, born);
    run', steps', evs' := TokenArrives(run', steps', evs', i, p, hash, now, t.(users := t.users + {"u"}), born);
    run', steps', evs', j := ReadAnswers(run', steps', evs', i, p, hash, now);
  }

  lemma ReadAnswers(run: seq<Pg>, steps: seq<Step>, evs: seq<Event>, i: nat, p: nat, hash: string, now: int)
    returns (run': seq<Pg>, steps': seq<Step>, evs': seq<Event>, j: nat)
    requires Waiting(run, steps, evs, i, p, hash, now) && Misreads(run[|run| - 1], p) && i < |run| - 1
    ensures RunOf(run', steps', evs') && run <= run' && steps <= steps' && evs <= evs'
    ensures RotationCall(run', steps', evs', i, j, p, hash, now) && !AtomicAtSomeInstant(run', evs', i, j, hash, now)
  {
    j := |run| - 1;
    var pg := run[j];
    var ev := Answer(Rotate(hash, now), Expired(pg.tables.tokens[hash]));
    run', steps', evs' := run + [pg.(txs := pg.txs - {p})], steps + [Sql(p, Run)], evs + [ev];
    forall m | 0 <= m < |steps'|
      ensures NextStep(run'[m], run'[m + 1], steps'[m], evs'[m])
    {
      if m < |steps| { assert NextStep(run[m], run[m + 1], steps[m], evs[m]); }
    }
    forall k | i <= k <= j
      ensures !Exec(run'[k].tables, Rotate(hash, now), ev.r, run'[k].tables)
    {
      assert run'[k] == run[k];
    }
  }

  /** A longer run in which the call whose UPDATE came last gets its answer at step j. */
  ghost predicate AnsweredLater(run: seq<Pg>, steps: seq<Step>, evs: seq<Event>,
                                run': seq<Pg>, steps': seq<Step>, evs': seq<Event>, j: nat, p: nat,
                                hash: string, now: int) {
    && RunOf(run', steps', evs') && run <= run' && steps <= steps' && evs <= evs'
    && |steps| > 0 && RotationCall(run', steps', evs', |steps| - 1, j, p, hash, now)
  }

  /** Exactly when the two statements classify as one: whatever comes after the unmatched UPDATE,
      the read answers as the atomic rotation does at some instant of the call, if and only if
      the presented token had been stored before. */
  lemma ClassifiedAtomicallyIffStored(run: seq<Pg>, steps: seq<Step>, evs: seq<Event>, p: nat, hash: string, now: int)
    requires RunOf(run, steps, evs) && |steps| > 0 && UnmatchedUpdate(run, steps, evs, |steps| - 1, p, hash, now)
    ensures hash in run[|steps| - 1].born <==>
              forall run', steps', evs', j :: AnsweredLater(run, steps, evs, run', steps', evs', j, p, hash, now) ==>
                AtomicAtSomeInstant(run', evs', |steps| - 1, j, hash, now)
  {
    var i := |steps| - 1;
    if hash in run[i].born {
      forall run', steps', evs', j | AnsweredLater(run, steps, evs, run', steps', evs', j, p, hash, now)
        ensures AtomicAtSomeInstant(run', evs', i, j, hash, now)
      {
        assert run'[i] == run[i];
        StoredIsClassifiedAtomically(run', steps', evs', i, j, p, hash, now);
      }
    } else {
      var run', steps', evs', j := UnstoredMayBeMisread(run, steps, evs, p, hash, now);
      assert AnsweredLater(run, steps, evs, run', steps', evs', j, p, hash, now);
    }
  }

  /** Such a run from the empty database: a hash is presented, its token is issued between the
      two statements, and the live token is reported as expired. */
  lemma LiveTokenReportedExpired() returns (run: seq<Pg>, steps: seq<Step>, evs: seq<Event>, j: nat)
    ensures RunOf(run, steps, evs) && RotationCall(run, steps, evs, 1, j, 0, "h", 5)
    ensures !AtomicAtSomeInstant(run, evs, 1, j, "h", 5)
  {
    var empty := Pg(Tables({}, map[]), {}, map[]);
    var op := Rotate("h", 5);
    run := [empty, empty.(txs := map[0 := Starting(op)]), empty.(txs := map[0 := Classifying("h", 5)])];
    steps, evs := [Begin(0, op), Sql(0, Run)], [Quiet, Quiet];
    assert NextStep(run[0], run[1], steps[0], evs[0]);
    assert NextStep(run[1], run[2], steps[1], evs[1]);
    run, steps, evs, j := UnstoredMayBeMisread(run, steps, evs, 0, "h", 5);
  }
}
