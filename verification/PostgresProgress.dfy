/** What the statement machine can always do: whatever transactions are in flight, a call is
    answered, as the atomic operation would on the committed tables, if the others roll back. */
module PostgresProgress {
  import opened Entities
  import opened RefreshStore
  import opened PostgresRefresh
  import opened PostgresRefinement

  /** A run with its steps and what they answered. */
  datatype Trace = Trace(run: seq<Pg>, steps: seq<PostgresRefinement.Step>, evs: seq<Event>)

  ghost predicate IsRun(t: Trace) {
    RunOf(t.run, t.steps, t.evs)
  }

  function Last(t: Trace): Pg
    requires t.run != []
  {
    t.run[|t.run| - 1]
  }

  ghost predicate Continues(t: Trace, longer: Trace) {
    IsRun(longer) && t.run <= longer.run && t.steps <= longer.steps && t.evs <= longer.evs
  }

  lemma Extend(t: Trace, pg: Pg, step: PostgresRefinement.Step, ev: Event) returns (longer: Trace)
    requires IsRun(t) && NextStep(Last(t), pg, step, ev)
    ensures Continues(t, longer) && Last(longer) == pg && longer.evs == t.evs + [ev]
  {
    longer := Trace(t.run + [pg], t.steps + [step], t.evs + [ev]);
    forall i | 0 <= i < |longer.steps|
      ensures NextStep(longer.run[i], longer.run[i + 1], longer.steps[i], longer.evs[i])
    {
      if i < |t.steps| { assert NextStep(t.run[i], t.run[i + 1], t.steps[i], t.evs[i]); }
    }
  }

  ghost predicate Alone(pg: Pg, p: nat) {
    pg.txs.Keys == {p}
  }

  lemma {:induction false} OthersRollBack(t: Trace, p: nat) returns (longer: Trace)
    requires IsRun(t) && p in Last(t).txs
    ensures Continues(t, longer) && Alone(Last(longer), p) && Last(longer).txs[p] == Last(t).txs[p]
    ensures Last(longer).tables == Last(t).tables && Last(longer).born == Last(t).born
    decreases |Last(t).txs|
  {
    var pg := Last(t);
    if q :| q in pg.txs && q != p {
      var next := pg.(txs := pg.txs - {q});
      assert next.txs.Keys == pg.txs.Keys - {q};
      longer := Extend(t, next, PostgresRefinement.Abort(q), Quiet);
      longer := OthersRollBack(longer, p);
    } else {
      longer := t;
      assert pg.txs.Keys == {p};
    }
  }

  /** How far a transaction is from its answer. */
  function Level(tx: Tx): nat {
    match tx
    case Starting(_) => 2
    case Sweeping(_, _, _) => 1
    case Cascading(_) => 1
    case Inserting(_) => 1
    case _ => 0
  }

  function Todo(tx: Tx): set<string> {
    match tx
    case Revoking(_, _, _, todo, _) => todo
    case Erasing(_, todo, _) => todo
    case _ => {}
  }

  function Moved(pg: Pg, p: nat, tx: Tx): Pg {
    pg.(txs := pg.txs[p := tx])
  }

  function Answered(pg: Pg, p: nat, tables: Tables, r: Result): Pg
    requires p in pg.txs
  {
    Pg(tables, Born(pg.born, OpOf(pg.txs[p]), r), pg.txs - {p})
  }

  /** A transaction that meets no other is never blocked, and each of its statements brings it
      nearer its answer. */
  lemma NextStatement(pg: Pg, p: nat) returns (pg': Pg, stmt: Stmt, ev: Event)
    requires Inv(pg) && Alone(pg, p)
    ensures p in pg.txs && Statement(pg, pg', p, stmt, ev)
    ensures ev == Quiet ==> Alone(pg', p)
    ensures ev == Quiet ==>
              Level(pg'.txs[p]) < Level(pg.txs[p])
              || (Level(pg'.txs[p]) == Level(pg.txs[p]) && Todo(pg'.txs[p]) < Todo(pg.txs[p]))
  {
    assert p in pg.txs && forall q :: q in pg.txs ==> q == p;
    assert TxOk(pg.tables, pg.born, pg.txs[p]);
    stmt := Run;
    match pg.txs[p]
    case Starting(op) => pg', ev := FirstStatement(pg, p, op);
    case Inserting(token) =>
      if token.userId in pg.tables.users {
        pg', ev := Moved(pg, p, Inserted(token)), Quiet;
      } else {
        pg', ev := Answered(pg, p, pg.tables, UserNotFound), Answer(SaveToken(token), UserNotFound);
      }
    case Inserted(token) =>
      pg' := Answered(pg, p, pg.tables.(tokens := pg.tables.tokens[token.hash := token]), Ok);
      ev := Answer(SaveToken(token), Ok);
    case Classifying(hash, now) =>
      var r := Classified(pg.tables.tokens, hash);
      pg', ev := Answered(pg, p, pg.tables, r), Answer(Rotate(hash, now), r);
    case Sweeping(root, now, locked) =>
      var todo := set h | h in pg.tables.tokens && InFamily(pg.tables.tokens[h], root);
      pg', ev := Moved(pg, p, Revoking(root, now, locked, todo, map[])), Quiet;
    case Revoking(_, _, _, _, _) => pg', stmt, ev := NextRevocation(pg, p);
    case Cascading(id) =>
      var todo := set h | h in pg.tables.tokens && pg.tables.tokens[h].userId == id;
      pg', ev := Moved(pg, p, Erasing(id, todo, {})), Quiet;
    case Erasing(_, _, _) => pg', stmt, ev := NextErasure(pg, p);
  }

  lemma NextRevocation(pg: Pg, p: nat) returns (pg': Pg, stmt: Stmt, ev: Event)
    requires p in pg.txs && (forall q :: q in pg.txs ==> q == p) && pg.txs[p].Revoking?
    ensures Statement(pg, pg', p, stmt, ev)
    ensures ev == Quiet ==> pg'.txs.Keys == pg.txs.Keys && pg'.txs[p].Revoking? && Todo(pg'.txs[p]) < Todo(pg.txs[p])
  {
    var tx := pg.txs[p];
    if h :| h in tx.todo {
      stmt, ev := Row(h), Quiet;
      var writes := if h in pg.tables.tokens && InFamily(pg.tables.tokens[h], tx.root)
                    then tx.writes[h := Ending(pg.tables.tokens[h], tx.now)] else tx.writes;
      pg' := Moved(pg, p, Revoking(tx.root, tx.now, tx.locked, tx.todo - {h}, writes));
    } else {
      stmt, ev := Run, Answer(Revoke(tx.root, tx.now), Ok);
      pg' := Answered(pg, p, pg.tables.(tokens := pg.tables.tokens + tx.writes), Ok);
    }
  }

  lemma NextErasure(pg: Pg, p: nat) returns (pg': Pg, stmt: Stmt, ev: Event)
    requires p in pg.txs && (forall q :: q in pg.txs ==> q == p) && pg.txs[p].Erasing?
    ensures Statement(pg, pg', p, stmt, ev)
    ensures ev == Quiet ==> pg'.txs.Keys == pg.txs.Keys && pg'.txs[p].Erasing? && Todo(pg'.txs[p]) < Todo(pg.txs[p])
  {
    var tx := pg.txs[p];
    if h :| h in tx.todo {
      stmt, ev := Row(h), Quiet;
      var doomed := if h in pg.tables.tokens && pg.tables.tokens[h].userId == tx.id then tx.doomed + {h} else tx.doomed;
      pg' := Moved(pg, p, Erasing(tx.id, tx.todo - {h}, doomed));
    } else {
      stmt, ev := Run, Answer(DeleteUser(tx.id), Ok);
      pg' := Answered(pg, p, Tables(pg.tables.users - {tx.id}, pg.tables.tokens - tx.doomed), Ok);
    }
  }

  lemma FirstStatement(pg: Pg, p: nat, op: Op) returns (pg': Pg, ev: Event)
    requires p in pg.txs && (forall q :: q in pg.txs ==> q == p) && pg.txs[p] == Starting(op)
    ensures First(pg, pg', p, op, ev)
    ensures ev == Quiet ==> pg'.txs.Keys == pg.txs.Keys && Level(pg'.txs[p]) < 2
  {
    var t := pg.tables;
    match op
    case CreateUser(id) =>
      var r := if id in t.users then UserExists else Ok;
      pg' := Answered(pg, p, if id in t.users then t else t.(users := t.users + {id}), r);
      ev := Answer(op, r);
    case DeleteUser(id) =>
      if id in t.users {
        pg', ev := Moved(pg, p, Cascading(id)), Quiet;
      } else {
        pg', ev := Answered(pg, p, t, UserNotFound), Answer(op, UserNotFound);
      }
    case GetUser(id) =>
      var r := if id in t.users then Ok else UserNotFound;
      pg', ev := Answered(pg, p, t, r), Answer(op, r);
    case GetToken(hash) =>
      var r := if hash in t.tokens then Found(t.tokens[hash]) else TokenNotFound;
      pg', ev := Answered(pg, p, t, r), Answer(op, r);
    case ReadFamily(root) =>
      var f := SummaryExists(t.tokens, root);
      pg', ev := Answered(pg, p, t, Summary(f)), Answer(op, Summary(f));
    case SaveToken(token) =>
      if token.parent == "" {
        var r := if token.userId in t.users then Ok else UserNotFound;
        pg' := Answered(pg, p, if r == Ok then t.(tokens := t.tokens[token.hash := token]) else t, r);
        ev := Answer(op, r);
      } else if token.parent !in t.tokens || t.tokens[token.parent].endedAt.Some? {
        pg', ev := Answered(pg, p, t, Refused), Answer(op, Refused);
      } else {
        pg', ev := Moved(pg, p, Inserting(token)), Quiet;
      }
    case Rotate(hash, now) =>
      if Matches(t.tokens, hash, now) {
        var rt := Rotation(t.tokens[hash], now);
        pg', ev := Answered(pg, p, t.(tokens := t.tokens[hash := rt]), Rotated(rt)), Answer(op, Rotated(rt));
      } else {
        pg', ev := Moved(pg, p, Classifying(hash, now)), Quiet;
      }
    case Revoke(root, now) =>
      pg', ev := Moved(pg, p, Sweeping(root, now, root in t.tokens)), Quiet;
  }

  /** A transaction alone runs to its answer. */
  lemma {:induction false} AloneIsAnswered(t: Trace, p: nat) returns (longer: Trace)
    requires IsRun(t) && p in Last(t).txs && Alone(Last(t), p)
    ensures Continues(t, longer) && |longer.evs| > 0
    ensures var ev := longer.evs[|longer.evs| - 1];
            && ev.Answer? && ev.op == OpOf(Last(t).txs[p])
            && (Exec(Last(t).tables, ev.op, ev.r, Last(longer).tables)
                || (Misreads(Last(t), p) && Last(longer).tables == Last(t).tables))
    decreases Level(Last(t).txs[p]), Todo(Last(t).txs[p])
  {
    var pg', stmt, ev := NextStatementOf(t, p);
    longer := Extend(t, pg', Sql(p, stmt), ev);
    if ev == Quiet {
      longer := AloneIsAnswered(longer, p);
    }
  }

  /** That statement, in a run: silent and nearer the answer, or the atomic answer itself. */
  lemma NextStatementOf(t: Trace, p: nat) returns (pg': Pg, stmt: Stmt, ev: Event)
    requires IsRun(t) && p in Last(t).txs && Alone(Last(t), p)
    ensures Statement(Last(t), pg', p, stmt, ev)
    ensures ev == Quiet ==> p in pg'.txs && Alone(pg', p) && OpOf(pg'.txs[p]) == OpOf(Last(t).txs[p])
    ensures ev == Quiet ==> pg'.tables == Last(t).tables && !Misreads(pg', p)
    ensures ev == Quiet ==>
              Level(pg'.txs[p]) < Level(Last(t).txs[p])
              || (Level(pg'.txs[p]) == Level(Last(t).txs[p]) && Todo(pg'.txs[p]) < Todo(Last(t).txs[p]))
    ensures ev.Answer? ==> ev.op == OpOf(Last(t).txs[p])
    ensures ev.Answer? && !Misreads(Last(t), p) ==> Exec(Last(t).tables, ev.op, ev.r, pg'.tables)
    ensures ev.Answer? && Misreads(Last(t), p) ==> pg'.tables == Last(t).tables
  {
    var pg := Last(t);
    InvAlways(t.run, t.steps, t.evs, |t.run| - 1);
    pg', stmt, ev := NextStatement(pg, p);
    AnswersAreAtomic(pg, pg', p, stmt, ev);
    if ev == Quiet {
      MoverStaysOk(pg, pg', p, stmt, ev);
      NoFreshMisread(pg, pg', p, stmt);
    }
  }

  /** An UPDATE that matched nothing leaves nothing to misread. */
  lemma NoFreshMisread(pg: Pg, pg': Pg, p: nat, stmt: Stmt)
    requires p in pg.txs && Statement(pg, pg', p, stmt, Quiet)
    ensures !Misreads(pg', p)
  {
  }

  /** Every call in flight can be answered: from every reachable state, whatever else is going on,
      some continuation answers it as the atomic operation does on the tables committed now. Only
      a rotation whose UPDATE has already missed a token since stored may be answered as expired. */
  lemma EveryCallCanBeAnswered(t: Trace, p: nat) returns (longer: Trace)
    requires IsRun(t) && p in Last(t).txs
    ensures Continues(t, longer) && |longer.evs| > 0
    ensures var ev := longer.evs[|longer.evs| - 1];
            && ev.Answer? && ev.op == OpOf(Last(t).txs[p])
            && (Exec(Last(t).tables, ev.op, ev.r, Last(longer).tables)
                || (Misreads(Last(t), p) && Last(longer).tables == Last(t).tables))
  {
    longer := OthersRollBack(t, p);
    longer := AloneIsAnswered(longer, p);
  }

  /** And every call can be made, of a save one under a hash never stored before: it is answered,
      atomically, if the others roll back. */
  lemma EveryCallCanBeMade(t: Trace, p: nat, op: Op) returns (longer: Trace)
    requires IsRun(t) && p !in Last(t).txs
    requires op.SaveToken? ==> !op.token.revoked && op.token.rotatedAt.None? && op.token.endedAt.None?
    requires op.SaveToken? ==> op.token.hash !in Last(t).born
    requires op.Revoke? ==> op.root != ""
    ensures Continues(t, longer) && |longer.evs| > 0
    ensures var ev := longer.evs[|longer.evs| - 1];
            ev.Answer? && ev.op == op && Exec(Last(t).tables, op, ev.r, Last(longer).tables)
  {
    longer := AllRollBack(t);
    var pg := Last(longer);
    longer := Extend(longer, pg.(txs := map[p := Starting(op)]), PostgresRefinement.Begin(p, op), Quiet);
    longer := AloneIsAnswered(longer, p);
  }

  lemma {:induction false} AllRollBack(t: Trace) returns (longer: Trace)
    requires IsRun(t)
    ensures Continues(t, longer) && Last(longer) == Last(t).(txs := map[])
    decreases |Last(t).txs|
  {
    var pg := Last(t);
    if q :| q in pg.txs {
      var next := pg.(txs := pg.txs - {q});
      assert next.txs.Keys == pg.txs.Keys - {q};
      longer := Extend(t, next, PostgresRefinement.Abort(q), Quiet);
      longer := AllRollBack(longer);
    } else {
      longer := t;
      assert pg.txs == map[];
    }
  }
}
