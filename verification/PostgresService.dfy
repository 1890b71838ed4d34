/** The refresh service running on the statement machine of store/postgres: requests and
    transactions interleave at the grain of single statements and single rows. */
module PostgresService {
  import opened Entities
  import opened RefreshStore
  import Pg = PostgresRefresh
  import Refinement = PostgresRefinement
  import Service = RefreshService
  import Theorems = RefreshTheorems

  datatype System = System(service: Service.State, txs: map<nat, Pg.Tx>)

  datatype Step =
    | Local(step: Service.Step)                  // a request starts or mints a token
    | Begin(p: nat, op: Op)                      // it calls the store
    | Sql(p: nat, stmt: Pg.Stmt, ev: Pg.Event)   // the store works on a call, and may answer it
    | Fail(p: nat)                               // the request or its transaction is lost

  function Store(s: System): Pg.Pg {
    Pg.Pg(s.service.tables, s.service.born, s.txs)
  }

  ghost predicate NextStep(setting: int, s: System, s': System, step: Step) {
    match step
    case Local(local) =>
      && (local.Spawn? || local.Mint?)
      && Service.NextStep(setting, s.service, s'.service, local) && s'.txs == s.txs
    case Begin(p, op) =>
      && p in s.service.procs && Service.Calls(s.service.procs[p], op)
      && Pg.Enter(Store(s), Store(s'), p, op) && s'.service == s.service
    case Sql(p, stmt, ev) =>
      && p in s.txs && p in s.service.procs && Pg.Statement(Store(s), Store(s'), p, stmt, ev)
      && s'.service == if ev.Quiet? then s.service
                       else Service.After(setting, s.service, p, ev.op, ev.r, s'.service.tables)
    case Fail(p) =>
      && Service.NextStep(setting, s.service, s'.service, Service.Fail(p)) && s'.txs == s.txs - {p}
  }

  ghost predicate Next(setting: int, s: System, s': System) {
    exists step :: NextStep(setting, s, s', step)
  }

  ghost predicate Run(setting: int, run: seq<System>) {
    && |run| > 0 && Service.Init(run[0].service) && run[0].txs == map[]
    && forall i, j :: 0 <= i && j == i + 1 && j < |run| ==> Next(setting, run[i], run[j])
  }

  /** Every transaction works on the call its request has made. */
  ghost predicate Inv(setting: int, s: System) {
    && Service.Inv(setting, s.service)
    && Pg.Inv(Store(s))
    && forall p :: p in s.txs ==> p in s.service.procs && Service.Calls(s.service.procs[p], Pg.OpOf(s.txs[p]))
  }

  // ----- every step keeps it -----

  /** The service's calls are fresh by themselves: a minted hash was never stored, is minted once,
      and families are revoked by hashes that were. */
  lemma CallsAreFresh(setting: int, s: System, p: nat, op: Op)
    requires Inv(setting, s) && p in s.service.procs && p !in s.txs && Service.Calls(s.service.procs[p], op)
    ensures Pg.Fresh(Store(s), op)
  {
    CallIsOk(setting, s.service, p, op);
    forall q | q in s.txs
      ensures Pg.Apart(Pg.OpOf(s.txs[q]), op)
    {
      CallIsOk(setting, s.service, q, Pg.OpOf(s.txs[q]));
      MintsApart(setting, s.service, p, op, q, Pg.OpOf(s.txs[q]));
    }
  }

  lemma CallIsOk(setting: int, s: Service.State, p: nat, op: Op)
    requires Service.Inv(setting, s) && p in s.procs && Service.Calls(s.procs[p], op)
    ensures Pg.CallOk(s.born, op) && (op.Revoke? ==> op.root in s.born)
  {
    assert Service.PcOk(setting, s.tables, s.born, s.generated, s.procs[p]);
  }

  lemma MintsApart(setting: int, s: Service.State, p: nat, op: Op, q: nat, op': Op)
    requires Service.Inv(setting, s) && p in s.procs && q in s.procs && p != q
    requires Service.Calls(s.procs[p], op) && Service.Calls(s.procs[q], op')
    ensures op.SaveToken? && op'.SaveToken? ==> op.token.hash != op'.token.hash
  {
    assert !Service.SameMint(s.procs[p], s.procs[q]);
  }

  lemma InvStep(setting: int, s: System, s': System, step: Step)
    requires Inv(setting, s) && NextStep(setting, s, s', step)
    ensures Inv(setting, s')
  {
    match step
    case Local(local) =>
      Service.InvStep(setting, s.service, s'.service, local);
      assert local.Mint? ==> local.p !in s.txs;
    case Begin(p, op) =>
      CallsAreFresh(setting, s, p, op);
      Refinement.BeginKeepsInv(Store(s), Store(s'), p, op);
    case Sql(p, stmt, ev) => SqlKeepsInv(setting, s, s', p, stmt, ev);
    case Fail(p) =>
      Service.InvStep(setting, s.service, s'.service, Service.Fail(p));
      if p in s.txs {
        Refinement.AbortKeepsInv(Store(s), Store(s'), p);
      } else {
        assert s'.txs == s.txs;
      }
  }

  lemma SqlKeepsInv(setting: int, s: System, s': System, p: nat, stmt: Pg.Stmt, ev: Pg.Event)
    requires Inv(setting, s) && NextStep(setting, s, s', Sql(p, stmt, ev))
    ensures Inv(setting, s')
  {
    Refinement.SqlKeepsInv(Store(s), Store(s'), p, stmt, ev);
    if ev.Quiet? {
      Refinement.MoverStaysOk(Store(s), Store(s'), p, stmt, ev);
      assert s'.txs == s.txs[p := s'.txs[p]];
    } else {
      AnswerMoves(setting, s, s', p, stmt, ev);
      AnswerKeepsServiceInv(setting, s, s', p, ev);
    }
  }

  lemma AnswerMoves(setting: int, s: System, s': System, p: nat, stmt: Pg.Stmt, ev: Pg.Event)
    requires Inv(setting, s) && NextStep(setting, s, s', Sql(p, stmt, ev)) && ev.Answer?
    ensures s'.txs == s.txs - {p} && Service.Calls(s.service.procs[p], ev.op)
    ensures s'.service.procs == s.service.procs[p := s'.service.procs[p]]
    ensures Refinement.Misreads(Store(s), p) ==>
              s'.service == s.service.(procs := s.service.procs[p := Service.Done(Service.Rejected)])
    ensures !Refinement.Misreads(Store(s), p) ==> Exec(s.service.tables, ev.op, ev.r, s'.service.tables)
  {
    Refinement.AnswersAreAtomic(Store(s), Store(s'), p, stmt, ev);
    assert Service.Calls(s.service.procs[p], Pg.OpOf(s.txs[p]));
    if Refinement.Misreads(Store(s), p) {
      ExpiredIsRejected(setting, s.service, p, ev.op, ev.r);
    }
  }

  lemma ExpiredIsRejected(setting: int, s: Service.State, p: nat, op: Op, r: Result)
    requires p in s.procs && s.procs[p].Rotating? && op.Rotate? && r.Expired?
    ensures Service.After(setting, s, p, op, r, s.tables) == s.(procs := s.procs[p := Service.Done(Service.Rejected)])
  {
  }

  lemma AnswerKeepsServiceInv(setting: int, s: System, s': System, p: nat, ev: Pg.Event)
    requires Service.Inv(setting, s.service) && p in s.service.procs && ev.Answer?
    requires Service.Calls(s.service.procs[p], ev.op)
    requires s'.service == Service.After(setting, s.service, p, ev.op, ev.r, s'.service.tables)
    requires if Refinement.Misreads(Store(s), p)
             then s'.service == s.service.(procs := s.service.procs[p := Service.Done(Service.Rejected)])
             else Exec(s.service.tables, ev.op, ev.r, s'.service.tables)
    ensures Service.Inv(setting, s'.service)
  {
    if Refinement.Misreads(Store(s), p) {
      RejectionKeepsInv(setting, s.service, s'.service, p);
    } else {
      Service.InvStep(setting, s.service, s'.service, Service.Call(p, ev.op, ev.r));
    }
  }

  lemma RejectionKeepsInv(setting: int, s: Service.State, s': Service.State, p: nat)
    requires Service.Inv(setting, s) && p in s.procs && s' == s.(procs := s.procs[p := Service.Done(Service.Rejected)])
    ensures Service.Inv(setting, s')
  {
    forall q | q in s'.procs
      ensures Service.PcOk(setting, s'.tables, s'.born, s'.generated, s'.procs[q])
    {
      if q != p { assert Service.PcOk(setting, s.tables, s.born, s.generated, s.procs[q]); }
    }
  }

  lemma {:induction false} InvAlways(setting: int, run: seq<System>, i: nat)
    requires Run(setting, run) && i < |run|
    ensures Inv(setting, run[i])
  {
    if i > 0 {
      InvAlways(setting, run, i - 1);
      assert Next(setting, run[i - 1], run[i]);
      var step :| NextStep(setting, run[i - 1], run[i], step);
      InvStep(setting, run[i - 1], run[i], step);
    }
  }

  // ----- refinement -----

  /** The step from s to s' answers p's rotation by a misread: a live token is called expired. */
  ghost predicate Misjudges(s: System, s': System, p: nat) {
    && Refinement.Misreads(Store(s), p)
    && p !in s'.txs && p in s'.service.procs && s'.service.procs[p] == Service.Done(Service.Rejected)
  }

  /** At state i, p waits for a read that is going to be a misread. */
  ghost predicate Misjudged(run: seq<System>, i: nat, p: nat)
    decreases |run| - i
  {
    && i + 1 < |run| && p in run[i].txs && run[i].txs[p].Classifying?
    && (Misjudges(run[i], run[i + 1], p) || Misjudged(run, i + 1, p))
  }

  /** What the requests see at state i. To the service a token that is missing and one that has
      expired are the same refusal, so a misread counts as decided by the UPDATE, when the token
      was missing. */
  ghost function View(run: seq<System>, i: nat): Service.State
    requires i < |run|
  {
    var s := run[i].service;
    s.(procs := map p | p in s.procs :: if Misjudged(run, i, p) then Service.Done(Service.Rejected) else s.procs[p])
  }

  /** A request no step is about is seen as before. */
  lemma BystanderSeenAsBefore(run: seq<System>, i: nat, q: nat)
    requires i + 1 < |run|
    requires q in run[i].txs <==> q in run[i + 1].txs
    requires q in run[i].txs ==> run[i].txs[q] == run[i + 1].txs[q]
    ensures Misjudged(run, i, q) <==> Misjudged(run, i + 1, q)
  {
  }

  /** Only one request is seen to move. */
  lemma OneMoves(run: seq<System>, i: nat, p: nat)
    requires i + 1 < |run|
    requires forall q :: q != p ==> (q in run[i].txs <==> q in run[i + 1].txs)
    requires forall q :: q != p && q in run[i].txs ==> run[i].txs[q] == run[i + 1].txs[q]
    requires p in run[i + 1].service.procs
    requires run[i + 1].service.procs == run[i].service.procs[p := run[i + 1].service.procs[p]]
    ensures p in View(run, i + 1).procs && View(run, i + 1).procs == View(run, i).procs[p := View(run, i + 1).procs[p]]
  {
    forall q | q in run[i].service.procs && q != p
      ensures Misjudged(run, i, q) <==> Misjudged(run, i + 1, q)
    {
      BystanderSeenAsBefore(run, i, q);
    }
  }

  /** A token stored when the UPDATE ran is never misjudged. */
  lemma {:induction false} MisjudgedWasUnstored(setting: int, run: seq<System>, i: nat, p: nat, hash: string, now: int)
    requires Run(setting, run) && i < |run| && Misjudged(run, i, p) && run[i].txs[p] == Pg.Classifying(hash, now)
    ensures hash !in run[i].service.born || Pg.Matches(run[i].service.tables.tokens, hash, now)
    decreases |run| - i
  {
    if !Misjudges(run[i], run[i + 1], p) {
      InvAlways(setting, run, i);
      assert Next(setting, run[i], run[i + 1]);
      var step :| NextStep(setting, run[i], run[i + 1], step);
      WaiterWaits(setting, run[i], run[i + 1], step, p);
      MisjudgedWasUnstored(setting, run, i + 1, p, hash, now);
      if hash in run[i].service.born {
        StoredAges(setting, run[i], run[i + 1], step, hash);
      }
    }
  }

  lemma WaiterWaits(setting: int, s: System, s': System, step: Step, p: nat)
    requires NextStep(setting, s, s', step) && p in s.txs && s.txs[p].Classifying? && p in s'.txs
    ensures s'.txs[p] == s.txs[p]
  {
  }

  lemma StoredAges(setting: int, s: System, s': System, step: Step, hash: string)
    requires Inv(setting, s) && NextStep(setting, s, s', step) && hash in s.service.born
    ensures hash in s'.service.born && Refinement.Aged(s.service.tables.tokens, s'.service.tables.tokens, hash)
  {
    if step.Sql? {
      Refinement.RowAges(Store(s), Store(s'), Refinement.Sql(step.p, step.stmt), step.ev, hash);
    }
  }

  lemma StepRefines(setting: int, run: seq<System>, i: nat)
    requires Run(setting, run) && i + 1 < |run|
    ensures Service.Next(setting, View(run, i), View(run, i + 1))
  {
    InvAlways(setting, run, i);
    assert Next(setting, run[i], run[i + 1]);
    var step :| NextStep(setting, run[i], run[i + 1], step);
    match step
    case Local(local) => LocalRefines(setting, run, i, local);
    case Begin(p, op) => BeginRefines(setting, run, i, p, op);
    case Sql(p, stmt, ev) =>
      if ev.Quiet? { QuietRefines(setting, run, i, p, stmt); } else { AnswerRefines(setting, run, i, p, stmt, ev); }
    case Fail(p) => FailRefines(setting, run, i, p);
  }

  lemma LocalRefines(setting: int, run: seq<System>, i: nat, local: Service.Step)
    requires i + 1 < |run| && Inv(setting, run[i]) && NextStep(setting, run[i], run[i + 1], Local(local))
    ensures Service.Next(setting, View(run, i), View(run, i + 1))
  {
    assert local.p !in run[i].txs;
    OneMoves(run, i, local.p);
    assert Service.NextStep(setting, View(run, i), View(run, i + 1), local);
  }

  lemma BeginRefines(setting: int, run: seq<System>, i: nat, p: nat, op: Op)
    requires i + 1 < |run| && Inv(setting, run[i]) && NextStep(setting, run[i], run[i + 1], Begin(p, op))
    ensures Service.Next(setting, View(run, i), View(run, i + 1))
  {
    OneMoves(run, i, p);
    assert View(run, i + 1).procs == View(run, i).procs;
    assert Service.NextStep(setting, View(run, i), View(run, i + 1), Service.Idle);
  }

  lemma FailRefines(setting: int, run: seq<System>, i: nat, p: nat)
    requires i + 1 < |run| && Inv(setting, run[i]) && NextStep(setting, run[i], run[i + 1], Fail(p))
    ensures Service.Next(setting, View(run, i), View(run, i + 1))
  {
    OneMoves(run, i, p);
    assert Service.NextStep(setting, View(run, i), View(run, i + 1), Service.Fail(p));
  }

  /** A silent statement is nothing, unless it is the UPDATE of a call that will be misjudged:
      there the token was missing, and the request is refused. */
  lemma QuietRefines(setting: int, run: seq<System>, i: nat, p: nat, stmt: Pg.Stmt)
    requires Run(setting, run) && i + 1 < |run| && Inv(setting, run[i])
    requires NextStep(setting, run[i], run[i + 1], Sql(p, stmt, Pg.Quiet))
    ensures Service.Next(setting, View(run, i), View(run, i + 1))
  {
    QuietMoves(setting, run[i], run[i + 1], p, stmt);
    OneMoves(run, i, p);
    if Misjudged(run, i + 1, p) {
      MisjudgedWasUnstored(setting, run, i + 1, p, run[i + 1].txs[p].hash, run[i + 1].txs[p].now);
      RefusedByUpdate(setting, View(run, i), View(run, i + 1), p);
    } else {
      Unseen(setting, run, i, p);
    }
  }

  lemma Unseen(setting: int, run: seq<System>, i: nat, p: nat)
    requires i + 1 < |run| && run[i + 1].service == run[i].service && p in run[i].service.procs
    requires View(run, i + 1).procs == View(run, i).procs[p := run[i].service.procs[p]] && !Misjudged(run, i, p)
    ensures Service.Next(setting, View(run, i), View(run, i + 1))
  {
    assert View(run, i + 1).procs == View(run, i).procs;
    assert Service.NextStep(setting, View(run, i), View(run, i + 1), Service.Idle);
  }

  lemma QuietMoves(setting: int, s: System, s': System, p: nat, stmt: Pg.Stmt)
    requires Inv(setting, s) && NextStep(setting, s, s', Sql(p, stmt, Pg.Quiet))
    ensures p in s'.txs && s'.txs == s.txs[p := s'.txs[p]] && !s.txs[p].Classifying?
    ensures s'.txs[p].Classifying? ==>
              var hash, now := s'.txs[p].hash, s'.txs[p].now;
              && s.service.procs[p] == Service.Rotating(hash, now) && !Pg.Matches(s.service.tables.tokens, hash, now)
              && (hash in s.service.tables.tokens ==> hash in s.service.born)
  {
    Refinement.MoverStaysOk(Store(s), Store(s'), p, stmt, Pg.Quiet);
    assert Service.Calls(s.service.procs[p], Pg.OpOf(s.txs[p]));
    if s'.txs[p].Classifying? {
      assert s.txs[p] == Pg.Starting(Rotate(s'.txs[p].hash, s'.txs[p].now));
    }
  }

  lemma RefusedByUpdate(setting: int, v: Service.State, v': Service.State, p: nat)
    requires p in v.procs && v.procs[p].Rotating? && v.procs[p].hash !in v.tables.tokens
    requires v' == v.(procs := v.procs[p := Service.Done(Service.Rejected)])
    ensures Service.Next(setting, v, v')
  {
    assert Service.NextStep(setting, v, v', Service.Call(p, Rotate(v.procs[p].hash, v.procs[p].now), TokenNotFound));
  }

  lemma AnswerRefines(setting: int, run: seq<System>, i: nat, p: nat, stmt: Pg.Stmt, ev: Pg.Event)
    requires i + 1 < |run| && Inv(setting, run[i]) && ev.Answer?
    requires NextStep(setting, run[i], run[i + 1], Sql(p, stmt, ev))
    ensures Service.Next(setting, View(run, i), View(run, i + 1))
    ensures !Refinement.Misreads(Store(run[i]), p) ==>
              Service.NextStep(setting, View(run, i), View(run, i + 1), Service.Call(p, ev.op, ev.r))
  {
    AnswerMoves(setting, run[i], run[i + 1], p, stmt, ev);
    OneMoves(run, i, p);
    if Refinement.Misreads(Store(run[i]), p) {
      assert Misjudges(run[i], run[i + 1], p);
      assert View(run, i + 1).procs == View(run, i).procs;
      assert Service.NextStep(setting, View(run, i), View(run, i + 1), Service.Idle);
    } else {
      AnswerSeen(setting, run[i].service, run[i + 1].service, View(run, i), View(run, i + 1), p, ev.op, ev.r);
    }
  }

  lemma AnswerSeen(setting: int, s: Service.State, s': Service.State, v: Service.State, v': Service.State, p: nat,
      op: Op, r: Result)
    requires p in s.procs && Service.Calls(s.procs[p], op) && Exec(s.tables, op, r, s'.tables)
    requires s' == Service.After(setting, s, p, op, r, s'.tables)
    requires v == s.(procs := v.procs) && p in v.procs && v.procs[p] == s.procs[p]
    requires v' == s'.(procs := v.procs[p := s'.procs[p]])
    ensures Service.NextStep(setting, v, v', Service.Call(p, op, r))
  {
  }

  /** What the requests see, state by state. */
  ghost function Seen(run: seq<System>): (seen: seq<Service.State>)
    ensures |seen| == |run| && forall i :: 0 <= i < |run| ==> seen[i] == View(run, i)
  {
    seq(|run|, i requires 0 <= i < |run| => View(run, i))
  }

  /** Every run on postgres is, to its requests, a run on atomic operations. Nothing is asked of
      the calls but that minted hashes are new: a hash may be presented before or while its token
      is saved. */
  lemma PostgresRunsAreServiceRuns(setting: int, run: seq<System>)
    requires Run(setting, run)
    ensures Service.Run(setting, Seen(run))
  {
    forall i | 0 <= i < |run| - 1
      ensures Service.Next(setting, Seen(run)[i], Seen(run)[i + 1])
    {
      StepRefines(setting, run, i);
    }
    assert View(run, 0).procs == map[];
  }

  /** The view hides nothing: the rows and the history are the real ones, and a request is seen
      where it is, or as refused already while it waits to be. */
  lemma ViewIsFaithful(setting: int, run: seq<System>, i: nat, p: nat)
    requires Run(setting, run) && i < |run| && p in run[i].service.procs
    ensures View(run, i) == run[i].service.(procs := View(run, i).procs)
    ensures View(run, i).procs.Keys == run[i].service.procs.Keys
    ensures View(run, i).procs[p] == run[i].service.procs[p]
            || (run[i].service.procs[p].Rotating? && View(run, i).procs[p] == Service.Done(Service.Rejected))
  {
    InvAlways(setting, run, i);
  }

  lemma SamePending(setting: int, run: seq<System>, i: nat, r: string)
    requires Run(setting, run) && i < |run|
    ensures Theorems.Pending(View(run, i), r) == Theorems.Pending(run[i].service, r)
  {
    forall p | p in run[i].service.procs
      ensures Theorems.Pends(View(run, i).procs[p], r) <==> Theorems.Pends(run[i].service.procs[p], r)
    {
      ViewIsFaithful(setting, run, i, p);
    }
  }

  /** So the family guarantees hold of the committed rows of postgres: ended sessions stay dead
      and the live tokens of a family stay within its grants. */
  lemma PostgresKeepsSessions(setting: int, run: seq<System>, i: nat, j: nat, r: string)
    requires Run(setting, run) && i <= j < |run| && r != ""
    ensures Service.Dead(run[i].service.tables, run[i].service.born, r) ==>
              Theorems.NoLiveMember(run[j].service.tables, r)
    ensures |Theorems.Live(run[j].service, r)| + |Theorems.Pending(run[j].service, r)|
            <= 1 + |Theorems.Grants(run[j].service, r)|
    ensures setting <= 0 ==> |Theorems.Live(run[j].service, r)| + |Theorems.Pending(run[j].service, r)| <= 1
  {
    PostgresRunsAreServiceRuns(setting, run);
    SamePending(setting, run, j, r);
    Theorems.LeewayAccounting(setting, Seen(run), j, r);
    if setting <= 0 {
      Theorems.StrictModeIsLinear(setting, Seen(run), j, r);
    }
    if Service.Dead(run[i].service.tables, run[i].service.born, r) {
      Theorems.EndedSessionsStayDead(setting, Seen(run), i, j, r);
    }
  }

  /** One token yields one pair, plus one for each duplicate granted of it. */
  lemma PostgresIssuesOneSuccessor(setting: int, run: seq<System>, i: nat, hash: string)
    requires Run(setting, run) && i < |run|
    ensures |Theorems.Successors(run[i].service, hash)| <= 1 + |Theorems.GrantsOf(run[i].service, hash)|
    ensures setting <= 0 ==> |Theorems.Successors(run[i].service, hash)| <= 1
  {
    PostgresRunsAreServiceRuns(setting, run);
    Theorems.OneSuccessorPerToken(setting, Seen(run), i, hash);
    forall p | p in run[i].service.procs
      ensures IsIssued(View(run, i).procs[p]) || IsIssued(run[i].service.procs[p]) ==>
                View(run, i).procs[p] == run[i].service.procs[p]
    {
      ViewIsFaithful(setting, run, i, p);
    }
    assert Theorems.Successors(View(run, i), hash) == Theorems.Successors(run[i].service, hash);
  }

  predicate IsIssued(pc: Service.Pc) {
    pc.Done? && pc.outcome.Issued?
  }

  /** A reported logout or completed reuse revocation is final. */
  lemma PostgresEndsAreFinal(setting: int, run: seq<System>, i: nat, j: nat, p: nat, rt: RefreshToken)
    requires Run(setting, run) && i <= j < |run| && p in run[i].service.procs
    requires run[i].service.procs[p] == Service.Done(Service.LoggedOut(rt))
             || run[i].service.procs[p] == Service.Done(Service.Reused(rt, true))
    ensures Theorems.NoLiveMember(run[j].service.tables, FamilyRoot(rt))
  {
    PostgresRunsAreServiceRuns(setting, run);
    ViewIsFaithful(setting, run, i, p);
    Theorems.ReportedEndIsFinal(setting, Seen(run), i, j, p, rt);
  }

  /** A replay outside the window that the database answers at step i is never exchanged: it ends
      as reuse, and with the revocation done its family stays dead. */
  lemma PostgresDetectsTheft(
    setting: int, run: seq<System>, i: nat, j: nat, k: nat, p: nat, stmt: Pg.Stmt, op: Op, rt: RefreshToken)
    requires Run(setting, run) && i < j <= k < |run| && op.Rotate?
    requires NextStep(setting, run[i], run[i + 1], Sql(p, stmt, Pg.Answer(op, Replayed(rt))))
    requires !(setting > 0 && rt.rotatedAt.Some? && op.now < rt.expiresAt
               && -setting <= op.now - rt.rotatedAt.value <= setting)
    ensures p in run[j].service.procs && Theorems.RefusedAsReuse(run[j].service.procs[p], rt)
    ensures run[j].service.procs[p] == Service.Done(Service.Reused(rt, true)) ==>
              Theorems.NoLiveMember(run[k].service.tables, FamilyRoot(rt))
  {
    PostgresRunsAreServiceRuns(setting, run);
    ReplayIsSeen(setting, run, i, p, stmt, op, rt);
    Theorems.LateReplayEndsTheFamily(setting, Seen(run), i, j, k, p, op, Replayed(rt));
    SeenRequestsExist(setting, run, j, p);
    ViewIsFaithful(setting, run, j, p);
  }

  lemma ReplayIsSeen(setting: int, run: seq<System>, i: nat, p: nat, stmt: Pg.Stmt, op: Op, rt: RefreshToken)
    requires Run(setting, run) && i + 1 < |run| && op.Rotate?
    requires NextStep(setting, run[i], run[i + 1], Sql(p, stmt, Pg.Answer(op, Replayed(rt))))
    ensures Service.NextStep(setting, View(run, i), View(run, i + 1), Service.Call(p, op, Replayed(rt)))
    ensures View(run, i).procs[p] == Service.Rotating(op.hash, op.now)
  {
    InvAlways(setting, run, i);
    Refinement.AnswersAreAtomic(Store(run[i]), Store(run[i + 1]), p, stmt, Pg.Answer(op, Replayed(rt)));
    AnswerRefines(setting, run, i, p, stmt, Pg.Answer(op, Replayed(rt)));
  }

  lemma SeenRequestsExist(setting: int, run: seq<System>, j: nat, p: nat)
    requires j < |run| && p in View(run, j).procs
    ensures p in run[j].service.procs
  {
  }
}
