/** The service on PostgreSQL is never stuck: whatever is in flight, a request's store call is
    answered, atomically, if the other transactions are lost, and the request goes on from there. */
module PostgresServiceProgress {
  import opened Entities
  import opened RefreshStore
  import Pg = PostgresRefresh
  import Refinement = PostgresRefinement
  import Progress = PostgresProgress
  import Service = RefreshService
  import opened PostgresService

  function Last(run: seq<System>): System
    requires run != []
  {
    run[|run| - 1]
  }

  lemma Extend(setting: int, run: seq<System>, s: System, step: Step) returns (longer: seq<System>)
    requires Run(setting, run) && NextStep(setting, Last(run), s, step)
    ensures Run(setting, longer) && run <= longer && Last(longer) == s
  {
    longer := run + [s];
    assert Next(setting, Last(run), s);
    forall i, j | 0 <= i && j == i + 1 && j < |longer|
      ensures Next(setting, longer[i], longer[j])
    {
      if j < |run| { assert Next(setting, run[i], run[j]); }
    }
  }

  lemma InFlightIsCalling(setting: int, run: seq<System>, q: nat)
    requires Run(setting, run) && q in Last(run).txs
    ensures q in Last(run).service.procs && !Last(run).service.procs[q].Done?
  {
    InvAlways(setting, run, |run| - 1);
    assert Service.Calls(Last(run).service.procs[q], Pg.OpOf(Last(run).txs[q]));
  }

  /** The other transactions are lost; p and the tables are as they were. */
  lemma {:induction false} OthersAreLost(setting: int, run: seq<System>, p: nat) returns (longer: seq<System>)
    requires Run(setting, run) && p in Last(run).service.procs && p !in Last(run).txs
    ensures Run(setting, longer) && run <= longer && Last(longer).txs == map[]
    ensures p in Last(longer).service.procs && Last(longer).service.procs[p] == Last(run).service.procs[p]
    ensures Last(longer).service.tables == Last(run).service.tables
    decreases |Last(run).txs|
  {
    var s := Last(run);
    if q :| q in s.txs {
      InFlightIsCalling(setting, run, q);
      var service := s.service.(procs := s.service.procs[q := Service.Abandoned(s.service.procs[q])]);
      var next := System(service, s.txs - {q});
      assert next.txs.Keys == s.txs.Keys - {q};
      longer := Extend(setting, run, next, Fail(q));
      longer := OthersAreLost(setting, longer, p);
    } else {
      longer := run;
      assert s.txs == map[];
    }
  }

  /** Where the answer r to op leaves request p, and the tables. */
  ghost predicate AnsweredWith(setting: int, s: System, s': System, p: nat, op: Op, r: Result)
    requires p in s.service.procs
  {
    && p in s'.service.procs && s'.service.procs[p] == Service.React(setting, s.service.procs[p], r) && p !in s'.txs
    && Exec(s.service.tables, op, r, s'.service.tables)
  }

  lemma {:induction false} AloneIsAnswered(setting: int, run: seq<System>, p: nat) returns (longer: seq<System>, r: Result)
    requires Run(setting, run) && p in Last(run).txs && p in Last(run).service.procs && Progress.Alone(Store(Last(run)), p)
    requires !Refinement.Misreads(Store(Last(run)), p)
    ensures Run(setting, longer) && run <= longer
    ensures AnsweredWith(setting, Last(run), Last(longer), p, Pg.OpOf(Last(run).txs[p]), r)
    decreases Progress.Level(Last(run).txs[p]), Progress.Todo(Last(run).txs[p])
  {
    var s := Last(run);
    InvAlways(setting, run, |run| - 1);
    var pg', stmt, ev := Progress.NextStatement(Store(s), p);
    Refinement.AnswersAreAtomic(Store(s), pg', p, stmt, ev);
    if ev.Quiet? {
      Refinement.MoverStaysOk(Store(s), pg', p, stmt, ev);
      Progress.NoFreshMisread(Store(s), pg', p, stmt);
      longer := Extend(setting, run, System(s.service, pg'.txs), Sql(p, stmt, ev));
      longer, r := AloneIsAnswered(setting, longer, p);
    } else {
      r := ev.r;
      var service := Service.After(setting, s.service, p, ev.op, ev.r, pg'.tables);
      longer := Extend(setting, run, System(service, pg'.txs), Sql(p, stmt, ev));
    }
  }

  /** From every reachable state, a request about to make a store call can make it, is answered as
      the atomic operation does on the tables committed now, and goes where that answer leads. */
  lemma EveryRequestCanGoOn(setting: int, run: seq<System>, p: nat, op: Op) returns (longer: seq<System>, r: Result)
    requires Run(setting, run) && p in Last(run).service.procs && p !in Last(run).txs
    requires Service.Calls(Last(run).service.procs[p], op)
    ensures Run(setting, longer) && run <= longer && AnsweredWith(setting, Last(run), Last(longer), p, op, r)
  {
    longer := OthersAreLost(setting, run, p);
    var s := Last(longer);
    longer := Extend(setting, longer, System(s.service, map[p := Pg.Starting(op)]), Begin(p, op));
    longer, r := AloneIsAnswered(setting, longer, p);
  }
}
