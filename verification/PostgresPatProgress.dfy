/** What a create of a personal access token on PostgreSQL can always come to: whatever is in
    flight, it commits if the others roll back, and what it commits is written out here. */
module PostgresPatProgress {
  import opened Entities
  import opened PatStore
  import opened PostgresPat

  datatype Trace = Trace(run: seq<State>, steps: seq<Step>)

  ghost predicate IsRun(limit: int, t: Trace) {
    limit > 0 && Run(limit, t.run, t.steps)
  }

  function Last(t: Trace): State
    requires t.run != []
  {
    t.run[|t.run| - 1]
  }

  ghost predicate Continues(limit: int, t: Trace, longer: Trace) {
    IsRun(limit, longer) && t.run <= longer.run && t.steps <= longer.steps
  }

  lemma Extend(limit: int, t: Trace, s: State, step: Step) returns (longer: Trace)
    requires IsRun(limit, t) && NextStep(limit, Last(t), s, step)
    ensures Continues(limit, t, longer) && Last(longer) == s
  {
    longer := Trace(t.run + [s], t.steps + [step]);
    forall i | 0 <= i < |longer.steps|
      ensures NextStep(limit, longer.run[i], longer.run[i + 1], longer.steps[i])
    {
      if i < |t.steps| { assert NextStep(limit, t.run[i], t.run[i + 1], t.steps[i]); }
    }
  }

  lemma {:induction false} OthersRollBack(limit: int, t: Trace, p: nat) returns (longer: Trace)
    requires IsRun(limit, t) && p in Last(t).txs
    ensures Continues(limit, t, longer) && Last(longer) == Last(t).(txs := map[p := Last(t).txs[p]])
    decreases |Last(t).txs|
  {
    var s := Last(t);
    if q :| q in s.txs && q != p {
      var next := s.(txs := s.txs - {q});
      assert next.txs.Keys == s.txs.Keys - {q};
      longer := Extend(limit, t, next, Abort(q));
      longer := OthersRollBack(limit, longer, p);
    } else {
      longer := t;
      assert s.txs == map[p := s.txs[p]];
    }
  }

  /** The DELETE by itself visits every row it found. */
  lemma {:induction false} PruneFinishes(limit: int, t: Trace, s: State, p: nat, tx: Tx)
    returns (longer: Trace, doomed: set<string>)
    requires IsRun(limit, t) && tx.Pruning? && tx.todo !! tx.doomed && Last(t) == s.(txs := map[p := tx])
    ensures Continues(limit, t, longer) && Last(longer) == s.(txs := map[p := Pruning(tx.pat, tx.now, {}, doomed)])
    decreases |tx.todo|
  {
    if h :| h in tx.todo {
      var more := if Prunable(s.pats, tx.pat.userId, tx.now, h) then tx.doomed + {h} else tx.doomed;
      var next := Pruning(tx.pat, tx.now, tx.todo - {h}, more);
      longer := Extend(limit, t, s.(txs := map[p := next]), PruneRow(p, h));
      longer, doomed := PruneFinishes(limit, longer, s, p, next);
    } else {
      assert tx.todo == {};
      longer, doomed := t, tx.doomed;
    }
  }

  /** From the lock on the user to the counted INSERT. */
  lemma LockedCanCount(limit: int, t: Trace, s: State, p: nat, pat: Pat, now: int)
    returns (longer: Trace, doomed: set<string>)
    requires IsRun(limit, t) && Last(t) == s.(txs := map[p := Scanning(pat, now)])
    ensures Continues(limit, t, longer) && Last(longer) == s.(txs := map[p := Counting(pat, now, doomed)])
  {
    var todo := OwnedBy(s.pats, pat.userId) - Unexpired(s.pats, pat.userId, now);
    var pruning := Pruning(pat, now, todo, {});
    longer := Extend(limit, t, s.(txs := map[p := pruning]), Scan(p));
    longer, doomed := PruneFinishes(limit, longer, s, p, pruning);
    longer := Extend(limit, longer, s.(txs := map[p := Counting(pat, now, doomed)]), Insert(p));
  }

  /** And to the commit. */
  lemma LockedCanCommit(limit: int, t: Trace, s: State, p: nat, pat: Pat, now: int) returns (longer: Trace, tx: Tx)
    requires IsRun(limit, t) && Last(t) == s.(txs := map[p := Scanning(pat, now)])
    ensures Continues(limit, t, longer) && tx.Committing? && tx.pat == pat && tx.now == now
    ensures Last(longer) == s.(txs := map[p := tx])
    ensures tx.inserted <==> |Unexpired(s.pats, pat.userId, now)| < limit
  {
    var doomed;
    longer, doomed := LockedCanCount(limit, t, s, p, pat, now);
    CountIsOfLiveTokens(limit, longer, p);
    tx := Committing(pat, now, doomed, |Unexpired(s.pats, pat.userId, now)| < limit);
    longer := Extend(limit, longer, s.(txs := map[p := tx]), Insert(p));
  }

  lemma CountIsOfLiveTokens(limit: int, t: Trace, p: nat)
    requires IsRun(limit, t) && p in Last(t).txs && Last(t).txs[p].Counting?
    ensures Visible(Last(t), Last(t).txs[p]) == Unexpired(Last(t).pats, Last(t).txs[p].pat.userId, Last(t).txs[p].now)
  {
    InvAlways(limit, t.run, t.steps, |t.run| - 1);
    assert TxOk(limit, Last(t), Last(t).txs[p]);
    VisibleIsUnexpired(limit, Last(t), Last(t).txs[p]);
  }

  /** The token has not expired at `now`; one without an expiry never does. */
  predicate LivesAt(pat: Pat, now: int) {
    pat.expiresAt.Some? ==> now <= pat.expiresAt.value
  }

  /** What a create commits, row by row: the user's expired tokens are gone, every other row is as
      it was, and the new token is there exactly if the user held fewer live ones than the limit. */
  ghost predicate Creates(limit: int, before: Pats, after: Pats, pat: Pat, now: int) {
    var counted := |set h | h in before && before[h].userId == pat.userId && LivesAt(before[h], now)|;
    && (forall h :: h in after <==>
          || (h in before && (before[h].userId == pat.userId ==> LivesAt(before[h], now)))
          || (counted < limit && h == pat.hash))
    && (counted < limit ==> pat.hash in after && after[pat.hash] == pat)
    && (forall h :: h in after && h in before ==> after[h] == before[h])
  }

  lemma CommitCreates(limit: int, s: State, p: nat)
    requires Inv(limit, s) && p in s.txs && s.txs[p].Committing?
    requires s.txs[p].inserted <==> |Unexpired(s.pats, s.txs[p].pat.userId, s.txs[p].now)| < limit
    ensures Creates(limit, s.pats, Committed(s, s.txs[p]), s.txs[p].pat, s.txs[p].now)
  {
    var tx := s.txs[p];
    assert TxOk(limit, s, tx);
    CommitIsAtomic(limit, s, p);
    assert Unexpired(s.pats, tx.pat.userId, tx.now)
        == set h | h in s.pats && s.pats[h].userId == tx.pat.userId && LivesAt(s.pats[h], tx.now);
  }

  /** Every create of a stored user can commit: from every reachable state, whatever else is going
      on, some continuation commits it on the rows committed now. */
  lemma CreateCanCommit(limit: int, t: Trace, p: nat, pat: Pat, now: int) returns (longer: Trace)
    requires IsRun(limit, t) && p in Last(t).txs && Last(t).txs[p] == Locking(pat, now) && pat.userId in Last(t).users
    ensures Continues(limit, t, longer) && p !in Last(longer).txs && Last(longer).users == Last(t).users
    ensures Creates(limit, Last(t).pats, Last(longer).pats, pat, now)
  {
    var s := Last(t);
    longer := OthersRollBack(limit, t, p);
    longer := Extend(limit, longer, s.(txs := map[p := Scanning(pat, now)]), LockUser(p));
    var tx;
    longer, tx := LockedCanCommit(limit, longer, s, p, pat, now);
    var here := Last(longer);
    InvAlways(limit, longer.run, longer.steps, |longer.run| - 1);
    CommitCreates(limit, here, p);
    longer := Extend(limit, longer, State(here.users, Committed(here, tx), CommittedFull(here, tx), here.txs - {p}),
                     Commit(p));
  }

  /** And every create of a token with a new hash can be begun, if the others roll back. */
  lemma CreateCanBegin(limit: int, t: Trace, p: nat, pat: Pat, now: int) returns (longer: Trace)
    requires IsRun(limit, t) && pat.hash !in Last(t).full && pat.userId in Last(t).users
    ensures Continues(limit, t, longer) && p !in Last(longer).txs && Last(longer).users == Last(t).users
    ensures Creates(limit, Last(t).pats, Last(longer).pats, pat, now)
  {
    longer := AllRollBack(limit, t);
    longer := Extend(limit, longer, Last(t).(txs := map[p := Locking(pat, now)]), Begin(p, pat, now));
    longer := CreateCanCommit(limit, longer, p, pat, now);
  }

  lemma {:induction false} AllRollBack(limit: int, t: Trace) returns (longer: Trace)
    requires IsRun(limit, t)
    ensures Continues(limit, t, longer) && Last(longer) == Last(t).(txs := map[])
    decreases |Last(t).txs|
  {
    var s := Last(t);
    if q :| q in s.txs {
      var next := s.(txs := s.txs - {q});
      assert next.txs.Keys == s.txs.Keys - {q};
      longer := Extend(limit, t, next, Abort(q));
      longer := AllRollBack(limit, longer);
    } else {
      longer := t;
      assert s.txs == map[];
    }
  }
}
