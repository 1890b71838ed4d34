/** SavePATLimited of store/postgres statement by statement: lock the user row, delete the
    user's expired tokens row by row, insert under a counted condition, commit. Deletions and
    touches of single tokens, and user deletions, are statements of their own that wait for
    locked rows. Beside the table runs one that is never pruned: it gets what commits and loses
    only what is revoked or deleted with its user. */
module PostgresPat {
  import opened Entities
  import opened PatStore
  import PatTheorems
  import opened Sets

  datatype Tx =
    | Locking(pat: Pat, now: int)
    | Scanning(pat: Pat, now: int)                                        // user row locked
    | Pruning(pat: Pat, now: int, todo: set<string>, doomed: set<string>) // DELETE at work
    | Counting(pat: Pat, now: int, doomed: set<string>)                   // before INSERT ... WHERE count < limit
    | Committing(pat: Pat, now: int, doomed: set<string>, inserted: bool)

  /** `full` is the table that is never pruned. */
  datatype State = State(users: set<string>, pats: Pats, full: Pats, txs: map<nat, Tx>)

  datatype Step =
    | Begin(p: nat, pat: Pat, now: int)
    | LockUser(p: nat)
    | Scan(p: nat)
    | PruneRow(p: nat, hash: string)
    | Insert(p: nat)
    | Commit(p: nat)
    | Abort(p: nat)
    | AddUser(id: string)
    | DropUser(id: string)
    | Remove(hash: string)
    | TouchRow(hash: string, t: int)

  predicate HoldsUser(tx: Tx, id: string) {
    !tx.Locking? && tx.pat.userId == id
  }

  predicate HoldsRow(tx: Tx, h: string) {
    (tx.Pruning? || tx.Counting? || tx.Committing?) && h in tx.doomed
  }

  ghost predicate UserFree(s: State, id: string) {
    forall q :: q in s.txs ==> !HoldsUser(s.txs[q], id)
  }

  ghost predicate RowFree(s: State, h: string) {
    forall q :: q in s.txs ==> !HoldsRow(s.txs[q], h)
  }

  /** The WHERE clause of the prune, checked again on each row once it is locked. */
  predicate Prunable(pats: Pats, userId: string, now: int, h: string) {
    h in pats && pats[h].userId == userId && ExpiredAt(pats[h], now)
  }

  function Moved(s: State, p: nat, tx: Tx): State {
    s.(txs := s.txs[p := tx])
  }

  /** The rows a transaction's own statements see for its user: committed, less its deletions. */
  function Visible(s: State, tx: Tx): set<string>
    requires tx.Counting?
  {
    OwnedBy(s.pats, tx.pat.userId) - tx.doomed
  }

  function Committed(s: State, tx: Tx): Pats
    requires tx.Committing?
  {
    if tx.inserted then (s.pats - tx.doomed)[tx.pat.hash := tx.pat] else s.pats - tx.doomed
  }

  function CommittedFull(s: State, tx: Tx): Pats
    requires tx.Committing?
  {
    if tx.inserted then s.full[tx.pat.hash := tx.pat] else s.full
  }

  ghost predicate NextStep(limit: int, s: State, s': State, step: Step) {
    match step
    case Begin(p, pat, now) =>
      && p !in s.txs && pat.hash !in s.full && (forall q :: q in s.txs ==> s.txs[q].pat.hash != pat.hash)
      && s' == Moved(s, p, Locking(pat, now))
    case LockUser(p) =>
      && p in s.txs && s.txs[p].Locking? && var tx := s.txs[p];
      && UserFree(s, tx.pat.userId)
      && s' == if tx.pat.userId in s.users then Moved(s, p, Scanning(tx.pat, tx.now))
               else s.(txs := s.txs - {p})                 // no row to lock: ErrUserNotFound
    case Scan(p) =>
      && p in s.txs && s.txs[p].Scanning? && var tx := s.txs[p];
      var todo := OwnedBy(s.pats, tx.pat.userId) - Unexpired(s.pats, tx.pat.userId, tx.now);
      s' == Moved(s, p, Pruning(tx.pat, tx.now, todo, {}))
    case PruneRow(p, h) =>
      && p in s.txs && s.txs[p].Pruning? && var tx := s.txs[p];
      && h in tx.todo && RowFree(s, h)
      && var doomed := if Prunable(s.pats, tx.pat.userId, tx.now, h) then tx.doomed + {h} else tx.doomed;
         s' == Moved(s, p, Pruning(tx.pat, tx.now, tx.todo - {h}, doomed))
    case Insert(p) =>
      && p in s.txs && var tx := s.txs[p];
      || (tx.Pruning? && tx.todo == {} && s' == Moved(s, p, Counting(tx.pat, tx.now, tx.doomed)))
      || (tx.Counting? && s' == Moved(s, p, Committing(tx.pat, tx.now, tx.doomed, |Visible(s, tx)| < limit)))
    case Commit(p) =>
      && p in s.txs && s.txs[p].Committing?
      && s' == State(s.users, Committed(s, s.txs[p]), CommittedFull(s, s.txs[p]), s.txs - {p})
    case Abort(p) => p in s.txs && s' == s.(txs := s.txs - {p})
    case AddUser(id) => s' == s.(users := s.users + {id})
    case DropUser(id) =>
      && UserFree(s, id)
      && s' == State(s.users - {id}, WithoutUser(s.pats, id), WithoutUser(s.full, id), s.txs)
    case Remove(h) => RowFree(s, h) && s' == s.(pats := s.pats - {h}, full := s.full - {h})
    case TouchRow(h, t) => RowFree(s, h) && s' == s.(pats := Touch(s.pats, h, t), full := Touch(s.full, h, t))
  }

  // ----- the inductive invariant -----

  ghost predicate TxOk(limit: int, s: State, tx: Tx) {
    && tx.pat.hash !in s.pats && tx.pat.hash !in s.full
    && (!tx.Locking? ==> tx.pat.userId in s.users)
    && (forall h :: HoldsRow(tx, h) ==> Prunable(s.pats, tx.pat.userId, tx.now, h))
    && (tx.Pruning? ==> forall h :: Prunable(s.pats, tx.pat.userId, tx.now, h) ==> h in tx.todo || h in tx.doomed)
    && (tx.Counting? || tx.Committing? ==> forall h :: Prunable(s.pats, tx.pat.userId, tx.now, h) ==> h in tx.doomed)
    && (tx.Committing? && tx.inserted ==> |Unexpired(s.pats, tx.pat.userId, tx.now)| < limit)
  }

  predicate Exclusive(tx: Tx, tx': Tx) {
    tx.Locking? || tx'.Locking? || tx.pat.userId != tx'.pat.userId
  }

  ghost predicate Inv(limit: int, s: State) {
    && PartOf(s.pats, s.full)
    && (forall h :: h in s.full ==> s.full[h].userId in s.users)
    && (forall p :: p in s.txs ==> TxOk(limit, s, s.txs[p]))
    && (forall p, q :: p in s.txs && q in s.txs && p != q ==> s.txs[p].pat.hash != s.txs[q].pat.hash)
    && (forall p, q :: p in s.txs && q in s.txs && p != q ==> Exclusive(s.txs[p], s.txs[q]))
    && (forall u {:trigger OwnedBy(s.pats, u)} :: |OwnedBy(s.pats, u)| <= limit)
  }

  /** A committing transaction's rows are the atomic operation's, at the instant of the commit. */
  lemma CommitIsAtomic(limit: int, s: State, p: nat)
    requires Inv(limit, s) && p in s.txs && s.txs[p].Committing?
    ensures var tx := s.txs[p];
            if tx.inserted then SaveLimited(s.users, s.pats, tx.pat, limit, tx.now) == (Saved, Committed(s, tx))
            else Committed(s, tx) == Pruned(s.pats, tx.pat.userId, tx.now)
  {
    var tx := s.txs[p];
    assert TxOk(limit, s, tx);
    assert s.pats - tx.doomed == Pruned(s.pats, tx.pat.userId, tx.now) by {
      assert forall h :: h in tx.doomed ==> HoldsRow(tx, h);
      assert forall h :: h in s.pats ==> (Prunable(s.pats, tx.pat.userId, tx.now, h) <==> h in tx.doomed);
    }
  }

  /** The counted condition decides as the atomic operation does at that instant: a refusal is
      one, and an insertion is allowed. */
  lemma DecisionIsAtomic(limit: int, s: State, p: nat)
    requires Inv(limit, s) && p in s.txs && s.txs[p].Counting?
    ensures var tx := s.txs[p];
            SaveLimited(s.users, s.pats, tx.pat, limit, tx.now).0
            == if |Visible(s, tx)| < limit then Saved else LimitReached
  {
    var tx := s.txs[p];
    assert TxOk(limit, s, tx);
    VisibleIsUnexpired(limit, s, tx);
  }

  lemma VisibleIsUnexpired(limit: int, s: State, tx: Tx)
    requires TxOk(limit, s, tx) && tx.Counting?
    ensures Visible(s, tx) == Unexpired(s.pats, tx.pat.userId, tx.now)
  {
    assert forall h :: h in tx.doomed ==> HoldsRow(tx, h);
    assert forall h :: h in s.pats ==> (Prunable(s.pats, tx.pat.userId, tx.now, h) <==> h in tx.doomed);
  }

  // ----- every step keeps it -----

  /** A change that takes rows away, or touches them, leaves the other transactions right. */
  ghost predicate Shrinks(s: State, pats: Pats, full: Pats) {
    && full.Keys <= s.full.Keys
    && (forall h :: h in pats ==> h in s.pats && pats[h] == s.pats[h].(lastUsedAt := pats[h].lastUsedAt))
    && (forall q, h :: q in s.txs && HoldsRow(s.txs[q], h) && h in s.pats ==> h in pats)
  }

  lemma ShrinkingLeaves(limit: int, s: State, s': State, q: nat)
    requires Inv(limit, s) && Shrinks(s, s'.pats, s'.full) && q in s.txs
    requires HoldsUser(s.txs[q], s.txs[q].pat.userId) ==> s.txs[q].pat.userId in s'.users
    ensures TxOk(limit, s', s.txs[q])
  {
    var tx := s.txs[q];
    assert TxOk(limit, s, tx);
    assert forall h :: Prunable(s'.pats, tx.pat.userId, tx.now, h) ==> Prunable(s.pats, tx.pat.userId, tx.now, h);
    assert Unexpired(s'.pats, tx.pat.userId, tx.now) <= Unexpired(s.pats, tx.pat.userId, tx.now);
    Within(Unexpired(s'.pats, tx.pat.userId, tx.now), Unexpired(s.pats, tx.pat.userId, tx.now));
  }

  lemma ShrinkingKeepsCap(limit: int, s: State, pats: Pats, full: Pats, u: string)
    requires Inv(limit, s) && Shrinks(s, pats, full)
    ensures |OwnedBy(pats, u)| <= limit
  {
    assert OwnedBy(pats, u) <= OwnedBy(s.pats, u);
    Within(OwnedBy(pats, u), OwnedBy(s.pats, u));
  }

  lemma OtherSessionsShrink(limit: int, s: State, s': State, step: Step)
    requires Inv(limit, s) && NextStep(limit, s, s', step)
    requires step.DropUser? || step.Remove? || step.TouchRow? || step.AddUser?
    ensures Shrinks(s, s'.pats, s'.full)
  {
    forall q, h | q in s.txs && HoldsRow(s.txs[q], h) && h in s.pats
      ensures h in s'.pats
    {
      assert TxOk(limit, s, s.txs[q]);
      assert HoldsUser(s.txs[q], s.txs[q].pat.userId);
    }
  }

  lemma OtherSessionsKeepInv(limit: int, s: State, s': State, step: Step)
    requires Inv(limit, s) && NextStep(limit, s, s', step)
    requires step.DropUser? || step.Remove? || step.TouchRow? || step.AddUser?
    ensures Inv(limit, s')
  {
    OtherSessionsShrink(limit, s, s', step);
    forall q | q in s'.txs
      ensures TxOk(limit, s', s'.txs[q])
    {
      assert TxOk(limit, s, s.txs[q]);
      ShrinkingLeaves(limit, s, s', q);
    }
    forall u
      ensures |OwnedBy(s'.pats, u)| <= limit
    {
      ShrinkingKeepsCap(limit, s, s'.pats, s'.full, u);
    }
  }

  predicate OwnStep(step: Step) {
    step.Begin? || step.LockUser? || step.Scan? || step.PruneRow? || step.Insert? || step.Abort?
  }

  lemma MoveKeepsInv(limit: int, s: State, s': State, step: Step)
    requires Inv(limit, s) && NextStep(limit, s, s', step) && OwnStep(step)
    ensures Inv(limit, s')
  {
    MoverStaysOk(limit, s, s', step);
    if step.p in s'.txs {
      forall q | q in s.txs && q != step.p
        ensures s'.txs[step.p].pat.hash != s.txs[q].pat.hash && Exclusive(s'.txs[step.p], s.txs[q])
      {
        MoverStaysExclusive(limit, s, s', step, q);
      }
    }
    OnlyOneMoved(limit, s, s', step.p);
  }

  lemma OnlyOneMoved(limit: int, s: State, s': State, p: nat)
    requires Inv(limit, s) && s'.users == s.users && s'.pats == s.pats && s'.full == s.full
    requires s'.txs == s.txs - {p} || (p in s'.txs && s'.txs == s.txs[p := s'.txs[p]])
    requires p in s'.txs ==> TxOk(limit, s', s'.txs[p]) && forall q :: q in s.txs && q != p ==>
               s'.txs[p].pat.hash != s.txs[q].pat.hash && Exclusive(s'.txs[p], s.txs[q])
    ensures Inv(limit, s')
  {
    forall q | q in s'.txs
      ensures TxOk(limit, s', s'.txs[q])
    {
      if q != p { assert TxOk(limit, s, s.txs[q]); }
    }
    forall q, q' | q in s'.txs && q' in s'.txs && q != q'
      ensures s'.txs[q].pat.hash != s'.txs[q'].pat.hash && Exclusive(s'.txs[q], s'.txs[q'])
    {
      if q != p && q' != p { assert Exclusive(s.txs[q], s.txs[q']); }
    }
  }

  lemma MoverStaysExclusive(limit: int, s: State, s': State, step: Step, q: nat)
    requires Inv(limit, s) && NextStep(limit, s, s', step) && OwnStep(step)
    requires step.p in s'.txs && q in s.txs && q != step.p
    ensures s'.txs[step.p].pat.hash != s.txs[q].pat.hash && Exclusive(s'.txs[step.p], s.txs[q])
  {
    if step.p in s.txs {
      assert Exclusive(s.txs[step.p], s.txs[q]);
    }
  }

  lemma MoverStaysOk(limit: int, s: State, s': State, step: Step)
    requires Inv(limit, s) && NextStep(limit, s, s', step) && OwnStep(step)
    ensures step.p in s'.txs ==> TxOk(limit, s', s'.txs[step.p])
  {
    var p := step.p;
    if p in s.txs && p in s'.txs {
      var tx := s.txs[p];
      assert TxOk(limit, s, tx);
      assert forall h :: HoldsRow(tx, h) ==> Prunable(s.pats, tx.pat.userId, tx.now, h);
      if tx.Counting? {
        VisibleIsUnexpired(limit, s, tx);
      }
      forall h | HoldsRow(s'.txs[p], h)
        ensures Prunable(s.pats, tx.pat.userId, tx.now, h)
      {
        assert HoldsRow(tx, h) || Prunable(s.pats, tx.pat.userId, tx.now, h);
      }
    }
  }

  lemma CommitLeaves(limit: int, s: State, s': State, p: nat, q: nat)
    requires Inv(limit, s) && NextStep(limit, s, s', Commit(p)) && q in s.txs && q != p
    ensures TxOk(limit, s', s.txs[q])
  {
    var done, tx := s.txs[p], s.txs[q];
    assert TxOk(limit, s, tx);
    assert Exclusive(done, tx);
    if !tx.Locking? {
      OthersUntouched(limit, s, s', p, tx.pat.userId, tx.now);
    }
  }

  lemma OthersUntouched(limit: int, s: State, s': State, p: nat, u: string, now: int)
    requires Inv(limit, s) && NextStep(limit, s, s', Commit(p)) && s.txs[p].pat.userId != u
    ensures forall h :: Prunable(s'.pats, u, now, h) <==> Prunable(s.pats, u, now, h)
    ensures Unexpired(s'.pats, u, now) == Unexpired(s.pats, u, now)
  {
    var done := s.txs[p];
    assert TxOk(limit, s, done);
    assert forall h :: h in done.doomed ==> HoldsRow(done, h);
  }

  lemma CommitKeepsCap(limit: int, s: State, p: nat, u: string)
    requires Inv(limit, s) && p in s.txs && s.txs[p].Committing?
    ensures |OwnedBy(Committed(s, s.txs[p]), u)| <= limit
  {
    var tx := s.txs[p];
    CommitIsAtomic(limit, s, p);
    if tx.inserted {
      PatTheorems.SaveKeepsCap(s.users, s.pats, tx.pat, limit, tx.now, u);
    } else {
      assert OwnedBy(Committed(s, tx), u) <= OwnedBy(s.pats, u);
      Within(OwnedBy(Committed(s, tx), u), OwnedBy(s.pats, u));
    }
  }

  lemma CommitKeepsInv(limit: int, s: State, s': State, p: nat)
    requires Inv(limit, s) && NextStep(limit, s, s', Commit(p))
    ensures Inv(limit, s')
  {
    assert TxOk(limit, s, s.txs[p]);
    forall q | q in s'.txs
      ensures TxOk(limit, s', s'.txs[q])
    {
      CommitLeaves(limit, s, s', p, q);
    }
    forall u
      ensures |OwnedBy(s'.pats, u)| <= limit
    {
      CommitKeepsCap(limit, s, p, u);
    }
  }

  lemma InvStep(limit: int, s: State, s': State, step: Step)
    requires Inv(limit, s) && NextStep(limit, s, s', step)
    ensures Inv(limit, s')
  {
    if step.Commit? {
      CommitKeepsInv(limit, s, s', step.p);
    } else if step.DropUser? || step.Remove? || step.TouchRow? || step.AddUser? {
      OtherSessionsKeepInv(limit, s, s', step);
    } else {
      MoveKeepsInv(limit, s, s', step);
    }
  }

  ghost predicate Run(limit: int, run: seq<State>, steps: seq<Step>) {
    && |run| == |steps| + 1 && run[0] == State({}, map[], map[], map[])
    && forall i :: 0 <= i < |steps| ==> NextStep(limit, run[i], run[i + 1], steps[i])
  }

  lemma {:induction false} InvAlways(limit: int, run: seq<State>, steps: seq<Step>, i: nat)
    requires limit > 0 && Run(limit, run, steps) && i < |run|
    ensures Inv(limit, run[i])
  {
    if i == 0 {
      assert forall u :: OwnedBy(run[0].pats, u) == {};
    } else {
      InvAlways(limit, run, steps, i - 1);
      InvStep(limit, run[i - 1], run[i], steps[i - 1]);
    }
  }

  /** In every interleaving of statements no user's committed tokens exceed the limit, and what
      each transaction commits is what the atomic operation does at that instant. */
  lemma CapHoldsOnPostgres(limit: int, run: seq<State>, steps: seq<Step>, i: nat, u: string)
    requires limit > 0 && Run(limit, run, steps) && i < |run|
    ensures |OwnedBy(run[i].pats, u)| <= limit
    ensures forall p :: p in run[i].txs && run[i].txs[p].Committing? && run[i].txs[p].inserted ==>
              SaveLimited(run[i].users, run[i].pats, run[i].txs[p].pat, limit, run[i].txs[p].now)
              == (Saved, Committed(run[i], run[i].txs[p]))
    ensures forall p :: p in run[i].txs && run[i].txs[p].Counting? && |Visible(run[i], run[i].txs[p])| >= limit ==>
              SaveLimited(run[i].users, run[i].pats, run[i].txs[p].pat, limit, run[i].txs[p].now).0 == LimitReached
  {
    InvAlways(limit, run, steps, i);
    forall p | p in run[i].txs
      ensures run[i].txs[p].Committing? && run[i].txs[p].inserted ==>
                SaveLimited(run[i].users, run[i].pats, run[i].txs[p].pat, limit, run[i].txs[p].now)
                == (Saved, Committed(run[i], run[i].txs[p]))
      ensures run[i].txs[p].Counting? && |Visible(run[i], run[i].txs[p])| >= limit ==>
                SaveLimited(run[i].users, run[i].pats, run[i].txs[p].pat, limit, run[i].txs[p].now).0 == LimitReached
    {
      if run[i].txs[p].Committing? { CommitIsAtomic(limit, run[i], p); }
      if run[i].txs[p].Counting? { DecisionIsAtomic(limit, run[i], p); }
    }
  }

  // ----- what pruning takes -----

  /** This step commits a create of the token's owner that read a clock past its expiry. */
  predicate Reaps(s: State, step: Step, pat: Pat) {
    && step.Commit? && step.p in s.txs
    && s.txs[step.p].pat.userId == pat.userId && ExpiredAt(pat, s.txs[step.p].now)
  }

  lemma LosesExactly(limit: int, s: State, s': State, step: Step, h: string)
    requires Inv(limit, s) && NextStep(limit, s, s', step) && h in s'.full
    ensures h !in s.full ==> h in s'.pats
    ensures h in s.full ==> s'.full[h] == s.full[h].(lastUsedAt := s'.full[h].lastUsedAt)
    ensures h in s.full ==> (h in s'.pats <==> h in s.pats && !Reaps(s, step, s.full[h]))
  {
    if step.Commit? {
      var tx := s.txs[step.p];
      assert TxOk(limit, s, tx);
      assert h in s.pats ==> (Prunable(s.pats, tx.pat.userId, tx.now, h) <==> HoldsRow(tx, h));
    }
  }

  /** While the token was stored, some create of its owner whose clock read past its expiry has
      committed. */
  ghost predicate Outlived(run: seq<State>, steps: seq<Step>, j: nat, h: string)
    requires j < |run| == |steps| + 1 && h in run[j].full
  {
    exists m :: 0 <= m < j && Reaps(run[m], steps[m], run[j].full[h]) && StoredFrom(run, m, j, h)
  }

  predicate StoredFrom(run: seq<State>, m: nat, j: nat, h: string)
    requires j < |run|
  {
    forall n :: m <= n <= j ==> h in run[n].full
  }

  /** The committed table lacks exactly the tokens that were outlived. */
  lemma {:induction false} PrunedExactly(limit: int, run: seq<State>, steps: seq<Step>, j: nat, h: string)
    requires limit > 0 && Run(limit, run, steps) && j < |run| && h in run[j].full
    ensures h in run[j].pats <==> !Outlived(run, steps, j, h)
  {
    var s, step := run[j - 1], steps[j - 1];
    InvAlways(limit, run, steps, j - 1);
    LosesExactly(limit, s, run[j], step, h);
    if h in s.full {
      PrunedExactly(limit, run, steps, j - 1, h);
      OutlivedStep(run, steps, j, h);
    }
  }

  lemma OutlivedStep(run: seq<State>, steps: seq<Step>, j: nat, h: string)
    requires 0 < j < |run| == |steps| + 1 && h in run[j].full && h in run[j - 1].full
    requires run[j].full[h] == run[j - 1].full[h].(lastUsedAt := run[j].full[h].lastUsedAt)
    ensures Outlived(run, steps, j, h) <==>
              Outlived(run, steps, j - 1, h) || Reaps(run[j - 1], steps[j - 1], run[j - 1].full[h])
  {
    if Outlived(run, steps, j, h) {
      var m :| 0 <= m < j && Reaps(run[m], steps[m], run[j].full[h]) && StoredFrom(run, m, j, h);
      if m < j - 1 {
        assert Reaps(run[m], steps[m], run[j - 1].full[h]) && StoredFrom(run, m, j - 1, h);
      }
    }
    if Outlived(run, steps, j - 1, h) {
      var m :| 0 <= m < j - 1 && Reaps(run[m], steps[m], run[j - 1].full[h]) && StoredFrom(run, m, j - 1, h);
      assert Reaps(run[m], steps[m], run[j].full[h]) && StoredFrom(run, m, j, h);
    }
    if Reaps(run[j - 1], steps[j - 1], run[j - 1].full[h]) {
      assert Reaps(run[j - 1], steps[j - 1], run[j].full[h]) && StoredFrom(run, j - 1, j, h);
    }
  }

  // ----- when it shows -----

  /** In every interleaving of statements, a verification at t differs from one over the table
      that is never pruned if and only if a create of the token's owner read a clock past its
      expiry and committed, while t is not past it. */
  lemma VerifyDiffersExactly(limit: int, run: seq<State>, steps: seq<Step>, j: nat, h: string, t: int)
    requires limit > 0 && Run(limit, run, steps) && j < |run|
    ensures Verify(run[j].users, run[j].pats, h, t) != Verify(run[j].users, run[j].full, h, t) <==>
              h in run[j].full && Outlived(run, steps, j, h) && !ExpiredAt(run[j].full[h], t)
  {
    InvAlways(limit, run, steps, j);
    if h in run[j].full {
      PrunedExactly(limit, run, steps, j, h);
    }
  }

  /** The user's tokens that a count at `now` ought to see but that were outlived. */
  ghost function Lost(run: seq<State>, steps: seq<Step>, j: nat, userId: string, now: int): set<string>
    requires j < |run| == |steps| + 1
  {
    set h | h in Unexpired(run[j].full, userId, now) && Outlived(run, steps, j, h)
  }

  /** The counted condition of the INSERT differs from counting the unexpired rows of the table
      that is never pruned if and only if the lost tokens make up for the room that was found. */
  lemma DecisionDiffersExactly(limit: int, run: seq<State>, steps: seq<Step>, j: nat, p: nat)
    requires limit > 0 && Run(limit, run, steps) && j < |run| && p in run[j].txs && run[j].txs[p].Counting?
    ensures var tx := run[j].txs[p];
            var counted := |Visible(run[j], tx)|;
            (counted < limit) != (|Unexpired(run[j].full, tx.pat.userId, tx.now)| < limit) <==>
              counted < limit <= counted + |Lost(run, steps, j, tx.pat.userId, tx.now)|
  {
    var s, tx := run[j], run[j].txs[p];
    InvAlways(limit, run, steps, j);
    VisibleIsUnexpired(limit, s, tx);
    LostAreMissed(limit, run, steps, j, tx.pat.userId, tx.now);
    CountSplits(s.pats, s.full, tx.pat.userId, tx.now);
  }

  lemma LostAreMissed(limit: int, run: seq<State>, steps: seq<Step>, j: nat, userId: string, now: int)
    requires limit > 0 && Run(limit, run, steps) && j < |run|
    ensures Missed(run[j].pats, run[j].full, userId, now) == Lost(run, steps, j, userId, now)
  {
    forall h | h in run[j].full
      ensures h in run[j].pats <==> !Outlived(run, steps, j, h)
    {
      PrunedExactly(limit, run, steps, j, h);
    }
  }

  /** Every create of this user that has committed read a clock not past t. */
  predicate NotBefore(run: seq<State>, steps: seq<Step>, j: nat, userId: string, t: int)
    requires j < |run| == |steps| + 1
  {
    forall m :: 0 <= m < j && steps[m].Commit? && steps[m].p in run[m].txs
                && run[m].txs[steps[m].p].pat.userId == userId ==>
      run[m].txs[steps[m].p].now <= t
  }

  lemma OutlivedIsExpired(run: seq<State>, steps: seq<Step>, j: nat, h: string, t: int)
    requires j < |run| == |steps| + 1 && h in run[j].full && Outlived(run, steps, j, h)
    requires NotBefore(run, steps, j, run[j].full[h].userId, t)
    ensures ExpiredAt(run[j].full[h], t)
  {
    var m :| 0 <= m < j && Reaps(run[m], steps[m], run[j].full[h]) && StoredFrom(run, m, j, h);
  }

  lemma NothingLost(run: seq<State>, steps: seq<Step>, j: nat, userId: string, now: int)
    requires j < |run| == |steps| + 1 && NotBefore(run, steps, j, userId, now)
    ensures Lost(run, steps, j, userId, now) == {}
  {
    forall h | h in Unexpired(run[j].full, userId, now)
      ensures !Outlived(run, steps, j, h)
    {
      if Outlived(run, steps, j, h) { OutlivedIsExpired(run, steps, j, h, now); }
    }
  }

  // ----- when it does not -----

  /** A separate database in which the same calls run, step for step, on a table that is never
      pruned: each INSERT counts the unexpired rows of that table at the same instant and decides
      for itself; `inserts` holds the decisions not yet committed. */
  datatype Unpruned = Unpruned(pats: Pats, inserts: map<nat, bool>)

  function UnprunedStep(limit: int, u: Unpruned, s: State, step: Step): Unpruned {
    match step
    case Insert(p) =>
      if p in s.txs && s.txs[p].Counting? then
        u.(inserts := u.inserts[p := |Unexpired(u.pats, s.txs[p].pat.userId, s.txs[p].now)| < limit])
      else u
    case Commit(p) =>
      if p in s.txs && p in u.inserts && u.inserts[p] then u.(pats := u.pats[s.txs[p].pat.hash := s.txs[p].pat]) else u
    case DropUser(id) => u.(pats := WithoutUser(u.pats, id))
    case Remove(h) => u.(pats := u.pats - {h})
    case TouchRow(h, t) => u.(pats := Touch(u.pats, h, t))
    case _ => u
  }

  function UnprunedAt(limit: int, run: seq<State>, steps: seq<Step>, j: nat): Unpruned
    requires j < |run| == |steps| + 1
  {
    if j == 0 then Unpruned(map[], map[])
    else UnprunedStep(limit, UnprunedAt(limit, run, steps, j - 1), run[j - 1], steps[j - 1])
  }

  /** The clocks of a user's creates do not run back: none is counted for with a clock before that
      of an earlier commit. */
  predicate Timely(run: seq<State>, steps: seq<Step>, j: nat)
    requires j < |run| == |steps| + 1
  {
    forall m :: 0 <= m < j && Counts(run[m], steps[m]) ==>
      NotBefore(run, steps, m, run[m].txs[steps[m].p].pat.userId, run[m].txs[steps[m].p].now)
  }

  predicate Counts(s: State, step: Step) {
    step.Insert? && step.p in s.txs && s.txs[step.p].Counting?
  }

  /** The separate table holds what the shadow does, and its open decisions are the real ones. */
  predicate Mirrors(u: Unpruned, s: State) {
    && u.pats == s.full
    && (forall p :: p in s.txs && s.txs[p].Committing? ==> p in u.inserts && u.inserts[p] == s.txs[p].inserted)
  }

  lemma MirrorStep(limit: int, s: State, s': State, step: Step, u: Unpruned)
    requires NextStep(limit, s, s', step) && Mirrors(u, s)
    requires Counts(s, step) ==>
               var tx := s.txs[step.p];
               (|Visible(s, tx)| < limit) == (|Unexpired(s.full, tx.pat.userId, tx.now)| < limit)
    ensures Mirrors(UnprunedStep(limit, u, s, step), s')
  {
  }

  lemma {:induction false} UnprunedMirrors(limit: int, run: seq<State>, steps: seq<Step>, j: nat)
    requires limit > 0 && Run(limit, run, steps) && j < |run| && Timely(run, steps, j)
    ensures Mirrors(UnprunedAt(limit, run, steps, j), run[j])
  {
    if j > 0 {
      var s, step := run[j - 1], steps[j - 1];
      UnprunedMirrors(limit, run, steps, j - 1);
      if Counts(s, step) {
        DecisionDiffersExactly(limit, run, steps, j - 1, step.p);
        NothingLost(run, steps, j - 1, s.txs[step.p].pat.userId, s.txs[step.p].now);
      }
      MirrorStep(limit, s, run[j], step, UnprunedAt(limit, run, steps, j - 1));
    }
  }

  /** With clocks that do not run back for any one user, pruning is invisible in every interleaving
      of statements: every decision that commits is the one a separate database that never prunes
      makes, and every verification not before the owner's commits answers as over it. */
  lemma PruningIsInvisibleOnPostgres(limit: int, run: seq<State>, steps: seq<Step>, j: nat, h: string, t: int)
    requires limit > 0 && Run(limit, run, steps) && j < |run| && Timely(run, steps, j)
    requires h in run[j].full ==> NotBefore(run, steps, j, run[j].full[h].userId, t)
    ensures var unpruned := UnprunedAt(limit, run, steps, j);
            && Verify(run[j].users, run[j].pats, h, t) == Verify(run[j].users, unpruned.pats, h, t)
            && (forall p :: p in run[j].txs && run[j].txs[p].Committing? ==>
                  p in unpruned.inserts && unpruned.inserts[p] == run[j].txs[p].inserted)
  {
    UnprunedMirrors(limit, run, steps, j);
    VerifyDiffersExactly(limit, run, steps, j, h, t);
    if h in run[j].full && Outlived(run, steps, j, h) {
      OutlivedIsExpired(run, steps, j, h, t);
    }
  }
}
