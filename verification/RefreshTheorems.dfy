/** What every interleaving of refreshes, logouts, sign-ins and user deletions guarantees about
    refresh-token families. */
module RefreshTheorems {
  import opened Entities
  import opened RefreshStore
  import opened RefreshService
  import opened Sets

  // ----- sessions -----

  ghost predicate NoLiveMember(t: Tables, r: string) {
    forall h :: h in t.tokens && InFamily(t.tokens[h], r) ==> t.tokens[h].revoked
  }

  lemma DeadHasNoLiveMember(setting: int, s: State, r: string)
    requires Inv(setting, s) && Dead(s.tables, s.born, r)
    ensures NoLiveMember(s.tables, r)
  {
    forall h | h in s.tables.tokens && InFamily(s.tables.tokens[h], r)
      ensures s.tables.tokens[h].revoked
    {
      assert RowOk(s.tables, s.born, h);
    }
  }

  lemma DeadStep(setting: int, s: State, s': State, r: string)
    requires Inv(setting, s) && Next(setting, s, s') && Dead(s.tables, s.born, r)
    ensures Dead(s'.tables, s'.born, r)
  {
    var step :| NextStep(setting, s, s', step);
    if step.Call? {
      ServiceIsDisciplined(setting, s, step.p, step.op);
      DeadStaysDead(s.tables, s.born, step.op, step.r, s'.tables, r);
    }
  }

  /** Once a family's root is ended or gone, no later state holds an unrevoked member of it. */
  lemma {:induction false} EndedSessionsStayDead(setting: int, run: seq<State>, i: nat, j: nat, r: string)
    requires Run(setting, run) && i <= j < |run|
    requires Dead(run[i].tables, run[i].born, r)
    ensures Dead(run[j].tables, run[j].born, r) && NoLiveMember(run[j].tables, r)
    decreases j
  {
    InvAlways(setting, run, j);
    if i < j {
      EndedSessionsStayDead(setting, run, i, j - 1, r);
      InvAlways(setting, run, j - 1);
      DeadStep(setting, run[j - 1], run[j], r);
    }
    DeadHasNoLiveMember(setting, run[j], r);
  }

  /** A reported logout, and a reported reuse whose revocation did not fail, leave the session
      dead from then on, whatever refreshes were in flight. */
  lemma ReportedEndIsFinal(setting: int, run: seq<State>, i: nat, j: nat, p: nat, rt: RefreshToken)
    requires Run(setting, run) && i <= j < |run| && p in run[i].procs
    requires run[i].procs[p] == Done(LoggedOut(rt)) || run[i].procs[p] == Done(Reused(rt, true))
    ensures Dead(run[j].tables, run[j].born, FamilyRoot(rt)) && NoLiveMember(run[j].tables, FamilyRoot(rt))
  {
    InvAlways(setting, run, i);
    assert PcOk(setting, run[i].tables, run[i].born, run[i].generated, run[i].procs[p]);
    EndedSessionsStayDead(setting, run, i, j, FamilyRoot(rt));
  }

  lemma CopyStep(setting: int, s: State, s': State, rt: RefreshToken)
    requires Inv(setting, s) && Next(setting, s, s') && CopyOk(s.tables, s.born, rt)
    ensures CopyOk(s'.tables, s'.born, rt)
  {
    var step :| NextStep(setting, s, s', step);
    if step.Call? {
      ServiceIsDisciplined(setting, s, step.p, step.op);
      CopyStaysOk(s.tables, s.born, step.op, step.r, s'.tables, rt);
    }
  }

  lemma StoredIsCopy(setting: int, s: State, h: string)
    requires Inv(setting, s) && h in s.tables.tokens
    ensures CopyOk(s.tables, s.born, s.tables.tokens[h])
  {
    assert RowOk(s.tables, s.born, h);
    if s.tables.tokens[h].parent != "" {
      assert RowOk(s.tables, s.born, s.tables.tokens[h].parent);
    }
  }

  lemma {:induction false} CopyLasts(setting: int, run: seq<State>, i: nat, j: nat, rt: RefreshToken)
    requires Run(setting, run) && i <= j < |run| && CopyOk(run[i].tables, run[i].born, rt)
    ensures CopyOk(run[j].tables, run[j].born, rt)
    decreases j
  {
    if i < j {
      CopyLasts(setting, run, i, j - 1, rt);
      CopyLastsOne(setting, run, j, rt);
    }
  }

  lemma CopyLastsOne(setting: int, run: seq<State>, j: nat, rt: RefreshToken)
    requires Run(setting, run) && 0 < j < |run| && CopyOk(run[j - 1].tables, run[j - 1].born, rt)
    ensures CopyOk(run[j].tables, run[j].born, rt)
  {
    assert Next(setting, run[j - 1], run[j]);
    assert Inv(setting, run[j - 1]) by { InvAlways(setting, run, j - 1); }
    assert CopyOk(run[j].tables, run[j].born, rt) by { CopyStep(setting, run[j - 1], run[j], rt); }
  }

  /** A stored token keeps its owner, family and expiry for as long as it is stored, is never
      un-revoked, and its rotation is stamped at most once. */
  lemma TokensOnlyAge(setting: int, run: seq<State>, i: nat, j: nat, h: string)
    requires Run(setting, run) && i <= j < |run| && h in run[i].tables.tokens
    ensures CopyOk(run[j].tables, run[j].born, run[i].tables.tokens[h])
  {
    InvAlways(setting, run, i);
    StoredIsCopy(setting, run[i], h);
    CopyLasts(setting, run, i, j, run[i].tables.tokens[h]);
  }

  /** Looking only at the root, as SaveRefreshToken does, agrees with asking every member, as
      GetRefreshFamily does. */
  lemma RootSpeaksForFamily(setting: int, run: seq<State>, i: nat, root: string, f: RefreshFamily)
    requires Run(setting, run) && i < |run|
    requires root in run[i].tables.tokens && Summarises(run[i].tables.tokens, root, f)
    ensures f.sessionEnded <==> run[i].tables.tokens[root].endedAt.Some?
  {
    InvAlways(setting, run, i);
    var t := run[i].tables;
    assert RowOk(t, run[i].born, root);
    assert InFamily(t.tokens[root], root);
    if f.sessionEnded {
      var h :| h in t.tokens && InFamily(t.tokens[h], root) && t.tokens[h].endedAt.Some?;
      assert RowOk(t, run[i].born, h);
    }
  }

  // ----- granted duplicates -----

  /** Its session is stored and has not ended, and no member of it was rotated later. */
  ghost predicate IsLatestRotation(t: Tables, rt: RefreshToken)
    requires rt.rotatedAt.Some?
  {
    && FamilyRoot(rt) in t.tokens && t.tokens[FamilyRoot(rt)].endedAt.None?
    && forall h :: h in t.tokens && InFamily(t.tokens[h], FamilyRoot(rt)) && t.tokens[h].rotatedAt.Some? ==>
         t.tokens[h].rotatedAt.value <= rt.rotatedAt.value
  }

  /** The step from state k answers p's family read: p goes on to the exchange or to the revocation. */
  predicate ReadsFamily(run: seq<State>, k: nat, p: nat) {
    && k + 1 < |run| && p in run[k].procs && run[k].procs[p].Reading?
    && p in run[k + 1].procs && (run[k + 1].procs[p].Fetching? || run[k + 1].procs[p].Revoking?)
  }

  lemma ReadDecides(setting: int, run: seq<State>, k: nat, p: nat)
    requires Run(setting, run) && ReadsFamily(run, k, p)
    ensures InWindow(setting, run[k].procs[p].rt, run[k].procs[p].now)
    ensures run[k + 1].procs[p] == if IsLatestRotation(run[k].tables, run[k].procs[p].rt) then Fetching(run[k].procs[p].rt)
                                   else Revoking(run[k].procs[p].rt, true)
    ensures run[k + 1].granted == if run[k + 1].procs[p].Fetching? then run[k].granted[p := run[k].procs[p].rt]
                                  else run[k].granted
  {
    InvAlways(setting, run, k);
    var s := run[k];
    var rt := s.procs[p].rt;
    var root := FamilyRoot(rt);
    assert PcOk(setting, s.tables, s.born, s.generated, s.procs[p]);
    assert Next(setting, s, run[k + 1]);
    var step :| NextStep(setting, s, run[k + 1], step);
    if root in s.tables.tokens {
      RootSpeaksForFamily(setting, run, k, root, step.r.family);
      assert RowOk(s.tables, s.born, root) && RowOk(s.tables, s.born, rt.hash);
      assert InFamily(s.tables.tokens[rt.hash], root);
    }
  }

  /** Refused for reuse: its family is being revoked, or the request ended as reuse. */
  predicate RefusedAsReuse(pc: Pc, rt: RefreshToken) {
    pc == Revoking(rt, true) || pc == Done(Reused(rt, true)) || pc == Done(Reused(rt, false))
  }

  /** Where a replay that has not been granted can be. */
  predicate NotGranted(pc: Pc, rt: RefreshToken, now: int) {
    pc == Reading(rt, now) || RefusedAsReuse(pc, rt) || pc == Done(Failed)
  }

  /** At state k request p reads its family while the token is the latest rotation of an open session. */
  ghost predicate ReadAsLatest(run: seq<State>, k: nat, p: nat, rt: RefreshToken) {
    ReadsFamily(run, k, p) && rt.rotatedAt.Some? && IsLatestRotation(run[k].tables, rt)
  }

  lemma NoGrantWithoutRead(setting: int, s: State, s': State, p: nat, rt: RefreshToken, now: int)
    requires Next(setting, s, s') && p in s.procs && p !in s.granted && NotGranted(s.procs[p], rt, now)
    requires s.procs[p].Reading? && p in s'.procs ==> !s'.procs[p].Fetching? && !s'.procs[p].Revoking?
    ensures p in s'.procs && p !in s'.granted && NotGranted(s'.procs[p], rt, now)
  {
    var step :| NextStep(setting, s, s', step);
  }

  lemma GrantStep(setting: int, run: seq<State>, k: nat, p: nat, rt: RefreshToken, now: int)
    requires Run(setting, run) && k + 1 < |run| && p in run[k].procs && p !in run[k].granted
    requires NotGranted(run[k].procs[p], rt, now)
    ensures p in run[k + 1].procs && (p !in run[k + 1].granted ==> NotGranted(run[k + 1].procs[p], rt, now))
    ensures p in run[k + 1].granted <==> ReadAsLatest(run, k, p, rt)
    ensures p in run[k + 1].granted ==> InWindow(setting, rt, now)
  {
    if ReadsFamily(run, k, p) {
      ReadDecides(setting, run, k, p);
    } else {
      assert Next(setting, run[k], run[k + 1]);
      NoGrantWithoutRead(setting, run[k], run[k + 1], p, rt, now);
    }
  }

  /** Exactly when a replay is let through: between the refusal of its rotation (step i) and state
      j it has been granted if and only if the token was unexpired and rotated within the leeway
      of the request's clock, on either side, and the request read its family at an instant at
      which the session was stored and not ended and no member had been rotated later. */
  lemma GrantedExactlyDuplicates(
    setting: int, run: seq<State>, i: nat, j: nat, p: nat, op: Op, r: Result)
    requires Run(setting, run) && i < j < |run|
    requires NextStep(setting, run[i], run[i + 1], Call(p, op, r)) && run[i].procs[p].Rotating? && r.Replayed?
    ensures p in run[j].granted <==>
              && setting > 0 && r.rt.rotatedAt.Some? && run[i].procs[p].now < r.rt.expiresAt
              && -setting <= run[i].procs[p].now - r.rt.rotatedAt.value <= setting
              && exists k :: i < k < j && ReadAsLatest(run, k, p, r.rt)
    ensures p in run[j].procs && (p !in run[j].granted ==> NotGranted(run[j].procs[p], r.rt, run[i].procs[p].now))
  {
    NotGrantedYet(setting, run, i, p, op, r);
    GrantedIffRead(setting, run, i, j, p, r.rt, run[i].procs[p].now);
  }

  lemma GrantedIffRead(setting: int, run: seq<State>, i: nat, j: nat, p: nat, rt: RefreshToken, now: int)
    requires Run(setting, run) && i < j < |run| && Waits(run[i + 1], p, rt, now) && p !in run[i + 1].granted
    ensures p in run[j].granted <==>
              InWindow(setting, rt, now) && exists k :: i < k < j && ReadAsLatest(run, k, p, rt)
    ensures Waits(run[j], p, rt, now)
  {
    GrantedOrNot(setting, run, i + 1, j, p, rt, now);
    if p in run[j].granted {
      var k := GrantHasRead(setting, run, i + 1, j, p, rt, now);
    }
    if k: nat :| i < k < j && ReadAsLatest(run, k, p, rt) {
      ReadIsGranted(setting, run, i + 1, k, j, p, rt, now);
    }
  }

  lemma GrantHasRead(setting: int, run: seq<State>, i: nat, j: nat, p: nat, rt: RefreshToken, now: int) returns (k: nat)
    requires Run(setting, run) && i <= j < |run| && Waits(run[i], p, rt, now)
    requires p !in run[i].granted && p in run[j].granted
    ensures i <= k < j && ReadAsLatest(run, k, p, rt) && InWindow(setting, rt, now)
  {
    k := GrantingStep(run, i, j, p);
    GrantedOrNot(setting, run, i, k, p, rt, now);
    GrantStep(setting, run, k, p, rt, now);
  }

  /** Request p has its grant, or is where a replay without one can be. */
  predicate Waits(s: State, p: nat, rt: RefreshToken, now: int) {
    p in s.procs && (p in s.granted || NotGranted(s.procs[p], rt, now))
  }

  lemma {:induction false} GrantedOrNot(setting: int, run: seq<State>, i: nat, j: nat, p: nat, rt: RefreshToken, now: int)
    requires Run(setting, run) && i <= j < |run| && Waits(run[i], p, rt, now)
    ensures Waits(run[j], p, rt, now)
    decreases j
  {
    if i < j {
      GrantedOrNot(setting, run, i, j - 1, p, rt, now);
      if p in run[j - 1].granted {
        GrantsStay(setting, run, j - 1, p);
      } else {
        GrantStep(setting, run, j - 1, p, rt, now);
      }
    }
  }

  lemma {:induction false} GrantingStep(run: seq<State>, i: nat, j: nat, p: nat) returns (k: nat)
    requires i <= j < |run| && p !in run[i].granted && p in run[j].granted
    ensures i <= k < j && p !in run[k].granted && p in run[k + 1].granted
    decreases j
  {
    if p in run[j - 1].granted {
      k := GrantingStep(run, i, j - 1, p);
    } else {
      k := j - 1;
    }
  }

  lemma ReadIsGranted(setting: int, run: seq<State>, i: nat, k: nat, j: nat, p: nat, rt: RefreshToken, now: int)
    requires Run(setting, run) && i <= k < j < |run| && Waits(run[i], p, rt, now) && ReadAsLatest(run, k, p, rt)
    ensures p in run[j].granted && InWindow(setting, rt, now)
  {
    GrantedOrNot(setting, run, i, k, p, rt, now);
    GrantedIsPast(setting, run, k, p);
    GrantStep(setting, run, k, p, rt, now);
    GrantLasts(setting, run, k + 1, j, p);
  }

  lemma GrantedIsPast(setting: int, run: seq<State>, k: nat, p: nat)
    requires Run(setting, run) && k < |run| && p in run[k].procs && (run[k].procs[p].Reading? || run[k].procs[p].Rotating?)
    ensures p !in run[k].granted
  {
    BalancedAlways(setting, run, k);
  }

  lemma {:induction false} GrantLasts(setting: int, run: seq<State>, i: nat, j: nat, p: nat)
    requires Run(setting, run) && i <= j < |run| && p in run[i].granted && p in run[i].procs
    ensures p in run[j].granted && p in run[j].procs
    decreases j
  {
    if i < j {
      GrantLasts(setting, run, i, j - 1, p);
      GrantsStay(setting, run, j - 1, p);
    }
  }

  lemma NotGrantedYet(setting: int, run: seq<State>, i: nat, p: nat, op: Op, r: Result)
    requires Run(setting, run) && i + 1 < |run|
    requires NextStep(setting, run[i], run[i + 1], Call(p, op, r)) && run[i].procs[p].Rotating? && r.Replayed?
    ensures p in run[i + 1].procs && p !in run[i + 1].granted
    ensures NotGranted(run[i + 1].procs[p], r.rt, run[i].procs[p].now)
  {
    GrantedIsPast(setting, run, i, p);
  }

  lemma GrantsStay(setting: int, run: seq<State>, k: nat, p: nat)
    requires Run(setting, run) && k + 1 < |run| && p in run[k].granted && p in run[k].procs
    ensures p in run[k + 1].granted && p in run[k + 1].procs
  {
    assert Next(setting, run[k], run[k + 1]);
    var step :| NextStep(setting, run[k], run[k + 1], step);
  }

  /** Theft detection: a replay outside the window is never exchanged. From then on the request
      is revoking that token's family or has ended as reuse; and if it ended with the revocation
      done, the family has no live member in that and every later state. */
  lemma {:induction false} LateReplayEndsTheFamily(
    setting: int, run: seq<State>, i: nat, j: nat, k: nat, p: nat, op: Op, r: Result)
    requires Run(setting, run) && i < j <= k < |run|
    requires NextStep(setting, run[i], run[i + 1], Call(p, op, r)) && run[i].procs[p].Rotating?
    requires r.Replayed?
    requires !(setting > 0 && r.rt.rotatedAt.Some? && run[i].procs[p].now < r.rt.expiresAt
               && -setting <= run[i].procs[p].now - r.rt.rotatedAt.value <= setting)
    ensures p in run[j].procs && RefusedAsReuse(run[j].procs[p], r.rt)
    ensures run[j].procs[p] == Done(Reused(r.rt, true)) ==> NoLiveMember(run[k].tables, FamilyRoot(r.rt))
    decreases j
  {
    if j > i + 1 {
      LateReplayEndsTheFamily(setting, run, i, j - 1, k, p, op, r);
      assert Next(setting, run[j - 1], run[j]);
      RefusalStays(setting, run[j - 1], run[j], p, r.rt);
    }
    if run[j].procs[p] == Done(Reused(r.rt, true)) {
      ReportedEndIsFinal(setting, run, j, k, p, r.rt);
    }
  }

  /** An expired token gets no grace, however recently it was rotated: its replay ends as reuse. */
  lemma ExpiredReplayIsReuse(setting: int, run: seq<State>, i: nat, j: nat, k: nat, p: nat, op: Op, r: Result)
    requires Run(setting, run) && i < j <= k < |run|
    requires NextStep(setting, run[i], run[i + 1], Call(p, op, r)) && run[i].procs[p].Rotating? && r.Replayed?
    requires r.rt.expiresAt <= run[i].procs[p].now
    ensures p in run[j].procs && RefusedAsReuse(run[j].procs[p], r.rt)
    ensures run[j].procs[p] == Done(Reused(r.rt, true)) ==> NoLiveMember(run[k].tables, FamilyRoot(r.rt))
  {
    LateReplayEndsTheFamily(setting, run, i, j, k, p, op, r);
  }

  lemma RefusalStays(setting: int, s: State, s': State, p: nat, rt: RefreshToken)
    requires Next(setting, s, s') && p in s.procs && RefusedAsReuse(s.procs[p], rt)
    ensures p in s'.procs && RefusedAsReuse(s'.procs[p], rt)
  {
    var step :| NextStep(setting, s, s', step);
  }

  // ----- accounting -----

  function Live(s: State, r: string): set<string> {
    set h | h in s.tables.tokens && InFamily(s.tables.tokens[h], r) && !s.tables.tokens[h].revoked
  }

  /** The token a request is about to replace, once it has won a rotation or been granted. */
  function Exchanging(pc: Pc): Option<RefreshToken> {
    match pc
    case Fetching(rt) => Some(rt)
    case Minting(from, _) => from
    case Storing(from, _) => from
    case _ => None
  }

  predicate Pends(pc: Pc, r: string) {
    Exchanging(pc).Some? && FamilyRoot(Exchanging(pc).value) == r
  }

  function Pending(s: State, r: string): set<nat> {
    set p | p in s.procs && Pends(s.procs[p], r)
  }

  /** Moving one request changes the pending set by that request alone. */
  lemma PendingMoves(s: State, s': State, p: nat, r: string)
    requires p in s.procs && p in s'.procs && s'.procs == s.procs[p := s'.procs[p]]
    ensures Pends(s'.procs[p], r) ==> |Pending(s', r)| <= |Pending(s, r)| + 1
    ensures Pends(s.procs[p], r) || !Pends(s'.procs[p], r) ==> |Pending(s', r)| <= |Pending(s, r)|
    ensures Pends(s.procs[p], r) && !Pends(s'.procs[p], r) ==> |Pending(s', r)| + 1 == |Pending(s, r)|
  {
    if Pends(s.procs[p], r) && !Pends(s'.procs[p], r) {
      assert Pending(s', r) == Pending(s, r) - {p} && p in Pending(s, r);
    } else if Pends(s.procs[p], r) || !Pends(s'.procs[p], r) {
      assert Pending(s', r) == Pending(s, r);
    } else {
      assert Pending(s', r) == Pending(s, r) + {p};
    }
  }

  /** Only a won rotation or a granted duplicate starts an exchange. */
  lemma ExchangeStarts(setting: int, pc: Pc, op: Op, res: Result, r: string)
    requires Calls(pc, op) && !res.Rotated? && !(pc.Reading? && React(setting, pc, res).Fetching?)
    ensures Pends(React(setting, pc, res), r) ==> Pends(pc, r)
  {
  }

  function Grants(s: State, r: string): set<nat> {
    set p | p in s.granted && FamilyRoot(s.granted[p]) == r
  }

  ghost predicate Balanced(s: State) {
    forall r: string :: r != "" ==> |Live(s, r)| + |Pending(s, r)| <= 1 + |Grants(s, r)|
  }

  /** Histories: a grant or a won rotation belongs to a request that has started; a token whose
      rotation was won is revoked for good; each rotation is won by one request. */
  ghost predicate History(setting: int, s: State) {
    WonOk(s) && GrantedOk(setting, s) && (forall p :: p in s.procs ==> Sourced(s, p))
  }

  ghost predicate WonOk(s: State) {
    && (forall p :: p in s.won ==> p in s.procs && !s.procs[p].Rotating? && s.won[p].revoked
                                   && CopyOk(s.tables, s.born, s.won[p]))
    && (forall p, q :: p in s.won && q in s.won && s.won[p].hash == s.won[q].hash ==> p == q)
  }

  ghost predicate GrantedOk(setting: int, s: State) {
    && (forall p :: p in s.granted ==> p in s.procs && !s.procs[p].Rotating? && !s.procs[p].Reading?)
    && (Leeway(setting) == 0 ==> s.granted == map[])
  }

  ghost predicate Sourced(s: State, p: nat)
    requires p in s.procs
  {
    Source(s.procs[p]).Some? ==>
      || (p in s.won && s.won[p].hash == Source(s.procs[p]).value.hash)
      || (p in s.granted && s.granted[p].hash == Source(s.procs[p]).value.hash)
  }

  /** The token a request exchanges, or has exchanged for a new one. */
  function Source(pc: Pc): Option<RefreshToken> {
    if pc.Done? && pc.outcome.Issued? then pc.outcome.from else Exchanging(pc)
  }

  lemma CopiesOfWonStayOk(setting: int, s: State, s': State, p: nat, op: Op, r: Result)
    requires Inv(setting, s) && WonOk(s) && NextStep(setting, s, s', Call(p, op, r))
    ensures forall q :: q in s.won ==> CopyOk(s'.tables, s'.born, s.won[q])
    ensures r.Rotated? ==> r.rt.revoked && CopyOk(s'.tables, s'.born, r.rt)
                           && forall q :: q in s.won ==> s.won[q].hash != r.rt.hash
  {
    ServiceIsDisciplined(setting, s, p, op);
    forall q | q in s.won
      ensures CopyOk(s'.tables, s'.born, s.won[q])
    {
      CopyStaysOk(s.tables, s.born, op, r, s'.tables, s.won[q]);
    }
    if r.Rotated? {
      assert RowOk(s.tables, s.born, op.hash);
      CallerStaysOk(setting, s, p, op, r, s'.tables);
    }
  }

  lemma ReactLeavesRotating(setting: int, pc: Pc, op: Op, r: Result)
    requires Calls(pc, op)
    ensures !React(setting, pc, r).Rotating?
    ensures React(setting, pc, r).Reading? ==> pc.Rotating?
  {
  }

  lemma CallKeepsWon(setting: int, s: State, s': State, p: nat, op: Op, r: Result)
    requires Inv(setting, s) && WonOk(s) && NextStep(setting, s, s', Call(p, op, r))
    ensures WonOk(s')
  {
    CopiesOfWonStayOk(setting, s, s', p, op, r);
    ReactLeavesRotating(setting, s.procs[p], op, r);
    WonGrows(s, s', p, r);
  }

  lemma WonGrows(s: State, s': State, p: nat, r: Result)
    requires WonOk(s) && p in s.procs && p in s'.procs && s'.procs == s.procs[p := s'.procs[p]]
    requires !s'.procs[p].Rotating?
    requires s'.won == if r.Rotated? then s.won[p := r.rt] else s.won
    requires forall q :: q in s.won ==> CopyOk(s'.tables, s'.born, s.won[q])
    requires r.Rotated? ==> r.rt.revoked && CopyOk(s'.tables, s'.born, r.rt)
                            && forall q :: q in s.won ==> s.won[q].hash != r.rt.hash
    ensures WonOk(s')
  {
  }

  lemma CallKeepsGranted(setting: int, s: State, s': State, p: nat, op: Op, r: Result)
    requires Inv(setting, s) && GrantedOk(setting, s) && NextStep(setting, s, s', Call(p, op, r))
    ensures GrantedOk(setting, s')
  {
    ReactLeavesRotating(setting, s.procs[p], op, r);
    assert PcOk(setting, s.tables, s.born, s.generated, s.procs[p]);
  }

  lemma HistoryStep(setting: int, s: State, s': State, step: Step)
    requires Inv(setting, s) && History(setting, s) && NextStep(setting, s, s', step)
    ensures History(setting, s')
  {
    if step.Call? {
      CallKeepsWon(setting, s, s', step.p, step.op, step.r);
      CallKeepsGranted(setting, s, s', step.p, step.op, step.r);
    } else {
      assert WonOk(s') && GrantedOk(setting, s');
    }
    SourcesStep(setting, s, s', step);
  }

  lemma SourcesStep(setting: int, s: State, s': State, step: Step)
    requires History(setting, s) && NextStep(setting, s, s', step)
    ensures forall q :: q in s'.procs ==> Sourced(s', q)
  {
    forall q | q in s'.procs
      ensures Sourced(s', q)
    {
      SourceStays(setting, s, s', step, q);
    }
  }

  lemma SourceStays(setting: int, s: State, s': State, step: Step, q: nat)
    requires NextStep(setting, s, s', step) && q in s'.procs && (q in s.procs ==> Sourced(s, q))
    ensures Sourced(s', q)
  {
  }

  lemma BalancedStep(setting: int, s: State, s': State, step: Step)
    requires Inv(setting, s) && History(setting, s) && Balanced(s) && NextStep(setting, s, s', step)
    ensures Balanced(s')
  {
    forall r: string | r != ""
      ensures |Live(s', r)| + |Pending(s', r)| <= 1 + |Grants(s', r)|
    {
      assert |Live(s, r)| + |Pending(s, r)| <= 1 + |Grants(s, r)|;
      if step.Call? {
        CallBalances(setting, s, s', step.p, step.op, step.r, r);
      } else {
        LocalStepBalances(setting, s, s', step, r);
      }
    }
  }

  lemma LocalStepBalances(setting: int, s: State, s': State, step: Step, r: string)
    requires NextStep(setting, s, s', step) && !step.Call?
    ensures Live(s', r) == Live(s, r) && Grants(s', r) == Grants(s, r) && |Pending(s', r)| <= |Pending(s, r)|
  {
    assert Pending(s', r) <= Pending(s, r);
    Within(Pending(s', r), Pending(s, r));
  }

  lemma CallBalances(setting: int, s: State, s': State, p: nat, op: Op, res: Result, r: string)
    requires Inv(setting, s) && History(setting, s) && NextStep(setting, s, s', Call(p, op, res)) && r != ""
    requires |Live(s, r)| + |Pending(s, r)| <= 1 + |Grants(s, r)|
    ensures |Live(s', r)| + |Pending(s', r)| <= 1 + |Grants(s', r)|
  {
    if res.Rotated? {
      RotationBalances(setting, s, s', p, op, res, r);
    } else if op.SaveToken? && res == Ok {
      SaveBalances(setting, s, s', p, op, res, r);
    } else {
      LiveShrinks(s, s', op, res, r);
      OtherCallBalances(setting, s, s', p, op, res, r);
    }
  }

  lemma LiveShrinks(s: State, s': State, op: Op, res: Result, r: string)
    requires Exec(s.tables, op, res, s'.tables) && !res.Rotated? && !(op.SaveToken? && res == Ok)
    ensures |Live(s', r)| <= |Live(s, r)|
  {
    assert Live(s', r) <= Live(s, r);
    Within(Live(s', r), Live(s, r));
  }

  lemma OtherCallBalances(setting: int, s: State, s': State, p: nat, op: Op, res: Result, r: string)
    requires GrantedOk(setting, s) && p in s.procs && Calls(s.procs[p], op) && !res.Rotated?
    requires s' == After(setting, s, p, op, res, s'.tables)
    ensures |Pending(s', r)| + |Grants(s, r)| <= |Pending(s, r)| + |Grants(s', r)|
  {
    PendingMoves(s, s', p, r);
    if s.procs[p].Reading? && s'.procs[p].Fetching? {
      assert p !in s.granted;
      if FamilyRoot(s.procs[p].rt) == r {
        assert Grants(s', r) == Grants(s, r) + {p};
      } else {
        assert Grants(s', r) == Grants(s, r);
      }
    } else {
      ExchangeStarts(setting, s.procs[p], op, res, r);
      assert Grants(s', r) == Grants(s, r);
    }
  }

  lemma RotationBalances(setting: int, s: State, s': State, p: nat, op: Op, res: Result, r: string)
    requires Inv(setting, s) && NextStep(setting, s, s', Call(p, op, res)) && res.Rotated? && r != ""
    ensures |Live(s', r)| + |Pending(s', r)| <= |Live(s, r)| + |Pending(s, r)| && Grants(s', r) == Grants(s, r)
  {
    PendingMoves(s, s', p, r);
    LiveLosesOne(setting, s, s', op, res, r);
    assert Pends(s'.procs[p], r) <==> FamilyRoot(res.rt) == r;
  }

  lemma LiveLosesOne(setting: int, s: State, s': State, op: Op, res: Result, r: string)
    requires Inv(setting, s) && Exec(s.tables, op, res, s'.tables) && op.Rotate? && res.Rotated? && r != ""
    ensures |Live(s', r)| <= |Live(s, r)|
    ensures FamilyRoot(res.rt) == r ==> |Live(s', r)| + 1 == |Live(s, r)|
  {
    assert RowOk(s.tables, s.born, op.hash);
    if InFamily(s.tables.tokens[op.hash], r) {
      assert Live(s', r) == Live(s, r) - {op.hash} && op.hash in Live(s, r);
    } else {
      assert Live(s', r) == Live(s, r);
    }
  }

  /** A hash that was never stored has no family yet. */
  lemma UnbornHasNoFamily(setting: int, s: State, h: string)
    requires Inv(setting, s) && h !in s.born && h != ""
    ensures h !in s.tables.tokens && Pending(s, h) == {} && Live(s, h) == {}
    ensures forall g :: g in s.tables.tokens ==> !InFamily(s.tables.tokens[g], h)
  {
    assert forall g :: g in s.tables.tokens ==> RowOk(s.tables, s.born, g);
    assert forall q :: q in s.procs ==> PcOk(setting, s.tables, s.born, s.generated, s.procs[q]);
  }

  lemma SaveBalances(setting: int, s: State, s': State, p: nat, op: Op, res: Result, r: string)
    requires Inv(setting, s) && NextStep(setting, s, s', Call(p, op, res)) && op.SaveToken? && res == Ok && r != ""
    requires |Live(s, r)| + |Pending(s, r)| <= 1 + |Grants(s, r)|
    ensures |Live(s', r)| + |Pending(s', r)| <= 1 + |Grants(s', r)|
  {
    var h := op.token.hash;
    MintedIsUnborn(setting, s, p, op);
    UnbornHasNoFamily(setting, s, h);
    PendingMoves(s, s', p, r);
    assert Grants(s', r) == Grants(s, r);
    LiveGrows(s, s', op.token, r);
  }

  lemma MintedIsUnborn(setting: int, s: State, p: nat, op: Op)
    requires Inv(setting, s) && p in s.procs && Calls(s.procs[p], op) && op.SaveToken?
    ensures op.token.hash !in s.born && op.token.hash != ""
    ensures op.token.parent != "" ==> Pends(s.procs[p], op.token.parent)
  {
    assert PcOk(setting, s.tables, s.born, s.generated, s.procs[p]);
  }

  lemma LiveGrows(s: State, s': State, token: RefreshToken, r: string)
    requires token.hash !in s.tables.tokens && s'.tables.tokens == s.tables.tokens[token.hash := token]
    ensures |Live(s', r)| <= |Live(s, r)| + 1
    ensures !InFamily(token, r) ==> |Live(s', r)| <= |Live(s, r)|
  {
    Insert(Live(s, r), Live(s', r), token.hash);
    if !InFamily(token, r) {
      assert Live(s', r) == Live(s, r);
    }
  }

  lemma {:induction false} BalancedAlways(setting: int, run: seq<State>, i: nat)
    requires Run(setting, run) && i < |run|
    ensures History(setting, run[i]) && Balanced(run[i])
  {
    if i == 0 {
      assert forall r :: Live(run[0], r) == {} && Pending(run[0], r) == {};
    } else {
      BalancedAlways(setting, run, i - 1);
      InvAlways(setting, run, i - 1);
      var step :| NextStep(setting, run[i - 1], run[i], step);
      HistoryStep(setting, run[i - 1], run[i], step);
      BalancedStep(setting, run[i - 1], run[i], step);
    }
  }

  /** For any leeway: live members plus refreshes between their exchange and their save never
      exceed one plus the duplicates granted to that family. */
  lemma LeewayAccounting(setting: int, run: seq<State>, i: nat, r: string)
    requires Run(setting, run) && i < |run| && r != ""
    ensures |Live(run[i], r)| + |Pending(run[i], r)| <= 1 + |Grants(run[i], r)|
  {
    BalancedAlways(setting, run, i);
  }

  /** Strict mode is linear: a family never has two usable ends. */
  lemma StrictModeIsLinear(setting: int, run: seq<State>, i: nat, r: string)
    requires Run(setting, run) && i < |run| && r != "" && setting <= 0
    ensures |Live(run[i], r)| + |Pending(run[i], r)| <= 1
  {
    BalancedAlways(setting, run, i);
    assert Grants(run[i], r) == {};
  }

  /** Requests that were issued a new pair in exchange for the token with this hash. */
  function Successors(s: State, hash: string): set<nat> {
    set p | p in s.procs && s.procs[p].Done? && s.procs[p].outcome.Issued?
            && s.procs[p].outcome.from.Some? && s.procs[p].outcome.from.value.hash == hash
  }

  function GrantsOf(s: State, hash: string): set<nat> {
    set p | p in s.granted && s.granted[p].hash == hash
  }

  /** One token yields at most one pair plus one for each duplicate granted of that very token;
      none of the latter in strict mode. */
  lemma OneSuccessorPerToken(setting: int, run: seq<State>, i: nat, hash: string)
    requires Run(setting, run) && i < |run|
    ensures |Successors(run[i], hash)| <= 1 + |GrantsOf(run[i], hash)|
    ensures setting <= 0 ==> |Successors(run[i], hash)| <= 1
  {
    BalancedAlways(setting, run, i);
    var s := run[i];
    var grants := GrantsOf(s, hash);
    if w :| w in s.won && s.won[w].hash == hash {
      forall p | p in Successors(s, hash)
        ensures p in grants + {w}
      {
        assert Sourced(s, p);
      }
      Insert(grants, Successors(s, hash), w);
    } else {
      forall p | p in Successors(s, hash)
        ensures p in grants
      {
        assert Sourced(s, p);
      }
      Within(Successors(s, hash), grants);
    }
    if setting <= 0 {
      assert grants == {};
    }
  }
}
