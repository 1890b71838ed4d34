/** Service.Refresh, Logout and the sign-ins of auth/service.go as a machine: any number of
    requests, each a program counter, interleave over one store. Every store call is one step;
    the clock readings and the order of steps are arbitrary. */
module RefreshService {
  import opened Entities
  import opened RefreshStore

  const REFRESH_TOKEN_TTL: int := 7 * 24 * 3600 * 1_000_000_000

  datatype Outcome =
    | Issued(from: Option<RefreshToken>, hash: string)   // a pair whose refresh token hashes to `hash`
    | Rejected                                           // unknown or expired token, or its user is gone
    | Reused(rt: RefreshToken, ended: bool)              // TokenReuseError; `ended`: nothing went wrong revoking
    | LoggedOut(rt: RefreshToken)
    | NothingToLogOut
    | Administered
    | Failed                                             // a storage failure or an abandoned request

  datatype Pc =
    | Rotating(hash: string, now: int)
    | Reading(rt: RefreshToken, now: int)                // isDuplicateRefresh, before its family read
    | Revoking(rt: RefreshToken, reuse: bool)
    | Fetching(rt: RefreshToken)                         // the user lookup of Refresh
    | Minting(from: Option<RefreshToken>, userId: string)
    | Storing(from: Option<RefreshToken>, token: RefreshToken)
    | LogoutReading(hash: string)
    | Administering(op: Op)                              // users created and deleted by others
    | Done(outcome: Outcome)

  /** `generated` and `born` are every hash minted and every hash ever stored; `won` and
      `granted` remember which request won a rotation, or was granted a duplicate, of what. */
  datatype State = State(
    tables: Tables, procs: map<nat, Pc>, generated: set<string>, born: set<string>,
    won: map<nat, RefreshToken>, granted: map<nat, RefreshToken>)

  datatype Step =
    | Spawn(p: nat, pc: Pc)
    | Mint(p: nat, hash: string, now: int)
    | Call(p: nat, op: Op, r: Result)
    | Fail(p: nat)
    | Idle                                               // time passes; a back end may work meanwhile

  /** WithRefreshReuseLeeway: a negative setting is strict mode. */
  function Leeway(setting: int): int {
    if setting < 0 then 0 else setting
  }

  /** The part of isDuplicateRefresh that needs no store. */
  predicate InWindow(setting: int, rt: RefreshToken, now: int) {
    && Leeway(setting) != 0
    && rt.rotatedAt.Some?
    && now < rt.expiresAt
    && -Leeway(setting) <= now - rt.rotatedAt.value <= Leeway(setting)
  }

  /** What isDuplicateRefresh concludes from the family it read. */
  predicate LatestRotation(rt: RefreshToken, family: RefreshFamily)
    requires rt.rotatedAt.Some?
  {
    !family.sessionEnded && family.lastRotatedAt.Some? && family.lastRotatedAt.value <= rt.rotatedAt.value
  }

  function Successor(from: Option<RefreshToken>, userId: string, hash: string, now: int): RefreshToken {
    RefreshToken(hash, userId, if from.Some? then FamilyRoot(from.value) else "",
                 now + REFRESH_TOKEN_TTL, false, None, None)
  }

  predicate Starts(pc: Pc) {
    || pc.Rotating?
    || pc.LogoutReading?
    || (pc.Minting? && pc.from.None?)
    || (pc.Administering? && (pc.op.CreateUser? || pc.op.DeleteUser?))
  }

  /** The store call a request makes next. The stamp of a revocation is the store's own clock. */
  predicate Calls(pc: Pc, op: Op) {
    match pc
    case Rotating(hash, now) => op == Rotate(hash, now)
    case Reading(rt, _) => op == ReadFamily(FamilyRoot(rt))
    case Revoking(rt, _) => op.Revoke? && op.root == FamilyRoot(rt)
    case Fetching(rt) => op == GetUser(rt.userId)
    case Storing(_, token) => op == SaveToken(token)
    case LogoutReading(hash) => op == GetToken(hash)
    case Administering(o) => op == o
    case _ => false
  }

  /** Where the answer to that call takes the request. */
  function React(setting: int, pc: Pc, r: Result): Pc {
    match pc
    case Rotating(_, now) => (
      match r
      case Rotated(rt) => Fetching(rt)
      case Replayed(rt) => if InWindow(setting, rt, now) then Reading(rt, now) else Revoking(rt, true)
      case TokenNotFound => Done(Rejected)
      case Expired(_) => Done(Rejected)
      case _ => Done(Failed))
    case Reading(rt, _) =>
      if r.Summary? && rt.rotatedAt.Some? && LatestRotation(rt, r.family) then Fetching(rt) else Revoking(rt, true)
    case Revoking(rt, reuse) => if reuse then Done(Reused(rt, true)) else Done(LoggedOut(rt))
    case Fetching(rt) => if r == Ok then Minting(Some(rt), rt.userId) else Done(Rejected)
    case Storing(from, token) =>
      if r == Ok then Done(Issued(from, token.hash))
      else if r == Refused && from.Some? then Done(Reused(from.value, true))
      else Done(Failed)
    case LogoutReading(_) => if r.Found? then Revoking(r.rt, false) else Done(NothingToLogOut)
    case Administering(_) => Done(Administered)
    case _ => pc
  }

  /** A failed revocation of a reused family is logged; the replay is refused all the same. */
  function Abandoned(pc: Pc): Pc {
    if pc.Revoking? && pc.reuse then Done(Reused(pc.rt, false)) else Done(Failed)
  }

  predicate Init(s: State) {
    s == State(Tables({}, map[]), map[], {}, {}, map[], map[])
  }

  ghost predicate NextStep(setting: int, s: State, s': State, step: Step) {
    match step
    case Spawn(p, pc) =>
      && p !in s.procs && Starts(pc)
      && s' == s.(procs := s.procs[p := pc])
    case Mint(p, hash, now) =>
      && p in s.procs && s.procs[p].Minting? && hash != "" && hash !in s.generated
      && var pc := s.procs[p];
         s' == s.(procs := s.procs[p := Storing(pc.from, Successor(pc.from, pc.userId, hash, now))],
                  generated := s.generated + {hash})
    case Call(p, op, r) =>
      && p in s.procs && Calls(s.procs[p], op) && Exec(s.tables, op, r, s'.tables)
      && s' == After(setting, s, p, op, r, s'.tables)
    case Fail(p) =>
      && p in s.procs && !s.procs[p].Done?
      && s' == s.(procs := s.procs[p := Abandoned(s.procs[p])])
    case Idle => s' == s
  }

  function After(setting: int, s: State, p: nat, op: Op, r: Result, tables: Tables): State
    requires p in s.procs
  {
    var pc := s.procs[p];
    var pc' := React(setting, pc, r);
    State(tables, s.procs[p := pc'], s.generated, Born(s.born, op, r),
          if r.Rotated? then s.won[p := r.rt] else s.won,
          if pc.Reading? && pc'.Fetching? then s.granted[p := pc.rt] else s.granted)
  }

  ghost predicate Next(setting: int, s: State, s': State) {
    exists step :: NextStep(setting, s, s', step)
  }

  ghost predicate Run(setting: int, run: seq<State>) {
    && |run| > 0 && Init(run[0])
    && forall i, j :: 0 <= i && j == i + 1 && j < |run| ==> Next(setting, run[i], run[j])
  }

  // ----- the inductive invariant -----

  /** Family shape: every key is its row's hash; every owner exists; a parent is a stored root
      of the same user; a token is revoked exactly when rotated or ended; and a member carries
      EndedAt exactly when its root does. */
  ghost predicate RowOk(t: Tables, born: set<string>, h: string)
    requires h in t.tokens
  {
    var rt := t.tokens[h];
    && rt.hash == h && h != "" && h in born
    && rt.userId in t.users
    && (rt.revoked <==> rt.rotatedAt.Some? || rt.endedAt.Some?)
    && (rt.parent != "" ==>
          && rt.parent in t.tokens
          && t.tokens[rt.parent].parent == ""
          && t.tokens[rt.parent].userId == rt.userId
          && (rt.endedAt.Some? <==> t.tokens[rt.parent].endedAt.Some?))
  }

  ghost predicate TablesOk(t: Tables, born: set<string>) {
    forall h :: h in t.tokens ==> RowOk(t, born, h)
  }

  /** A copy of a token a request carries, against the store as it is now. */
  ghost predicate CopyOk(t: Tables, born: set<string>, rt: RefreshToken) {
    && rt.hash != "" && rt.hash in born && FamilyRoot(rt) in born
    && (rt.hash in t.tokens <==> FamilyRoot(rt) in t.tokens)
    && (rt.hash in t.tokens ==>
          var cur := t.tokens[rt.hash];
          && cur.userId == rt.userId && cur.parent == rt.parent && cur.expiresAt == rt.expiresAt
          && (rt.revoked ==> cur.revoked)
          && (rt.rotatedAt.Some? ==> cur.rotatedAt == rt.rotatedAt))
    && (FamilyRoot(rt) in t.tokens ==>
          && t.tokens[FamilyRoot(rt)].parent == ""
          && t.tokens[FamilyRoot(rt)].userId == rt.userId)
  }

  /** The session rooted at r is over: its root was stored once and is now ended or gone. */
  ghost predicate Dead(t: Tables, born: set<string>, r: string) {
    r in born && (r in t.tokens ==> t.tokens[r].endedAt.Some?)
  }

  ghost predicate PcOk(setting: int, t: Tables, born: set<string>, generated: set<string>, pc: Pc) {
    match pc
    case Rotating(_, _) => true
    case Reading(rt, now) => CopyOk(t, born, rt) && rt.revoked && InWindow(setting, rt, now)
    case Revoking(rt, _) => CopyOk(t, born, rt)
    case Fetching(rt) => CopyOk(t, born, rt)
    case Minting(from, userId) => from.Some? ==> CopyOk(t, born, from.value) && userId == from.value.userId
    case Storing(from, token) =>
      && IsNew(token) && token.hash != "" && token.hash in generated && token.hash !in born
      && (from.None? ==> token.parent == "")
      && (from.Some? ==> CopyOk(t, born, from.value) && token.parent == FamilyRoot(from.value)
                         && token.userId == from.value.userId)
    case LogoutReading(_) => true
    case Administering(op) => op.CreateUser? || op.DeleteUser?
    case Done(Reused(rt, ended)) => ended ==> Dead(t, born, FamilyRoot(rt))
    case Done(LoggedOut(rt)) => Dead(t, born, FamilyRoot(rt))
    case Done(_) => true
  }

  ghost predicate Mints(pc: Pc, hash: string) {
    pc.Storing? && pc.token.hash == hash
  }

  ghost predicate SameMint(pc: Pc, pc': Pc) {
    pc'.Storing? && Mints(pc, pc'.token.hash)
  }

  ghost predicate Inv(setting: int, s: State) {
    && TablesOk(s.tables, s.born)
    && s.born <= s.generated && "" !in s.born
    && (forall p :: p in s.procs ==> PcOk(setting, s.tables, s.born, s.generated, s.procs[p]))
    && (forall p, q :: p in s.procs && q in s.procs && SameMint(s.procs[p], s.procs[q]) ==> p == q)
  }

  // ----- what one store call keeps -----

  /** Calls the service makes: new tokens join a root of their own user, and only roots are revoked. */
  ghost predicate Disciplined(t: Tables, born: set<string>, op: Op) {
    match op
    case SaveToken(token) =>
      && IsNew(token) && token.hash != "" && token.hash !in born
      && (token.parent != "" && token.parent in t.tokens ==>
            t.tokens[token.parent].parent == "" && t.tokens[token.parent].userId == token.userId)
    case Revoke(root, _) => root != "" && (root in t.tokens ==> t.tokens[root].parent == "")
    case _ => true
  }

  lemma TablesStayOk(t: Tables, born: set<string>, op: Op, r: Result, t': Tables)
    requires TablesOk(t, born) && Exec(t, op, r, t') && Disciplined(t, born, op)
    ensures TablesOk(t', Born(born, op, r))
  {
    forall h | h in t'.tokens
      ensures RowOk(t', Born(born, op, r), h)
    {
      if h in t.tokens {
        assert RowOk(t, born, h);
        var parent := t.tokens[h].parent;
        if parent != "" {
          assert RowOk(t, born, parent);
        }
      }
    }
  }

  lemma CopyStaysOk(t: Tables, born: set<string>, op: Op, r: Result, t': Tables, rt: RefreshToken)
    requires TablesOk(t, born) && Exec(t, op, r, t') && Disciplined(t, born, op)
    requires CopyOk(t, born, rt)
    ensures CopyOk(t', Born(born, op, r), rt)
  {
    if rt.hash in t.tokens {
      assert RowOk(t, born, rt.hash);
      assert RowOk(t, born, FamilyRoot(rt));
    }
  }

  lemma DeadStaysDead(t: Tables, born: set<string>, op: Op, r: Result, t': Tables, root: string)
    requires TablesOk(t, born) && Exec(t, op, r, t') && Disciplined(t, born, op)
    requires Dead(t, born, root)
    ensures Dead(t', Born(born, op, r), root)
  {
    if root in t.tokens {
      assert RowOk(t, born, root);
    }
  }

  lemma PcStaysOk(setting: int, s: State, op: Op, r: Result, t': Tables, pc: Pc)
    requires TablesOk(s.tables, s.born) && Exec(s.tables, op, r, t') && Disciplined(s.tables, s.born, op)
    requires PcOk(setting, s.tables, s.born, s.generated, pc)
    requires op.SaveToken? ==> !Mints(pc, op.token.hash)
    ensures PcOk(setting, t', Born(s.born, op, r), s.generated, pc)
  {
    match pc
    case Reading(rt, _) => CopyStaysOk(s.tables, s.born, op, r, t', rt);
    case Revoking(rt, _) => CopyStaysOk(s.tables, s.born, op, r, t', rt);
    case Fetching(rt) => CopyStaysOk(s.tables, s.born, op, r, t', rt);
    case Minting(from, _) => if from.Some? { CopyStaysOk(s.tables, s.born, op, r, t', from.value); }
    case Storing(from, _) => if from.Some? { CopyStaysOk(s.tables, s.born, op, r, t', from.value); }
    case Done(Reused(rt, ended)) => if ended { DeadStaysDead(s.tables, s.born, op, r, t', FamilyRoot(rt)); }
    case Done(LoggedOut(rt)) => DeadStaysDead(s.tables, s.born, op, r, t', FamilyRoot(rt));
    case _ =>
  }

  lemma ServiceIsDisciplined(setting: int, s: State, p: nat, op: Op)
    requires Inv(setting, s) && p in s.procs && Calls(s.procs[p], op)
    ensures Disciplined(s.tables, s.born, op)
  {
    assert PcOk(setting, s.tables, s.born, s.generated, s.procs[p]);
  }

  /** The caller's own next position fits the store its call leaves behind. */
  lemma CallerStaysOk(setting: int, s: State, p: nat, op: Op, r: Result, t': Tables)
    requires Inv(setting, s) && p in s.procs && Calls(s.procs[p], op) && Exec(s.tables, op, r, t')
    ensures PcOk(setting, t', Born(s.born, op, r), s.generated, React(setting, s.procs[p], r))
  {
    var pc := s.procs[p];
    assert PcOk(setting, s.tables, s.born, s.generated, pc);
    if pc.Rotating? || pc.LogoutReading? {
      ReaderStaysOk(setting, s.tables, s.born, s.generated, pc, op, r, t');
    } else if pc.Storing? {
      StorerStaysOk(setting, s.tables, s.born, s.generated, pc, r, t');
    } else if pc.Reading? || pc.Fetching? {
      CopyStaysOk(s.tables, s.born, op, r, t', pc.rt);
    } else if pc.Revoking? {
      RevocationKills(s.tables, s.born, pc.rt, op, r, t');
    }
  }

  lemma ReaderStaysOk(setting: int, t: Tables, born: set<string>, generated: set<string>, pc: Pc, op: Op, r: Result,
      t': Tables)
    requires TablesOk(t, born) && (pc.Rotating? || pc.LogoutReading?) && Calls(pc, op) && Exec(t, op, r, t')
    ensures PcOk(setting, t', born, generated, React(setting, pc, r))
  {
    ReaderGetsCopy(t, born, op, r, t');
  }

  lemma StorerStaysOk(setting: int, t: Tables, born: set<string>, generated: set<string>, pc: Pc, r: Result, t': Tables)
    requires pc.Storing? && PcOk(setting, t, born, generated, pc) && Exec(t, SaveToken(pc.token), r, t')
    ensures PcOk(setting, t', Born(born, SaveToken(pc.token), r), generated, React(setting, pc, r))
  {
    if r == Refused && pc.from.Some? {
      RefusalMeansDead(t, born, pc.token, r, t');
    }
  }

  lemma RefusalMeansDead(t: Tables, born: set<string>, token: RefreshToken, r: Result, t': Tables)
    requires Exec(t, SaveToken(token), r, t') && r == Refused && token.parent in born
    ensures Dead(t', born, token.parent)
  {
  }

  /** A token handed out by a rotation or a lookup is a faithful copy. */
  lemma ReaderGetsCopy(t: Tables, born: set<string>, op: Op, r: Result, t': Tables)
    requires TablesOk(t, born) && Exec(t, op, r, t') && (op.Rotate? || op.GetToken?)
    ensures r.Rotated? || r.Replayed? || r.Found? ==> CopyOk(t', born, r.rt)
    ensures r.Replayed? || r.Rotated? ==> r.rt.revoked
  {
    if op.hash in t.tokens {
      assert RowOk(t, born, op.hash);
      var parent := t.tokens[op.hash].parent;
      if parent != "" {
        assert RowOk(t, born, parent);
      }
    }
  }

  lemma RevocationKills(t: Tables, born: set<string>, rt: RefreshToken, op: Op, r: Result, t': Tables)
    requires TablesOk(t, born) && CopyOk(t, born, rt)
    requires op.Revoke? && op.root == FamilyRoot(rt) && Exec(t, op, r, t')
    ensures Dead(t', born, FamilyRoot(rt))
  {
    if FamilyRoot(rt) in t.tokens {
      assert RowOk(t, born, FamilyRoot(rt));
    }
  }

  lemma InvStep(setting: int, s: State, s': State, step: Step)
    requires Inv(setting, s) && NextStep(setting, s, s', step)
    ensures Inv(setting, s')
  {
    match step
    case Spawn(p, pc) =>
    case Mint(p, hash, now) => MintKeepsInv(setting, s, s', p, hash, now);
    case Fail(p) =>
    case Idle =>
    case Call(p, op, r) => CallKeepsInv(setting, s, s', p, op, r);
  }

  lemma MintKeepsInv(setting: int, s: State, s': State, p: nat, hash: string, now: int)
    requires Inv(setting, s) && NextStep(setting, s, s', Mint(p, hash, now))
    ensures Inv(setting, s')
  {
    assert PcOk(setting, s.tables, s.born, s.generated, s.procs[p]);
    forall q | q in s'.procs
      ensures PcOk(setting, s'.tables, s'.born, s'.generated, s'.procs[q])
    {
      if q != p { assert PcOk(setting, s.tables, s.born, s.generated, s.procs[q]); }
    }
  }

  lemma CallKeepsInv(setting: int, s: State, s': State, p: nat, op: Op, r: Result)
    requires Inv(setting, s) && NextStep(setting, s, s', Call(p, op, r))
    ensures Inv(setting, s')
  {
    ServiceIsDisciplined(setting, s, p, op);
    TablesStayOk(s.tables, s.born, op, r, s'.tables);
    CallerStaysOk(setting, s, p, op, r, s'.tables);
    BornStays(setting, s, p, op, r);
    forall q | q in s'.procs
      ensures PcOk(setting, s'.tables, s'.born, s'.generated, s'.procs[q])
    {
      if q != p {
        PcStaysOk(setting, s, op, r, s'.tables, s.procs[q]);
      }
    }
    CallerMintsNothing(setting, s.procs[p], op, r);
  }

  lemma CallerMintsNothing(setting: int, pc: Pc, op: Op, r: Result)
    requires Calls(pc, op)
    ensures !React(setting, pc, r).Storing?
  {
  }

  lemma BornStays(setting: int, s: State, p: nat, op: Op, r: Result)
    requires Inv(setting, s) && p in s.procs && Calls(s.procs[p], op)
    ensures Born(s.born, op, r) <= s.generated && "" !in Born(s.born, op, r)
    ensures op.SaveToken? ==> forall q :: q in s.procs && q != p ==> !Mints(s.procs[q], op.token.hash)
  {
    assert PcOk(setting, s.tables, s.born, s.generated, s.procs[p]);
    assert op.SaveToken? ==> Mints(s.procs[p], op.token.hash);
    forall q | q in s.procs && q != p && op.SaveToken?
      ensures !Mints(s.procs[q], op.token.hash)
    {
      assert !SameMint(s.procs[q], s.procs[p]);
    }
  }

  lemma {:induction false} InvAlways(setting: int, run: seq<State>, i: nat)
    requires Run(setting, run) && i < |run|
    ensures Inv(setting, run[i])
  {
    if i > 0 {
      InvAlways(setting, run, i - 1);
      var step :| NextStep(setting, run[i - 1], run[i], step);
      InvStep(setting, run[i - 1], run[i], step);
    }
  }
}
