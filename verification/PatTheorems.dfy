/** The cap on personal access tokens, and when the pruning of expired ones shows. A history is
    any interleaving of atomic store calls. Beside the store runs one that never prunes: it gets
    what the store saves and loses only what is revoked or deleted with its user. */
module PatTheorems {
  import opened Entities
  import opened PatStore
  import opened Sets

  datatype Op =
    | AddUser(id: string)
    | DropUser(id: string)
    | Create(pat: Pat, now: int)
    | Remove(userId: string, id: string)
    | TouchOp(hash: string, t: int)

  /** `full` is the table of the store that never prunes. */
  datatype State = State(users: set<string>, pats: Pats, full: Pats)

  /** WithPAT: no setting means the default. */
  function MaxPerUser(setting: int): int {
    if setting == 0 then 50 else setting
  }

  /** The store call of CreatePAT: limited if the maximum is positive. */
  function CreateIn(max: int, s: State, pat: Pat, now: int): (Result, Pats) {
    if max <= 0 then Save(s.users, s.pats, pat) else SaveLimited(s.users, s.pats, pat, max, now)
  }

  function Apply(max: int, s: State, op: Op): State {
    match op
    case AddUser(id) => s.(users := s.users + {id})
    case DropUser(id) => State(s.users - {id}, WithoutUser(s.pats, id), WithoutUser(s.full, id))
    case Create(pat, now) =>
      var (r, pats) := CreateIn(max, s, pat, now);
      State(s.users, pats, if r == Saved then s.full[pat.hash := pat] else s.full)
    case Remove(userId, id) => s.(pats := Removed(s.pats, userId, id), full := Removed(s.full, userId, id))
    case TouchOp(hash, t) => s.(pats := Touch(s.pats, hash, t), full := Touch(s.full, hash, t))
  }

  function Replay(max: int, ops: seq<Op>): State {
    if ops == [] then State({}, map[], map[]) else Apply(max, Replay(max, ops[..|ops| - 1]), ops[|ops| - 1])
  }

  // ----- the cap -----

  lemma SaveKeepsCap(users: set<string>, pats: Pats, pat: Pat, limit: int, now: int, user: string)
    requires |OwnedBy(pats, user)| <= limit
    ensures |OwnedBy(SaveLimited(users, pats, pat, limit, now).1, user)| <= limit
  {
    var (r, after) := SaveLimited(users, pats, pat, limit, now);
    var pruned := Pruned(pats, pat.userId, now);
    assert OwnedBy(pruned, user) <= OwnedBy(pats, user);
    Within(OwnedBy(pruned, user), OwnedBy(pats, user));
    if r == Saved {
      if user == pat.userId {
        assert OwnedBy(pruned, user) == Unexpired(pats, user, now);
        assert OwnedBy(after, user) == OwnedBy(pruned, user) + {pat.hash};
      } else {
        assert OwnedBy(after, user) <= OwnedBy(pruned, user);
        Within(OwnedBy(after, user), OwnedBy(pruned, user));
      }
    }
  }

  lemma {:induction false} CapHoldsFor(max: int, ops: seq<Op>, user: string)
    requires max > 0
    ensures |OwnedBy(Replay(max, ops).pats, user)| <= max
  {
    if ops != [] {
      var before, op := Replay(max, ops[..|ops| - 1]), ops[|ops| - 1];
      CapHoldsFor(max, ops[..|ops| - 1], user);
      if op.Create? {
        SaveKeepsCap(before.users, before.pats, op.pat, max, op.now, user);
      } else {
        var after := Apply(max, before, op);
        assert OwnedBy(after.pats, user) <= OwnedBy(before.pats, user);
        Within(OwnedBy(after.pats, user), OwnedBy(before.pats, user));
      }
    } else {
      assert OwnedBy(map[], user) == {};
    }
  }

  /** Unless the setting lifts the limit, no user ever holds more stored tokens than it allows,
      expired ones included; an unset limit is the default of 50. */
  lemma CapHolds(setting: int, ops: seq<Op>, user: string)
    requires setting >= 0
    ensures |OwnedBy(Replay(MaxPerUser(setting), ops).pats, user)| <= if setting == 0 then 50 else setting
  {
    CapHoldsFor(MaxPerUser(setting), ops, user);
  }

  // ----- where the tokens come from -----

  /** Each create brings a new hash and a new id. */
  predicate FreshTokens(ops: seq<Op>) {
    forall i, j :: 0 <= i < j < |ops| && ops[i].Create? && ops[j].Create? ==>
      ops[i].pat.hash != ops[j].pat.hash && ops[i].pat.id != ops[j].pat.id
  }

  predicate Brings(ops: seq<Op>, c: int, h: string) {
    0 <= c < |ops| && ops[c].Create? && ops[c].pat.hash == h
  }

  lemma OneBringer(ops: seq<Op>, c: int, d: int, h: string)
    requires FreshTokens(ops) && Brings(ops, c, h) && Brings(ops, d, h)
    ensures c == d
  {
  }

  lemma OneIssuer(ops: seq<Op>, c: nat, d: nat)
    requires FreshTokens(ops) && c < |ops| && d < |ops| && ops[c].Create? && ops[d].Create?
    requires ops[c].pat.id == ops[d].pat.id
    ensures c == d
  {
  }

  /** A stored token is the one its create brought, but for its last use. */
  ghost predicate FromCreate(ops: seq<Op>, pat: Pat, h: string) {
    exists c :: Brings(ops, c, h) && pat == ops[c].pat.(lastUsedAt := pat.lastUsedAt)
  }

  ghost predicate SoundAfter(ops: seq<Op>, s: State) {
    && PartOf(s.pats, s.full)
    && (forall h :: h in s.full ==> s.full[h].userId in s.users && FromCreate(ops, s.full[h], h))
  }

  lemma {:induction false} SoundAlways(max: int, ops: seq<Op>)
    requires FreshTokens(ops)
    ensures SoundAfter(ops, Replay(max, ops))
  {
    if ops != [] {
      var init, op := ops[..|ops| - 1], ops[|ops| - 1];
      SoundAlways(max, init);
      assert ops == init + [op];
      SoundStep(max, init, op, Replay(max, init));
    }
  }

  lemma NewHashIsFree(init: seq<Op>, op: Op, s: State)
    requires FreshTokens(init + [op]) && op.Create? && SoundAfter(init, s)
    ensures op.pat.hash !in s.full
  {
    var ops := init + [op];
    assert ops[|init|] == op;
    forall h | h in s.full
      ensures h != op.pat.hash
    {
      assert FromCreate(init, s.full[h], h);
      var c :| Brings(init, c, h);
      assert ops[c] == init[c];
    }
  }

  lemma SoundStep(max: int, init: seq<Op>, op: Op, s: State)
    requires FreshTokens(init + [op]) && SoundAfter(init, s)
    ensures SoundAfter(init + [op], Apply(max, s, op))
  {
    var ops, s' := init + [op], Apply(max, s, op);
    if op.Create? { NewHashIsFree(init, op, s); }
    PartStays(max, s, op);
    forall h | h in s'.full
      ensures s'.full[h].userId in s'.users && FromCreate(ops, s'.full[h], h)
    {
      if h in s.full {
        var c :| Brings(init, c, h) && s.full[h] == init[c].pat.(lastUsedAt := s.full[h].lastUsedAt);
        assert Brings(ops, c, h) && ops[c] == init[c];
      } else {
        assert Brings(ops, |init|, h);
      }
    }
  }

  /** One call: the store stays part of the full one; it loses what both lose, and what a limited
      create of the owner finds expired. */
  lemma PartStays(max: int, s: State, op: Op)
    requires PartOf(s.pats, s.full) && (op.Create? ==> op.pat.hash !in s.full)
    ensures PartOf(Apply(max, s, op).pats, Apply(max, s, op).full)
    ensures forall h :: h in Apply(max, s, op).full && h !in s.full ==> h in Apply(max, s, op).pats
  {
  }

  lemma LosesExactly(max: int, s: State, op: Op, h: string)
    requires PartOf(s.pats, s.full) && (op.Create? ==> op.pat.hash !in s.full)
    requires h in s.full && s.full[h].userId in s.users && h in Apply(max, s, op).full
    ensures h in Apply(max, s, op).pats <==> h in s.pats && !(max > 0 && Reaps([op], 0, s.full[h]))
  {
  }

  /** So ids stay unique, and DeletePAT finds at most one token. */
  lemma IdsAreUnique(max: int, ops: seq<Op>)
    requires FreshTokens(ops)
    ensures UniqueIds(Replay(max, ops).full) && UniqueIds(Replay(max, ops).pats)
  {
    var s := Replay(max, ops);
    SoundAlways(max, ops);
    forall h, g | h in s.full && g in s.full && s.full[h].id == s.full[g].id
      ensures h == g
    {
      assert FromCreate(ops, s.full[h], h) && FromCreate(ops, s.full[g], g);
      var c :| Brings(ops, c, h) && s.full[h] == ops[c].pat.(lastUsedAt := s.full[h].lastUsedAt);
      var d :| Brings(ops, d, g) && s.full[g] == ops[d].pat.(lastUsedAt := s.full[g].lastUsedAt);
      OneIssuer(ops, c, d);
    }
  }

  // ----- what pruning takes -----

  /** The m-th call is a create of the token's owner that read a clock past its expiry. */
  predicate Reaps(ops: seq<Op>, m: int, pat: Pat) {
    0 <= m < |ops| && ops[m].Create? && ops[m].pat.userId == pat.userId && ExpiredAt(pat, ops[m].now)
  }

  /** Some later create of its owner read a clock past the token's expiry. */
  ghost predicate Outlived(ops: seq<Op>, h: string) {
    exists c, m :: Brings(ops, c, h) && c < m && Reaps(ops, m, ops[c].pat)
  }

  lemma OutlivedStep(init: seq<Op>, op: Op, h: string, pat: Pat)
    requires FreshTokens(init + [op]) && FromCreate(init, pat, h)
    ensures Outlived(init + [op], h) <==> Outlived(init, h) || Reaps([op], 0, pat)
  {
    var ops := init + [op];
    var c0 :| Brings(init, c0, h) && pat == init[c0].pat.(lastUsedAt := pat.lastUsedAt);
    assert Brings(ops, c0, h) && ops[c0] == init[c0] && ops[|init|] == op;
    if Outlived(init, h) {
      var c, m :| Brings(init, c, h) && c < m && Reaps(init, m, init[c].pat);
      assert Brings(ops, c, h) && Reaps(ops, m, ops[c].pat);
    }
    if Reaps([op], 0, pat) {
      assert Reaps(ops, |init|, ops[c0].pat);
    }
    if Outlived(ops, h) {
      var c, m :| Brings(ops, c, h) && c < m && Reaps(ops, m, ops[c].pat);
      OneBringer(ops, c, c0, h);
      if m < |init| { assert Reaps(init, m, init[c].pat); }
    }
  }

  /** With a limit, the store lacks exactly the tokens some later create has outlived. */
  lemma {:induction false} PrunedExactly(max: int, ops: seq<Op>, h: string)
    requires FreshTokens(ops) && h in Replay(max, ops).full
    ensures h in Replay(max, ops).pats <==> !(max > 0 && Outlived(ops, h))
  {
    var init, op := ops[..|ops| - 1], ops[|ops| - 1];
    var s := Replay(max, init);
    assert ops == init + [op];
    SoundAlways(max, init);
    if h in s.full {
      PrunedExactly(max, init, h);
      assert FromCreate(init, s.full[h], h);
      OutlivedStep(init, op, h, s.full[h]);
      if op.Create? { NewHashIsFree(init, op, s); }
      LosesExactly(max, s, op, h);
    } else {
      NewHashIsFree(init, op, s);
      PartStays(max, s, op);
      NotOutlivedYet(init, op, h);
    }
  }

  lemma NotOutlivedYet(init: seq<Op>, op: Op, h: string)
    requires FreshTokens(init + [op]) && op.Create? && op.pat.hash == h
    ensures !Outlived(init + [op], h)
  {
    var ops := init + [op];
    assert Brings(ops, |init|, h);
    forall c, m | Brings(ops, c, h) && c < m
      ensures !Reaps(ops, m, ops[c].pat)
    {
      OneBringer(ops, c, |init|, h);
    }
  }

  // ----- which tokens are accepted -----

  predicate WasSaved(max: int, ops: seq<Op>, c: int)
    requires 0 <= c < |ops| && ops[c].Create?
  {
    CreateIn(max, Replay(max, ops[..c]), ops[c].pat, ops[c].now).0 == Saved
  }

  /** The call revokes this token, or deletes its user. */
  predicate Kills(op: Op, pat: Pat) {
    op == Remove(pat.userId, pat.id) || op == DropUser(pat.userId)
  }

  predicate NotKilledSince(ops: seq<Op>, c: int)
    requires 0 <= c < |ops| && ops[c].Create?
  {
    forall m :: c < m < |ops| ==> !Kills(ops[m], ops[c].pat)
  }

  /** The c-th call created the token with this hash, and nothing has revoked it since. */
  predicate Holds(max: int, ops: seq<Op>, c: int, h: string) {
    Brings(ops, c, h) && WasSaved(max, ops, c) && NotKilledSince(ops, c)
  }

  /** One call on the store that never prunes. */
  lemma FullStep(max: int, s: State, op: Op, h: string)
    requires PartOf(s.pats, s.full) && (op.Create? ==> op.pat.hash !in s.full)
    ensures h in Apply(max, s, op).full <==>
              || (h in s.full && !Kills(op, s.full[h]))
              || (op.Create? && op.pat.hash == h && CreateIn(max, s, op.pat, op.now).0 == Saved)
  {
  }

  lemma {:induction false} StoredExactly(max: int, ops: seq<Op>, h: string)
    requires FreshTokens(ops)
    ensures h in Replay(max, ops).full <==> exists c :: Holds(max, ops, c, h)
  {
    if ops != [] {
      var init, op := ops[..|ops| - 1], ops[|ops| - 1];
      assert ops == init + [op];
      SoundAlways(max, init);
      StoredExactly(max, init, h);
      if op.Create? { NewHashIsFree(init, op, Replay(max, init)); }
      FullStep(max, Replay(max, init), op, h);
      forall c | 0 <= c < |init|
        ensures Holds(max, ops, c, h) <==> Holds(max, init, c, h) && !Kills(op, init[c].pat)
      {
        HoldsStep(max, init, op, c, h);
      }
      HoldsAtLast(max, init, op, h);
      if h in Replay(max, init).full {
        KillsStored(max, init, op, h);
      }
    }
  }

  lemma HoldsStep(max: int, init: seq<Op>, op: Op, c: int, h: string)
    requires 0 <= c < |init|
    ensures Holds(max, init + [op], c, h) <==> Holds(max, init, c, h) && !Kills(op, init[c].pat)
  {
    var ops := init + [op];
    assert ops[c] == init[c] && ops[..c] == init[..c] && ops[|init|] == op;
    assert forall m :: c < m < |init| ==> ops[m] == init[m];
  }

  lemma HoldsAtLast(max: int, init: seq<Op>, op: Op, h: string)
    ensures Holds(max, init + [op], |init|, h) <==>
              op.Create? && op.pat.hash == h && CreateIn(max, Replay(max, init), op.pat, op.now).0 == Saved
  {
    var ops := init + [op];
    assert ops[|init|] == op && ops[..|init|] == init;
  }

  /** The stored row says of its owner and id what its create said. */
  lemma KillsStored(max: int, init: seq<Op>, op: Op, h: string)
    requires FreshTokens(init) && h in Replay(max, init).full
    ensures forall c :: Holds(max, init, c, h) ==> (Kills(op, init[c].pat) <==> Kills(op, Replay(max, init).full[h]))
  {
    SoundAlways(max, init);
    var pat := Replay(max, init).full[h];
    assert FromCreate(init, pat, h);
    var d :| Brings(init, d, h) && pat == init[d].pat.(lastUsedAt := pat.lastUsedAt);
    forall c | Holds(max, init, c, h)
      ensures c == d
    {
      OneBringer(init, c, d, h);
    }
  }

  /** Exactly which tokens are accepted: at t a token speaks for u if and only if u created it and
      it was saved, nothing has revoked it or deleted u since, t is not past its expiry, and, where
      there is a limit, no later create of u has read a clock past it. */
  lemma AcceptedExactly(max: int, ops: seq<Op>, h: string, t: int, u: string)
    requires FreshTokens(ops)
    ensures Verify(Replay(max, ops).users, Replay(max, ops).pats, h, t) == Some(u) <==>
              exists c :: Holds(max, ops, c, h) && AcceptedAt(max, ops, c, t, u)
  {
    var s := Replay(max, ops);
    SoundAlways(max, ops);
    StoredExactly(max, ops, h);
    if h in s.full {
      var pat := s.full[h];
      PrunedExactly(max, ops, h);
      assert FromCreate(ops, pat, h);
      var d :| Brings(ops, d, h) && pat == ops[d].pat.(lastUsedAt := pat.lastUsedAt);
      forall c | Brings(ops, c, h)
        ensures c == d
      {
        OneBringer(ops, c, d, h);
      }
      OutlivedMeans(ops, d, h);
      assert Verify(s.users, s.pats, h, t) == Some(u) <==> AcceptedAt(max, ops, d, t, u);
    }
  }

  ghost predicate AcceptedAt(max: int, ops: seq<Op>, c: int, t: int, u: string)
    requires 0 <= c < |ops| && ops[c].Create?
  {
    var pat := ops[c].pat;
    && pat.userId == u && (pat.expiresAt.Some? ==> t <= pat.expiresAt.value)
    && !(max > 0 && pat.expiresAt.Some? && exists m :: c < m < |ops| && CreatesPast(ops[m], u, pat.expiresAt.value))
  }

  predicate CreatesPast(op: Op, u: string, expiry: int) {
    op.Create? && op.pat.userId == u && expiry < op.now
  }

  lemma OutlivedMeans(ops: seq<Op>, c: int, h: string)
    requires FreshTokens(ops) && Brings(ops, c, h)
    ensures Outlived(ops, h) <==>
              ops[c].pat.expiresAt.Some?
              && exists m :: c < m < |ops| && CreatesPast(ops[m], ops[c].pat.userId, ops[c].pat.expiresAt.value)
  {
    if Outlived(ops, h) {
      var d, m :| Brings(ops, d, h) && d < m && Reaps(ops, m, ops[d].pat);
      OneBringer(ops, c, d, h);
      assert CreatesPast(ops[m], ops[c].pat.userId, ops[c].pat.expiresAt.value);
    }
    if ops[c].pat.expiresAt.Some? {
      if m :| c < m < |ops| && CreatesPast(ops[m], ops[c].pat.userId, ops[c].pat.expiresAt.value) {
        assert Reaps(ops, m, ops[c].pat);
      }
    }
  }

  // ----- when it shows -----

  /** A verification at t differs from one over the store that never prunes if and only if a
      later create of the token's owner read a clock past its expiry while t is not past it. */
  lemma VerifyDiffersExactly(max: int, ops: seq<Op>, h: string, t: int)
    requires FreshTokens(ops)
    ensures var s := Replay(max, ops);
            Verify(s.users, s.pats, h, t) != Verify(s.users, s.full, h, t) <==>
              h in s.full && max > 0 && Outlived(ops, h) && !ExpiredAt(s.full[h], t)
  {
    SoundAlways(max, ops);
    if h in Replay(max, ops).full {
      PrunedExactly(max, ops, h);
    }
  }

  /** The user's tokens that a create at `now` ought to count but that an earlier create, whose
      clock read past their expiry, has pruned. */
  ghost function Lost(max: int, ops: seq<Op>, userId: string, now: int): set<string> {
    set h | h in Unexpired(Replay(max, ops).full, userId, now) && Outlived(ops, h)
  }

  lemma LostAreMissed(max: int, ops: seq<Op>, userId: string, now: int)
    requires max > 0 && FreshTokens(ops)
    ensures Missed(Replay(max, ops).pats, Replay(max, ops).full, userId, now) == Lost(max, ops, userId, now)
  {
    forall h | h in Replay(max, ops).full
      ensures h in Replay(max, ops).pats <==> !Outlived(ops, h)
    {
      PrunedExactly(max, ops, h);
    }
  }

  /** A limit decision differs from the one made by counting the unexpired tokens of the store
      that never prunes if and only if the lost tokens make up for the room that was found. */
  lemma DecisionDiffersExactly(max: int, ops: seq<Op>, pat: Pat, now: int)
    requires max > 0 && FreshTokens(ops + [Create(pat, now)])
    ensures var s := Replay(max, ops);
            var counted := |Unexpired(s.pats, pat.userId, now)|;
            SaveLimited(s.users, s.pats, pat, max, now).0 != SaveUnpruned(s.users, s.full, pat, max, now).0 <==>
              pat.userId in s.users && counted < max <= counted + |Lost(max, ops, pat.userId, now)|
  {
    var s := Replay(max, ops);
    assert FreshTokens(ops) by {
      var longer := ops + [Create(pat, now)];
      assert forall i :: 0 <= i < |ops| ==> ops[i] == longer[i];
    }
    SoundAlways(max, ops);
    NewHashIsFree(ops, Create(pat, now), s);
    LostAreMissed(max, ops, pat.userId, now);
    CountSplits(s.pats, s.full, pat.userId, now);
  }

  // ----- when it does not -----

  /** The creates of each user carry a nondecreasing clock. */
  predicate Timely(ops: seq<Op>) {
    forall i, j :: 0 <= i < j < |ops| && ops[i].Create? && ops[j].Create? && ops[i].pat.userId == ops[j].pat.userId ==>
      ops[i].now <= ops[j].now
  }

  predicate NotBefore(ops: seq<Op>, userId: string, t: int) {
    forall i :: 0 <= i < |ops| && ops[i].Create? && ops[i].pat.userId == userId ==> ops[i].now <= t
  }

  lemma OutlivedIsExpired(ops: seq<Op>, h: string, pat: Pat, t: int)
    requires FreshTokens(ops) && FromCreate(ops, pat, h) && Outlived(ops, h) && NotBefore(ops, pat.userId, t)
    ensures ExpiredAt(pat, t)
  {
    var d :| Brings(ops, d, h) && pat == ops[d].pat.(lastUsedAt := pat.lastUsedAt);
    var c, m :| Brings(ops, c, h) && c < m && Reaps(ops, m, ops[c].pat);
    OneBringer(ops, c, d, h);
  }

  lemma NothingLost(max: int, ops: seq<Op>, userId: string, now: int)
    requires FreshTokens(ops) && NotBefore(ops, userId, now)
    ensures Lost(max, ops, userId, now) == {}
  {
    SoundAlways(max, ops);
    var full := Replay(max, ops).full;
    forall h | h in Unexpired(full, userId, now)
      ensures !Outlived(ops, h)
    {
      assert FromCreate(ops, full[h], h);
      if Outlived(ops, h) { OutlivedIsExpired(ops, h, full[h], now); }
    }
  }

  function CreateUnpruned(max: int, s: State, pat: Pat, now: int): (Result, Pats) {
    if max <= 0 then Save(s.users, s.pats, pat) else SaveUnpruned(s.users, s.pats, pat, max, now)
  }

  function ApplyUnpruned(max: int, s: State, op: Op): State {
    if op.Create? then
      var after := CreateUnpruned(max, s, op.pat, op.now).1;
      State(s.users, after, after)
    else Apply(max, s, op)
  }

  /** The same history on a store of its own that never prunes and decides for itself. */
  function ReplayUnpruned(max: int, ops: seq<Op>): State {
    if ops == [] then State({}, map[], map[])
    else ApplyUnpruned(max, ReplayUnpruned(max, ops[..|ops| - 1]), ops[|ops| - 1])
  }

  /** With clocks that do not run back for any one user, pruning is invisible: every limit
      decision is the one a separate store that never prunes makes, and every verification not
      before the owner's creates answers as over that store. */
  lemma PruningIsInvisible(max: int, ops: seq<Op>, h: string, t: int)
    requires Timely(ops) && FreshTokens(ops)
    requires h in Replay(max, ops).full ==> NotBefore(ops, Replay(max, ops).full[h].userId, t)
    ensures var s, unpruned := Replay(max, ops), ReplayUnpruned(max, ops);
            Verify(s.users, s.pats, h, t) == Verify(unpruned.users, unpruned.pats, h, t)
    ensures forall n :: 0 <= n < |ops| && ops[n].Create? ==>
              SameDecision(max, Replay(max, ops[..n]), ReplayUnpruned(max, ops[..n]), ops[n])
  {
    forall n | 0 <= n < |ops| && ops[n].Create?
      ensures SameDecision(max, Replay(max, ops[..n]), ReplayUnpruned(max, ops[..n]), ops[n])
    {
      assert ops[..n] + [ops[n]] == ops[..n + 1];
      UnprunedIsFull(max, ops[..n]);
      DecisionsAgree(max, ops[..n], ops[n], ReplayUnpruned(max, ops[..n]));
    }
    UnprunedIsFull(max, ops);
    SoundAlways(max, ops);
    VerifyDiffersExactly(max, ops, h, t);
    var full := Replay(max, ops).full;
    if h in full && Outlived(ops, h) {
      assert FromCreate(ops, full[h], h);
      OutlivedIsExpired(ops, h, full[h], t);
    }
  }

  lemma {:induction false} UnprunedIsFull(max: int, ops: seq<Op>)
    requires Timely(ops) && FreshTokens(ops)
    ensures Mirrors(ReplayUnpruned(max, ops), Replay(max, ops))
  {
    if ops != [] {
      var init, op := ops[..|ops| - 1], ops[|ops| - 1];
      assert ops == init + [op];
      UnprunedIsFull(max, init);
      if op.Create? { DecisionsAgree(max, init, op, ReplayUnpruned(max, init)); }
      MirrorStep(max, Replay(max, init), ReplayUnpruned(max, init), op);
    }
  }

  lemma DecisionsAgree(max: int, init: seq<Op>, op: Op, unpruned: State)
    requires Timely(init + [op]) && FreshTokens(init + [op]) && op.Create? && Mirrors(unpruned, Replay(max, init))
    ensures SameDecision(max, Replay(max, init), unpruned, op)
  {
    var ops := init + [op];
    assert ops[|init|] == op && forall i :: 0 <= i < |init| ==> ops[i] == init[i];
    if max > 0 {
      DecisionDiffersExactly(max, init, op.pat, op.now);
      NothingLost(max, init, op.pat.userId, op.now);
    } else {
      UnlimitedKeepsAll(max, init);
    }
  }

  /** The separate store holds what the shadow does. */
  predicate Mirrors(unpruned: State, s: State) {
    unpruned.users == s.users && unpruned.pats == s.full && unpruned.full == s.full
  }

  predicate SameDecision(max: int, s: State, unpruned: State, op: Op)
    requires op.Create?
  {
    CreateIn(max, s, op.pat, op.now).0 == CreateUnpruned(max, unpruned, op.pat, op.now).0
  }

  lemma MirrorStep(max: int, s: State, unpruned: State, op: Op)
    requires Mirrors(unpruned, s) && (op.Create? ==> SameDecision(max, s, unpruned, op))
    ensures Mirrors(ApplyUnpruned(max, unpruned, op), Apply(max, s, op))
  {
  }

  lemma UnlimitedKeepsAll(max: int, ops: seq<Op>)
    requires max <= 0 && FreshTokens(ops)
    ensures Replay(max, ops).pats == Replay(max, ops).full
  {
    SoundAlways(max, ops);
    forall h | h in Replay(max, ops).full
      ensures h in Replay(max, ops).pats
    {
      PrunedExactly(max, ops, h);
    }
  }

  // ----- a clock that runs back -----

  /** One user's creates read 0, 20 and 5: the second prunes a token that expires at 10. At 5 that
      token is refused, and a third create is let in over a limit of two. */
  lemma ClockRunsBack()
    ensures var a := Pat("1", "a", "u", Some(10), None);
            var b := Pat("2", "b", "u", None, None);
            var c := Pat("3", "c", "u", None, None);
            var s := Replay(2, [AddUser("u"), Create(a, 0), Create(b, 20)]);
            && Verify(s.users, s.pats, "a", 5) == None && Verify(s.users, s.full, "a", 5) == Some("u")
            && SaveLimited(s.users, s.pats, c, 2, 5).0 == Saved && SaveUnpruned(s.users, s.full, c, 2, 5).0 == LimitReached
  {
    var a := Pat("1", "a", "u", Some(10), None);
    var b := Pat("2", "b", "u", None, None);
    var ops := [AddUser("u"), Create(a, 0), Create(b, 20)];
    assert ops[..2] == [AddUser("u"), Create(a, 0)] && ops[..2][..1] == [AddUser("u")];
    var one := Apply(2, Replay(2, [AddUser("u")]), Create(a, 0));
    assert Unexpired(map[], "u", 0) == {};
    assert Pruned(map[], "u", 0) == map[];
    assert one == State({"u"}, map["a" := a], map["a" := a]);
    assert Replay(2, ops[..2]) == one;
    assert Unexpired(one.pats, "u", 20) == {};
    assert Pruned(one.pats, "u", 20) == map[];
    var two := Apply(2, one, Create(b, 20));
    assert two == State({"u"}, map["b" := b], map["a" := a, "b" := b]);
    assert Unexpired(two.pats, "u", 5) == {"b"};
    assert Unexpired(two.full, "u", 5) == {"a", "b"};
  }
}
