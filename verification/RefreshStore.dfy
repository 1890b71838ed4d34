/** The refresh-token part of a store as atomic operations: the contract of TokenStore and
    UserStore (auth/ports.go), which store/memory provides under its mutex. */
module RefreshStore {
  import opened Entities

  datatype Tables = Tables(users: set<string>, tokens: map<string, RefreshToken>)

  datatype Op =
    | CreateUser(id: string)
    | DeleteUser(id: string)
    | GetUser(id: string)
    | SaveToken(token: RefreshToken)
    | GetToken(hash: string)
    | Rotate(hash: string, now: int)
    | ReadFamily(root: string)
    | Revoke(root: string, now: int)

  datatype Result =
    | Ok
    | UserExists
    | UserNotFound
    | TokenNotFound
    | Refused                      // ErrTokenRevoked of SaveRefreshToken
    | Found(rt: RefreshToken)
    | Rotated(rt: RefreshToken)
    | Replayed(rt: RefreshToken)   // ErrTokenRevoked of RotateRefreshToken
    | Expired(rt: RefreshToken)
    | Summary(family: RefreshFamily)

  function Rotation(rt: RefreshToken, now: int): RefreshToken {
    rt.(revoked := true, rotatedAt := Some(now))
  }

  function Ending(rt: RefreshToken, now: int): RefreshToken {
    rt.(revoked := true, endedAt := if rt.endedAt.None? then Some(now) else rt.endedAt)
  }

  function RevokeFamily(tokens: map<string, RefreshToken>, root: string, now: int): map<string, RefreshToken> {
    map h | h in tokens :: if InFamily(tokens[h], root) then Ending(tokens[h], now) else tokens[h]
  }

  function Without(tokens: map<string, RefreshToken>, userId: string): map<string, RefreshToken> {
    map h | h in tokens && tokens[h].userId != userId :: tokens[h]
  }

  /** The summary of a family, said without a traversal: whether some member has ended, and
      the greatest rotation stamp among its members. */
  ghost predicate Summarises(tokens: map<string, RefreshToken>, root: string, f: RefreshFamily) {
    && (f.sessionEnded <==> exists h :: h in tokens && InFamily(tokens[h], root) && tokens[h].endedAt.Some?)
    && (forall h :: h in tokens && InFamily(tokens[h], root) && tokens[h].rotatedAt.Some? ==>
          f.lastRotatedAt.Some? && tokens[h].rotatedAt.value <= f.lastRotatedAt.value)
    && (f.lastRotatedAt.Some? ==>
          exists h :: h in tokens && InFamily(tokens[h], root) && tokens[h].rotatedAt == f.lastRotatedAt)
  }

  function RotateResult(tokens: map<string, RefreshToken>, hash: string, now: int): Result {
    if hash !in tokens then TokenNotFound
    else if tokens[hash].revoked then Replayed(tokens[hash])
    else if tokens[hash].expiresAt <= now then Expired(tokens[hash])
    else Rotated(Rotation(tokens[hash], now))
  }

  /** Saving under a root that is missing or ended is refused before the owner is looked up. */
  function SaveResult(t: Tables, token: RefreshToken): Result {
    if token.parent != "" && (token.parent !in t.tokens || t.tokens[token.parent].endedAt.Some?) then Refused
    else if token.userId !in t.users then UserNotFound
    else Ok
  }

  /** One atomic operation: from `t`, `op` may answer `r` and leave `t'`. */
  ghost predicate Exec(t: Tables, op: Op, r: Result, t': Tables) {
    match op
    case CreateUser(id) =>
      if id in t.users then r == UserExists && t' == t
      else r == Ok && t' == t.(users := t.users + {id})
    case DeleteUser(id) =>
      if id !in t.users then r == UserNotFound && t' == t
      else r == Ok && t' == Tables(t.users - {id}, Without(t.tokens, id))
    case GetUser(id) =>
      t' == t && r == if id in t.users then Ok else UserNotFound
    case SaveToken(token) =>
      && r == SaveResult(t, token)
      && t' == if r == Ok then t.(tokens := t.tokens[token.hash := token]) else t
    case GetToken(hash) =>
      t' == t && r == if hash in t.tokens then Found(t.tokens[hash]) else TokenNotFound
    case Rotate(hash, now) =>
      && r == RotateResult(t.tokens, hash, now)
      && t' == if r.Rotated? then t.(tokens := t.tokens[hash := r.rt]) else t
    case ReadFamily(root) =>
      t' == t && r.Summary? && Summarises(t.tokens, root, r.family)
    case Revoke(root, now) =>
      r == Ok && t' == t.(tokens := RevokeFamily(t.tokens, root, now))
  }

  /** Every hash ever stored, after one more operation. */
  function Born(born: set<string>, op: Op, r: Result): set<string> {
    if op.SaveToken? && r == Ok then born + {op.token.hash} else born
  }

  /** What ending a family means, row by row: every member is revoked and carries an end, its
      earlier one if it had one; every other row is untouched. */
  ghost predicate FamilyEnded(
    before: map<string, RefreshToken>, after: map<string, RefreshToken>, root: string, now: int)
  {
    && after.Keys == before.Keys
    && (forall h :: h in before && (before[h].hash == root || before[h].parent == root) ==>
          after[h] == before[h].(revoked := true,
                                 endedAt := if before[h].endedAt.Some? then before[h].endedAt else Some(now)))
    && (forall h :: h in before && before[h].hash != root && before[h].parent != root ==> after[h] == before[h])
  }

  /** The summary is a function of the table: two answers to one read agree. */
  lemma SummaryIsUnique(tokens: map<string, RefreshToken>, root: string, f: RefreshFamily, g: RefreshFamily)
    requires Summarises(tokens, root, f) && Summarises(tokens, root, g)
    ensures f == g
  {
    if f.lastRotatedAt.Some? {
      var h :| h in tokens && InFamily(tokens[h], root) && tokens[h].rotatedAt == f.lastRotatedAt;
      assert tokens[h].rotatedAt.Some?;
    }
    if g.lastRotatedAt.Some? {
      var h :| h in tokens && InFamily(tokens[h], root) && tokens[h].rotatedAt == g.lastRotatedAt;
      assert tokens[h].rotatedAt.Some?;
    }
  }

  lemma SummaryIgnores(seen: map<string, RefreshToken>, h: string, token: RefreshToken, root: string, f: RefreshFamily)
    requires Summarises(seen, root, f) && h !in seen && !InFamily(token, root)
    ensures Summarises(seen[h := token], root, f)
  {
    var more := seen[h := token];
    assert forall g :: g in seen ==> g in more && more[g] == seen[g];
    if f.lastRotatedAt.Some? {
      var g :| g in seen && InFamily(seen[g], root) && seen[g].rotatedAt == f.lastRotatedAt;
      assert g in more && InFamily(more[g], root);
    }
    if f.sessionEnded {
      var g :| g in seen && InFamily(seen[g], root) && seen[g].endedAt.Some?;
      assert g in more && InFamily(more[g], root);
    }
  }

  lemma SummaryExtends(seen: map<string, RefreshToken>, h: string, token: RefreshToken, root: string,
                       f: RefreshFamily, g: RefreshFamily)
    requires Summarises(seen, root, f) && h !in seen && InFamily(token, root)
    requires g.sessionEnded == (f.sessionEnded || token.endedAt.Some?)
    requires g.lastRotatedAt ==
               if token.rotatedAt.Some? && (f.lastRotatedAt.None? || token.rotatedAt.value > f.lastRotatedAt.value)
               then token.rotatedAt else f.lastRotatedAt
    ensures Summarises(seen[h := token], root, g)
  {
    var more := seen[h := token];
    assert forall k :: k in seen ==> k in more && more[k] == seen[k];
    assert h in more && InFamily(more[h], root);
    if f.lastRotatedAt.Some? {
      var k :| k in seen && InFamily(seen[k], root) && seen[k].rotatedAt == f.lastRotatedAt;
      assert k in more && InFamily(more[k], root);
    }
    if f.sessionEnded {
      var k :| k in seen && InFamily(seen[k], root) && seen[k].endedAt.Some?;
      assert k in more && InFamily(more[k], root);
    }
  }

  /** Every table has one. */
  lemma {:induction false} SummaryExists(tokens: map<string, RefreshToken>, root: string) returns (f: RefreshFamily)
    ensures Summarises(tokens, root, f)
    decreases |tokens|
  {
    f := RefreshFamily(false, None);
    if h :| h in tokens {
      var fewer := tokens - {h};
      assert fewer.Keys == tokens.Keys - {h} && fewer[h := tokens[h]] == tokens;
      var g := SummaryExists(fewer, root);
      if InFamily(tokens[h], root) {
        var rotated := tokens[h].rotatedAt;
        f := RefreshFamily(
          g.sessionEnded || tokens[h].endedAt.Some?,
          if rotated.Some? && (g.lastRotatedAt.None? || rotated.value > g.lastRotatedAt.value) then rotated
          else g.lastRotatedAt);
        SummaryExtends(fewer, h, tokens[h], root, g, f);
      } else {
        f := g;
        SummaryIgnores(fewer, h, tokens[h], root, f);
      }
    }
  }
}
