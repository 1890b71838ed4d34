/** store/postgres for users and refresh tokens, statement by statement. A transaction is a
    program counter; what it has locked or written but not committed is read off that counter.
    Under READ COMMITTED a statement sees the rows committed when it runs, and a statement that
    needs a locked row waits: here, its step is not enabled. */
module PostgresRefresh {
  import opened Entities
  import opened RefreshStore

  datatype Tx =
    | Starting(op: Op)                            // call received, first statement not yet run
    | Inserting(token: RefreshToken)              // root locked FOR SHARE, its ended_at read as NULL
    | Inserted(token: RefreshToken)               // successor written; the foreign key holds the user row
    | Classifying(hash: string, now: int)         // the conditional UPDATE matched nothing
    | Sweeping(root: string, now: int, locked: bool)   // root locked FOR UPDATE, if there was one
    | Revoking(root: string, now: int, locked: bool, todo: set<string>, writes: map<string, RefreshToken>)
    | Cascading(id: string)                       // user row deleted, tokens not yet looked up
    | Erasing(id: string, todo: set<string>, doomed: set<string>)

  /** `born` is every hash ever stored. */
  datatype Pg = Pg(tables: Tables, born: set<string>, txs: map<nat, Tx>)

  datatype Event = Quiet | Answer(op: Op, r: Result)

  datatype Stmt = Run | Row(hash: string)

  function OpOf(tx: Tx): Op {
    match tx
    case Starting(op) => op
    case Inserting(token) => SaveToken(token)
    case Inserted(token) => SaveToken(token)
    case Classifying(hash, now) => Rotate(hash, now)
    case Sweeping(root, now, _) => Revoke(root, now)
    case Revoking(root, now, _, _, _) => Revoke(root, now)
    case Cascading(id) => DeleteUser(id)
    case Erasing(id, _, _) => DeleteUser(id)
  }

  // ----- locks -----

  predicate Shares(tx: Tx, h: string) {
    (tx.Inserting? || tx.Inserted?) && tx.token.parent == h
  }

  predicate Owns(tx: Tx, h: string) {
    match tx
    case Sweeping(root, _, locked) => locked && h == root
    case Revoking(root, _, locked, _, writes) => (locked && h == root) || h in writes
    case Erasing(_, _, doomed) => h in doomed
    case _ => false
  }

  predicate SharesUser(tx: Tx, id: string) {
    tx.Inserted? && tx.token.userId == id
  }

  predicate OwnsUser(tx: Tx, id: string) {
    (tx.Cascading? || tx.Erasing?) && tx.id == id
  }

  ghost predicate MayShare(pg: Pg, p: nat, h: string) {
    forall q :: q in pg.txs && q != p ==> !Owns(pg.txs[q], h)
  }

  ghost predicate MayOwn(pg: Pg, p: nat, h: string) {
    forall q :: q in pg.txs && q != p ==> !Owns(pg.txs[q], h) && !Shares(pg.txs[q], h)
  }

  ghost predicate MayShareUser(pg: Pg, p: nat, id: string) {
    forall q :: q in pg.txs && q != p ==> !OwnsUser(pg.txs[q], id)
  }

  ghost predicate MayOwnUser(pg: Pg, p: nat, id: string) {
    forall q :: q in pg.txs && q != p ==> !OwnsUser(pg.txs[q], id) && !SharesUser(pg.txs[q], id)
  }

  // ----- statements -----

  predicate Mentions(op: Op, h: string) {
    match op
    case Revoke(root, _) => root == h
    case SaveToken(token) => token.hash == h
    case _ => false
  }

  /** New hashes are fresh: never stored before, and no other save or revocation in flight is
      about one. Anybody may present such a hash, though. A family is revoked by the hash of a
      token, which is never empty. */
  ghost predicate Fresh(pg: Pg, op: Op) {
    CallOk(pg.born, op) && (forall q :: q in pg.txs ==> Apart(OpOf(pg.txs[q]), op))
  }

  predicate CallOk(born: set<string>, op: Op) {
    && (op.SaveToken? ==> IsNew(op.token) && op.token.hash !in born)
    && (op.Revoke? ==> op.root != "")
  }

  predicate Apart(op: Op, op': Op) {
    && (op.SaveToken? ==> !Mentions(op', op.token.hash))
    && (op'.SaveToken? ==> !Mentions(op, op'.token.hash))
  }

  /** A call arrives. */
  predicate Enter(pg: Pg, pg': Pg, p: nat, op: Op) {
    p !in pg.txs && pg' == pg.(txs := pg.txs[p := Starting(op)])
  }

  ghost predicate Begin(pg: Pg, pg': Pg, p: nat, op: Op) {
    Enter(pg, pg', p, op) && Fresh(pg, op)
  }

  /** A transaction rolls back: its locks and uncommitted rows are gone. */
  ghost predicate Abort(pg: Pg, pg': Pg, p: nat) {
    p in pg.txs && pg' == pg.(txs := pg.txs - {p})
  }

  ghost predicate Moves(pg: Pg, pg': Pg, p: nat, tx: Tx, ev: Event) {
    ev == Quiet && pg' == pg.(txs := pg.txs[p := tx])
  }

  ghost predicate Answers(pg: Pg, pg': Pg, p: nat, tables: Tables, r: Result, ev: Event)
    requires p in pg.txs
  {
    ev == Answer(OpOf(pg.txs[p]), r) && pg' == Pg(tables, Born(pg.born, OpOf(pg.txs[p]), r), pg.txs - {p})
  }

  /** One statement, or one row of it: an UPDATE or DELETE of many rows picks them from its
      snapshot, then locks them one by one in any order and checks each again as it is then. */
  ghost predicate Statement(pg: Pg, pg': Pg, p: nat, stmt: Stmt, ev: Event)
    requires p in pg.txs
  {
    match pg.txs[p]
    case Starting(op) => stmt.Run? && First(pg, pg', p, op, ev)
    case Inserting(token) =>
      && stmt.Run? && MayShareUser(pg, p, token.userId)
      && if token.userId in pg.tables.users then Moves(pg, pg', p, Inserted(token), ev)
         else Answers(pg, pg', p, pg.tables, UserNotFound, ev)
    case Inserted(token) =>
      stmt.Run? && Answers(pg, pg', p, pg.tables.(tokens := pg.tables.tokens[token.hash := token]), Ok, ev)
    case Classifying(hash, now) =>
      stmt.Run? && Answers(pg, pg', p, pg.tables, Classified(pg.tables.tokens, hash), ev)
    case Sweeping(root, now, locked) =>
      && stmt.Run?
      && var todo := set h | h in pg.tables.tokens && InFamily(pg.tables.tokens[h], root);
         Moves(pg, pg', p, Revoking(root, now, locked, todo, map[]), ev)
    case Revoking(root, now, locked, todo, writes) => (
      match stmt
      case Run => todo == {} && Answers(pg, pg', p, pg.tables.(tokens := pg.tables.tokens + writes), Ok, ev)
      case Row(h) =>
        && h in todo
        && if h in pg.tables.tokens && InFamily(pg.tables.tokens[h], root) then
             && MayOwn(pg, p, h)
             && Moves(pg, pg', p, Revoking(root, now, locked, todo - {h},
                                        writes[h := Ending(pg.tables.tokens[h], now)]), ev)
           else Moves(pg, pg', p, Revoking(root, now, locked, todo - {h}, writes), ev))
    case Cascading(id) =>
      && stmt.Run?
      && var todo := set h | h in pg.tables.tokens && pg.tables.tokens[h].userId == id;
         Moves(pg, pg', p, Erasing(id, todo, {}), ev)
    case Erasing(id, todo, doomed) => (
      match stmt
      case Run => todo == {} && Answers(pg, pg', p, Tables(pg.tables.users - {id}, pg.tables.tokens - doomed), Ok, ev)
      case Row(h) =>
        && h in todo
        && if h in pg.tables.tokens && pg.tables.tokens[h].userId == id then
             MayOwn(pg, p, h) && Moves(pg, pg', p, Erasing(id, todo - {h}, doomed + {h}), ev)
           else Moves(pg, pg', p, Erasing(id, todo - {h}, doomed), ev))
  }

  /** The first statement of each call; for the calls of one statement, the whole of it. */
  ghost predicate First(pg: Pg, pg': Pg, p: nat, op: Op, ev: Event)
    requires p in pg.txs
  {
    var t := pg.tables;
    match op
    case CreateUser(id) =>
      && MayShareUser(pg, p, id)
      && if id in t.users then Answers(pg, pg', p, t, UserExists, ev)
         else Answers(pg, pg', p, t.(users := t.users + {id}), Ok, ev)
    case DeleteUser(id) =>
      if id !in t.users then Answers(pg, pg', p, t, UserNotFound, ev)
      else MayOwnUser(pg, p, id) && Moves(pg, pg', p, Cascading(id), ev)
    case GetUser(id) => Answers(pg, pg', p, t, if id in t.users then Ok else UserNotFound, ev)
    case GetToken(hash) => Answers(pg, pg', p, t, if hash in t.tokens then Found(t.tokens[hash]) else TokenNotFound, ev)
    case ReadFamily(root) =>
      ev.Answer? && ev.r.Summary? && Summarises(t.tokens, root, ev.r.family) && Answers(pg, pg', p, t, ev.r, ev)
    case SaveToken(token) =>
      if token.parent == "" then
        && MayShareUser(pg, p, token.userId)
        && if token.userId in t.users then Answers(pg, pg', p, t.(tokens := t.tokens[token.hash := token]), Ok, ev)
           else Answers(pg, pg', p, t, UserNotFound, ev)
      else if token.parent !in t.tokens then Answers(pg, pg', p, t, Refused, ev)
      else
        && MayShare(pg, p, token.parent)
        && if t.tokens[token.parent].endedAt.Some? then Answers(pg, pg', p, t, Refused, ev)
           else Moves(pg, pg', p, Inserting(token), ev)
    case Rotate(hash, now) =>
      if Matches(t.tokens, hash, now) then
        && MayOwn(pg, p, hash)
        && var rt := Rotation(t.tokens[hash], now);
           Answers(pg, pg', p, t.(tokens := t.tokens[hash := rt]), Rotated(rt), ev)
      else Moves(pg, pg', p, Classifying(hash, now), ev)
    case Revoke(root, now) =>
      && (root in t.tokens ==> MayOwn(pg, p, root))
      && Moves(pg, pg', p, Sweeping(root, now, root in t.tokens), ev)
  }

  /** The WHERE clause of the rotating UPDATE. */
  predicate Matches(tokens: map<string, RefreshToken>, hash: string, now: int) {
    hash in tokens && !tokens[hash].revoked && now < tokens[hash].expiresAt
  }

  /** The read that follows an UPDATE without a match. It does not look at the expiry again. */
  function Classified(tokens: map<string, RefreshToken>, hash: string): Result {
    if hash !in tokens then TokenNotFound
    else if tokens[hash].revoked then Replayed(tokens[hash])
    else Expired(tokens[hash])
  }

  // ----- the inductive invariant -----

  ghost predicate TxOk(t: Tables, born: set<string>, tx: Tx) {
    match tx
    case Starting(op) => CallOk(born, op)
    case Inserting(token) => JoinOk(t, born, token)
    case Inserted(token) => JoinOk(t, born, token) && token.userId in t.users
    case Classifying(_, _) => true
    case Sweeping(root, _, locked) => root != "" && (locked <==> root in t.tokens)
    case Revoking(root, now, locked, todo, writes) =>
      && root != "" && (locked <==> root in t.tokens)
      && (forall h :: h in writes ==> h in t.tokens && InFamily(t.tokens[h], root) && writes[h] == Ending(t.tokens[h], now))
      && (forall h :: h in t.tokens && InFamily(t.tokens[h], root) ==> h in todo || h in writes)
    case Cascading(id) => id in t.users
    case Erasing(id, todo, doomed) =>
      && id in t.users
      && (forall h :: h in doomed ==> h in t.tokens && t.tokens[h].userId == id)
      && (forall h :: h in t.tokens && t.tokens[h].userId == id ==> h in todo || h in doomed)
  }

  /** A successor may still join: its root is stored and has not ended. */
  ghost predicate JoinOk(t: Tables, born: set<string>, token: RefreshToken) {
    && IsNew(token) && token.hash !in born && token.parent != ""
    && token.parent in t.tokens && t.tokens[token.parent].endedAt.None?
  }

  ghost predicate Compatible(tx: Tx, tx': Tx) {
    && (forall h {:trigger Owns(tx, h)} :: Owns(tx, h) ==> !Owns(tx', h) && !Shares(tx', h))
    && (forall id {:trigger OwnsUser(tx, id)} :: OwnsUser(tx, id) ==> !OwnsUser(tx', id) && !SharesUser(tx', id))
    && Apart(OpOf(tx), OpOf(tx'))
  }

  ghost predicate KeysOk(t: Tables, born: set<string>) {
    forall h :: h in t.tokens ==> t.tokens[h].hash == h && h in born
  }

  ghost predicate Inv(pg: Pg) {
    && KeysOk(pg.tables, pg.born)
    && (forall p :: p in pg.txs ==> TxOk(pg.tables, pg.born, pg.txs[p]))
    && (forall p, q :: p in pg.txs && q in pg.txs && p != q ==> Compatible(pg.txs[p], pg.txs[q]))
  }
}
