/** Personal access tokens as atomic operations: the PATStore contract of auth/ports.go. */
module PatStore {
  import opened Entities

  type Pats = map<string, Pat>

  datatype Result = Saved | NoUser | Exists | LimitReached

  /** Expired means strictly after ExpiresAt, in pruning and in verification alike. */
  predicate ExpiredAt(pat: Pat, now: int) {
    pat.expiresAt.Some? && pat.expiresAt.value < now
  }

  function OwnedBy(pats: Pats, userId: string): set<string> {
    set h | h in pats && pats[h].userId == userId
  }

  /** The tokens of a user that count against the limit at `now`. */
  function Unexpired(pats: Pats, userId: string, now: int): set<string> {
    set h | h in pats && pats[h].userId == userId && !ExpiredAt(pats[h], now)
  }

  function Pruned(pats: Pats, userId: string, now: int): Pats {
    map h | h in pats && !(pats[h].userId == userId && ExpiredAt(pats[h], now)) :: pats[h]
  }

  function SaveLimited(users: set<string>, pats: Pats, pat: Pat, limit: int, now: int): (Result, Pats) {
    if pat.userId !in users then (NoUser, pats)
    else
      var pruned := Pruned(pats, pat.userId, now);
      if |Unexpired(pats, pat.userId, now)| >= limit then (LimitReached, pruned)
      else if pat.hash in pruned then (Exists, pruned)
      else (Saved, pruned[pat.hash := pat])
  }

  function Save(users: set<string>, pats: Pats, pat: Pat): (Result, Pats) {
    if pat.userId !in users then (NoUser, pats)
    else if pat.hash in pats then (Exists, pats)
    else (Saved, pats[pat.hash := pat])
  }

  function Touch(pats: Pats, hash: string, t: int): Pats {
    if hash in pats then pats[hash := pats[hash].(lastUsedAt := Some(t))] else pats
  }

  function WithoutUser(pats: Pats, userId: string): Pats {
    map h | h in pats && pats[h].userId != userId :: pats[h]
  }

  /** Ids are random: no two stored tokens share one. */
  ghost predicate UniqueIds(pats: Pats) {
    forall h, g :: h in pats && g in pats && pats[h].id == pats[g].id ==> h == g
  }

  /** DeletePAT: the token with this id, if this user owns it. */
  function Removed(pats: Pats, userId: string, id: string): Pats {
    map h | h in pats && !(pats[h].id == id && pats[h].userId == userId) :: pats[h]
  }

  lemma RemovesOne(pats: Pats, h: string)
    requires UniqueIds(pats) && h in pats
    ensures Removed(pats, pats[h].userId, pats[h].id) == pats - {h}
  {
    assert forall g :: g in pats && g != h ==> pats[g].id != pats[h].id;
  }

  /** verifyPAT: the user a token speaks for, if it is accepted at t. */
  function Verify(users: set<string>, pats: Pats, hash: string, t: int): Option<string> {
    if hash in pats && !ExpiredAt(pats[hash], t) && pats[hash].userId in users then Some(pats[hash].userId) else None
  }

  // ----- against a store that never prunes -----

  /** SavePATLimited without the deletion: only the decision. */
  function SaveUnpruned(users: set<string>, full: Pats, pat: Pat, limit: int, now: int): (Result, Pats) {
    if pat.userId !in users then (NoUser, full)
    else if |Unexpired(full, pat.userId, now)| >= limit then (LimitReached, full)
    else if pat.hash in full then (Exists, full)
    else (Saved, full[pat.hash := pat])
  }

  ghost predicate PartOf(pats: Pats, full: Pats) {
    forall h :: h in pats ==> h in full && full[h] == pats[h]
  }

  /** The tokens of a user that are missing although they have not expired at `now`. */
  function Missed(pats: Pats, full: Pats, userId: string, now: int): set<string> {
    Unexpired(full, userId, now) - pats.Keys
  }

  lemma CountSplits(pats: Pats, full: Pats, userId: string, now: int)
    requires PartOf(pats, full)
    ensures |Unexpired(full, userId, now)| == |Unexpired(pats, userId, now)| + |Missed(pats, full, userId, now)|
  {
    var kept, missed := Unexpired(pats, userId, now), Missed(pats, full, userId, now);
    assert Unexpired(full, userId, now) == kept + missed && kept !! missed;
  }
}
