/** store/memory: one struct of maps behind a mutex. Each method is one critical section; loops
    over a map visit its keys in arbitrary order. */
module MemoryStore {
  import opened Entities
  import RS = RefreshStore
  import PS = PatStore

  datatype Status =
    | Ok | UserExists | UserNotFound | TokenNotFound | OAuthIdentityExists | WalletIdentityExists
    | ChallengeNotFound | ChallengeExpired

  class Store {
    var users: map<string, User>
    var usersByEmail: map<string, User>
    var refreshTokens: map<string, RefreshToken>
    var pats: map<string, Pat>
    var passwordHashes: map<string, string>
    var oauthIdentities: map<(string, string), OAuthIdentity>
    var walletIdentities: map<(string, string), WalletIdentity>
    var challenges: map<string, Challenge>

    /** The email index is the inverse of the non-empty emails of `users`. */
    ghost predicate IndexOk()
      reads this
    {
      && (forall e :: e in usersByEmail ==>
            && e != "" && usersByEmail[e].email == e
            && usersByEmail[e].id in users && users[usersByEmail[e].id] == usersByEmail[e])
      && (forall id :: id in users && users[id].email != "" ==>
            users[id].email in usersByEmail && usersByEmail[users[id].email] == users[id])
    }

    /** Every map key is its row's natural key. */
    ghost predicate KeysOk()
      reads this
    {
      && (forall id :: id in users ==> users[id].id == id)
      && (forall h :: h in refreshTokens ==> refreshTokens[h].hash == h)
      && (forall h :: h in pats ==> pats[h].hash == h)
      && (forall k :: k in oauthIdentities ==> (oauthIdentities[k].provider, oauthIdentities[k].externalId) == k)
      && (forall k :: k in walletIdentities ==> (walletIdentities[k].chain, walletIdentities[k].address) == k)
      && (forall n :: n in challenges ==> challenges[n].nonce == n)
    }

    /** Every row that belongs to a user belongs to a stored one. */
    ghost predicate OwnersOk()
      reads this
    {
      && (forall h :: h in refreshTokens ==> refreshTokens[h].userId in users)
      && (forall h :: h in pats ==> pats[h].userId in users)
      && (forall id :: id in passwordHashes ==> id in users)
      && (forall k :: k in oauthIdentities ==> oauthIdentities[k].userId in users)
      && (forall k :: k in walletIdentities ==> walletIdentities[k].userId in users)
    }

    /** The same, but for rows of a user that is being deleted. */
    ghost predicate OwnersOkExcept(id: string)
      reads this
    {
      && (forall h :: h in refreshTokens && refreshTokens[h].userId != id ==> refreshTokens[h].userId in users)
      && (forall h :: h in pats && pats[h].userId != id ==> pats[h].userId in users)
      && (forall u :: u in passwordHashes && u != id ==> u in users)
      && (forall k :: k in oauthIdentities && oauthIdentities[k].userId != id ==> oauthIdentities[k].userId in users)
      && (forall k :: k in walletIdentities && walletIdentities[k].userId != id ==> walletIdentities[k].userId in users)
    }

    ghost predicate Valid()
      reads this
    {
      IndexOk() && KeysOk() && OwnersOk()
    }

    ghost function Tables(): RS.Tables
      reads this
    {
      RS.Tables(users.Keys, refreshTokens)
    }

    constructor ()
      ensures Valid() && users == map[] && refreshTokens == map[] && pats == map[] && challenges == map[]
      ensures oauthIdentities == map[] && walletIdentities == map[] && passwordHashes == map[]
    {
      users, usersByEmail, refreshTokens, pats := map[], map[], map[], map[];
      passwordHashes, oauthIdentities, walletIdentities, challenges := map[], map[], map[], map[];
    }

    // ----- users -----

    method Create(user: User) returns (r: Status)
      requires Valid()
      modifies this`users, this`usersByEmail
      ensures Valid()
      ensures r == Ok <==> user.id !in old(users)
                           && (user.email != "" ==> forall id :: id in old(users) ==> old(users)[id].email != user.email)
      ensures r != Ok ==> r == UserExists && users == old(users)
      ensures r == Ok ==> users == old(users)[user.id := user]
    {
      if user.id in users {
        return UserExists;
      }
      if user.email in usersByEmail && user.email != "" {
        assert users[usersByEmail[user.email].id].email == user.email;
        return UserExists;
      }
      users := users[user.id := user];
      if user.email != "" {
        usersByEmail := usersByEmail[user.email := user];
      }
      return Ok;
    }

    /** The user found has that id, and the email index leads to the same user. */
    method GetByID(id: string) returns (r: Option<User>)
      requires Valid()
      ensures r.None? <==> id !in Tables().users
      ensures r.Some? ==> r.value.id == id
      ensures r.Some? && r.value.email != "" ==>
                r.value.email in usersByEmail && usersByEmail[r.value.email] == r.value
    {
      if id !in users {
        return None;
      }
      return Some(users[id]);
    }

    /** The email index finds exactly the user with that email, and nobody for "". */
    method GetByEmail(email: string) returns (r: Option<User>)
      requires Valid()
      ensures r.Some? ==> r.value.id in users && users[r.value.id] == r.value && r.value.email == email && email != ""
      ensures r.None? ==> email == "" || forall id :: id in users ==> users[id].email != email
    {
      if email in usersByEmail {
        return Some(usersByEmail[email]);
      }
      return None;
    }

    /** Removes the user with all and only the rows it owns. */
    method Delete(id: string) returns (r: Status)
      requires Valid()
      modifies this
      ensures Valid() && challenges == old(challenges)
      ensures id !in old(users) ==> r == UserNotFound && unchanged(this)
      ensures id in old(users) ==> r == Ok && users == old(users) - {id} && passwordHashes == old(passwordHashes) - {id}
      ensures id in old(users) ==>
                && (forall h :: h in refreshTokens <==> h in old(refreshTokens) && old(refreshTokens)[h].userId != id)
                && (forall h :: h in refreshTokens ==> refreshTokens[h] == old(refreshTokens)[h])
      ensures id in old(users) ==>
                && (forall h :: h in pats <==> h in old(pats) && old(pats)[h].userId != id)
                && (forall h :: h in pats ==> pats[h] == old(pats)[h])
      ensures id in old(users) ==>
                && (forall k :: k in oauthIdentities <==> k in old(oauthIdentities) && old(oauthIdentities)[k].userId != id)
                && (forall k :: k in oauthIdentities ==> oauthIdentities[k] == old(oauthIdentities)[k])
      ensures id in old(users) ==>
                && (forall k :: k in walletIdentities <==>
                             k in old(walletIdentities) && old(walletIdentities)[k].userId != id)
                && (forall k :: k in walletIdentities ==> walletIdentities[k] == old(walletIdentities)[k])
      ensures RS.Exec(old(Tables()), RS.DeleteUser(id), if r == Ok then RS.Ok else RS.UserNotFound, Tables())
    {
      if id !in users {
        return UserNotFound;
      }
      DeleteUserRow(id);
      DeleteOwnedRows(id);
      assert users.Keys == old(users).Keys - {id};
      return Ok;
    }

    method DeleteOwnedRows(id: string)
      requires IndexOk() && KeysOk() && OwnersOkExcept(id)
      modifies this`passwordHashes, this`refreshTokens, this`pats, this`oauthIdentities, this`walletIdentities
      ensures Valid()
      ensures passwordHashes == old(passwordHashes) - {id}
      ensures refreshTokens == RS.Without(old(refreshTokens), id) && pats == PS.WithoutUser(old(pats), id)
      ensures oauthIdentities == OAuthWithout(old(oauthIdentities), id)
      ensures walletIdentities == WalletWithout(old(walletIdentities), id)
    {
      DeleteIdentities(id);
      passwordHashes := passwordHashes - {id};
      refreshTokens := RS.Without(refreshTokens, id);
      pats := PS.WithoutUser(pats, id);
    }

    method DeleteIdentities(id: string)
      requires IndexOk() && KeysOk() && OwnersOkExcept(id)
      modifies this`oauthIdentities, this`walletIdentities
      ensures IndexOk() && KeysOk() && OwnersOkExcept(id)
      ensures oauthIdentities == OAuthWithout(old(oauthIdentities), id)
      ensures walletIdentities == WalletWithout(old(walletIdentities), id)
    {
      oauthIdentities := OAuthWithout(oauthIdentities, id);
      walletIdentities := WalletWithout(walletIdentities, id);
    }

    method DeleteUserRow(id: string)
      requires Valid() && id in users
      modifies this`users, this`usersByEmail
      ensures IndexOk() && KeysOk() && OwnersOkExcept(id) && users == old(users) - {id}
    {
      usersByEmail := usersByEmail - {users[id].email};
      users := users - {id};
    }

    // ----- refresh tokens -----

    method SaveRefreshToken(token: RefreshToken) returns (r: RS.Result)
      requires Valid()
      modifies this`refreshTokens
      ensures Valid() && RS.Exec(old(Tables()), RS.SaveToken(token), r, Tables())
      ensures r == RS.Refused <==>
                token.parent != ""
                && (token.parent in old(refreshTokens) ==> old(refreshTokens)[token.parent].endedAt.Some?)
      ensures r == RS.UserNotFound <==> r != RS.Refused && token.userId !in users
      ensures r == RS.Refused || r == RS.UserNotFound || r == RS.Ok
      ensures refreshTokens == if r == RS.Ok then old(refreshTokens)[token.hash := token] else old(refreshTokens)
    {
      if token.parent != "" {
        if token.parent !in refreshTokens {
          return RS.Refused;
        }
        if refreshTokens[token.parent].endedAt.Some? {
          return RS.Refused;
        }
      }
      if token.userId !in users {
        return RS.UserNotFound;
      }
      refreshTokens := refreshTokens[token.hash := token];
      return RS.Ok;
    }

    method GetRefreshToken(hash: string) returns (r: RS.Result)
      ensures RS.Exec(Tables(), RS.GetToken(hash), r, Tables())
      ensures r == if hash in refreshTokens then RS.Found(refreshTokens[hash]) else RS.TokenNotFound
    {
      if hash !in refreshTokens {
        return RS.TokenNotFound;
      }
      return RS.Found(refreshTokens[hash]);
    }

    method RotateRefreshToken(hash: string, now: int) returns (r: RS.Result)
      requires Valid()
      modifies this`refreshTokens
      ensures Valid() && RS.Exec(old(Tables()), RS.Rotate(hash, now), r, Tables())
      ensures hash !in old(refreshTokens) ==> r == RS.TokenNotFound
      ensures hash in old(refreshTokens) && old(refreshTokens)[hash].revoked ==> r == RS.Replayed(old(refreshTokens)[hash])
      ensures hash in old(refreshTokens) && !old(refreshTokens)[hash].revoked ==>
                var was := old(refreshTokens)[hash];
                r == if now < was.expiresAt then RS.Rotated(was.(revoked := true, rotatedAt := Some(now)))
                     else RS.Expired(was)
      ensures refreshTokens == if r.Rotated? then old(refreshTokens)[hash := r.rt] else old(refreshTokens)
    {
      if hash !in refreshTokens {
        return RS.TokenNotFound;
      }
      var token := refreshTokens[hash];
      if token.revoked {
        return RS.Replayed(token);
      }
      if token.expiresAt <= now {
        return RS.Expired(token);
      }
      token := token.(revoked := true, rotatedAt := Some(now));
      refreshTokens := refreshTokens[hash := token];
      return RS.Rotated(token);
    }

    /** One pass over the rows finds whether some member has ended and the latest rotation. */
    method GetRefreshFamily(root: string) returns (r: RS.Result)
      ensures RS.Exec(Tables(), RS.ReadFamily(root), r, Tables())
    {
      var family := RefreshFamily(false, None);
      var todo := refreshTokens.Keys;
      ghost var seen: map<string, RefreshToken> := map[];
      while todo != {}
        invariant todo <= refreshTokens.Keys
        invariant seen == map h | h in refreshTokens && h !in todo :: refreshTokens[h]
        invariant RS.Summarises(seen, root, family)
        decreases |todo|
      {
        var hash :| hash in todo;
        todo := todo - {hash};
        var token := refreshTokens[hash];
        ghost var before := seen;
        seen := seen[hash := token];
        assert hash in seen;
        if token.hash != root && token.parent != root {
          RS.SummaryIgnores(before, hash, token, root, family);
          continue;
        }
        ghost var start := family;
        if token.endedAt.Some? {
          family := family.(sessionEnded := true);
        }
        if token.rotatedAt.Some? && (family.lastRotatedAt.None? || token.rotatedAt.value > family.lastRotatedAt.value) {
          family := family.(lastRotatedAt := token.rotatedAt);
        }
        RS.SummaryExtends(before, hash, token, root, start, family);
      }
      assert seen == refreshTokens;
      return RS.Summary(family);
    }

    /** Ends every member, keeping an earlier end. */
    method RevokeTokens(hash: string, now: int)
      requires Valid()
      modifies this`refreshTokens
      ensures Valid() && RS.Exec(old(Tables()), RS.Revoke(hash, now), RS.Ok, Tables())
      ensures RS.FamilyEnded(old(refreshTokens), refreshTokens, hash, now)
    {
      EndingKeepsOwners(refreshTokens, hash, now);
      EndMembers(hash, now);
    }

    /** The loop of RevokeTokens. */
    method EndMembers(hash: string, now: int)
      modifies this`refreshTokens
      ensures refreshTokens == RS.RevokeFamily(old(refreshTokens), hash, now)
    {
      var todo := refreshTokens.Keys;
      while todo != {}
        invariant todo <= refreshTokens.Keys == old(refreshTokens).Keys
        invariant forall h :: h in todo ==> refreshTokens[h] == old(refreshTokens)[h]
        invariant forall h :: h in refreshTokens && h !in todo ==>
          refreshTokens[h] == RS.RevokeFamily(old(refreshTokens), hash, now)[h]
        decreases |todo|
      {
        var key :| key in todo;
        todo := todo - {key};
        var token := refreshTokens[key];
        if token.hash == hash || token.parent == hash {
          token := token.(revoked := true);
          if token.endedAt.None? {
            token := token.(endedAt := Some(now));
          }
          refreshTokens := refreshTokens[key := token];
        }
      }
    }

    // ----- personal access tokens -----

    method SavePAT(pat: Pat) returns (r: PS.Result)
      requires Valid()
      modifies this`pats
      ensures Valid() && (r, pats) == PS.Save(users.Keys, old(pats), pat)
      ensures r == if pat.userId !in users then PS.NoUser else if pat.hash in old(pats) then PS.Exists else PS.Saved
      ensures pats == if r == PS.Saved then old(pats)[pat.hash := pat] else old(pats)
    {
      if pat.userId !in users {
        return PS.NoUser;
      }
      if pat.hash in pats {
        return PS.Exists;
      }
      pats := pats[pat.hash := pat];
      return PS.Saved;
    }

    /** Prunes, counts and inserts in one critical section. */
    method SavePATLimited(pat: Pat, limit: int, now: int) returns (r: PS.Result)
      requires Valid()
      modifies this`pats
      ensures Valid() && (r, pats) == PS.SaveLimited(users.Keys, old(pats), pat, limit, now)
      ensures r == PS.NoUser <==> pat.userId !in users
      ensures r == PS.LimitReached <==>
                pat.userId in users
                && |set h | h in old(pats) && old(pats)[h].userId == pat.userId && LivesAt(old(pats)[h], now)| >= limit
      ensures r == PS.NoUser ==> pats == old(pats)
      ensures r != PS.NoUser ==> forall h ::
                h in pats <==>
                  || (h in old(pats) && (old(pats)[h].userId == pat.userId ==> LivesAt(old(pats)[h], now)))
                  || (r == PS.Saved && h == pat.hash)
      ensures r == PS.Saved ==> pats[pat.hash] == pat
      ensures forall h :: h in pats && !(r == PS.Saved && h == pat.hash) ==> pats[h] == old(pats)[h]
    {
      if pat.userId !in users {
        return PS.NoUser;
      }
      assert PS.Unexpired(pats, pat.userId, now)
          == set h | h in pats && pats[h].userId == pat.userId && LivesAt(pats[h], now);
      var live := PrunePATs(pat.userId, now);
      if live >= limit {
        return PS.LimitReached;
      }
      if pat.hash in pats {
        return PS.Exists;
      }
      pats := pats[pat.hash := pat];
      return PS.Saved;
    }

    /** Drops the user's expired tokens and counts the others. */
    method PrunePATs(userId: string, now: int) returns (live: nat)
      requires Valid()
      modifies this`pats
      ensures Valid() && pats == PS.Pruned(old(pats), userId, now)
      ensures live == |PS.Unexpired(old(pats), userId, now)|
    {
      live := PruneLoop(userId, now);
    }

    /** The loop of SavePATLimited. */
    method PruneLoop(userId: string, now: int) returns (live: nat)
      modifies this`pats
      ensures pats == PS.Pruned(old(pats), userId, now) && live == |PS.Unexpired(old(pats), userId, now)|
    {
      live := 0;
      var todo := pats.Keys;
      ghost var counted := {};
      while todo != {}
        invariant todo <= pats.Keys <= old(pats).Keys && forall h :: h in pats ==> pats[h] == old(pats)[h]
        invariant forall h :: h in old(pats) && h !in todo ==>
          (h in pats <==> !(old(pats)[h].userId == userId && PS.ExpiredAt(old(pats)[h], now)))
        invariant forall h :: h in counted <==>
          h in old(pats) && h !in todo && old(pats)[h].userId == userId && !PS.ExpiredAt(old(pats)[h], now)
        invariant live == |counted|
        decreases |todo|
      {
        var hash :| hash in todo;
        todo := todo - {hash};
        var existing := pats[hash];
        if existing.userId != userId {
          continue;
        }
        if existing.expiresAt.Some? && now > existing.expiresAt.value {
          pats := pats - {hash};
          continue;
        }
        counted := counted + {hash};
        live := live + 1;
      }
      assert counted == PS.Unexpired(old(pats), userId, now);
      assert pats == PS.Pruned(old(pats), userId, now);
    }

    /** Deletes one token with this id owned by this user, if there is one, and nothing else. */
    method DeletePAT(userId: string, id: string) returns (r: Status)
      requires Valid()
      modifies this`pats
      ensures Valid()
      ensures r == Ok <==> exists h :: h in old(pats) && old(pats)[h].id == id && old(pats)[h].userId == userId
      ensures r == Ok ==> exists h :: h in old(pats) && old(pats)[h].id == id && old(pats)[h].userId == userId
                                      && pats == old(pats) - {h}
      ensures r != Ok ==> r == TokenNotFound && pats == old(pats)
      ensures PS.UniqueIds(old(pats)) ==> pats == PS.Removed(old(pats), userId, id)
    {
      var todo := pats.Keys;
      while todo != {}
        invariant todo <= pats.Keys && pats == old(pats)
        invariant forall h :: h in pats && h !in todo ==> !(pats[h].id == id && pats[h].userId == userId)
        decreases |todo|
      {
        var hash :| hash in todo;
        todo := todo - {hash};
        if pats[hash].id == id && pats[hash].userId == userId {
          if PS.UniqueIds(pats) { PS.RemovesOne(pats, hash); }
          pats := pats - {hash};
          return Ok;
        }
      }
      return TokenNotFound;
    }

    method TouchPAT(hash: string, t: int)
      requires Valid()
      modifies this`pats
      ensures Valid() && pats == PS.Touch(old(pats), hash, t)
      ensures pats.Keys == old(pats).Keys
      ensures forall h :: h in pats ==>
                pats[h] == if h == hash then old(pats)[h].(lastUsedAt := Some(t)) else old(pats)[h]
    {
      if hash in pats {
        pats := pats[hash := pats[hash].(lastUsedAt := Some(t))];
      }
    }

    // ----- identities and credentials -----

    method SaveOAuthIdentity(identity: OAuthIdentity) returns (r: Status)
      requires Valid()
      modifies this`oauthIdentities
      ensures Valid()
      ensures var key := (identity.provider, identity.externalId);
              && (r == if identity.userId !in users then UserNotFound
                       else if key in old(oauthIdentities) then OAuthIdentityExists else Ok)
              && oauthIdentities == if r == Ok then old(oauthIdentities)[key := identity] else old(oauthIdentities)
    {
      if identity.userId !in users {
        return UserNotFound;
      }
      var key := (identity.provider, identity.externalId);
      if key in oauthIdentities {
        return OAuthIdentityExists;
      }
      oauthIdentities := oauthIdentities[key := identity];
      return Ok;
    }

    method SaveWalletIdentity(identity: WalletIdentity) returns (r: Status)
      requires Valid()
      modifies this`walletIdentities
      ensures Valid()
      ensures var key := (identity.chain, identity.address);
              && (r == if identity.userId !in users then UserNotFound
                       else if key in old(walletIdentities) then WalletIdentityExists else Ok)
              && walletIdentities == if r == Ok then old(walletIdentities)[key := identity] else old(walletIdentities)
    {
      if identity.userId !in users {
        return UserNotFound;
      }
      var key := (identity.chain, identity.address);
      if key in walletIdentities {
        return WalletIdentityExists;
      }
      walletIdentities := walletIdentities[key := identity];
      return Ok;
    }

    method SavePasswordHash(userId: string, hash: string) returns (r: Status)
      requires Valid()
      modifies this`passwordHashes
      ensures Valid()
      ensures r == if userId in users then Ok else UserNotFound
      ensures passwordHashes == if r == Ok then old(passwordHashes)[userId := hash] else old(passwordHashes)
    {
      if userId !in users {
        return UserNotFound;
      }
      passwordHashes := passwordHashes[userId := hash];
      return Ok;
    }

    // ----- challenges -----

    /** Sweeps exactly the expired challenges, then stores the new one. */
    method SaveChallenge(challenge: Challenge, now: int)
      requires Valid()
      modifies this`challenges
      ensures Valid() && challenges == Swept(old(challenges), now)[challenge.nonce := challenge]
      ensures forall n :: n in challenges <==>
                n == challenge.nonce || (n in old(challenges) && now <= old(challenges)[n].expiresAt)
      ensures forall n :: n in challenges ==>
                challenges[n] == if n == challenge.nonce then challenge else old(challenges)[n]
    {
      var todo := challenges.Keys;
      while todo != {}
        invariant todo <= old(challenges).Keys
        invariant challenges ==
          map n | n in old(challenges) && (n in todo || n in Swept(old(challenges), now)) :: old(challenges)[n]
        decreases |todo|
      {
        var nonce :| nonce in todo;
        todo := todo - {nonce};
        if challenges[nonce].expiresAt < now {
          challenges := challenges - {nonce};
        }
      }
      assert challenges == Swept(old(challenges), now);
      challenges := challenges[challenge.nonce := challenge];
    }

    method GetChallenge(nonce: string, now: int) returns (r: Status, challenge: Option<Challenge>)
      requires Valid()
      modifies this`challenges
      ensures Valid()
      ensures r == if nonce !in old(challenges) then ChallengeNotFound
                   else if old(challenges)[nonce].expiresAt < now then ChallengeExpired else Ok
      ensures challenge == if r == Ok then Some(old(challenges)[nonce]) else None
      ensures challenges == if r == ChallengeExpired then old(challenges) - {nonce} else old(challenges)
    {
      if nonce !in challenges {
        return ChallengeNotFound, None;
      }
      if challenges[nonce].expiresAt < now {
        challenges := challenges - {nonce};
        return ChallengeExpired, None;
      }
      return Ok, Some(challenges[nonce]);
    }

    method DeleteChallenge(nonce: string) returns (r: Status)
      requires Valid()
      modifies this`challenges
      ensures Valid() && challenges == old(challenges) - {nonce}
      ensures r == if nonce in old(challenges) then Ok else ChallengeNotFound
    {
      if nonce !in challenges {
        return ChallengeNotFound;
      }
      challenges := challenges - {nonce};
      return Ok;
    }
  }

  /** The token has not expired at `now`; one without an expiry never does. */
  predicate LivesAt(pat: Pat, now: int) {
    pat.expiresAt.Some? ==> now <= pat.expiresAt.value
  }

  function OAuthWithout(m: map<(string, string), OAuthIdentity>, userId: string): map<(string, string), OAuthIdentity> {
    map k | k in m && m[k].userId != userId :: m[k]
  }

  function WalletWithout(m: map<(string, string), WalletIdentity>, userId: string)
    : map<(string, string), WalletIdentity>
  {
    map k | k in m && m[k].userId != userId :: m[k]
  }

  function Swept(challenges: map<string, Challenge>, now: int): map<string, Challenge> {
    map n | n in challenges && challenges[n].expiresAt >= now :: challenges[n]
  }

  lemma EndingKeepsOwners(tokens: map<string, RefreshToken>, root: string, now: int)
    ensures var ended := RS.RevokeFamily(tokens, root, now);
            forall h :: h in ended ==> ended[h].hash == tokens[h].hash && ended[h].userId == tokens[h].userId
  {
  }
}
