/** Refresh and Logout of auth/service.go as the code runs them, on the memory store. Each call
    is shown to walk one path of the interleaving machine, so the guarantees proved there for
    every interleaving cover this code. */
module AuthService {
  import opened Entities
  import opened RefreshService
  import RS = RefreshStore
  import MS = MemoryStore

  /** Consecutive states of the machine. */
  ghost predicate Path(setting: int, path: seq<State>) {
    |path| > 0 && forall i, j :: 0 <= i && j == i + 1 && j < |path| ==> Next(setting, path[i], path[j])
  }

  ghost function Last(path: seq<State>): State
    requires |path| > 0
  {
    path[|path| - 1]
  }

  ghost function Extend(setting: int, path: seq<State>, s: State, step: Step): (longer: seq<State>)
    requires Path(setting, path) && NextStep(setting, Last(path), s, step)
    ensures Path(setting, longer) && longer[0] == path[0] && Last(longer) == s
  {
    assert Next(setting, Last(path), s);
    var longer := path + [s];
    assert forall i :: 0 <= i < |path| ==> longer[i] == path[i];
    longer
  }

  /** A call made at the end of a run continues it, so what holds of every run holds after it. */
  lemma CallsContinueRuns(setting: int, run: seq<State>, path: seq<State>)
    requires Run(setting, run) && Path(setting, path) && path[0] == Last(run)
    ensures Run(setting, run + path[1..]) && Last(run + path[1..]) == Last(path)
  {
    var longer := run + path[1..];
    forall i | 0 <= i < |longer| - 1
      ensures Next(setting, longer[i], longer[i + 1])
    {
      if i < |run| - 1 {
        assert Next(setting, run[i], run[i + 1]);
      } else {
        var k := i - |run| + 1;
        assert Next(setting, path[k], path[k + 1]);
        assert longer[i] == path[k] && longer[i + 1] == path[k + 1];
      }
    }
  }

  /** The answer to the store call request p has just made. */
  ghost function Answered(setting: int, path: seq<State>, p: nat, op: RS.Op, r: RS.Result, tables: RS.Tables)
    : (longer: seq<State>)
    requires Path(setting, path) && p in Last(path).procs && Calls(Last(path).procs[p], op)
    requires RS.Exec(Last(path).tables, op, r, tables)
    ensures Path(setting, longer) && longer[0] == path[0]
    ensures Last(longer) == After(setting, Last(path), p, op, r, tables)
  {
    Extend(setting, path, After(setting, Last(path), p, op, r, tables), Call(p, op, r))
  }

  ghost function Spawned(setting: int, s: State, p: nat, pc: Pc): (path: seq<State>)
    requires p !in s.procs && Starts(pc)
    ensures Path(setting, path) && path[0] == s && Last(path) == s.(procs := s.procs[p := pc])
  {
    Extend(setting, [s], s.(procs := s.procs[p := pc]), Spawn(p, pc))
  }

  ghost function Minted(setting: int, path: seq<State>, p: nat, rt: RefreshToken, hash: string, now: int)
    : (longer: seq<State>)
    requires Path(setting, path) && p in Last(path).procs && Last(path).procs[p] == Minting(Some(rt), rt.userId)
    requires hash != "" && hash !in Last(path).generated
    ensures Path(setting, longer) && longer[0] == path[0] && Last(longer).tables == Last(path).tables
    ensures p in Last(longer).procs && Last(longer).procs[p] == Storing(Some(rt), Successor(Some(rt), rt.userId, hash, now))
  {
    Extend(setting, path,
           Last(path).(procs := Last(path).procs[p := Storing(Some(rt), Successor(Some(rt), rt.userId, hash, now))],
                       generated := Last(path).generated + {hash}),
           Mint(p, hash, now))
  }

  /** What the four answers to a rotation mean: go on, decide on reuse, or reject. */
  function AfterRotation(setting: int, now: int, r: RS.Result): Pc {
    if r.Rotated? then Fetching(r.rt)
    else if r.Replayed? then (if InWindow(setting, r.rt, now) then Reading(r.rt, now) else Revoking(r.rt, true))
    else Done(Rejected)
  }

  lemma RotationReacts(setting: int, hash: string, now: int, t: RS.Tables, r: RS.Result, t': RS.Tables)
    requires RS.Exec(t, RS.Rotate(hash, now), r, t')
    ensures React(setting, Rotating(hash, now), r) == AfterRotation(setting, now, r)
  {
  }

  /** Where request p stands at the end of the path, over the store as it is. */
  ghost predicate At(store: MS.Store, path: seq<State>, p: nat, pc: Pc)
    reads store
  {
    |path| > 0 && Last(path).tables == store.Tables() && p in Last(path).procs && Last(path).procs[p] == pc
  }

  const SEVEN_DAYS_NS := 604_800_000_000_000

  /** A replayed token is a duplicate of a legitimate refresh: unexpired, rotated within the leeway
      of the clock on either side, no member of its family ended, none rotated later. */
  ghost predicate IsDuplicate(leeway: int, tokens: map<string, RefreshToken>, rt: RefreshToken, now: int) {
    && leeway > 0 && rt.rotatedAt.Some? && now < rt.expiresAt
    && -leeway <= now - rt.rotatedAt.value <= leeway
    && (exists h :: h in tokens && IsMember(tokens[h], rt) && tokens[h].rotatedAt.Some?)
    && (forall h :: h in tokens && IsMember(tokens[h], rt) ==>
          && tokens[h].endedAt.None?
          && (tokens[h].rotatedAt.Some? ==> tokens[h].rotatedAt.value <= rt.rotatedAt.value))
  }

  predicate IsMember(member: RefreshToken, rt: RefreshToken) {
    var root := if rt.parent == "" then rt.hash else rt.parent;
    member.hash == root || member.parent == root
  }

  /** A successor may join the token's session. (No digest is empty; under an empty root a session
      would begin anew.) */
  predicate RootIsOpen(tokens: map<string, RefreshToken>, rt: RefreshToken) {
    var root := if rt.parent == "" then rt.hash else rt.parent;
    root == "" || (root in tokens && tokens[root].endedAt.None?)
  }

  /** The token a refresh of `rt` stores. */
  function NewToken(rt: RefreshToken, hash: string, now: int): RefreshToken {
    RefreshToken(hash, rt.userId, if rt.parent == "" then rt.hash else rt.parent, now + SEVEN_DAYS_NS, false, None, None)
  }

  /** What exchanging `rt` comes to: a new live token in its session if that is open, reuse if not. */
  ghost predicate Exchanges(before: map<string, RefreshToken>, rt: RefreshToken, hash: string, now: int,
                            outcome: Outcome, after: map<string, RefreshToken>) {
    if RootIsOpen(before, rt)
    then outcome == Issued(Some(rt), hash) && after == before[hash := NewToken(rt, hash, now)]
    else outcome == Reused(rt, true) && after == before
  }

  /** What a replay comes to: a duplicate is exchanged, anything else ends the whole family. */
  ghost predicate Replays(leeway: int, before: map<string, RefreshToken>, rt: RefreshToken, now: int, newHash: string,
                          issueNow: int, revokeNow: int, outcome: Outcome, after: map<string, RefreshToken>) {
    if IsDuplicate(leeway, before, rt, now) then Exchanges(before, rt, newHash, issueNow, outcome, after)
    else outcome == Reused(rt, true) && RS.FamilyEnded(before, after, FamilyRoot(rt), revokeNow)
  }

  /** What a refresh comes to: an unknown or expired token is refused and nothing changes; a live
      one is stamped as rotated now and exchanged; a revoked one is a replay. */
  ghost predicate Refreshes(leeway: int, before: map<string, RefreshToken>, hash: string, now: int, newHash: string,
                            issueNow: int, revokeNow: int, outcome: Outcome, after: map<string, RefreshToken>) {
    if hash !in before then outcome == Rejected && after == before
    else if before[hash].revoked then
      Replays(leeway, before, before[hash], now, newHash, issueNow, revokeNow, outcome, after)
    else if now < before[hash].expiresAt then
      var rt := before[hash].(revoked := true, rotatedAt := Some(now));
      Exchanges(before[hash := rt], rt, newHash, issueNow, outcome, after)
    else outcome == Rejected && after == before
  }

  /** The summary of a family tells whether the token is the latest rotation of an open session. */
  lemma SummaryDecides(leeway: int, tokens: map<string, RefreshToken>, rt: RefreshToken, now: int, f: RefreshFamily)
    requires RS.Summarises(tokens, FamilyRoot(rt), f) && leeway > 0 && rt.rotatedAt.Some? && now < rt.expiresAt
    requires -leeway <= now - rt.rotatedAt.value <= leeway
    ensures IsDuplicate(leeway, tokens, rt, now) <==>
              !f.sessionEnded && f.lastRotatedAt.Some? && f.lastRotatedAt.value <= rt.rotatedAt.value
  {
    assert forall h :: h in tokens ==> (IsMember(tokens[h], rt) <==> InFamily(tokens[h], FamilyRoot(rt)));
    if f.lastRotatedAt.Some? {
      var h :| h in tokens && InFamily(tokens[h], FamilyRoot(rt)) && tokens[h].rotatedAt == f.lastRotatedAt;
      assert IsMember(tokens[h], rt);
    }
    if f.sessionEnded {
      var h :| h in tokens && InFamily(tokens[h], FamilyRoot(rt)) && tokens[h].endedAt.Some?;
      assert IsMember(tokens[h], rt);
    }
  }

  class Service {
    const store: MS.Store
    const refreshReuseLeeway: int

    constructor (store: MS.Store, leeway: int)
      ensures this.store == store && refreshReuseLeeway == if leeway > 0 then leeway else 0
    {
      this.store := store;
      refreshReuseLeeway := if leeway < 0 then 0 else leeway;
    }

    /** From the call to its outcome; the clock readings and the fresh hash are inputs. */
    method Refresh(hash: string, now: int, newHash: string, issueNow: int, revokeNow: int, ghost p: nat, ghost s: State)
      returns (outcome: Outcome, ghost path: seq<State>)
      requires store.Valid() && s.tables == store.Tables() && p !in s.procs && newHash != "" && newHash !in s.generated
      modifies store`refreshTokens
      ensures store.Valid() && Path(refreshReuseLeeway, path) && path[0] == s
      ensures At(store, path, p, Done(outcome))
      ensures Refreshes(refreshReuseLeeway, old(store.refreshTokens), hash, now, newHash, issueNow, revokeNow,
                        outcome, store.refreshTokens)
    {
      var r;
      r, path := Rotate(hash, now, p, s);
      outcome, path := Conclude(r, now, newHash, issueNow, revokeNow, p, path);
    }

    /** What Refresh makes of the four answers to its rotation. */
    method Conclude(r: RS.Result, now: int, newHash: string, issueNow: int, revokeNow: int, ghost p: nat,
                    ghost start: seq<State>)
      returns (outcome: Outcome, ghost path: seq<State>)
      requires store.Valid() && Path(refreshReuseLeeway, start) && newHash != "" && newHash !in Last(start).generated
      requires At(store, start, p, AfterRotation(refreshReuseLeeway, now, r))
      requires r.Rotated? || r.Replayed? ==> r.rt.userId in store.users
      modifies store`refreshTokens
      ensures store.Valid() && Path(refreshReuseLeeway, path) && path[0] == start[0]
      ensures At(store, path, p, Done(outcome))
      ensures if r.Replayed? then
                Replays(refreshReuseLeeway, old(store.refreshTokens), r.rt, now, newHash, issueNow, revokeNow,
                        outcome, store.refreshTokens)
              else if r.Rotated? then
                Exchanges(old(store.refreshTokens), r.rt, newHash, issueNow, outcome, store.refreshTokens)
              else outcome == Rejected && store.refreshTokens == old(store.refreshTokens)
    {
      path := start;
      if r.Replayed? {
        outcome, path := Replay(r.rt, now, newHash, issueNow, revokeNow, p, path);
      } else if r.Rotated? {
        outcome, path := Exchange(r.rt, newHash, issueNow, p, path);
      } else {
        outcome := Rejected;
      }
    }

    /** The first store call of Refresh and what its answer means. */
    method Rotate(hash: string, now: int, ghost p: nat, ghost s: State) returns (r: RS.Result, ghost path: seq<State>)
      requires store.Valid() && s.tables == store.Tables() && p !in s.procs
      modifies store`refreshTokens
      ensures store.Valid() && Path(refreshReuseLeeway, path) && path[0] == s && Last(path).generated == s.generated
      ensures At(store, path, p, AfterRotation(refreshReuseLeeway, now, r))
      ensures hash !in old(store.refreshTokens) ==> r == RS.TokenNotFound
      ensures hash in old(store.refreshTokens) ==>
                var was := old(store.refreshTokens)[hash];
                r == if was.revoked then RS.Replayed(was)
                     else if now < was.expiresAt then RS.Rotated(was.(revoked := true, rotatedAt := Some(now)))
                     else RS.Expired(was)
      ensures store.refreshTokens == if r.Rotated? then old(store.refreshTokens)[hash := r.rt] else old(store.refreshTokens)
    {
      path := Spawned(refreshReuseLeeway, s, p, Rotating(hash, now));
      r := store.RotateRefreshToken(hash, now);
      RotationReacts(refreshReuseLeeway, hash, now, s.tables, r, store.Tables());
      path := Answered(refreshReuseLeeway, path, p, RS.Rotate(hash, now), r, store.Tables());
    }

    /** A token already revoked: a duplicate is served, anything else ends the session. */
    method Replay(rt: RefreshToken, now: int, newHash: string, issueNow: int, revokeNow: int, ghost p: nat,
        ghost start: seq<State>)
      returns (outcome: Outcome, ghost path: seq<State>)
      requires store.Valid() && Path(refreshReuseLeeway, start)
      requires At(store, start, p, AfterRotation(refreshReuseLeeway, now, RS.Replayed(rt)))
      requires newHash != "" && newHash !in Last(start).generated
      modifies store`refreshTokens
      ensures store.Valid() && Path(refreshReuseLeeway, path) && path[0] == start[0]
      ensures At(store, path, p, Done(outcome))
      ensures rt.userId in store.users ==>
                Replays(refreshReuseLeeway, old(store.refreshTokens), rt, now, newHash, issueNow, revokeNow,
                        outcome, store.refreshTokens)
    {
      var dup;
      dup, path := IsDuplicateRefresh(rt, now, p, start);
      if !dup {
        outcome, path := RevokeReusedFamily(rt, revokeNow, p, path);
        return;
      }
      outcome, path := Exchange(rt, newHash, issueNow, p, path);
    }

    /** The reuse decision, with at most one family read. */
    method IsDuplicateRefresh(rt: RefreshToken, now: int, ghost p: nat, ghost start: seq<State>)
      returns (dup: bool, ghost path: seq<State>)
      requires store.Valid() && Path(refreshReuseLeeway, start)
      requires At(store, start, p, AfterRotation(refreshReuseLeeway, now, RS.Replayed(rt)))
      ensures Path(refreshReuseLeeway, path) && path[0] == start[0] && Last(path).generated == Last(start).generated
      ensures At(store, path, p, if dup then Fetching(rt) else Revoking(rt, true))
      ensures dup <==> IsDuplicate(refreshReuseLeeway, store.refreshTokens, rt, now)
    {
      path := start;
      if refreshReuseLeeway <= 0 || rt.rotatedAt.None? || rt.expiresAt <= now {
        return false, path;
      }
      var since := now - rt.rotatedAt.value;
      if since > refreshReuseLeeway || since < -refreshReuseLeeway {
        return false, path;
      }
      var r := store.GetRefreshFamily(FamilyRoot(rt));
      path := Answered(refreshReuseLeeway, path, p, RS.ReadFamily(FamilyRoot(rt)), r, store.Tables());
      var family := r.family;
      dup := !(family.sessionEnded || family.lastRotatedAt.None?) && !(rt.rotatedAt.value < family.lastRotatedAt.value);
      SummaryDecides(refreshReuseLeeway, store.refreshTokens, rt, now, family);
    }

    method RevokeReusedFamily(rt: RefreshToken, now: int, ghost p: nat, ghost start: seq<State>)
      returns (outcome: Outcome, ghost path: seq<State>)
      requires store.Valid() && Path(refreshReuseLeeway, start) && At(store, start, p, Revoking(rt, true))
      modifies store`refreshTokens
      ensures store.Valid() && Path(refreshReuseLeeway, path) && path[0] == start[0]
      ensures outcome == Reused(rt, true) && At(store, path, p, Done(outcome))
      ensures RS.FamilyEnded(old(store.refreshTokens), store.refreshTokens, FamilyRoot(rt), now)
    {
      store.RevokeTokens(FamilyRoot(rt), now);
      path := Answered(refreshReuseLeeway, start, p, RS.Revoke(FamilyRoot(rt), now), RS.Ok, store.Tables());
      outcome := Reused(rt, true);
    }

    /** The second half of Refresh: look the user up, then issue. Without the user the token is
        refused. */
    method Exchange(rt: RefreshToken, newHash: string, now: int, ghost p: nat, ghost start: seq<State>)
      returns (outcome: Outcome, ghost path: seq<State>)
      requires store.Valid() && Path(refreshReuseLeeway, start) && At(store, start, p, Fetching(rt))
      requires newHash != "" && newHash !in Last(start).generated
      modifies store`refreshTokens
      ensures store.Valid() && Path(refreshReuseLeeway, path) && path[0] == start[0]
      ensures At(store, path, p, Done(outcome))
      ensures if rt.userId in store.users
              then Exchanges(old(store.refreshTokens), rt, newHash, now, outcome, store.refreshTokens)
              else outcome == Rejected && store.refreshTokens == old(store.refreshTokens)
    {
      var user := store.GetByID(rt.userId);
      ghost var answer := if user.Some? then RS.Ok else RS.UserNotFound;
      path := Answered(refreshReuseLeeway, start, p, RS.GetUser(rt.userId), answer, store.Tables());
      if user.None? {
        return Rejected, path;
      }
      outcome, path := IssueTokens(rt, newHash, now, p, path);
    }

    /** issueTokens and what Refresh makes of a refused save. */
    method IssueTokens(rt: RefreshToken, newHash: string, now: int, ghost p: nat, ghost start: seq<State>)
      returns (outcome: Outcome, ghost path: seq<State>)
      requires store.Valid() && Path(refreshReuseLeeway, start) && rt.userId in store.users
      requires At(store, start, p, Minting(Some(rt), rt.userId)) && newHash != "" && newHash !in Last(start).generated
      modifies store`refreshTokens
      ensures store.Valid() && Path(refreshReuseLeeway, path) && path[0] == start[0]
      ensures At(store, path, p, Done(outcome))
      ensures Exchanges(old(store.refreshTokens), rt, newHash, now, outcome, store.refreshTokens)
    {
      var token := RefreshToken(newHash, rt.userId, FamilyRoot(rt), now + REFRESH_TOKEN_TTL, false, None, None);
      assert token == NewToken(rt, newHash, now) == Successor(Some(rt), rt.userId, newHash, now);
      path := Minted(refreshReuseLeeway, start, p, rt, newHash, now);
      var r := store.SaveRefreshToken(token);
      assert r == if RootIsOpen(old(store.refreshTokens), rt) then RS.Ok else RS.Refused;
      path := Answered(refreshReuseLeeway, path, p, RS.SaveToken(token), r, store.Tables());
      if r == RS.Refused {
        return Reused(rt, true), path;
      }
      if r != RS.Ok {
        return Failed, path;
      }
      return Issued(Some(rt), newHash), path;
    }

    /** Ends the session of a token, whichever member it is; an unknown token is no error. */
    method Logout(hash: string, now: int, ghost p: nat, ghost s: State)
      returns (outcome: Outcome, ghost path: seq<State>)
      requires store.Valid() && s.tables == store.Tables() && p !in s.procs
      modifies store`refreshTokens
      ensures store.Valid() && Path(refreshReuseLeeway, path) && path[0] == s
      ensures At(store, path, p, Done(outcome))
      ensures outcome == if hash in old(store.refreshTokens) then LoggedOut(old(store.refreshTokens)[hash])
                         else NothingToLogOut
      ensures hash !in old(store.refreshTokens) ==> store.refreshTokens == old(store.refreshTokens)
      ensures hash in old(store.refreshTokens) ==>
                RS.FamilyEnded(old(store.refreshTokens), store.refreshTokens,
                                FamilyRoot(old(store.refreshTokens)[hash]), now)
    {
      path := Spawned(refreshReuseLeeway, s, p, LogoutReading(hash));
      var r := store.GetRefreshToken(hash);
      path := Answered(refreshReuseLeeway, path, p, RS.GetToken(hash), r, store.Tables());
      if r == RS.TokenNotFound {
        return NothingToLogOut, path;
      }
      store.RevokeTokens(FamilyRoot(r.rt), now);
      path := Answered(refreshReuseLeeway, path, p, RS.Revoke(FamilyRoot(r.rt), now), RS.Ok, store.Tables());
      return LoggedOut(r.rt), path;
    }
  }
}
