/** What the refresh machine can always do: whatever has happened so far, a request that is let run
    on by itself gets the answer its token deserves. */
module RefreshProgress {
  import opened Entities
  import opened RefreshStore
  import opened RefreshService

  const SEVEN_DAYS_NS := 604_800_000_000_000

  function Last(run: seq<State>): State
    requires run != []
  {
    run[|run| - 1]
  }

  lemma Extend(setting: int, run: seq<State>, s: State, step: Step) returns (longer: seq<State>)
    requires Run(setting, run) && NextStep(setting, Last(run), s, step)
    ensures Run(setting, longer) && run <= longer && Last(longer) == s
  {
    longer := run + [s];
    assert Next(setting, Last(run), s);
    forall i, j | 0 <= i && j == i + 1 && j < |longer|
      ensures Next(setting, longer[i], longer[j])
    {
      if j < |run| { assert Next(setting, run[i], run[j]); }
    }
  }

  lemma Starting(setting: int, run: seq<State>, p: nat, pc: Pc) returns (longer: seq<State>)
    requires Run(setting, run) && p !in Last(run).procs && Starts(pc)
    ensures Run(setting, longer) && run <= longer && Last(longer) == Last(run).(procs := Last(run).procs[p := pc])
  {
    longer := Extend(setting, run, Last(run).(procs := Last(run).procs[p := pc]), Spawn(p, pc));
  }

  lemma Calling(setting: int, run: seq<State>, p: nat, op: Op, r: Result, t: Tables) returns (longer: seq<State>)
    requires Run(setting, run) && p in Last(run).procs && Calls(Last(run).procs[p], op)
    requires Exec(Last(run).tables, op, r, t)
    ensures Run(setting, longer) && run <= longer && Last(longer) == After(setting, Last(run), p, op, r, t)
  {
    longer := Extend(setting, run, After(setting, Last(run), p, op, r, t), Call(p, op, r));
  }

  /** What is left when request p has ended alone: its outcome, and these tokens. */
  ghost predicate EndsWith(setting: int, run: seq<State>, longer: seq<State>, p: nat, outcome: Outcome,
                           tokens: map<string, RefreshToken>)
    requires run != []
  {
    && Run(setting, longer) && run <= longer
    && p in Last(longer).procs && Last(longer).procs[p] == Done(outcome)
    && Last(longer).tables == Last(run).tables.(tokens := tokens)
  }

  // ----- exchanges -----

  /** Minting and saving a token for a stored user, in a new session or in an open one. */
  lemma IssuingCanFinish(setting: int, run: seq<State>, p: nat, from: Option<RefreshToken>, userId: string,
                         hash: string, now: int)
    returns (longer: seq<State>)
    requires Run(setting, run) && p in Last(run).procs && Last(run).procs[p] == Minting(from, userId)
    requires userId in Last(run).tables.users && hash != "" && hash !in Last(run).generated
    requires from.Some? ==>
               var root := if from.value.parent == "" then from.value.hash else from.value.parent;
               root in Last(run).tables.tokens && Last(run).tables.tokens[root].endedAt.None?
    ensures var root := if from.None? then "" else if from.value.parent == "" then from.value.hash else from.value.parent;
            EndsWith(setting, run, longer, p, Issued(from, hash),
                     Last(run).tables.tokens[hash := RefreshToken(hash, userId, root,
                                                                          now + SEVEN_DAYS_NS, false, None, None)])
  {
    var s := Last(run);
    var token := Successor(from, userId, hash, now);
    var storing := s.(procs := s.procs[p := Storing(from, token)], generated := s.generated + {hash});
    longer := Extend(setting, run, storing, Mint(p, hash, now));
    longer := Calling(setting, longer, p, SaveToken(token), Ok, s.tables.(tokens := s.tables.tokens[hash := token]));
  }

  /** A refresh that has won its rotation or been granted, with its user stored and its session
      open, can still end with a new pair. */
  lemma ExchangeCanFinish(setting: int, run: seq<State>, p: nat, rt: RefreshToken, hash: string, now: int)
    returns (longer: seq<State>)
    requires Run(setting, run) && p in Last(run).procs && Last(run).procs[p] == Fetching(rt)
    requires rt.userId in Last(run).tables.users && hash != "" && hash !in Last(run).generated
    requires var root := if rt.parent == "" then rt.hash else rt.parent;
             root in Last(run).tables.tokens && Last(run).tables.tokens[root].endedAt.None?
    ensures var root := if rt.parent == "" then rt.hash else rt.parent;
            EndsWith(setting, run, longer, p, Issued(Some(rt), hash),
                     Last(run).tables.tokens[hash := RefreshToken(hash, rt.userId, root,
                                                                          now + SEVEN_DAYS_NS, false, None, None)])
  {
    longer := Calling(setting, run, p, GetUser(rt.userId), Ok, Last(run).tables);
    longer := IssuingCanFinish(setting, longer, p, Some(rt), rt.userId, hash, now);
  }

  /** In every reachable state every live, unexpired token can be exchanged: its refresh stamps it
      as rotated at its own clock and stores a new live token of the same user and session, good
      for seven days. */
  lemma LiveTokenCanBeExchanged(
    setting: int, run: seq<State>, p: nat, h: string, now: int, newHash: string, issueNow: int) returns (longer: seq<State>)
    requires Run(setting, run) && p !in Last(run).procs && newHash != "" && newHash !in Last(run).generated
    requires h in Last(run).tables.tokens && !Last(run).tables.tokens[h].revoked
    requires now < Last(run).tables.tokens[h].expiresAt
    ensures var was := Last(run).tables.tokens[h];
            var rt := was.(revoked := true, rotatedAt := Some(now));
            var root := if was.parent == "" then h else was.parent;
            EndsWith(setting, run, longer, p, Issued(Some(rt), newHash),
                     Last(run).tables.tokens[h := rt]
                       [newHash := RefreshToken(newHash, was.userId, root, issueNow + SEVEN_DAYS_NS, false, None, None)])
  {
    var s := Last(run);
    LiveMeansOpen(setting, run, h);
    var rt := s.tables.tokens[h].(revoked := true, rotatedAt := Some(now));
    longer := Starting(setting, run, p, Rotating(h, now));
    longer := Calling(setting, longer, p, Rotate(h, now), Rotated(rt), s.tables.(tokens := s.tables.tokens[h := rt]));
    longer := ExchangeCanFinish(setting, longer, p, rt, newHash, issueNow);
  }

  /** A live token's user is stored, and its session stored and open. */
  lemma LiveMeansOpen(setting: int, run: seq<State>, h: string)
    requires Run(setting, run) && h in Last(run).tables.tokens && !Last(run).tables.tokens[h].revoked
    ensures var t, rt := Last(run).tables, Last(run).tables.tokens[h];
            && rt.hash == h && rt.userId in t.users
            && FamilyRoot(rt) in t.tokens && t.tokens[FamilyRoot(rt)].endedAt.None?
  {
    InvAlways(setting, run, |run| - 1);
    assert RowOk(Last(run).tables, Last(run).born, h);
  }

  /** A signed-in user can always be given a session. */
  lemma SignInCanFinish(setting: int, run: seq<State>, p: nat, userId: string, hash: string, now: int)
    returns (longer: seq<State>)
    requires Run(setting, run) && p !in Last(run).procs && hash != "" && hash !in Last(run).generated
    requires userId in Last(run).tables.users
    ensures EndsWith(setting, run, longer, p, Issued(None, hash),
                     Last(run).tables.tokens[hash := RefreshToken(hash, userId, "",
                                                                          now + SEVEN_DAYS_NS, false, None, None)])
  {
    longer := Starting(setting, run, p, Minting(None, userId));
    longer := IssuingCanFinish(setting, longer, p, None, userId, hash, now);
  }

  // ----- replays and logouts -----

  /** A replay inside the window, of the latest rotation of an open session, is served again. */
  lemma DuplicateCanBeServed(
    setting: int, run: seq<State>, p: nat, h: string, now: int, newHash: string, issueNow: int) returns (longer: seq<State>)
    requires Run(setting, run) && p !in Last(run).procs && newHash != "" && newHash !in Last(run).generated
    requires h in Last(run).tables.tokens && Last(run).tables.tokens[h].revoked
    requires var rt := Last(run).tables.tokens[h];
             && setting > 0 && rt.rotatedAt.Some? && now < rt.expiresAt && -setting <= now - rt.rotatedAt.value <= setting
             && rt.endedAt.None?
             && forall g :: g in Last(run).tables.tokens && InFamily(Last(run).tables.tokens[g], FamilyRoot(rt))
                            && Last(run).tables.tokens[g].rotatedAt.Some? ==>
                  Last(run).tables.tokens[g].rotatedAt.value <= rt.rotatedAt.value
    ensures var rt := Last(run).tables.tokens[h];
            var root := if rt.parent == "" then h else rt.parent;
            EndsWith(setting, run, longer, p, Issued(Some(rt), newHash),
                     Last(run).tables.tokens
                       [newHash := RefreshToken(newHash, rt.userId, root, issueNow + SEVEN_DAYS_NS, false, None, None)])
  {
    var s := Last(run);
    var rt := s.tables.tokens[h];
    var f := SummaryExists(s.tables.tokens, FamilyRoot(rt));
    OpenSummary(setting, run, h, f);
    longer := Starting(setting, run, p, Rotating(h, now));
    longer := Calling(setting, longer, p, Rotate(h, now), Replayed(rt), s.tables);
    longer := Calling(setting, longer, p, ReadFamily(FamilyRoot(rt)), Summary(f), s.tables);
    longer := ExchangeCanFinish(setting, longer, p, rt, newHash, issueNow);
  }

  /** The summary of a session whose latest rotation is h. */
  lemma OpenSummary(setting: int, run: seq<State>, h: string, f: RefreshFamily)
    requires Run(setting, run) && h in Last(run).tables.tokens && Last(run).tables.tokens[h].endedAt.None?
    requires Last(run).tables.tokens[h].rotatedAt.Some?
    requires Summarises(Last(run).tables.tokens, FamilyRoot(Last(run).tables.tokens[h]), f)
    requires forall g :: g in Last(run).tables.tokens
                         && InFamily(Last(run).tables.tokens[g], FamilyRoot(Last(run).tables.tokens[h]))
                         && Last(run).tables.tokens[g].rotatedAt.Some? ==>
               Last(run).tables.tokens[g].rotatedAt.value <= Last(run).tables.tokens[h].rotatedAt.value
    ensures var t, rt := Last(run).tables, Last(run).tables.tokens[h];
            && rt.hash == h && rt.userId in t.users
            && FamilyRoot(rt) in t.tokens && t.tokens[FamilyRoot(rt)].endedAt.None?
            && !f.sessionEnded && f.lastRotatedAt == rt.rotatedAt
  {
    InvAlways(setting, run, |run| - 1);
    var t, rt := Last(run).tables, Last(run).tables.tokens[h];
    assert RowOk(t, Last(run).born, h) && RowOk(t, Last(run).born, FamilyRoot(rt));
    assert InFamily(rt, FamilyRoot(rt));
    forall g | g in t.tokens && InFamily(t.tokens[g], FamilyRoot(rt))
      ensures t.tokens[g].endedAt.None?
    {
      assert RowOk(t, Last(run).born, g);
    }
    if f.lastRotatedAt.Some? {
      var g :| g in t.tokens && InFamily(t.tokens[g], FamilyRoot(rt)) && t.tokens[g].rotatedAt == f.lastRotatedAt;
    }
  }

  /** Whoever holds a stored token can end its whole session. */
  lemma SessionCanBeEnded(setting: int, run: seq<State>, p: nat, h: string, now: int)
    returns (longer: seq<State>, tokens: map<string, RefreshToken>)
    requires Run(setting, run) && p !in Last(run).procs && h in Last(run).tables.tokens
    ensures EndsWith(setting, run, longer, p, LoggedOut(Last(run).tables.tokens[h]), tokens)
    ensures FamilyEnded(Last(run).tables.tokens, tokens, FamilyRoot(Last(run).tables.tokens[h]), now)
  {
    var s := Last(run);
    var rt := s.tables.tokens[h];
    tokens := RevokeFamily(s.tables.tokens, FamilyRoot(rt), now);
    longer := Starting(setting, run, p, LogoutReading(h));
    longer := Calling(setting, longer, p, GetToken(h), Found(rt), s.tables);
    longer := Calling(setting, longer, p, Revoke(FamilyRoot(rt), now), Ok, s.tables.(tokens := tokens));
  }
}
