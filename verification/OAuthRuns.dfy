/** Runs of OAuthSignIn: that its windows are real, and what a callback or a registration that is
    let run on by itself comes to, whatever has happened before. */
module OAuthRuns {
  import opened OAuthSignIn

  // ----- the windows are real -----

  lemma Extends(cfg: Config, run: seq<State>, s: State, step: Step) returns (longer: seq<State>)
    requires Run(cfg, run) && NextStep(cfg, run[|run| - 1], s, step)
    ensures Run(cfg, longer) && longer == run + [s]
  {
    longer := run + [s];
    assert Next(cfg, run[|run| - 1], s);
    forall i | 0 <= i < |longer| - 1
      ensures Next(cfg, longer[i], longer[i + 1])
    {
      if i < |run| - 1 { assert Next(cfg, run[i], run[i + 1]); }
    }
  }

  function Last(run: seq<State>): State
    requires run != []
  {
    run[|run| - 1]
  }

  /** `longer` continues `run` by one step to state s. */
  ghost predicate Continues(cfg: Config, run: seq<State>, longer: seq<State>, s: State) {
    run != [] && Run(cfg, longer) && run <= longer && |longer| == |run| + 1 && Last(longer) == s
  }

  lemma Starting(cfg: Config, run: seq<State>, p: nat, pc: Pc) returns (longer: seq<State>)
    requires Run(cfg, run) && p !in Last(run).procs && Starts(pc)
    ensures Continues(cfg, run, longer, Move(Last(run), p, pc))
  {
    longer := Extends(cfg, run, Move(Last(run), p, pc), Spawn(p, pc));
  }

  lemma Acting(cfg: Config, run: seq<State>, p: nat, id: string) returns (longer: seq<State>)
    requires Run(cfg, run) && p in Last(run).procs && IdOk(Last(run), Last(run).procs[p], id)
    ensures Continues(cfg, run, longer, Acted(cfg, Last(run), p, id))
  {
    longer := Extends(cfg, run, Acted(cfg, Last(run), p, id), Act(p, id));
  }

  lemma Breaking(cfg: Config, run: seq<State>, p: nat) returns (longer: seq<State>)
    requires Run(cfg, run) && p in Last(run).procs
    ensures Continues(cfg, run, longer, Move(Last(run), p, Broken(Last(run).procs[p])))
  {
    longer := Extends(cfg, run, Move(Last(run), p, Broken(Last(run).procs[p])), Break(p));
  }

  /** A call that only reads takes the request from one position to the next. */
  lemma Reading(cfg: Config, run: seq<State>, s: State, p: nat, pc: Pc, id: string, pc': Pc)
    returns (longer: seq<State>)
    requires Run(cfg, run) && Last(run) == Move(s, p, pc) && IdOk(s, pc, id) && !Creates(s.dir, pc)
    requires NextDir(cfg, s.dir, pc, id) == s.dir && NextPc(cfg, s.dir, pc, id) == pc'
    ensures Continues(cfg, run, longer, Move(s, p, pc'))
  {
    longer := Acting(cfg, run, p, id);
  }

  const EMPTY := State(Directory(map[], map[], {}), {}, map[], map[])

  /** An unlinked account with a free email: the callback creates a user and is about to link it. */
  lemma NewAccount(cfg: Config, run: seq<State>, p: nat, key: Key, email: string, id: string)
    returns (longer: seq<State>)
    requires Run(cfg, run) && p !in Last(run).procs && key !in Last(run).dir.links
    requires email != "" && !Taken(Last(run).dir, email) && id !in Last(run).ids
    ensures Run(cfg, longer) && run <= longer
    ensures var s := Last(run);
            Last(longer) == State(s.dir.(users := s.dir.users[id := email]), s.ids + {id},
                                  s.procs[p := Linking(key, id, true)], s.created[p := id])
  {
    var s := Last(run);
    longer := Starting(cfg, run, p, Looking(key, email, true));
    longer := Reading(cfg, longer, s, p, Looking(key, email, true), id, Seeking(key, email));
    longer := Reading(cfg, longer, s, p, Seeking(key, email), id, Creating(key, email));
    longer := CreatingUser(cfg, longer, s, p, key, email, id);
  }

  lemma CreatingUser(cfg: Config, run: seq<State>, s: State, p: nat, key: Key, email: string, id: string)
    returns (longer: seq<State>)
    requires Run(cfg, run) && Last(run) == Move(s, p, Creating(key, email)) && !Taken(s.dir, email) && id !in s.ids
    ensures Continues(cfg, run, longer,
                      State(s.dir.(users := s.dir.users[id := email]), s.ids + {id},
                            s.procs[p := Linking(key, id, true)], s.created[p := id]))
  {
    longer := Acting(cfg, run, p, id);
  }

  /** An unlinked account whose email a user without a password has: the callback finds that user
      and is about to link it. */
  lemma FoundAccount(cfg: Config, run: seq<State>, p: nat, key: Key, user: string) returns (longer: seq<State>)
    requires Run(cfg, run) && cfg.autoLink && p !in Last(run).procs && key !in Last(run).dir.links
    requires user in Last(run).dir.users && Last(run).dir.users[user] != "" && user !in Last(run).dir.passwords
    ensures Run(cfg, longer) && run <= longer && Last(longer) == Move(Last(run), p, Linking(key, user, false))
  {
    var s := Last(run);
    var email := s.dir.users[user];
    assert Taken(s.dir, email);
    longer := Starting(cfg, run, p, Looking(key, email, true));
    longer := Reading(cfg, longer, s, p, Looking(key, email, true), user, Seeking(key, email));
    longer := Reading(cfg, longer, s, p, Seeking(key, email), user, Vetting(key, user));
    longer := Reading(cfg, longer, s, p, Vetting(key, user), user, Linking(key, user, false));
  }

  /** One callback has created "u", and its link has failed in storage; another one with the same
      email is about to link "u". */
  lemma RaceIsReachable(cfg: Config) returns (run: seq<State>)
    requires cfg.autoLink
    ensures Run(cfg, run)
    ensures Last(run) == State(Directory(map["u" := "e"], map[], {}), {"u"},
                               map[0 := Checking(("a", "1"), "u", false), 1 := Linking(("b", "2"), "u", false)],
                               map[0 := "u"])
  {
    run := NewAccount(cfg, [EMPTY], 0, ("a", "1"), "e", "u");
    run := Breaking(cfg, run, 0);
    run := FoundAccount(cfg, run, 1, ("b", "2"), "u");
  }

  /** Both windows end alike: the user is gone, and with it the link a finished sign-in made. */
  predicate LinkWasLost(run: seq<State>) {
    && |run| > 1 && Loses(run[|run| - 2], Last(run))
    && Last(run) == State(Directory(map[], map[], {}), {"u"},
                          map[0 := Failed, 1 := Finished(("b", "2"), "u", Linked)], map[0 := "u"])
  }

  lemma ErasingLoses(s: State, s': State)
    requires s.dir == Directory(map["u" := "e"], map[("b", "2") := "u"], {}) && s'.dir == Erase(s.dir, "u")
    ensures Loses(s, s') && s'.dir == Directory(map[], map[], {})
  {
    assert ("b", "2") in s.dir.links && ("b", "2") !in s'.dir.links;
  }

  /** The callbacks' window is real: from there the check, the link and the delete lose the link. */
  lemma WindowLosesALink(cfg: Config) returns (run: seq<State>)
    requires cfg.autoLink && !cfg.atomic
    ensures Run(cfg, run) && LinkWasLost(run)
  {
    run := RaceIsReachable(cfg);
    assert !IsLinked(Last(run).dir, "u");
    run := Acting(cfg, run, 0, "");
    run := Acting(cfg, run, 1, "");
    var linked := Last(run);
    assert linked.dir == Directory(map["u" := "e"], map[("b", "2") := "u"], {});
    run := Acting(cfg, run, 0, "");
    ErasingLoses(linked, Last(run));
  }

  /** And so is the registrations': between its create and its failing password save a callback
      with the same email links the user, and the undo takes the link away, however callbacks
      roll back. */
  lemma UndoLosesALink(cfg: Config) returns (run: seq<State>)
    requires cfg.autoLink
    ensures Run(cfg, run) && LinkWasLost(run)
  {
    run := UnsecuredIsLinked(cfg);
    run := Breaking(cfg, run, 0);
    var linked := Last(run);
    run := Acting(cfg, run, 0, "");
    ErasingLoses(linked, Last(run));
  }

  lemma UnsecuredIsLinked(cfg: Config) returns (run: seq<State>)
    requires cfg.autoLink
    ensures Run(cfg, run)
    ensures Last(run) == State(Directory(map["u" := "e"], map[("b", "2") := "u"], {}), {"u"},
                               map[0 := Securing("u"), 1 := Finished(("b", "2"), "u", Linked)], map[0 := "u"])
  {
    run := UnsecuredIsReachable(cfg);
    run := FoundAccount(cfg, run, 1, ("b", "2"), "u");
    run := Acting(cfg, run, 1, "");
  }

  /** A registration has created "u" and not yet saved its password. */
  lemma UnsecuredIsReachable(cfg: Config) returns (run: seq<State>)
    ensures Run(cfg, run)
    ensures Last(run) == State(Directory(map["u" := "e"], map[], {}), {"u"}, map[0 := Securing("u")], map[0 := "u"])
  {
    assert !Taken(EMPTY.dir, "e");
    run := Starting(cfg, [EMPTY], 0, Asking("e"));
    run := Reading(cfg, run, EMPTY, 0, Asking("e"), "", Enrolling("e"));
    run := Acting(cfg, run, 0, "u");
  }

  /** Two finished sign-ins with one provider account have returned different users. */
  predicate SplitAccount(s: State) {
    exists p, q :: p in s.procs && q in s.procs && s.procs[p].Finished? && s.procs[q].Finished?
                   && s.procs[p].key == s.procs[q].key && s.procs[p].user != s.procs[q].user
  }

  lemma LostLinkSplitsAnAccount(cfg: Config, run: seq<State>) returns (longer: seq<State>)
    requires Run(cfg, run) && LinkWasLost(run)
    ensures Run(cfg, longer) && SplitAccount(Last(longer))
  {
    longer := NewAccount(cfg, run, 2, ("b", "2"), "e", "v");
    longer := Acting(cfg, longer, 2, "");
    assert 1 in Last(longer).procs && 2 in Last(longer).procs;
  }

  /** Either window splits an account: the next sign-in with it returns another user. */
  lemma WindowSplitsAnAccount(cfg: Config) returns (run: seq<State>)
    requires cfg.autoLink && !cfg.atomic
    ensures Run(cfg, run) && SplitAccount(Last(run))
  {
    run := WindowLosesALink(cfg);
    run := LostLinkSplitsAnAccount(cfg, run);
  }

  lemma UndoSplitsAnAccount(cfg: Config) returns (run: seq<State>)
    requires cfg.autoLink
    ensures Run(cfg, run) && SplitAccount(Last(run))
  {
    run := UndoLosesALink(cfg);
    run := LostLinkSplitsAnAccount(cfg, run);
  }

  // ----- a request that runs on by itself -----

  /** What is left when request p has ended alone: its position, and this directory. */
  ghost predicate EndsWith(cfg: Config, run: seq<State>, longer: seq<State>, p: nat, pc: Pc, dir: Directory) {
    && run != [] && Run(cfg, longer) && run <= longer
    && p in Last(longer).procs && Last(longer).procs[p] == pc && Last(longer).dir == dir
  }

  /** A linked account signs its user in, whatever the provider says of the email. */
  lemma LinkedAccountSignsIn(cfg: Config, run: seq<State>, p: nat, key: Key, email: string, verified: bool)
    returns (longer: seq<State>)
    requires Run(cfg, run) && p !in Last(run).procs && key in Last(run).dir.links
    ensures EndsWith(cfg, run, longer, p, Finished(key, Last(run).dir.links[key], Existing), Last(run).dir)
  {
    var s := Last(run);
    StoredFacts(cfg, run, |run| - 1);
    longer := Starting(cfg, run, p, Looking(key, email, verified));
    longer := Reading(cfg, longer, s, p, Looking(key, email, verified), "", Loading(key, s.dir.links[key]));
    longer := Reading(cfg, longer, s, p, Loading(key, s.dir.links[key]), "", Finished(key, s.dir.links[key], Existing));
  }

  /** An unlinked one without a valid, verified email is refused. */
  lemma UnverifiedIsRefused(cfg: Config, run: seq<State>, p: nat, key: Key, email: string, verified: bool)
    returns (longer: seq<State>)
    requires Run(cfg, run) && p !in Last(run).procs && key !in Last(run).dir.links && (email == "" || !verified)
    ensures EndsWith(cfg, run, longer, p, Failed, Last(run).dir)
  {
    longer := Starting(cfg, run, p, Looking(key, email, verified));
    longer := Reading(cfg, longer, Last(run), p, Looking(key, email, verified), "", Failed);
  }

  /** With a free email it gets a new user, linked to it. */
  lemma FreeEmailIsCreated(cfg: Config, run: seq<State>, p: nat, key: Key, email: string, id: string)
    returns (longer: seq<State>)
    requires Run(cfg, run) && p !in Last(run).procs && key !in Last(run).dir.links
    requires email != "" && !Taken(Last(run).dir, email) && id !in Last(run).ids
    ensures var dir := Last(run).dir;
            EndsWith(cfg, run, longer, p, Finished(key, id, Created),
                     dir.(users := dir.users[id := email], links := dir.links[key := id]))
  {
    longer := NewAccount(cfg, run, p, key, email, id);
    longer := Acting(cfg, longer, p, "");
  }

  /** With a taken one it is linked to that user if auto-link is on and the user has no password. */
  lemma TakenEmailIsLinked(cfg: Config, run: seq<State>, p: nat, key: Key, user: string) returns (longer: seq<State>)
    requires Run(cfg, run) && p !in Last(run).procs && key !in Last(run).dir.links
    requires user in Last(run).dir.users && Last(run).dir.users[user] != ""
    requires cfg.autoLink && user !in Last(run).dir.passwords
    ensures EndsWith(cfg, run, longer, p, Finished(key, user, Linked),
                     Last(run).dir.(links := Last(run).dir.links[key := user]))
  {
    longer := FoundAccount(cfg, run, p, key, user);
    longer := Acting(cfg, longer, p, "");
  }

  /** Otherwise it is refused. */
  lemma TakenEmailIsRefused(cfg: Config, run: seq<State>, p: nat, key: Key, user: string) returns (longer: seq<State>)
    requires Run(cfg, run) && p !in Last(run).procs && key !in Last(run).dir.links
    requires user in Last(run).dir.users && Last(run).dir.users[user] != ""
    requires !cfg.autoLink || user in Last(run).dir.passwords
    ensures EndsWith(cfg, run, longer, p, Failed, Last(run).dir)
  {
    var s := Last(run);
    var email := s.dir.users[user];
    assert Taken(s.dir, email);
    longer := Starting(cfg, run, p, Looking(key, email, true));
    longer := Reading(cfg, longer, s, p, Looking(key, email, true), user, Seeking(key, email));
    longer := Reading(cfg, longer, s, p, Seeking(key, email), user, Vetting(key, user));
    longer := Reading(cfg, longer, s, p, Vetting(key, user), user, Failed);
  }

  /** A callback that created a user and lost the race for its account takes the user back, if
      nobody has linked it, and returns the winner's; as created if that is its own. */
  lemma LoserReturnsTheWinner(cfg: Config, run: seq<State>, p: nat, key: Key, user: string) returns (longer: seq<State>)
    requires Run(cfg, run) && p in Last(run).procs && Last(run).procs[p] == Linking(key, user, true)
    requires key in Last(run).dir.links && user in Last(run).dir.users
    ensures var dir := Last(run).dir;
            if IsLinked(dir, user)
            then EndsWith(cfg, run, longer, p,
                          Finished(key, dir.links[key], if dir.links[key] == user then Created else Existing), dir)
            else EndsWith(cfg, run, longer, p, Finished(key, dir.links[key], Existing),
                          dir.(users := dir.users - {user}, passwords := dir.passwords - {user}))
  {
    var s := Last(run);
    StoredFacts(cfg, run, |run| - 1);
    longer := Acting(cfg, run, p, "");
    assert Last(longer) == Move(s, p, Checking(key, user, true));
    longer := RollsBack(cfg, longer, s, p, key, user, true);
    var left := if IsLinked(s.dir, user) then s.dir else Erase(s.dir, user);
    assert left.links == s.dir.links;
    longer := ReturnsTheWinner(cfg, longer, s.(dir := left), p, key, user);
  }

  lemma ReturnsTheWinner(cfg: Config, run: seq<State>, s: State, p: nat, key: Key, user: string)
    returns (longer: seq<State>)
    requires Run(cfg, run) && Last(run) == Move(s, p, Relooking(key, user, true))
    requires key in s.dir.links && s.dir.links[key] in s.dir.users
    ensures EndsWith(cfg, run, longer, p,
                     Finished(key, s.dir.links[key], if s.dir.links[key] == user then Created else Existing), s.dir)
  {
    var winner := s.dir.links[key];
    longer := Reading(cfg, run, s, p, Relooking(key, user, true), "", Reloading(key, winner, user, true));
    longer := Reading(cfg, longer, s, p, Reloading(key, winner, user, true), "",
                      Finished(key, winner, if winner == user then Created else Existing));
  }

  /** discardUnlinkedUser by itself: the user goes exactly if nothing links it. */
  lemma RollsBack(cfg: Config, run: seq<State>, s: State, p: nat, key: Key, user: string, taken: bool)
    returns (longer: seq<State>)
    requires Run(cfg, run) && Last(run) == Move(s, p, Checking(key, user, taken))
    ensures Run(cfg, longer) && run <= longer
    ensures Last(longer) == Move(s.(dir := if IsLinked(s.dir, user) then s.dir else Erase(s.dir, user)), p,
                                 Resume(key, user, taken))
  {
    longer := Acting(cfg, run, p, "");
    if !IsLinked(s.dir, user) && !cfg.atomic {
      assert Last(longer) == Move(s, p, Deleting(key, user, taken));
      longer := Acting(cfg, longer, p, "");
    }
  }

  /** A link that fails in storage costs the callback the user it created, unless another has
      linked it. */
  lemma FailedLinkIsRolledBack(cfg: Config, run: seq<State>, p: nat, key: Key, user: string) returns (longer: seq<State>)
    requires Run(cfg, run) && p in Last(run).procs && Last(run).procs[p] == Linking(key, user, true)
    ensures var dir := Last(run).dir;
            EndsWith(cfg, run, longer, p, Failed,
                     if IsLinked(dir, user) then dir
                     else dir.(users := dir.users - {user}, passwords := dir.passwords - {user}))
  {
    var s := Last(run);
    longer := Breaking(cfg, run, p);
    assert Last(longer) == Move(s, p, Checking(key, user, false));
    longer := RollsBack(cfg, longer, s, p, key, user, false);
    assert !IsLinked(s.dir, user) ==> Erase(s.dir, user).links == s.dir.links;
  }

  /** A registration with a taken email is refused. */
  lemma TakenEmailCannotRegister(cfg: Config, run: seq<State>, p: nat, email: string) returns (longer: seq<State>)
    requires Run(cfg, run) && p !in Last(run).procs && email != "" && Taken(Last(run).dir, email)
    ensures EndsWith(cfg, run, longer, p, Failed, Last(run).dir)
  {
    longer := Starting(cfg, run, p, Asking(email));
    longer := Reading(cfg, longer, Last(run), p, Asking(email), "", Failed);
  }

  lemma Enrolls(cfg: Config, run: seq<State>, p: nat, email: string, id: string) returns (longer: seq<State>)
    requires Run(cfg, run) && p !in Last(run).procs && email != "" && !Taken(Last(run).dir, email) && id !in Last(run).ids
    ensures Run(cfg, longer) && run <= longer && p in Last(longer).procs && Last(longer).procs[p] == Securing(id)
    ensures Last(longer).dir == Last(run).dir.(users := Last(run).dir.users[id := email])
  {
    longer := Starting(cfg, run, p, Asking(email));
    longer := Reading(cfg, longer, Last(run), p, Asking(email), "", Enrolling(email));
    longer := Acting(cfg, longer, p, id);
  }

  /** With a free one it stores the user and its password. */
  lemma FreeEmailCanRegister(cfg: Config, run: seq<State>, p: nat, email: string, id: string) returns (longer: seq<State>)
    requires Run(cfg, run) && p !in Last(run).procs && email != "" && !Taken(Last(run).dir, email) && id !in Last(run).ids
    ensures var dir := Last(run).dir;
            EndsWith(cfg, run, longer, p, Registered(id),
                     dir.(users := dir.users[id := email], passwords := dir.passwords + {id}))
  {
    longer := Enrolls(cfg, run, p, email, id);
    longer := Acting(cfg, longer, p, "");
  }

  /** And if the password is not saved it takes the user back. */
  lemma FailedRegistrationIsUndone(cfg: Config, run: seq<State>, p: nat, email: string, id: string)
    returns (longer: seq<State>)
    requires Run(cfg, run) && p !in Last(run).procs && email != "" && !Taken(Last(run).dir, email) && id !in Last(run).ids
    ensures EndsWith(cfg, run, longer, p, Failed, Last(run).dir.(passwords := Last(run).dir.passwords - {id}))
  {
    var dir := Last(run).dir;
    StoredFacts(cfg, run, |run| - 1);
    longer := Enrolls(cfg, run, p, email, id);
    longer := Breaking(cfg, longer, p);
    longer := Acting(cfg, longer, p, "");
    assert dir.users[id := email] - {id} == dir.users;
    assert Last(longer).dir.links == dir.links;
  }
}
