/** resolveOAuthUser of auth/oauth.go with findOrCreateUser and discardUnlinkedUser, racing with
    each other and with password registrations (provider/local): concurrent requests find,
    create, link and take back users. With `atomic`, the check and the delete of
    discardUnlinkedUser are one step; without it they are two, as in the code. Any store call may
    fail, and a request may stop anywhere. */
module OAuthSignIn {
  import opened Entities

  type Key = (string, string)     // provider and external id

  /** How callbacks roll back, and whether one may attach to an account found by its email. */
  datatype Config = Config(atomic: bool, autoLink: bool)

  datatype Origin = Existing | Created | Linked

  datatype Pc =
    | Looking(key: Key, email: string, verified: bool)        // the provider's word; "" is no valid email
    | Loading(key: Key, user: string)
    | Seeking(key: Key, email: string)                        // GetByEmail of findOrCreateUser
    | Creating(key: Key, email: string)
    | Reseeking(key: Key, email: string)                      // lost the race to create
    | Vetting(key: Key, user: string)                         // checkAutoLink
    | Linking(key: Key, user: string, isNew: bool)
    | Checking(key: Key, user: string, taken: bool)           // discardUnlinkedUser, before its check
    | Deleting(key: Key, user: string, taken: bool)           // no links seen; before its delete
    | Relooking(key: Key, user: string, isNew: bool)
    | Reloading(key: Key, winner: string, user: string, isNew: bool)
    | Finished(key: Key, user: string, origin: Origin)
    | Asking(email: string)                                   // a registration, before its GetByEmail
    | Enrolling(email: string)                                // before its Create
    | Securing(user: string)                                  // before its SavePasswordHash
    | Undoing(user: string)                                   // that failed; before its Delete
    | Registered(user: string)
    | Failed                                                  // refused, or a call failed

  /** What the stores hold. */
  datatype Directory = Directory(users: map<string, string>, links: map<Key, string>, passwords: set<string>)

  /** `created` remembers which user a request created; `ids` is every id ever used. */
  datatype State = State(dir: Directory, ids: set<string>, procs: map<nat, Pc>, created: map<nat, string>)

  datatype Step =
    | Spawn(p: nat, pc: Pc)
    | Act(p: nat, id: string)                     // the call succeeds; `id` is the user found or the fresh id
    | Break(p: nat)                               // the call fails
    | Stop(p: nat)                                // the request is lost

  predicate Starts(pc: Pc) {
    pc.Looking? || (pc.Asking? && pc.email != "")
  }

  predicate Init(s: State) {
    && s.procs == map[] && s.created == map[] && s.dir.users.Keys <= s.ids
    && forall k :: k in s.dir.links ==> s.dir.links[k] in s.dir.users
  }

  predicate Taken(dir: Directory, email: string) {
    exists id :: id in dir.users && dir.users[id] == email
  }

  predicate IsLinked(dir: Directory, user: string) {
    exists k :: k in dir.links && dir.links[k] == user
  }

  /** Deleting a user takes its identity links with it. */
  function Erase(dir: Directory, user: string): Directory {
    Directory(
      dir.users - {user}, map k | k in dir.links && dir.links[k] != user :: dir.links[k], dir.passwords - {user})
  }

  /** After the rollback: look again if another sign-in linked the account first, else give up. */
  function Resume(key: Key, user: string, taken: bool): Pc {
    if taken then Relooking(key, user, true) else Failed
  }

  predicate Creates(dir: Directory, pc: Pc) {
    (pc.Creating? || pc.Enrolling?) && !Taken(dir, pc.email)
  }

  predicate Erases(cfg: Config, dir: Directory, pc: Pc) {
    pc.Deleting? || pc.Undoing? || (cfg.atomic && pc.Checking? && !IsLinked(dir, pc.user))
  }

  /** What the call of one position writes. */
  function NextDir(cfg: Config, dir: Directory, pc: Pc, id: string): Directory {
    if Creates(dir, pc) then dir.(users := dir.users[id := pc.email])
    else if Erases(cfg, dir, pc) then Erase(dir, pc.user)
    else if pc.Linking? && pc.user in dir.users && pc.key !in dir.links then dir.(links := dir.links[pc.key := pc.user])
    else if pc.Securing? && pc.user in dir.users then dir.(passwords := dir.passwords + {pc.user})
    else dir
  }

  /** Where its answer leads. */
  function NextPc(cfg: Config, dir: Directory, pc: Pc, id: string): Pc {
    match pc
    case Looking(key, email, verified) =>
      if key in dir.links then Loading(key, dir.links[key])
      else if email == "" || !verified then Failed
      else Seeking(key, email)
    case Loading(key, user) => if user in dir.users then Finished(key, user, Existing) else Failed
    case Seeking(key, email) => if Taken(dir, email) then Vetting(key, id) else Creating(key, email)
    case Creating(key, email) => if Taken(dir, email) then Reseeking(key, email) else Linking(key, id, true)
    case Reseeking(key, email) => if Taken(dir, email) then Vetting(key, id) else Failed
    case Vetting(key, user) => if cfg.autoLink && user !in dir.passwords then Linking(key, user, false) else Failed
    case Linking(key, user, isNew) =>
      if user !in dir.users then (if isNew then Checking(key, user, false) else Failed)
      else if key in dir.links then (if isNew then Checking(key, user, true) else Relooking(key, user, false))
      else Finished(key, user, if isNew then Created else Linked)
    case Checking(key, user, taken) =>
      if IsLinked(dir, user) || cfg.atomic then Resume(key, user, taken) else Deleting(key, user, taken)
    case Deleting(key, user, taken) => Resume(key, user, taken)
    case Relooking(key, user, isNew) => if key in dir.links then Reloading(key, dir.links[key], user, isNew) else Failed
    case Reloading(key, winner, user, isNew) =>
      if winner in dir.users then Finished(key, winner, if isNew && winner == user then Created else Existing) else Failed
    case Asking(email) => if Taken(dir, email) then Failed else Enrolling(email)
    case Enrolling(email) => if Taken(dir, email) then Failed else Securing(id)
    case Securing(user) => if user in dir.users then Registered(user) else Undoing(user)
    case Undoing(_) => Failed
    case Finished(_, _, _) => pc
    case Registered(_) => pc
    case Failed => pc
  }

  /** A failed link is rolled back, and so is a registration whose password was not saved; a
      failed check or delete leaves the user behind. */
  function Broken(pc: Pc): Pc {
    match pc
    case Linking(key, user, isNew) => if isNew then Checking(key, user, false) else Failed
    case Checking(key, user, taken) => Resume(key, user, taken)
    case Deleting(key, user, taken) => Resume(key, user, taken)
    case Securing(user) => Undoing(user)
    case Finished(_, _, _) => pc
    case Registered(_) => pc
    case _ => Failed
  }

  /** A lookup by email finds a user with that email; a new id is new. */
  predicate IdOk(s: State, pc: Pc, id: string) {
    && (pc.Creating? || pc.Enrolling? ==> id !in s.ids)
    && ((pc.Seeking? || pc.Reseeking?) && Taken(s.dir, pc.email) ==> id in s.dir.users && s.dir.users[id] == pc.email)
  }

  function Move(s: State, p: nat, pc: Pc): State {
    s.(procs := s.procs[p := pc])
  }

  function Acted(cfg: Config, s: State, p: nat, id: string): State
    requires p in s.procs
  {
    var pc := s.procs[p];
    State(NextDir(cfg, s.dir, pc, id),
          if Creates(s.dir, pc) then s.ids + {id} else s.ids,
          s.procs[p := NextPc(cfg, s.dir, pc, id)],
          if Creates(s.dir, pc) then s.created[p := id] else s.created)
  }

  predicate Ended(pc: Pc) {
    pc.Finished? || pc.Registered? || pc.Failed?
  }

  ghost predicate NextStep(cfg: Config, s: State, s': State, step: Step) {
    match step
    case Spawn(p, pc) => p !in s.procs && Starts(pc) && s' == Move(s, p, pc)
    case Act(p, id) => p in s.procs && IdOk(s, s.procs[p], id) && s' == Acted(cfg, s, p, id)
    case Break(p) => p in s.procs && s' == Move(s, p, Broken(s.procs[p]))
    case Stop(p) => p in s.procs && !Ended(s.procs[p]) && s' == Move(s, p, Failed)
  }

  ghost predicate Next(cfg: Config, s: State, s': State) {
    exists step :: NextStep(cfg, s, s', step)
  }

  ghost predicate Run(cfg: Config, run: seq<State>) {
    && |run| > 0 && Init(run[0])
    && forall i, j :: 0 <= i && j == i + 1 && j < |run| ==> Next(cfg, run[i], run[j])
  }

  /** The same without storage failures and lost requests. */
  ghost predicate Smooth(step: Step) {
    !step.Break? && !step.Stop?
  }

  ghost predicate SmoothNext(cfg: Config, s: State, s': State) {
    exists step :: Smooth(step) && NextStep(cfg, s, s', step)
  }

  ghost predicate SmoothRun(cfg: Config, run: seq<State>) {
    && |run| > 0 && Init(run[0])
    && forall i, j :: 0 <= i && j == i + 1 && j < |run| ==> SmoothNext(cfg, run[i], run[j])
  }

  // ----- the inductive invariant -----

  function MadeBy(s: State, p: nat): Option<string> {
    if p in s.created then Some(s.created[p]) else None
  }

  /** A request's position against the user it has created, if any. */
  predicate PcOk(made: Option<string>, pc: Pc) {
    match pc
    case Linking(_, user, isNew) => made == if isNew then Some(user) else None
    case Checking(_, user, _) => made == Some(user)
    case Deleting(_, user, _) => made == Some(user)
    case Relooking(_, user, isNew) => made == if isNew then Some(user) else None
    case Reloading(_, _, user, isNew) => made == if isNew then Some(user) else None
    case Finished(_, user, origin) => (origin == Created <==> made == Some(user)) && (origin == Linked ==> made == None)
    case Securing(user) => made == Some(user)
    case Undoing(user) => made == Some(user)
    case Registered(user) => made == Some(user)
    case Failed => true
    case _ => made == None
  }

  ghost predicate DirOk(dir: Directory, ids: set<string>) {
    dir.users.Keys <= ids && forall k :: k in dir.links ==> dir.links[k] in dir.users
  }

  ghost predicate Inv(s: State) {
    && DirOk(s.dir, s.ids)
    && (forall p :: p in s.created ==> p in s.procs && s.created[p] in s.ids)
    && (forall p, q :: p in s.created && q in s.created && s.created[p] == s.created[q] ==> p == q)
    && (forall p :: p in s.procs ==> PcOk(MadeBy(s, p), s.procs[p]))
  }

  lemma PcStays(cfg: Config, dir: Directory, made: Option<string>, pc: Pc, id: string)
    requires PcOk(made, pc)
    ensures PcOk(if Creates(dir, pc) then Some(id) else made, NextPc(cfg, dir, pc, id))
    ensures PcOk(made, Broken(pc))
  {
  }

  lemma DirStays(cfg: Config, dir: Directory, ids: set<string>, pc: Pc, id: string)
    requires DirOk(dir, ids)
    ensures DirOk(NextDir(cfg, dir, pc, id), if Creates(dir, pc) then ids + {id} else ids)
  {
  }

  lemma InvStep(cfg: Config, s: State, s': State, step: Step)
    requires Inv(s) && NextStep(cfg, s, s', step)
    ensures Inv(s')
  {
    if step.Act? {
      var pc := s.procs[step.p];
      PcStays(cfg, s.dir, MadeBy(s, step.p), pc, step.id);
      DirStays(cfg, s.dir, s.ids, pc, step.id);
    } else if step.Break? {
      PcStays(cfg, s.dir, MadeBy(s, step.p), s.procs[step.p], "");
    }
    forall q | q in s'.procs
      ensures PcOk(MadeBy(s', q), s'.procs[q])
    {
      assert q in s.procs ==> PcOk(MadeBy(s, q), s.procs[q]);
    }
  }

  lemma {:induction false} InvAlways(cfg: Config, run: seq<State>, i: nat)
    requires Run(cfg, run) && i < |run|
    ensures Inv(run[i])
  {
    if i > 0 {
      InvAlways(cfg, run, i - 1);
      assert Next(cfg, run[i - 1], run[i]);
      var step :| NextStep(cfg, run[i - 1], run[i], step);
      InvStep(cfg, run[i - 1], run[i], step);
    }
  }

  // ----- theorems -----

  /** Still holding the user it created, with the link, the password or the rollback ahead. */
  predicate Holding(pc: Pc) {
    (pc.Linking? && pc.isNew) || pc.Checking? || pc.Deleting? || pc.Securing? || pc.Undoing?
  }

  /** The user a request created can sign in, or is gone. */
  ghost predicate Settled(s: State, p: nat)
    requires p in s.created && p in s.procs
  {
    || Holding(s.procs[p])
    || s.created[p] !in s.dir.users
    || (if s.procs[p].Registered? then s.created[p] in s.dir.passwords else IsLinked(s.dir, s.created[p]))
  }

  /** What a call takes away belongs to one user: the one its own request created. */
  lemma OnlyRollbacksErase(cfg: Config, dir: Directory, pc: Pc, id: string)
    ensures var dir' := NextDir(cfg, dir, pc, id);
            && (forall k :: k in dir.links && k !in dir'.links ==> Erases(cfg, dir, pc) && dir.links[k] == pc.user)
            && (forall k :: k in dir.links && k in dir'.links ==> dir'.links[k] == dir.links[k])
            && (forall u :: u in dir'.users && u !in dir.users ==> Creates(dir, pc) && u == id)
            && (forall u :: u in dir.passwords && u !in dir'.passwords ==> Erases(cfg, dir, pc) && u == pc.user)
  {
  }

  lemma SettledStep(cfg: Config, s: State, s': State, step: Step, p: nat)
    requires Inv(s) && Smooth(step) && NextStep(cfg, s, s', step)
    requires p in s.created && Settled(s, p)
    ensures p in s'.created && p in s'.procs && Settled(s', p)
  {
    if step.Act? && step.p == p {
      ActorSettles(cfg, s, s', p, step.id);
    } else if step.Act? {
      assert PcOk(MadeBy(s, step.p), s.procs[step.p]);
      OnlyRollbacksErase(cfg, s.dir, s.procs[step.p], step.id);
      if IsLinked(s.dir, s.created[p]) {
        var k :| k in s.dir.links && s.dir.links[k] == s.created[p];
        assert k in s'.dir.links;
      }
    }
  }

  lemma ActorSettles(cfg: Config, s: State, s': State, p: nat, id: string)
    requires Inv(s) && NextStep(cfg, s, s', Act(p, id)) && p in s.created && Settled(s, p)
    ensures p in s'.created && Settled(s', p)
  {
    var pc := s.procs[p];
    assert PcOk(MadeBy(s, p), pc);
    if pc.Linking? && s'.procs[p].Finished? {
      assert pc.key in s'.dir.links && s'.dir.links[pc.key] == pc.user;
    }
  }

  lemma {:induction false} SettledAlways(cfg: Config, run: seq<State>, i: nat)
    requires SmoothRun(cfg, run) && i < |run|
    ensures Inv(run[i])
    ensures forall p :: p in run[i].created ==> p in run[i].procs && Settled(run[i], p)
  {
    if i > 0 {
      SettledAlways(cfg, run, i - 1);
      assert SmoothNext(cfg, run[i - 1], run[i]);
      var step :| Smooth(step) && NextStep(cfg, run[i - 1], run[i], step);
      InvStep(cfg, run[i - 1], run[i], step);
      forall p | p in run[i].created
        ensures p in run[i].procs && Settled(run[i], p)
      {
        if p in run[i - 1].created { SettledStep(cfg, run[i - 1], run[i], step, p); }
      }
    }
  }

  /** Without storage failures, the user an ended request created is gone or can sign in: after a
      callback it has an identity, after a registration its password. None is left holding its
      email with no way in. */
  lemma NoUserIsStranded(cfg: Config, run: seq<State>, i: nat, p: nat)
    requires SmoothRun(cfg, run) && i < |run| && p in run[i].created && p in run[i].procs && Ended(run[i].procs[p])
    ensures run[i].created[p] !in run[i].dir.users
            || (if run[i].procs[p].Registered? then run[i].created[p] in run[i].dir.passwords
                else IsLinked(run[i].dir, run[i].created[p]))
  {
    SettledAlways(cfg, run, i);
  }

  /** A finished sign-in reports its user as created exactly when it created that user itself,
      also when another callback linked it first; so at most one sign-in does. */
  lemma CreatedIsReportedByCreator(cfg: Config, run: seq<State>, i: nat, p: nat, q: nat)
    requires Run(cfg, run) && i < |run| && p in run[i].procs && q in run[i].procs
    requires run[i].procs[p].Finished? && run[i].procs[q].Finished? && run[i].procs[p].user == run[i].procs[q].user
    ensures run[i].procs[p].origin == Created <==> p in run[i].created && run[i].created[p] == run[i].procs[p].user
    ensures run[i].procs[p].origin == Created && run[i].procs[q].origin == Created ==> p == q
  {
    InvAlways(cfg, run, i);
    assert PcOk(MadeBy(run[i], p), run[i].procs[p]) && PcOk(MadeBy(run[i], q), run[i].procs[q]);
  }

  // ----- when links are lost -----

  predicate Loses(s: State, s': State) {
    exists k :: k in s.dir.links && k !in s'.dir.links
  }

  /** A link to this user is saved by the step from s to s'. */
  predicate Lands(s: State, s': State, user: string) {
    !IsLinked(s.dir, user) && IsLinked(s'.dir, user)
  }

  predicate LandsAt(run: seq<State>, n: int, user: string) {
    0 <= n < |run| - 1 && Lands(run[n], run[n + 1], user)
  }

  predicate LandsWithin(run: seq<State>, c: nat, m: nat, user: string)
    requires m < |run|
  {
    exists n :: c <= n < m && LandsAt(run, n, user)
  }

  predicate Goes(run: seq<State>, m: nat, user: string)
    requires m + 1 < |run|
  {
    user in run[m].dir.users && user !in run[m + 1].dir.users
  }

  /** From state c, where its check has just seen no link, to state m, callback p is about to
      delete `user`. */
  predicate RollbackWindow(run: seq<State>, c: nat, m: nat, p: nat, user: string)
    requires m < |run|
  {
    && 0 < c <= m
    && p in run[c - 1].procs && run[c - 1].procs[p].Checking?
    && (forall x :: c <= x <= m ==> p in run[x].procs && run[x].procs[p].Deleting? && run[x].procs[p].user == user)
  }

  /** Registration p has created `user` and has not saved its password. */
  predicate Enrolled(pc: Pc, user: string) {
    (pc.Securing? || pc.Undoing?) && pc.user == user
  }

  /** From state c, where it has just created `user`, to state m, where it is about to delete it
      again, registration p has not saved the password. */
  predicate UndoWindow(run: seq<State>, c: nat, m: nat, p: nat, user: string)
    requires m < |run|
  {
    && 0 < c <= m
    && p in run[c - 1].procs && run[c - 1].procs[p].Enrolling?
    && (forall x :: c <= x <= m ==> p in run[x].procs && Enrolled(run[x].procs[p], user))
    && run[m].procs[p].Undoing?
  }

  /** The step from state m is the delete of a callback's rollback in whose window a link landed. */
  ghost predicate RollbackHit(run: seq<State>, m: nat, user: string)
    requires m + 1 < |run|
  {
    Goes(run, m, user) && exists c, p :: RollbackWindow(run, c, m, p, user) && LandsWithin(run, c, m, user)
  }

  /** The step from state m is the delete of a failed registration in whose window a link landed. */
  ghost predicate UndoHit(run: seq<State>, m: nat, user: string)
    requires m + 1 < |run|
  {
    Goes(run, m, user) && exists c, p :: UndoWindow(run, c, m, p, user) && LandsWithin(run, c, m, user)
  }

  ghost predicate Hit(run: seq<State>, m: nat, user: string)
    requires m + 1 < |run|
  {
    RollbackHit(run, m, user) || UndoHit(run, m, user)
  }

  /** Users go only by rollbacks and undone registrations. */
  lemma ErasedByRollback(cfg: Config, s: State, s': State, step: Step, user: string)
    requires NextStep(cfg, s, s', step) && user in s.dir.users && user !in s'.dir.users
    ensures step.Act? && Erases(cfg, s.dir, s.procs[step.p]) && s.procs[step.p].user == user
  {
  }

  /** What one step can do to request p. */
  lemma MovesOf(cfg: Config, s: State, s': State, p: nat) returns (id: string)
    requires Next(cfg, s, s') && p in s'.procs
    ensures p !in s.procs ==> Starts(s'.procs[p])
    ensures p in s.procs ==>
              || s'.procs[p] == s.procs[p] || s'.procs[p] == Broken(s.procs[p]) || s'.procs[p] == Failed
              || (IdOk(s, s.procs[p], id) && s'.dir == NextDir(cfg, s.dir, s.procs[p], id)
                  && s'.procs[p] == NextPc(cfg, s.dir, s.procs[p], id))
  {
    var step :| NextStep(cfg, s, s', step);
    id := if step.Act? then step.id else "";
  }

  lemma DeletingFollowsCheck(cfg: Config, s: State, s': State, p: nat)
    requires Next(cfg, s, s') && p in s'.procs && s'.procs[p].Deleting?
    ensures p in s.procs && (s.procs[p] == s'.procs[p] || s.procs[p].Checking?)
    ensures s.procs[p].Checking? ==> !cfg.atomic && !IsLinked(s'.dir, s'.procs[p].user)
  {
    var id := MovesOf(cfg, s, s', p);
  }

  /** Every pending delete had its check, which saw no link. */
  lemma {:induction false} CheckBeforeDelete(cfg: Config, run: seq<State>, m: nat, p: nat) returns (c: nat)
    requires Run(cfg, run) && m < |run| && p in run[m].procs && run[m].procs[p].Deleting?
    ensures RollbackWindow(run, c, m, p, run[m].procs[p].user) && !IsLinked(run[c].dir, run[m].procs[p].user)
    ensures !cfg.atomic
  {
    assert m > 0 && Next(cfg, run[m - 1], run[m]);
    DeletingFollowsCheck(cfg, run[m - 1], run[m], p);
    if run[m - 1].procs[p].Deleting? {
      c := CheckBeforeDelete(cfg, run, m - 1, p);
    } else {
      c := m;
    }
  }

  lemma EnrolledFollowsCreate(cfg: Config, s: State, s': State, p: nat, user: string)
    requires DirOk(s.dir, s.ids) && Next(cfg, s, s') && p in s'.procs && Enrolled(s'.procs[p], user)
    ensures p in s.procs && (Enrolled(s.procs[p], user) || s.procs[p].Enrolling?)
    ensures s.procs[p].Enrolling? ==> !IsLinked(s'.dir, user)
  {
    var id := MovesOf(cfg, s, s', p);
    if s.procs[p].Enrolling? {
      assert user == id && user !in s.dir.users && s'.dir.links == s.dir.links;
    }
  }

  /** Every registration without its password began with a create, of a user without links. */
  lemma {:induction false} CreateBeforeUndo(cfg: Config, run: seq<State>, m: nat, p: nat, user: string)
    returns (c: nat)
    requires Run(cfg, run) && m < |run| && p in run[m].procs && Enrolled(run[m].procs[p], user)
    ensures 0 < c <= m && p in run[c - 1].procs && run[c - 1].procs[p].Enrolling? && !IsLinked(run[c].dir, user)
    ensures forall x :: c <= x <= m ==> p in run[x].procs && Enrolled(run[x].procs[p], user)
  {
    assert m > 0 && Next(cfg, run[m - 1], run[m]);
    StoredFacts(cfg, run, m - 1);
    EnrolledFollowsCreate(cfg, run[m - 1], run[m], p, user);
    if run[m - 1].procs[p].Enrolling? {
      c := m;
    } else {
      c := CreateBeforeUndo(cfg, run, m - 1, p, user);
    }
  }

  lemma {:induction false} SomeStepLands(run: seq<State>, i: nat, j: nat, user: string) returns (m: nat)
    requires i <= j < |run| && !IsLinked(run[i].dir, user) && IsLinked(run[j].dir, user)
    ensures i <= m < j && LandsAt(run, m, user)
    decreases j - i
  {
    if IsLinked(run[i + 1].dir, user) {
      m := i;
    } else {
      m := SomeStepLands(run, i + 1, j, user);
    }
  }

  lemma LinkStays(cfg: Config, s: State, s': State, k: Key)
    requires Next(cfg, s, s') && k in s.dir.links && s.dir.links[k] in s.dir.users && s.dir.links[k] in s'.dir.users
    ensures k in s'.dir.links && s'.dir.links[k] == s.dir.links[k]
  {
    var step :| NextStep(cfg, s, s', step);
    if step.Act? { OnlyRollbacksErase(cfg, s.dir, s.procs[step.p], step.id); }
  }

  /** A link goes only with its user. */
  lemma {:induction false} LinkLastsWithUser(cfg: Config, run: seq<State>, i: nat, j: nat, k: Key)
    requires Run(cfg, run) && i <= j < |run| && k in run[i].dir.links
    requires forall x :: i <= x <= j ==> run[i].dir.links[k] in run[x].dir.users
    ensures k in run[j].dir.links && run[j].dir.links[k] == run[i].dir.links[k]
    decreases j
  {
    if i < j {
      LinkLastsWithUser(cfg, run, i, j - 1, k);
      assert Next(cfg, run[j - 1], run[j]);
      LinkStays(cfg, run[j - 1], run[j], k);
    }
  }

  /** A deleted user never comes back. */
  lemma {:induction false} GoneForGood(cfg: Config, run: seq<State>, i: nat, j: nat, user: string)
    requires Run(cfg, run) && i <= j < |run| && user in run[i].ids && user !in run[i].dir.users
    ensures user in run[j].ids && user !in run[j].dir.users
    decreases j
  {
    if i < j {
      GoneForGood(cfg, run, i, j - 1, user);
      assert Next(cfg, run[j - 1], run[j]);
      var step :| NextStep(cfg, run[j - 1], run[j], step);
    }
  }

  /** Stored users have used ids, and links name stored users. */
  lemma StoredFacts(cfg: Config, run: seq<State>, i: nat)
    requires Run(cfg, run) && i < |run|
    ensures run[i].dir.users.Keys <= run[i].ids
    ensures forall k :: k in run[i].dir.links ==> run[i].dir.links[k] in run[i].dir.users
  {
    InvAlways(cfg, run, i);
  }

  /** Deleting a linked user means that a link landed in one of the windows. */
  lemma LinkedUserGoesByHit(cfg: Config, run: seq<State>, m: nat, user: string)
    requires Run(cfg, run) && m + 1 < |run| && IsLinked(run[m].dir, user) && Goes(run, m, user)
    ensures Hit(run, m, user)
  {
    assert Next(cfg, run[m], run[m + 1]);
    var step :| NextStep(cfg, run[m], run[m + 1], step);
    ErasedByRollback(cfg, run[m], run[m + 1], step, user);
    if run[m].procs[step.p].Undoing? {
      LinkMetByUndo(cfg, run, m, step.p, user);
    } else {
      LinkMetByRollback(cfg, run, m, step.p, user);
    }
  }

  lemma LinkMetByRollback(cfg: Config, run: seq<State>, m: nat, p: nat, user: string)
    requires Run(cfg, run) && m + 1 < |run| && IsLinked(run[m].dir, user) && Goes(run, m, user)
    requires p in run[m].procs && run[m].procs[p].Deleting? && run[m].procs[p].user == user
    ensures RollbackHit(run, m, user)
  {
    var c := CheckBeforeDelete(cfg, run, m, p);
    var n := SomeStepLands(run, c, m, user);
    assert LandsWithin(run, c, m, user);
  }

  lemma LinkMetByUndo(cfg: Config, run: seq<State>, m: nat, p: nat, user: string)
    requires Run(cfg, run) && m + 1 < |run| && IsLinked(run[m].dir, user) && Goes(run, m, user)
    requires p in run[m].procs && run[m].procs[p] == Undoing(user)
    ensures UndoHit(run, m, user)
  {
    var c := CreateBeforeUndo(cfg, run, m, p, user);
    var n := SomeStepLands(run, c, m, user);
    assert UndoWindow(run, c, m, p, user) && LandsWithin(run, c, m, user);
  }

  /** A user linked in such a window is still linked when the delete runs. */
  lemma HitLosesALink(cfg: Config, run: seq<State>, m: nat, user: string)
    requires Run(cfg, run) && m + 1 < |run| && Hit(run, m, user)
    ensures Loses(run[m], run[m + 1])
  {
    if RollbackHit(run, m, user) {
      var c, p :| RollbackWindow(run, c, m, p, user) && LandsWithin(run, c, m, user);
      LandingIsLost(cfg, run, c, m, user);
    } else {
      var c, p :| UndoWindow(run, c, m, p, user) && LandsWithin(run, c, m, user);
      LandingIsLost(cfg, run, c, m, user);
    }
  }

  lemma LandingIsLost(cfg: Config, run: seq<State>, c: nat, m: nat, user: string)
    requires Run(cfg, run) && m + 1 < |run| && LandsWithin(run, c, m, user) && Goes(run, m, user)
    ensures Loses(run[m], run[m + 1])
  {
    var n, k := LandedLink(run, c, m, user);
    LinkGoesWithUser(cfg, run, n, m, k);
  }

  lemma LandedLink(run: seq<State>, c: nat, m: nat, user: string) returns (n: nat, k: Key)
    requires m < |run| && LandsWithin(run, c, m, user)
    ensures c < n <= m && k in run[n].dir.links && run[n].dir.links[k] == user
  {
    var before: nat :| c <= before < m && LandsAt(run, before, user);
    n := before + 1;
    k := SomeLink(run[n].dir, user);
  }

  lemma SomeLink(dir: Directory, user: string) returns (k: Key)
    requires IsLinked(dir, user)
    ensures k in dir.links && dir.links[k] == user
  {
    k :| k in dir.links && dir.links[k] == user;
  }

  lemma LinkGoesWithUser(cfg: Config, run: seq<State>, i: nat, m: nat, k: Key)
    requires Run(cfg, run) && i <= m && m + 1 < |run| && k in run[i].dir.links
    requires run[i].dir.links[k] in run[m].dir.users && run[i].dir.links[k] !in run[m + 1].dir.users
    ensures Loses(run[m], run[m + 1])
  {
    var user := run[i].dir.links[k];
    StoredFacts(cfg, run, i);
    StoredThroughout(cfg, run, i, m, user);
    LinkLastsWithUser(cfg, run, i, m, k);
    assert Next(cfg, run[m], run[m + 1]);
    var step :| NextStep(cfg, run[m], run[m + 1], step);
    ErasedByRollback(cfg, run[m], run[m + 1], step, user);
    assert k !in run[m + 1].dir.links;
  }

  /** Exactly when links are lost: in every run of the code as it is, storage failures and lost
      requests included, a step removes an identity link if and only if it deletes a user to which
      a link landed in a window: between the check and the delete of a callback's rollback, or
      between the create and the delete of a registration whose password was not saved. */
  lemma LinksAreLostExactlyInTheWindows(cfg: Config, run: seq<State>, m: nat)
    requires Run(cfg, run) && m + 1 < |run|
    ensures Loses(run[m], run[m + 1]) <==> exists user :: Hit(run, m, user)
    ensures forall k :: k in run[m].dir.links && k in run[m + 1].dir.links ==>
              run[m + 1].dir.links[k] == run[m].dir.links[k]
  {
    assert Next(cfg, run[m], run[m + 1]);
    var step :| NextStep(cfg, run[m], run[m + 1], step);
    StoredFacts(cfg, run, m);
    if step.Act? {
      OnlyRollbacksErase(cfg, run[m].dir, run[m].procs[step.p], step.id);
    }
    if k :| k in run[m].dir.links && k !in run[m + 1].dir.links {
      var user := run[m].dir.links[k];
      assert IsLinked(run[m].dir, user) && Goes(run, m, user);
      LinkedUserGoesByHit(cfg, run, m, user);
    }
    if user :| Hit(run, m, user) {
      HitLosesALink(cfg, run, m, user);
    }
  }

  /** With the check and the delete as one step a callback's rollback has no window. */
  lemma NoWindowInOneStep(cfg: Config, run: seq<State>, m: nat, user: string)
    requires Run(cfg, run) && cfg.atomic && m + 1 < |run|
    ensures !RollbackHit(run, m, user)
  {
    if RollbackHit(run, m, user) {
      var c, p :| RollbackWindow(run, c, m, p, user) && LandsWithin(run, c, m, user);
      var check := CheckBeforeDelete(cfg, run, m, p);
    }
  }

  /** So then no sign-in's rollback ever removes a link, whatever fails: links are lost exactly
      to undone registrations. */
  lemma RollbacksKeepLinks(cfg: Config, run: seq<State>, m: nat)
    requires Run(cfg, run) && cfg.atomic && m + 1 < |run|
    ensures Loses(run[m], run[m + 1]) <==> exists user :: UndoHit(run, m, user)
    ensures forall p, id :: NextStep(cfg, run[m], run[m + 1], Act(p, id)) && !run[m].procs[p].Undoing? ==>
              !Loses(run[m], run[m + 1])
  {
    LinksAreLostExactlyInTheWindows(cfg, run, m);
    forall user
      ensures Hit(run, m, user) <==> UndoHit(run, m, user)
    {
      NoWindowInOneStep(cfg, run, m, user);
    }
    forall p, id | NextStep(cfg, run[m], run[m + 1], Act(p, id)) && !run[m].procs[p].Undoing?
      ensures !Loses(run[m], run[m + 1])
    {
      OneStepKeepsLinks(cfg, run, m, p, id);
    }
  }

  lemma OneStepKeepsLinks(cfg: Config, run: seq<State>, m: nat, p: nat, id: string)
    requires Run(cfg, run) && cfg.atomic && m + 1 < |run|
    requires NextStep(cfg, run[m], run[m + 1], Act(p, id)) && !run[m].procs[p].Undoing?
    ensures !Loses(run[m], run[m + 1])
  {
    OnlyRollbacksErase(cfg, run[m].dir, run[m].procs[p], id);
    if run[m].procs[p].Deleting? {
      var c := CheckBeforeDelete(cfg, run, m, p);
    }
  }

  // ----- agreement -----

  /** A request that has learnt whom its account is linked to: the link is there for as long as
      that user is. */
  predicate Knows(dir: Directory, ids: set<string>, pc: Pc) {
    match pc
    case Loading(key, user) => LinkedIfStored(dir, ids, key, user)
    case Reloading(key, winner, _, _) => LinkedIfStored(dir, ids, key, winner)
    case Finished(key, user, _) => LinkedIfStored(dir, ids, key, user)
    case _ => true
  }

  predicate LinkedIfStored(dir: Directory, ids: set<string>, key: Key, user: string) {
    user in ids && (user in dir.users ==> key in dir.links && dir.links[key] == user)
  }

  lemma LinkStaysIfStored(cfg: Config, s: State, s': State, step: Step, key: Key, user: string)
    requires NextStep(cfg, s, s', step) && LinkedIfStored(s.dir, s.ids, key, user)
    ensures LinkedIfStored(s'.dir, s'.ids, key, user)
  {
    if step.Act? {
      OnlyRollbacksErase(cfg, s.dir, s.procs[step.p], step.id);
    }
  }

  lemma KnowsStep(cfg: Config, s: State, s': State, p: nat)
    requires DirOk(s.dir, s.ids) && Next(cfg, s, s') && p in s'.procs
    requires p in s.procs ==> Knows(s.dir, s.ids, s.procs[p])
    ensures Knows(s'.dir, s'.ids, s'.procs[p])
  {
    var step :| NextStep(cfg, s, s', step);
    var pc' := s'.procs[p];
    match pc'
    case Loading(key, user) => LinkStaysIfStored(cfg, s, s', step, key, user);
    case Reloading(key, winner, _, _) => LinkStaysIfStored(cfg, s, s', step, key, winner);
    case Finished(key, user, _) =>
      if s.procs[p].Linking? {
        assert pc'.user in s'.dir.users;
      } else {
        LinkStaysIfStored(cfg, s, s', step, key, user);
      }
    case _ =>
  }

  lemma {:induction false} KnowsAlways(cfg: Config, run: seq<State>, i: nat, p: nat)
    requires Run(cfg, run) && i < |run| && p in run[i].procs
    ensures Knows(run[i].dir, run[i].ids, run[i].procs[p])
  {
    if i > 0 {
      assert Next(cfg, run[i - 1], run[i]);
      assert DirOk(run[i - 1].dir, run[i - 1].ids) by { StoredFacts(cfg, run, i - 1); }
      if p in run[i - 1].procs {
        KnowsAlways(cfg, run, i - 1, p);
      }
      KnowsStep(cfg, run[i - 1], run[i], p);
    }
  }

  /** The step to state i finishes request p. */
  predicate Finishes(run: seq<State>, i: nat, p: nat)
    requires i < |run|
  {
    0 < i && p in run[i].procs && run[i].procs[p].Finished? && p in run[i - 1].procs && !run[i - 1].procs[p].Finished?
  }

  lemma FinishedIsLinked(cfg: Config, run: seq<State>, i: nat, p: nat)
    requires Run(cfg, run) && i < |run| && Finishes(run, i, p)
    ensures run[i].procs[p].user in run[i].dir.users
    ensures run[i].procs[p].key in run[i].dir.links && run[i].dir.links[run[i].procs[p].key] == run[i].procs[p].user
  {
    assert Next(cfg, run[i - 1], run[i]);
    var step :| NextStep(cfg, run[i - 1], run[i], step);
    KnowsAlways(cfg, run, i, p);
  }

  lemma {:induction false} GoesAtSomeStep(run: seq<State>, i: nat, j: nat, user: string) returns (m: nat)
    requires i <= j < |run| && user in run[i].dir.users && user !in run[j].dir.users
    ensures i <= m < j && Goes(run, m, user)
    ensures forall x :: i <= x <= m ==> user in run[x].dir.users
    decreases j - i
  {
    if user in run[i + 1].dir.users {
      m := GoesAtSomeStep(run, i + 1, j, user);
    } else {
      m := i;
    }
  }

  lemma GoneMeansHit(cfg: Config, run: seq<State>, i: nat, j: nat, k: Key, user: string) returns (m: nat)
    requires Run(cfg, run) && i <= j < |run| && k in run[i].dir.links && run[i].dir.links[k] == user
    requires user in run[i].dir.users && user !in run[j].dir.users
    ensures i <= m < j && Hit(run, m, user)
  {
    m := GoesAtSomeStep(run, i, j, user);
    LinkLastsWithUser(cfg, run, i, m, k);
    assert IsLinked(run[m].dir, user);
    LinkedUserGoesByHit(cfg, run, m, user);
  }

  lemma GoneFromThen(cfg: Config, run: seq<State>, m: nat, j: nat, user: string)
    requires Run(cfg, run) && m < j < |run| && Goes(run, m, user)
    ensures user !in run[j].dir.users
  {
    StoredFacts(cfg, run, m);
    IdsStay(cfg, run, m, m + 1, user);
    GoneForGood(cfg, run, m + 1, j, user);
  }

  /** Agreement, of the code as it is: a sign-in that finishes after another with the same
      provider account returns the same user if and only if neither kind of window was hit for
      that user between the two. */
  lemma SignInsAgreeIffNoHit(cfg: Config, run: seq<State>, i: nat, j: nat, p: nat, q: nat)
    requires Run(cfg, run) && i <= j < |run| && Finishes(run, i, p) && Finishes(run, j, q)
    requires run[i].procs[p].key == run[j].procs[q].key
    ensures run[j].procs[q].user == run[i].procs[p].user
            <==> !exists m :: i <= m < j && Hit(run, m, run[i].procs[p].user)
  {
    FinishedIsLinked(cfg, run, i, p);
    FinishedIsLinked(cfg, run, j, q);
    var user, key := run[i].procs[p].user, run[i].procs[p].key;
    if m :| i <= m < j && Hit(run, m, user) {
      GoneFromThen(cfg, run, m, j, user);
    }
    if user !in run[j].dir.users {
      var m := GoneMeansHit(cfg, run, i, j, key, user);
    } else {
      StoredThroughout(cfg, run, i, j, user);
      LinkLastsWithUser(cfg, run, i, j, key);
    }
  }

  lemma StoredThroughout(cfg: Config, run: seq<State>, i: nat, j: nat, user: string)
    requires Run(cfg, run) && i <= j < |run| && user in run[i].dir.users && user in run[j].dir.users
    ensures forall x :: i <= x <= j ==> user in run[x].dir.users
  {
    StoredFacts(cfg, run, i);
    forall x | i <= x <= j
      ensures user in run[x].dir.users
    {
      IdsStay(cfg, run, i, x, user);
      if user !in run[x].dir.users { GoneForGood(cfg, run, x, j, user); }
    }
  }

  lemma {:induction false} IdsStay(cfg: Config, run: seq<State>, i: nat, j: nat, user: string)
    requires Run(cfg, run) && i <= j < |run| && user in run[i].ids
    ensures user in run[j].ids
    decreases j
  {
    if i < j {
      IdsStay(cfg, run, i, j - 1, user);
      assert Next(cfg, run[j - 1], run[j]);
    }
  }

  /** With check and delete as one step, then, they agree if and only if no registration's undo
      met a link to that user in between. */
  lemma SignInsAgreeIffNoUndo(cfg: Config, run: seq<State>, i: nat, j: nat, p: nat, q: nat)
    requires Run(cfg, run) && cfg.atomic && i <= j < |run| && Finishes(run, i, p) && Finishes(run, j, q)
    requires run[i].procs[p].key == run[j].procs[q].key
    ensures run[j].procs[q].user == run[i].procs[p].user
            <==> !exists m :: i <= m < j && UndoHit(run, m, run[i].procs[p].user)
  {
    SignInsAgreeIffNoHit(cfg, run, i, j, p, q);
    forall m | i <= m < j
      ensures Hit(run, m, run[i].procs[p].user) <==> UndoHit(run, m, run[i].procs[p].user)
    {
      NoWindowInOneStep(cfg, run, m, run[i].procs[p].user);
    }
  }

  // ----- passwords and links -----

  /** From state v, where its check has just found no password, to state m, callback p is about
      to link `user`, which it did not create. */
  predicate VettedSince(run: seq<State>, v: nat, m: nat, p: nat, user: string)
    requires m < |run|
  {
    && 0 < v <= m
    && p in run[v - 1].procs && run[v - 1].procs[p].Vetting? && user !in run[v].dir.passwords
    && (forall x :: v <= x <= m ==> p in run[x].procs && AutoLinks(run[x].procs[p], user))
  }

  predicate AutoLinks(pc: Pc, user: string) {
    pc.Linking? && !pc.isNew && pc.user == user
  }

  lemma AutoLinkFollowsCheck(cfg: Config, s: State, s': State, p: nat, user: string)
    requires Next(cfg, s, s') && p in s'.procs && AutoLinks(s'.procs[p], user)
    ensures p in s.procs && (AutoLinks(s.procs[p], user) || s.procs[p].Vetting?)
    ensures s.procs[p].Vetting? ==> user !in s'.dir.passwords
  {
    var id := MovesOf(cfg, s, s', p);
  }

  lemma {:induction false} CheckBeforeAutoLink(cfg: Config, run: seq<State>, m: nat, p: nat, user: string)
    returns (v: nat)
    requires Run(cfg, run) && m < |run| && p in run[m].procs && AutoLinks(run[m].procs[p], user)
    ensures VettedSince(run, v, m, p, user)
  {
    assert m > 0 && Next(cfg, run[m - 1], run[m]);
    AutoLinkFollowsCheck(cfg, run[m - 1], run[m], p, user);
    if run[m - 1].procs[p].Vetting? {
      v := m;
    } else {
      v := CheckBeforeAutoLink(cfg, run, m - 1, p, user);
    }
  }

  lemma {:induction false} SomeStepSecures(run: seq<State>, i: nat, j: nat, user: string) returns (n: nat)
    requires i <= j < |run| && user !in run[i].dir.passwords && user in run[j].dir.passwords
    ensures i <= n < j && user !in run[n].dir.passwords && user in run[n + 1].dir.passwords
    decreases j - i
  {
    if user in run[i + 1].dir.passwords {
      n := i;
    } else {
      n := SomeStepSecures(run, i + 1, j, user);
    }
  }

  /** The other race the code names: an account with a password is auto-linked only if the
      password was saved between checkAutoLink and the link. */
  lemma PasswordAccountsAreLinkedOnlyByRace(cfg: Config, run: seq<State>, m: nat, p: nat, user: string)
    returns (v: nat, n: nat)
    requires Run(cfg, run) && m < |run| && p in run[m].procs && AutoLinks(run[m].procs[p], user)
    requires user in run[m].dir.passwords
    ensures VettedSince(run, v, m, p, user) && v <= n < m
    ensures user !in run[n].dir.passwords && user in run[n + 1].dir.passwords
  {
    v := CheckBeforeAutoLink(cfg, run, m, p, user);
    n := SomeStepSecures(run, v, m, user);
  }

  // ----- what the setting and the provider's word decide -----

  lemma {:induction false} NoAutoLinking(cfg: Config, run: seq<State>, i: nat, p: nat)
    requires Run(cfg, run) && !cfg.autoLink && i < |run| && p in run[i].procs && run[i].procs[p].Linking?
    ensures run[i].procs[p].isNew
  {
    assert i > 0 && Next(cfg, run[i - 1], run[i]);
    var id := MovesOf(cfg, run[i - 1], run[i], p);
    if run[i - 1].procs[p].Linking? {
      NoAutoLinking(cfg, run, i - 1, p);
    }
  }

  /** With auto-link off, every link a run adds is to a user that the callback saving it, for that
      account, has created itself. */
  lemma LinksOwnUsersOnly(cfg: Config, run: seq<State>, m: nat, k: Key) returns (p: nat)
    requires Run(cfg, run) && !cfg.autoLink && m + 1 < |run| && k !in run[m].dir.links && k in run[m + 1].dir.links
    ensures p in run[m].procs && run[m].procs[p] == Linking(k, run[m + 1].dir.links[k], true)
    ensures p in run[m].created && run[m].created[p] == run[m + 1].dir.links[k]
  {
    assert Next(cfg, run[m], run[m + 1]);
    p := LinkedBy(cfg, run[m], run[m + 1], k);
    NoAutoLinking(cfg, run, m, p);
    InvAlways(cfg, run, m);
    assert PcOk(MadeBy(run[m], p), run[m].procs[p]);
  }

  lemma LinkedBy(cfg: Config, s: State, s': State, k: Key) returns (p: nat)
    requires Next(cfg, s, s') && k !in s.dir.links && k in s'.dir.links
    ensures p in s.procs && s.procs[p].Linking? && s.procs[p].key == k && s.procs[p].user == s'.dir.links[k]
  {
    var step :| NextStep(cfg, s, s', step);
    p := step.p;
  }

  /** So with auto-link off neither window is ever hit: no link is ever lost, and the sign-ins of
      one provider account always agree. */
  lemma NoHitWithoutAutoLink(cfg: Config, run: seq<State>, m: nat, user: string)
    requires Run(cfg, run) && !cfg.autoLink && m + 1 < |run|
    ensures !Hit(run, m, user)
  {
    forall c, p | RollbackWindow(run, c, m, p, user) || UndoWindow(run, c, m, p, user)
      ensures !LandsWithin(run, c, m, user)
    {
      NoLandingInWindow(cfg, run, c, m, p, user);
    }
  }

  /** Nobody but the request that holds the user could link it, and that one is past linking. */
  lemma NoLandingInWindow(cfg: Config, run: seq<State>, c: nat, m: nat, p: nat, user: string)
    requires Run(cfg, run) && !cfg.autoLink && m < |run|
    requires forall x :: c <= x <= m ==> p in run[x].procs && InWindow(run[x].procs[p], user)
    ensures !LandsWithin(run, c, m, user)
  {
    forall n | c <= n < m
      ensures !LandsAt(run, n, user)
    {
      forall k | k in run[n + 1].dir.links && k !in run[n].dir.links
        ensures run[n + 1].dir.links[k] != user
      {
        LinkedToAnother(cfg, run, n, k, p, user);
      }
      LinksAreLostExactlyInTheWindows(cfg, run, n);
    }
  }

  lemma LinkedToAnother(cfg: Config, run: seq<State>, n: nat, k: Key, p: nat, user: string)
    requires Run(cfg, run) && !cfg.autoLink && n + 1 < |run| && p in run[n].procs && InWindow(run[n].procs[p], user)
    requires k !in run[n].dir.links && k in run[n + 1].dir.links
    ensures run[n + 1].dir.links[k] != user
  {
    var q := LinksOwnUsersOnly(cfg, run, n, k);
    InvAlways(cfg, run, n);
    assert PcOk(MadeBy(run[n], p), run[n].procs[p]);
    assert p != q && run[n].created[p] == user;
  }

  predicate InWindow(pc: Pc, user: string) {
    (pc.Deleting? || pc.Securing? || pc.Undoing?) && pc.user == user
  }

  lemma NothingLostWithoutAutoLink(cfg: Config, run: seq<State>, i: nat, j: nat, p: nat, q: nat)
    requires Run(cfg, run) && !cfg.autoLink && i <= j < |run| && Finishes(run, i, p) && Finishes(run, j, q)
    requires run[i].procs[p].key == run[j].procs[q].key
    ensures run[j].procs[q].user == run[i].procs[p].user
    ensures forall m :: i <= m < j ==> !Loses(run[m], run[m + 1])
  {
    SignInsAgreeIffNoHit(cfg, run, i, j, p, q);
    forall m | i <= m < j
      ensures !Hit(run, m, run[i].procs[p].user) && !Loses(run[m], run[m + 1])
    {
      NoHitWithoutAutoLink(cfg, run, m, run[i].procs[p].user);
      LinksAreLostExactlyInTheWindows(cfg, run, m);
      forall user
        ensures !Hit(run, m, user)
      {
        NoHitWithoutAutoLink(cfg, run, m, user);
      }
    }
  }

  /** A callback whose email the provider did not verify, or that is none, only ever looks: it
      creates no user, and no step of it changes what is stored. */
  lemma {:induction false} UnverifiedOnlyLooks(cfg: Config, run: seq<State>, i: nat, j: nat, p: nat)
    requires Run(cfg, run) && i <= j < |run| && p in run[i].procs && p !in run[i].created
    requires run[i].procs[p].Looking? && (!run[i].procs[p].verified || run[i].procs[p].email == "")
    ensures p in run[j].procs && p !in run[j].created && OnlyLooks(run[i].procs[p], run[j].procs[p])
    ensures forall id :: j + 1 < |run| && NextStep(cfg, run[j], run[j + 1], Act(p, id)) ==> run[j + 1].dir == run[j].dir
    decreases j
  {
    if i < j {
      UnverifiedOnlyLooks(cfg, run, i, j - 1, p);
      assert Next(cfg, run[j - 1], run[j]);
      OnlyLooksStep(cfg, run[j - 1], run[j], p, run[i].procs[p]);
    }
  }

  /** Still looking, or finished with the account's own user, or refused. */
  predicate OnlyLooks(start: Pc, pc: Pc) {
    pc == start || pc.Loading? || (pc.Finished? && pc.origin == Existing) || pc.Failed?
  }

  lemma OnlyLooksStep(cfg: Config, s: State, s': State, p: nat, start: Pc)
    requires Next(cfg, s, s') && p in s.procs && p !in s.created && OnlyLooks(start, s.procs[p])
    requires start.Looking? && (!start.verified || start.email == "")
    ensures p in s'.procs && p !in s'.created && OnlyLooks(start, s'.procs[p])
  {
    var step :| NextStep(cfg, s, s', step);
  }
}
