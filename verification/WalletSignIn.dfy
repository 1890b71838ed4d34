/** resolveWalletUser of auth/wallet.go: concurrent first sign-ins create a user each, race to
    link the wallet, and the losers take their user back. Storage does not fail here, and users
    are deleted only by that rollback. */
module WalletSignIn {
  type Key = (string, string)     // chain and normalized address

  datatype Pc =
    | Looking(key: Key)
    | Creating(key: Key)
    | Linking(key: Key, id: string)
    | Discarding(key: Key, id: string)
    | Relooking(key: Key)
    | Loading(key: Key, id: string)
    | Finished(key: Key, id: string, isNew: bool)
    | Failed(key: Key)

  /** `ids` is every user id ever used; `created` remembers which user a sign-in created. */
  datatype State = State(
    users: set<string>, links: map<Key, string>, ids: set<string>, procs: map<nat, Pc>, created: map<nat, string>)

  datatype Step = Spawn(p: nat, key: Key) | Act(p: nat, id: string) | AddUser(id: string)

  predicate Init(s: State) {
    s.procs == map[] && s.created == map[] && s.users <= s.ids && forall k :: k in s.links ==> s.links[k] in s.users
  }

  /** The store call of one position, and where its answer leads. `id` is the fresh id of a create. */
  function Acted(s: State, p: nat, id: string): State
    requires p in s.procs
  {
    match s.procs[p]
    case Looking(key) => s.(procs := s.procs[p := if key in s.links then Loading(key, s.links[key]) else Creating(key)])
    case Creating(key) =>
      s.(users := s.users + {id}, ids := s.ids + {id}, created := s.created[p := id],
         procs := s.procs[p := Linking(key, id)])
    case Linking(key, user) =>
      if user !in s.users then s.(procs := s.procs[p := Failed(key)])
      else if key in s.links then s.(procs := s.procs[p := Discarding(key, user)])
      else s.(links := s.links[key := user], procs := s.procs[p := Finished(key, user, true)])
    case Discarding(key, user) =>
      s.(users := s.users - {user}, links := map k | k in s.links && s.links[k] != user :: s.links[k],
         procs := s.procs[p := Relooking(key)])
    case Relooking(key) => s.(procs := s.procs[p := if key in s.links then Loading(key, s.links[key]) else Failed(key)])
    case Loading(key, user) => s.(procs := s.procs[p :=
        if user in s.users then Finished(key, user, false) else Failed(key)])
    case Finished(_, _, _) => s
    case Failed(_) => s
  }

  ghost predicate NextStep(s: State, s': State, step: Step) {
    match step
    case Spawn(p, key) => p !in s.procs && s' == s.(procs := s.procs[p := Looking(key)])
    case Act(p, id) => p in s.procs && (s.procs[p].Creating? ==> id !in s.ids) && s' == Acted(s, p, id)
    case AddUser(id) => id !in s.ids && s' == s.(users := s.users + {id}, ids := s.ids + {id})
  }

  ghost predicate Next(s: State, s': State) {
    exists step :: NextStep(s, s', step)
  }

  ghost predicate Run(run: seq<State>) {
    && |run| > 0 && Init(run[0])
    && forall i, j :: 0 <= i && j == i + 1 && j < |run| ==> Next(run[i], run[j])
  }

  // ----- the inductive invariant -----

  ghost predicate Linked(s: State, id: string) {
    exists k :: k in s.links && s.links[k] == id
  }

  ghost predicate Mine(s: State, p: nat, id: string) {
    p in s.created && s.created[p] == id && id in s.users && !Linked(s, id)
  }

  ghost predicate PcOk(s: State, first: map<Key, string>, p: nat, pc: Pc) {
    match pc
    case Looking(_) => p !in s.created
    case Creating(_) => p !in s.created
    case Linking(_, id) => Mine(s, p, id)
    case Discarding(key, id) => key in s.links && Mine(s, p, id)
    case Relooking(key) => key in s.links && (p in s.created ==> s.created[p] !in s.users)
    case Loading(key, id) => key in s.links && s.links[key] == id && (p in s.created ==> s.created[p] !in s.users)
    case Finished(key, id, isNew) =>
      && key in s.links && s.links[key] == id
      && (isNew ==> key !in first && p in s.created && s.created[p] == id)
      && (!isNew ==> p in s.created ==> s.created[p] !in s.users)
    case Failed(_) => false
  }

  /** A link was there from the start, or the sign-in that made it has finished as new. */
  ghost predicate LinkOk(s: State, first: map<Key, string>, key: Key)
    requires key in s.links
  {
    && s.links[key] in s.users
    && if key in first then s.links[key] == first[key]
       else exists p :: p in s.procs && s.procs[p] == Finished(key, s.links[key], true)
  }

  ghost predicate Inv(s: State, first: map<Key, string>) {
    && s.users <= s.ids && first.Keys <= s.links.Keys
    && (forall key :: key in s.links ==> LinkOk(s, first, key))
    && (forall p :: p in s.procs ==> PcOk(s, first, p, s.procs[p]))
    && (forall p :: p in s.created ==> p in s.procs && s.created[p] in s.ids)
    && (forall p, q :: p in s.created && q in s.created && s.created[p] == s.created[q] ==> p == q)
  }

  lemma LinksStay(s: State, s': State, first: map<Key, string>, step: Step)
    requires Inv(s, first) && NextStep(s, s', step)
    ensures forall k :: k in s.links ==> k in s'.links && s'.links[k] == s.links[k]
    ensures forall k :: k in s'.links && k !in s.links ==> step.Act? && s.procs[step.p] == Linking(k, s'.links[k])
  {
    if step.Act? && s.procs[step.p].Discarding? {
      assert PcOk(s, first, step.p, s.procs[step.p]);
    }
  }

  lemma OthersStay(s: State, s': State, first: map<Key, string>, step: Step, q: nat)
    requires Inv(s, first) && NextStep(s, s', step) && q in s.procs && (step.Act? ==> step.p != q)
    ensures PcOk(s', first, q, s'.procs[q])
  {
    LinksStay(s, s', first, step);
    assert PcOk(s, first, q, s.procs[q]);
    if step.Act? {
      assert PcOk(s, first, step.p, s.procs[step.p]);
    }
  }

  lemma ActorStays(s: State, s': State, first: map<Key, string>, p: nat, id: string)
    requires Inv(s, first) && NextStep(s, s', Act(p, id))
    ensures PcOk(s', first, p, s'.procs[p])
  {
    LinksStay(s, s', first, Act(p, id));
    assert PcOk(s, first, p, s.procs[p]);
    match s.procs[p]
    case Looking(key) => if key in s.links { assert LinkOk(s, first, key); }
    case Creating(_) =>
      assert forall k :: k in s.links ==> LinkOk(s, first, k);
    case Relooking(key) => assert LinkOk(s, first, key);
    case Loading(key, _) => assert LinkOk(s, first, key);
    case _ =>
  }

  lemma LinksStayOk(s: State, s': State, first: map<Key, string>, step: Step, key: Key)
    requires Inv(s, first) && NextStep(s, s', step) && key in s'.links
    ensures LinkOk(s', first, key)
  {
    LinksStay(s, s', first, step);
    if key !in s.links {
      assert PcOk(s, first, step.p, s.procs[step.p]);
      assert s'.procs[step.p] == Finished(key, s'.links[key], true);
    } else {
      assert LinkOk(s, first, key);
      LinkedUserStays(s, s', first, step, key);
      if key !in first {
        var p :| p in s.procs && s.procs[p] == Finished(key, s.links[key], true);
        FinishedStays(s, s', step, p);
      }
    }
  }

  lemma LinkedUserStays(s: State, s': State, first: map<Key, string>, step: Step, key: Key)
    requires Inv(s, first) && NextStep(s, s', step) && key in s.links
    ensures s.links[key] in s'.users
  {
    assert LinkOk(s, first, key);
    if step.Act? {
      assert PcOk(s, first, step.p, s.procs[step.p]);
    }
  }

  lemma FinishedStays(s: State, s': State, step: Step, p: nat)
    requires NextStep(s, s', step) && p in s.procs && s.procs[p].Finished?
    ensures p in s'.procs && s'.procs[p] == s.procs[p]
  {
  }

  lemma InvStep(s: State, s': State, first: map<Key, string>, step: Step)
    requires Inv(s, first) && NextStep(s, s', step)
    ensures Inv(s', first)
  {
    LinksStay(s, s', first, step);
    if step.Act? {
      assert PcOk(s, first, step.p, s.procs[step.p]);
      ActorStays(s, s', first, step.p, step.id);
    }
    forall q | q in s'.procs
      ensures PcOk(s', first, q, s'.procs[q])
    {
      if q in s.procs && (step.Act? ==> step.p != q) { OthersStay(s, s', first, step, q); }
    }
    forall key | key in s'.links
      ensures LinkOk(s', first, key)
    {
      LinksStayOk(s, s', first, step, key);
    }
  }

  lemma {:induction false} InvAlways(run: seq<State>, i: nat)
    requires Run(run) && i < |run|
    ensures Inv(run[i], run[0].links)
  {
    if i > 0 {
      InvAlways(run, i - 1);
      assert Next(run[i - 1], run[i]);
      var step :| NextStep(run[i - 1], run[i], step);
      InvStep(run[i - 1], run[i], run[0].links, step);
    }
  }

  // ----- theorems -----

  /** No sign-in fails, all with one wallet return the same user, at most one reports a new user
      (none if the wallet was linked before), and a user created by a sign-in that did not keep
      it is gone once that sign-in has finished. */
  lemma SignInsConverge(run: seq<State>, i: nat, p: nat, q: nat)
    requires Run(run) && i < |run| && p in run[i].procs && q in run[i].procs
    ensures !run[i].procs[p].Failed?
    ensures run[i].procs[p].Finished? && run[i].procs[q].Finished? && run[i].procs[p].key == run[i].procs[q].key ==>
              run[i].procs[p].id == run[i].procs[q].id && (run[i].procs[p].isNew && run[i].procs[q].isNew ==> p == q)
    ensures run[i].procs[p].Finished? && run[i].procs[p].isNew ==> run[i].procs[p].key !in run[0].links
    ensures run[i].procs[p].Finished? && p in run[i].created ==>
              (run[i].procs[p].isNew <==> run[i].created[p] in run[i].users)
  {
    InvAlways(run, i);
    assert PcOk(run[i], run[0].links, p, run[i].procs[p]) && PcOk(run[i], run[0].links, q, run[i].procs[q]);
    if run[i].procs[p].Finished? {
      assert LinkOk(run[i], run[0].links, run[i].procs[p].key);
    }
  }

  /** Once a sign-in with a wallet that had no user has finished, exactly one reports new. */
  lemma SomeoneIsNew(run: seq<State>, i: nat, p: nat) returns (winner: nat)
    requires Run(run) && i < |run| && p in run[i].procs && run[i].procs[p].Finished?
    requires run[i].procs[p].key !in run[0].links
    ensures winner in run[i].procs && run[i].procs[winner] == Finished(run[i].procs[p].key, run[i].procs[p].id, true)
  {
    InvAlways(run, i);
    var key := run[i].procs[p].key;
    assert PcOk(run[i], run[0].links, p, run[i].procs[p]) && LinkOk(run[i], run[0].links, key);
    winner :| winner in run[i].procs && run[i].procs[winner] == Finished(key, run[i].links[key], true);
  }

  // ----- a sign-in that runs on by itself -----

  function Last(run: seq<State>): State
    requires run != []
  {
    run[|run| - 1]
  }

  function Move(s: State, p: nat, pc: Pc): State {
    s.(procs := s.procs[p := pc])
  }

  lemma Extend(run: seq<State>, s: State, step: Step) returns (longer: seq<State>)
    requires Run(run) && NextStep(Last(run), s, step)
    ensures Run(longer) && run <= longer && Last(longer) == s
  {
    longer := run + [s];
    assert Next(Last(run), s);
    forall i, j | 0 <= i && j == i + 1 && j < |longer|
      ensures Next(longer[i], longer[j])
    {
      if j < |run| { assert Next(run[i], run[j]); }
    }
  }

  lemma Acting(run: seq<State>, p: nat, id: string) returns (longer: seq<State>)
    requires Run(run) && p in Last(run).procs && (Last(run).procs[p].Creating? ==> id !in Last(run).ids)
    ensures Run(longer) && run <= longer && Last(longer) == Acted(Last(run), p, id)
  {
    longer := Extend(run, Acted(Last(run), p, id), Act(p, id));
  }

  /** What is left when sign-in p has ended alone: its result, these users and these links. */
  ghost predicate EndsWith(run: seq<State>, longer: seq<State>, p: nat, pc: Pc,
                           users: set<string>, links: map<Key, string>) {
    && run != [] && Run(longer) && run <= longer
    && p in Last(longer).procs && Last(longer).procs[p] == pc && Last(longer).users == users && Last(longer).links == links
  }

  /** A linked wallet signs its user in and changes nothing; no user is created for it. */
  lemma LinkedWalletSignsIn(run: seq<State>, p: nat, key: Key) returns (longer: seq<State>)
    requires Run(run) && p !in Last(run).procs && key in Last(run).links
    ensures EndsWith(run, longer, p, Finished(key, Last(run).links[key], false), Last(run).users, Last(run).links)
    ensures Last(longer).created == Last(run).created
  {
    var s := Last(run);
    longer := Extend(run, Move(s, p, Looking(key)), Spawn(p, key));
    longer := Acting(longer, p, "");
    assert Last(longer) == Move(s, p, Loading(key, s.links[key]));
    InvAlways(run, |run| - 1);
    assert LinkOk(s, run[0].links, key);
    longer := Acting(longer, p, "");
  }

  /** An unlinked one gets a new user, linked to it. */
  lemma NewWalletIsCreated(run: seq<State>, p: nat, key: Key, id: string) returns (longer: seq<State>)
    requires Run(run) && p !in Last(run).procs && key !in Last(run).links && id !in Last(run).ids
    ensures EndsWith(run, longer, p, Finished(key, id, true), Last(run).users + {id}, Last(run).links[key := id])
  {
    var s := Last(run);
    longer := Extend(run, Move(s, p, Looking(key)), Spawn(p, key));
    longer := Acting(longer, p, "");
    assert Last(longer) == Move(s, p, Creating(key));
    longer := Acting(longer, p, id);
    longer := Acting(longer, p, "");
  }

  /** A sign-in that lost the race takes its user back and returns the winner's. */
  lemma LoserReturnsTheWinner(run: seq<State>, p: nat, key: Key, id: string) returns (longer: seq<State>)
    requires Run(run) && p in Last(run).procs && Last(run).procs[p] == Linking(key, id) && key in Last(run).links
    ensures EndsWith(run, longer, p, Finished(key, Last(run).links[key], false), Last(run).users - {id}, Last(run).links)
  {
    var s := Last(run);
    LoserHoldsItsOwn(run, p, key, id);
    longer := Acting(run, p, "");
    assert Last(longer) == Move(s, p, Discarding(key, id));
    longer := Acting(longer, p, "");
    assert Last(longer).links == s.links;
    longer := ReturnsTheWinner(longer, s.(users := s.users - {id}), p, key);
  }

  /** Its user is stored and nobody's link, so it is not the winner's. */
  lemma LoserHoldsItsOwn(run: seq<State>, p: nat, key: Key, id: string)
    requires Run(run) && p in Last(run).procs && Last(run).procs[p] == Linking(key, id) && key in Last(run).links
    ensures id in Last(run).users && (forall k :: k in Last(run).links ==> Last(run).links[k] != id)
    ensures Last(run).links[key] in Last(run).users
  {
    InvAlways(run, |run| - 1);
    assert PcOk(Last(run), run[0].links, p, Last(run).procs[p]) && LinkOk(Last(run), run[0].links, key);
  }

  lemma ReturnsTheWinner(run: seq<State>, s: State, p: nat, key: Key) returns (longer: seq<State>)
    requires Run(run) && Last(run) == Move(s, p, Relooking(key)) && key in s.links && s.links[key] in s.users
    ensures EndsWith(run, longer, p, Finished(key, s.links[key], false), s.users, s.links)
  {
    longer := Acting(run, p, "");
    assert Last(longer) == Move(s, p, Loading(key, s.links[key]));
    longer := Acting(longer, p, "");
  }
}
