/** The shared single-use challenges of OAuth and wallet sign-in: consumeOAuthState and
    consumeWalletChallenge as interleaved requests over one challenge store. */
module Challenges {
  import opened Entities
  import opened Strings

  /** The parts the gates take as given: configured names, the binding hash and the signature check. */
  datatype Env = Env(
    providers: set<string>, chains: set<string>,
    hash: string -> string, signed: (string, string, string) -> bool)

  /** Provider names hold no newline; no wallet chain is registered under the empty name. */
  predicate EnvOk(env: Env) {
    (forall name :: name in env.providers ==> OneLine(name)) && "" !in env.chains
  }

  function StateBinding(provider: string, redirectUri: string): string {
    provider + "\n" + redirectUri
  }

  datatype Request =
    | OAuth(provider: string, code: string, state: string, redirectUri: string, binding: string)
    | Wallet(chain: string, address: string, nonce: string, signature: string)

  /** What a challenge was issued for, and until when. */
  datatype Origin =
    | OAuthFlow(provider: string, redirectUri: string, bindingHash: string, expiresAt: int)
    | WalletFlow(chain: string, address: string, message: string, expiresAt: int)

  datatype Pc =
    | Asking(req: Request)
    | Deleting(req: Request, ch: Challenge, now: int)      // every check passed, at this clock reading
    | Passed(req: Request, ch: Challenge, now: int)
    | Refused(req: Request)

  datatype State = State(store: map<string, Challenge>, issued: map<string, Origin>, procs: map<nat, Pc>)

  datatype Step =
    | Sweep(now: int)
    | Issue(ch: Challenge, origin: Origin)
    | Ask(p: nat, req: Request)
    | Get(p: nat, storeNow: int, now: int)
    | Delete(p: nat)
    | Fail(p: nat)

  function Nonce(req: Request): string {
    if req.OAuth? then req.state else req.nonce
  }

  predicate WellFormed(env: Env, req: Request) {
    match req
    case OAuth(provider, code, state, _, binding) => provider in env.providers && code != "" && state != "" && binding != ""
    case Wallet(chain, _, nonce, signature) => chain in env.chains && nonce != "" && signature != ""
  }

  /** Every check of a gate against the challenge it read, at the service's clock. */
  predicate Accepts(env: Env, req: Request, ch: Challenge, now: int) {
    && now < ch.expiresAt
    && match req
       case OAuth(provider, _, _, redirectUri, binding) =>
         ch.message == StateBinding(provider, redirectUri) && ch.bindingHash != "" && env.hash(binding) == ch.bindingHash
       case Wallet(chain, address, _, signature) =>
         ch.chain == chain && ch.address == address && env.signed(address, ch.message, signature)
  }

  /** The rows GetOAuthURL and GetChallenge save. */
  predicate Fits(ch: Challenge, origin: Origin) {
    && ch.expiresAt == origin.expiresAt
    && match origin
       case OAuthFlow(provider, redirectUri, bindingHash, _) =>
         && ch.message == StateBinding(provider, redirectUri) && ch.bindingHash == bindingHash
         && ch.chain == "" && ch.address == ""
       case WalletFlow(chain, address, message, _) =>
         ch.message == message && ch.chain == chain && ch.address == address && ch.bindingHash == ""
  }

  predicate Issuable(env: Env, origin: Origin) {
    match origin
    case OAuthFlow(provider, _, _, _) => provider in env.providers
    case WalletFlow(chain, _, _, _) => chain in env.chains
  }

  ghost predicate NextStep(env: Env, s: State, s': State, step: Step) {
    match step
    case Sweep(now) =>
      s' == s.(store := map n | n in s.store && s.store[n].expiresAt >= now :: s.store[n])
    case Issue(ch, origin) =>
      && ch.nonce !in s.issued && Fits(ch, origin) && Issuable(env, origin)
      && s' == s.(store := s.store[ch.nonce := ch], issued := s.issued[ch.nonce := origin])
    case Ask(p, req) =>
      && p !in s.procs
      && s' == s.(procs := s.procs[p := if WellFormed(env, req) then Asking(req) else Refused(req)])
    case Get(p, storeNow, now) =>
      && p in s.procs && s.procs[p].Asking? && var req := s.procs[p].req; var n := Nonce(req);
      if n !in s.store then s' == s.(procs := s.procs[p := Refused(req)])
      else if s.store[n].expiresAt < storeNow then
        // memory drops the expired row, postgres leaves it to the sweep
        && s'.procs == s.procs[p := Refused(req)] && s'.issued == s.issued
        && (s'.store == s.store || s'.store == s.store - {n})
      else if Accepts(env, req, s.store[n], now) then s' == s.(procs := s.procs[p := Deleting(req, s.store[n], now)])
      else s' == s.(procs := s.procs[p := Refused(req)])
    case Delete(p) =>
      && p in s.procs && s.procs[p].Deleting? && var req := s.procs[p].req; var n := Nonce(req);
      && s'.issued == s.issued && s'.store == s.store - {n}
      && s'.procs == s.procs[p := if n in s.store then Passed(req, s.procs[p].ch, s.procs[p].now) else Refused(req)]
    case Fail(p) =>
      && p in s.procs && (s.procs[p].Asking? || s.procs[p].Deleting?)
      && s' == s.(procs := s.procs[p := Refused(s.procs[p].req)])
  }

  ghost predicate Next(env: Env, s: State, s': State) {
    exists step :: NextStep(env, s, s', step)
  }

  ghost predicate Run(env: Env, run: seq<State>) {
    && |run| > 0 && run[0] == State(map[], map[], map[])
    && forall i, j :: 0 <= i && j == i + 1 && j < |run| ==> Next(env, run[i], run[j])
  }

  // ----- the inductive invariant -----

  ghost predicate Held(env: Env, s: State, req: Request, ch: Challenge, now: int) {
    && WellFormed(env, req) && ch.nonce == Nonce(req) && Accepts(env, req, ch, now)
    && ch.nonce in s.issued && Fits(ch, s.issued[ch.nonce]) && Issuable(env, s.issued[ch.nonce])
    && (ch.nonce in s.store ==> s.store[ch.nonce] == ch)
  }

  ghost predicate PcOk(env: Env, s: State, pc: Pc) {
    match pc
    case Asking(req) => WellFormed(env, req)
    case Deleting(req, ch, now) => Held(env, s, req, ch, now)
    case Passed(req, ch, now) => Held(env, s, req, ch, now) && Nonce(req) !in s.store
    case Refused(_) => true
  }

  ghost predicate Inv(env: Env, s: State) {
    && (forall n :: n in s.store ==>
          s.store[n].nonce == n && n in s.issued && Fits(s.store[n], s.issued[n]) && Issuable(env, s.issued[n]))
    && (forall p :: p in s.procs ==> PcOk(env, s, s.procs[p]))
    && (forall p, q :: p in s.procs && q in s.procs && BothPassed(s.procs[p], s.procs[q]) ==> p == q)
  }

  predicate BothPassed(pc: Pc, pc': Pc) {
    pc.Passed? && pc'.Passed? && Nonce(pc.req) == Nonce(pc'.req)
  }

  lemma PcStays(env: Env, s: State, s': State, step: Step, p: nat)
    requires Inv(env, s) && NextStep(env, s, s', step) && p in s'.procs
    ensures PcOk(env, s', s'.procs[p])
  {
    if p in s.procs {
      assert PcOk(env, s, s.procs[p]);
    }
  }

  lemma PassesStayApart(env: Env, s: State, s': State, step: Step, p: nat, q: nat)
    requires Inv(env, s) && NextStep(env, s, s', step)
    requires p in s'.procs && q in s'.procs && BothPassed(s'.procs[p], s'.procs[q])
    ensures p == q
  {
    assert p in s.procs && q in s.procs;
    assert PcOk(env, s, s.procs[p]) && PcOk(env, s, s.procs[q]);
    assert BothPassed(s.procs[p], s.procs[q]) ==> p == q;
  }

  lemma InvStep(env: Env, s: State, s': State, step: Step)
    requires Inv(env, s) && NextStep(env, s, s', step)
    ensures Inv(env, s')
  {
    forall p | p in s'.procs
      ensures PcOk(env, s', s'.procs[p])
    {
      PcStays(env, s, s', step, p);
    }
    forall p, q | p in s'.procs && q in s'.procs && BothPassed(s'.procs[p], s'.procs[q])
      ensures p == q
    {
      PassesStayApart(env, s, s', step, p, q);
    }
    StoreStays(env, s, s', step);
  }

  lemma StoreStays(env: Env, s: State, s': State, step: Step)
    requires Inv(env, s) && NextStep(env, s, s', step)
    ensures forall n :: n in s'.store ==>
              s'.store[n].nonce == n && n in s'.issued && Fits(s'.store[n], s'.issued[n]) && Issuable(env, s'.issued[n])
  {
  }

  lemma {:induction false} InvAlways(env: Env, run: seq<State>, i: nat)
    requires Run(env, run) && i < |run|
    ensures Inv(env, run[i])
  {
    if i > 0 {
      InvAlways(env, run, i - 1);
      assert Next(env, run[i - 1], run[i]);
      var step :| NextStep(env, run[i - 1], run[i], step);
      InvStep(env, run[i - 1], run[i], step);
    }
  }

  // ----- theorems -----

  /** Each issued challenge is passed by at most one request, in any interleaving. */
  lemma ChallengesPassOnce(env: Env, run: seq<State>, i: nat, p: nat, q: nat)
    requires Run(env, run) && i < |run| && p in run[i].procs && q in run[i].procs
    requires run[i].procs[p].Passed? && run[i].procs[q].Passed?
    requires Nonce(run[i].procs[p].req) == Nonce(run[i].procs[q].req)
    ensures p == q
  {
    InvAlways(env, run, i);
    assert BothPassed(run[i].procs[p], run[i].procs[q]);
  }

  /** The clock a step judges expiry by. */
  predicate UnexpiredAt(ch: Challenge, step: Step) {
    match step
    case Sweep(now) => now <= ch.expiresAt
    case Get(_, storeNow, _) => storeNow <= ch.expiresAt
    case _ => true
  }

  /** Only a request that passed every check for it burns an unexpired challenge. */
  lemma OnlyPassingBurns(env: Env, run: seq<State>, i: nat, step: Step, n: string)
    requires Run(env, run) && i + 1 < |run| && NextStep(env, run[i], run[i + 1], step)
    requires n in run[i].store && n !in run[i + 1].store && UnexpiredAt(run[i].store[n], step)
    ensures step.Delete? && run[i + 1].procs[step.p].Passed? && Nonce(run[i + 1].procs[step.p].req) == n
    ensures Accepts(env, run[i + 1].procs[step.p].req, run[i].store[n], run[i + 1].procs[step.p].now)
  {
    InvAlways(env, run, i);
    assert step.Delete? ==> PcOk(env, run[i], run[i].procs[step.p]);
  }

  lemma {:induction false} PassingIsFinal(env: Env, run: seq<State>, i: nat, j: nat, p: nat)
    requires Run(env, run) && i <= j < |run| && p in run[i].procs && run[i].procs[p].Passed?
    ensures p in run[j].procs && run[j].procs[p] == run[i].procs[p]
    decreases j
  {
    if i < j {
      PassingIsFinal(env, run, i, j - 1, p);
      assert Next(env, run[j - 1], run[j]);
    }
  }

  /** So a request that ends up refused has left every unexpired challenge in place. */
  lemma RefusedBurnsNothing(env: Env, run: seq<State>, i: nat, j: nat, step: Step, p: nat, n: string)
    requires Run(env, run) && i < j < |run| && NextStep(env, run[i], run[i + 1], step)
    requires (step.Get? || step.Delete?) && step.p == p && p in run[j].procs && run[j].procs[p].Refused?
    requires n in run[i].store && UnexpiredAt(run[i].store[n], step)
    ensures n in run[i + 1].store && run[i + 1].store[n] == run[i].store[n]
  {
    if n !in run[i + 1].store {
      OnlyPassingBurns(env, run, i, step, n);
      PassingIsFinal(env, run, i + 1, j, p);
    }
  }

  /** Exactly when two provider names can share a binding, for some redirects: they are the same
      name, or one continues the other after a newline. */
  lemma BindingsCollideIff(p: string, p': string)
    ensures (exists r, r' :: StateBinding(p, r) == StateBinding(p', r')) <==>
              p == p' || p + "\n" <= p' || p' + "\n" <= p
  {
    if r, r' :| StateBinding(p, r) == StateBinding(p', r') {
      if |p| <= |p'| { LongerContinues(p, r, p', r'); } else { LongerContinues(p', r', p, r); }
    }
    if p == p' {
      assert StateBinding(p, "") == StateBinding(p', "");
    }
    if p + "\n" <= p' {
      assert StateBinding(p, p'[|p| + 1..] + "\n") == StateBinding(p', "");
    }
    if p' + "\n" <= p {
      assert StateBinding(p, "") == StateBinding(p', p[|p'| + 1..] + "\n");
    }
  }

  lemma LongerContinues(p: string, r: string, p': string, r': string)
    requires |p| <= |p'| && StateBinding(p, r) == StateBinding(p', r')
    ensures (p == p' && r == r') || p + "\n" <= p'
  {
    var a, b := StateBinding(p, r), StateBinding(p', r');
    assert p == a[..|p|] == b[..|p|] == p'[..|p|];
    if |p| < |p'| {
      assert a[|p|] == '\n' && b[|p|] == p'[|p|];
      assert p + "\n" == p'[..|p| + 1];
    } else {
      assert r == a[|p| + 1..] && r' == b[|p'| + 1..];
    }
  }

  /** So for names without a newline a binding determines the provider and the redirect. */
  lemma BindingsAreInjective(p: string, r: string, p': string, r': string)
    requires OneLine(p) && OneLine(p') && StateBinding(p, r) == StateBinding(p', r')
    ensures p == p' && r == r'
  {
    if |p| <= |p'| { LongerContinues(p, r, p', r'); } else { LongerContinues(p', r', p, r); }
    NotContinued(p, p');
    NotContinued(p', p);
  }

  lemma NotContinued(p: string, p': string)
    requires OneLine(p')
    ensures !(p + "\n" <= p')
  {
    if |p| < |p'| {
      assert p'[|p|] != '\n' && (p + "\n")[|p|] == '\n';
    }
  }

  /** What passing proves: an OAuth request holds the binding secret of a flow started for its
      own provider and redirect; a wallet request signed the message issued for its own chain
      and address; either way before the challenge expired. Neither gate is ever passed with the
      other's challenge. */
  lemma PassingMatchesOrigin(env: Env, run: seq<State>, i: nat, p: nat)
    requires EnvOk(env) && Run(env, run) && i < |run| && p in run[i].procs && run[i].procs[p].Passed?
    ensures Nonce(run[i].procs[p].req) in run[i].issued
    ensures var origin := run[i].issued[Nonce(run[i].procs[p].req)];
            && run[i].procs[p].now < origin.expiresAt
            && match run[i].procs[p].req
               case OAuth(provider, _, _, redirectUri, binding) =>
                 origin == OAuthFlow(provider, redirectUri, env.hash(binding), origin.expiresAt)
               case Wallet(chain, address, _, signature) =>
                 && origin.WalletFlow? && origin.chain == chain && origin.address == address
                 && env.signed(address, origin.message, signature)
  {
    InvAlways(env, run, i);
    var pc := run[i].procs[p];
    assert PcOk(env, run[i], pc);
    var origin := run[i].issued[Nonce(pc.req)];
    if pc.req.OAuth? && origin.OAuthFlow? {
      BindingsAreInjective(pc.req.provider, pc.req.redirectUri, origin.provider, origin.redirectUri);
    }
  }

  // ----- challenges are issued -----

  /** A wallet can always be given a challenge under a new nonce: its row holds the message to
      sign, for its chain and address, and nothing a callback could match. */
  lemma WalletCanBeChallenged(env: Env, run: seq<State>, nonce: string, chain: string,
                              address: string, message: string, expiresAt: int)
    returns (longer: seq<State>)
    requires Run(env, run) && nonce !in run[|run| - 1].issued && chain in env.chains
    ensures Run(env, longer) && run <= longer && |longer| > |run|
    ensures var s, s' := run[|run| - 1], longer[|longer| - 1];
            && s'.store == s.store[nonce := Challenge(nonce, message, chain, address, "", "", "", expiresAt)]
            && s'.issued == s.issued[nonce := WalletFlow(chain, address, message, expiresAt)] && s'.procs == s.procs
  {
    var s := run[|run| - 1];
    var ch := Challenge(nonce, message, chain, address, "", "", "", expiresAt);
    var origin := WalletFlow(chain, address, message, expiresAt);
    longer := Extend(env, run, s.(store := s.store[nonce := ch], issued := s.issued[nonce := origin]), Issue(ch, origin));
  }

  /** And a flow can always be started for a configured provider: its row holds the joined binding
      and the hash of the browser's secret, and no chain or address. */
  lemma FlowCanBeStarted(env: Env, run: seq<State>, state: string, provider: string, redirectUri: string, verifier: string,
                         oauthNonce: string, binding: string, expiresAt: int) returns (longer: seq<State>)
    requires Run(env, run) && state !in run[|run| - 1].issued && provider in env.providers
    ensures Run(env, longer) && run <= longer && |longer| > |run|
    ensures var s, s' := run[|run| - 1], longer[|longer| - 1];
            && s'.store == s.store[state := Challenge(state, provider + "\n" + redirectUri, "", "", verifier, oauthNonce,
                                                      env.hash(binding), expiresAt)]
            && s'.issued == s.issued[state := OAuthFlow(provider, redirectUri, env.hash(binding), expiresAt)]
            && s'.procs == s.procs
  {
    var s := run[|run| - 1];
    var ch := Challenge(state, provider + "\n" + redirectUri, "", "", verifier, oauthNonce, env.hash(binding), expiresAt);
    var origin := OAuthFlow(provider, redirectUri, env.hash(binding), expiresAt);
    longer := Extend(env, run, s.(store := s.store[state := ch], issued := s.issued[state := origin]), Issue(ch, origin));
  }

  // ----- honest requests pass -----

  /** The challenge was issued to this wallet, and the request signs what was issued, in time. */
  predicate HonestWallet(env: Env, origin: Origin, req: Request, now: int) {
    && req.Wallet? && req.chain in env.chains && req.nonce != "" && req.signature != ""
    && origin.WalletFlow? && origin.chain == req.chain && origin.address == req.address && now < origin.expiresAt
    && env.signed(req.address, origin.message, req.signature)
  }

  /** The flow was started for this provider and redirect, and the request brings the secret that
      binds it to the browser, in time. */
  predicate HonestOAuth(env: Env, origin: Origin, req: Request, now: int) {
    && req.OAuth? && req.provider in env.providers && req.code != "" && req.state != "" && req.binding != ""
    && origin.OAuthFlow? && origin.provider == req.provider && origin.redirectUri == req.redirectUri
    && now < origin.expiresAt && env.hash(req.binding) != "" && origin.bindingHash == env.hash(req.binding)
  }

  predicate Honest(env: Env, origin: Origin, req: Request, now: int) {
    HonestWallet(env, origin, req, now) || HonestOAuth(env, origin, req, now)
  }

  /** In every run, an honest request that asks is not refused; its read passes every check while
      the store still has the challenge and neither clock is past its expiry; and its delete
      passes the gate if the challenge is there. */
  lemma HonestRequestsPass(env: Env, run: seq<State>, i: nat, step: Step, p: nat, req: Request, now: int)
    requires Run(env, run) && i + 1 < |run| && NextStep(env, run[i], run[i + 1], step)
    requires Nonce(req) in run[i].store && Nonce(req) in run[i].issued
    requires Honest(env, run[i].issued[Nonce(req)], req, now)
    ensures step == Ask(p, req) ==> run[i + 1].procs[p] == Asking(req)
    ensures step.Get? && step.p == p && step.now == now && run[i].procs[p] == Asking(req) ==>
              step.storeNow <= run[i].issued[Nonce(req)].expiresAt ==>
                run[i + 1].procs[p] == Deleting(req, run[i].store[Nonce(req)], now)
    ensures step == Delete(p) && run[i].procs[p].Deleting? && run[i].procs[p].req == req ==>
              run[i + 1].procs[p].Passed? && run[i + 1].procs[p].req == req && Nonce(req) !in run[i + 1].store
  {
    InvAlways(env, run, i);
    var ch := run[i].store[Nonce(req)];
    assert Fits(ch, run[i].issued[Nonce(req)]);
  }

  lemma Extend(env: Env, run: seq<State>, s: State, step: Step) returns (longer: seq<State>)
    requires Run(env, run) && NextStep(env, run[|run| - 1], s, step)
    ensures Run(env, longer) && run <= longer && |longer| == |run| + 1 && longer[|longer| - 1] == s
  {
    longer := run + [s];
    assert Next(env, run[|run| - 1], s);
    forall i, j | 0 <= i && j == i + 1 && j < |longer|
      ensures Next(env, longer[i], longer[j])
    {
      if j < |run| { assert Next(env, run[i], run[j]); }
    }
  }

  /** So from every reachable state in which its challenge is stored, an honest request can pass,
      and that burns exactly its own challenge. */
  lemma HonestRequestCanPass(env: Env, run: seq<State>, p: nat, req: Request, now: int) returns (longer: seq<State>)
    requires Run(env, run) && p !in run[|run| - 1].procs
    requires Nonce(req) in run[|run| - 1].store && Nonce(req) in run[|run| - 1].issued
    requires Honest(env, run[|run| - 1].issued[Nonce(req)], req, now)
    ensures Run(env, longer) && run <= longer
    ensures p in longer[|longer| - 1].procs
    ensures longer[|longer| - 1].procs[p] == Passed(req, run[|run| - 1].store[Nonce(req)], now)
    ensures longer[|longer| - 1].store == run[|run| - 1].store - {Nonce(req)}
  {
    var s := run[|run| - 1];
    InvAlways(env, run, |run| - 1);
    var ch := s.store[Nonce(req)];
    assert Fits(ch, s.issued[Nonce(req)]);
    var asking := s.(procs := s.procs[p := Asking(req)]);
    longer := Extend(env, run, asking, Ask(p, req));
    var deleting := s.(procs := s.procs[p := Deleting(req, ch, now)]);
    longer := Extend(env, longer, deleting, Get(p, now, now));
    longer := Extend(env, longer, s.(store := s.store - {Nonce(req)},
                                         procs := s.procs[p := Passed(req, ch, now)]), Delete(p));
  }
}
