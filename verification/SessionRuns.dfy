/** What every interleaving of the session operations keeps. */
module SessionRuns {
  import opened Common
  import opened Sessions

  // ---------------------------------------------------------------- one step

  /** The index after a step still covers what is live: only dead tokens leave it. */
  lemma ProceedIndexed(s: Store, op: nat, pick: string, cfg: Config)
    requires op in s.ops && Indexed(s) && IndexSound(s, cfg) && OpInv(s, s.ops[op], cfg)
    ensures Indexed(ProceedOp(s, op, pick, cfg)) && IndexSound(ProceedOp(s, op, pick, cfg), cfg)
  {
    var o, t := s.ops[op], ProceedOp(s, op, pick, cfg);
    ProceedTokens(s, op, pick, cfg);
    IndexLoses(s, o);
    forall x | Live(t, x)
      ensures var u := t.tokens[x].user; u in t.index && x in t.index[u].members && t.tokens[x].until <= t.index[u].until
    {
      assert Live(s, x);
      assert x !in Settled(o);
    }
  }

  lemma IndexLoses(s: Store, o: Op)
    requires o.Sweep? ==> o.todo <= o.all
    ensures IndexAfter(s, o).Keys == s.index.Keys
    ensures forall u :: u in s.index ==>
      && IndexAfter(s, o)[u].until == s.index[u].until
      && s.index[u].members - Settled(o) <= IndexAfter(s, o)[u].members <= s.index[u].members
  {
  }

  /** Tokens leave or expire, the index stays. */
  lemma FewerIndexed(s: Store, t: Store, cfg: Config)
    requires Indexed(s) && IndexSound(s, cfg)
    requires s.now <= t.now && s.issued <= t.issued && t.index == s.index && OnlyLeave(s.tokens, t.tokens)
    ensures Indexed(t) && IndexSound(t, cfg)
  {
    forall x | Live(t, x) ensures Live(s, x) { }
  }

  lemma PlainIndexed(s: Store, e: Event, cfg: Config)
    requires !e.Proceed? && Indexed(s) && IndexSound(s, cfg)
    requires cfg.refreshTtl >= 0.0
    ensures Indexed(Step(s, e, cfg)) && IndexSound(Step(s, e, cfg), cfg)
  {
    if e.Create? {
      CreateIndexed(s, e, cfg);
    } else {
      PlainTokens(s, e, cfg);
      FewerIndexed(s, Step(s, e, cfg), cfg);
    }
  }

  lemma PlainTokens(s: Store, e: Event, cfg: Config)
    requires !e.Proceed? && !e.Create?
    ensures var t := Step(s, e, cfg);
      s.now <= t.now && s.issued <= t.issued && t.index == s.index && OnlyLeave(s.tokens, t.tokens)
  {
    match e
    case Claim(op, x) => if op !in s.ops && Live(s, x) { TakenOnly(s, StartClaim(s, op, x), x); }
    case Revoke(op, x) => if op !in s.ops && Live(s, x) { TakenOnly(s, StartRevoke(s, op, x), x); }
    case _ =>
  }

  lemma TakenOnly(s: Store, t: Store, x: string)
    requires t.tokens == s.tokens - {x}
    ensures OnlyLeave(s.tokens, t.tokens)
  {
  }

  ghost predicate Covers(s: Store, x: string) {
    Live(s, x) ==>
      var u := s.tokens[x].user;
      u in s.index && x in s.index[u].members && s.tokens[x].until <= s.index[u].until
  }

  lemma CreateIndexed(s: Store, e: Event, cfg: Config)
    requires e.Create? && Indexed(s) && IndexSound(s, cfg) && cfg.refreshTtl >= 0.0
    ensures Indexed(Step(s, e, cfg)) && IndexSound(Step(s, e, cfg), cfg)
  {
    if e.token !in s.issued {
      var token := Token(e.user, e.legacy, e.sid, s.now + RefreshTtl(cfg));
      CreateIs(s, e, token, cfg);
      CreatedIndexed(s, e.token, token, Step(s, e, cfg), cfg);
    }
  }

  lemma CreateIs(s: Store, e: Event, token: Token, cfg: Config)
    requires e.Create? && e.token !in s.issued && token == Token(e.user, e.legacy, e.sid, s.now + RefreshTtl(cfg))
    ensures Created(s, e.token, token, Step(s, e, cfg), cfg)
  {
  }

  lemma CreatedIndexed(s: Store, x: string, token: Token, t: Store, cfg: Config)
    requires Indexed(s) && IndexSound(s, cfg) && cfg.refreshTtl >= 0.0 && Created(s, x, token, t, cfg)
    ensures Indexed(t) && IndexSound(t, cfg)
  {
    forall y ensures Covers(t, y) {
      assert Covers(s, y);
      CreateCovers(s, x, token, t, y, cfg);
    }
    CreateSound(s, x, token, t, cfg);
    CoversAll(t);
  }

  lemma CoversAll(t: Store)
    requires forall y :: Covers(t, y)
    ensures Indexed(t)
  {
    forall y | Live(t, y) ensures Covers(t, y) { }
  }

  ghost predicate Created(s: Store, x: string, token: Token, t: Store, cfg: Config) {
    && t.now == s.now && t.issued == s.issued + {x} && t.tokens == s.tokens[x := token]
    && token.until == s.now + RefreshTtl(cfg)
    && t.index == s.index[token.user := Index(Members(s, token.user) + {x}, token.until)]
  }

  lemma CreateSound(s: Store, x: string, token: Token, t: Store, cfg: Config)
    requires IndexSound(s, cfg) && Created(s, x, token, t, cfg)
    ensures IndexSound(t, cfg)
  {
  }

  lemma CreateCovers(s: Store, x: string, token: Token, t: Store, y: string, cfg: Config)
    requires Covers(s, y) && IndexSound(s, cfg) && Created(s, x, token, t, cfg)
    requires cfg.refreshTtl >= 0.0
    ensures Covers(t, y)
  {
  }

  lemma StepClaims(s: Store, e: Event, cfg: Config)
    requires ClaimedOnce(s)
    ensures ClaimedOnce(Step(s, e, cfg))
  {
    if e.Proceed? && e.op in s.ops {
      ProceedTokens(s, e.op, e.pick, cfg);
    } else if e.Claim? && e.op !in s.ops && Live(s, e.token) {
      var t := Step(s, e, cfg);
      assert e.token in s.tokens;
      assert e.token !in s.claims;
    }
  }

  lemma StepEnds(s: Store, e: Event, cfg: Config)
    requires EndsOutlive(s, cfg)
    requires forall op :: op in s.ops ==> OpInv(s, s.ops[op], cfg)
    ensures EndsOutlive(Step(s, e, cfg), cfg)
  {
    if e.Proceed? && e.op in s.ops && s.ops[e.op].EndAllWrite? {
      assert OpInv(s, s.ops[e.op], cfg);
    }
  }

  /** The operation a step moves on is left in order. */
  lemma MovedOp(s: Store, op: nat, pick: string, cfg: Config)
    requires op in s.ops && IndexSound(s, cfg) && OpInv(s, s.ops[op], cfg)
    ensures var n := NextOp(s, s.ops[op], pick); n.Some? ==> OpInv(ProceedOp(s, op, pick, cfg), n.value, cfg)
  {
    var o, t := s.ops[op], ProceedOp(s, op, pick, cfg);
    match o {
      case Sweep(_, _, _, _, _) => MovedSweep(s, op, pick, cfg);
      case SweepNote(_, _, _, _, _, _) => MovedNote(s, op, pick, cfg);
      case ReuseLook(_, _, _, _) => MovedLook(s, op, pick, cfg);
      case ReuseTake(_, _, _, _, _) => MovedTake(s, op, pick, cfg);
      case SweepRead(_) => MovedRead(s, op, pick, cfg);
      case ReuseRead(_, _) => MovedRead(s, op, pick, cfg);
      case _ => MovedPlain(s, op, pick, cfg);
    }
  }

  /** An operation that just read the index holds issued tokens, none of them looked at. */
  lemma MovedRead(s: Store, op: nat, pick: string, cfg: Config)
    requires op in s.ops && IndexSound(s, cfg) && (s.ops[op].SweepRead? || s.ops[op].ReuseRead?)
    ensures var n := NextOp(s, s.ops[op], pick); n.Some? && OpInv(ProceedOp(s, op, pick, cfg), n.value, cfg)
  {
    ProceedTokens(s, op, pick, cfg);
    assert Members(s, s.ops[op].user) <= s.issued;
  }

  lemma MovedPlain(s: Store, op: nat, pick: string, cfg: Config)
    requires op in s.ops && OpInv(s, s.ops[op], cfg)
    requires var o := s.ops[op]; !o.Sweep? && !o.SweepNote? && !o.ReuseLook? && !o.ReuseTake? && !o.SweepRead? && !o.ReuseRead?
    ensures var n := NextOp(s, s.ops[op], pick); n.Some? ==> OpInv(ProceedOp(s, op, pick, cfg), n.value, cfg)
  {
    StepFollows(s, Proceed(op, pick), cfg);
    OthersKeep(s, ProceedOp(s, op, pick, cfg), s.ops[op], cfg);
  }

  lemma MovedSweep(s: Store, op: nat, pick: string, cfg: Config)
    requires op in s.ops && s.ops[op].Sweep? && OpInv(s, s.ops[op], cfg)
    ensures var n := NextOp(s, s.ops[op], pick); n.Some? && OpInv(ProceedOp(s, op, pick, cfg), n.value, cfg)
  {
    var o, t := s.ops[op], ProceedOp(s, op, pick, cfg);
    var n := NextOp(s, o, pick).value;
    ProceedTokens(s, op, pick, cfg);
    assert t.ended == s.ended;
    assert NotedHolds(t, o.noted, cfg);
    if pick in o.todo {
      assert !Live(t, pick);
      assert Settled(n) == Settled(o) + {pick};
    } else {
      assert Settled(n) == Settled(o);
    }
  }

  lemma MovedLook(s: Store, op: nat, pick: string, cfg: Config)
    requires op in s.ops && s.ops[op].ReuseLook? && OpInv(s, s.ops[op], cfg)
    ensures var n := NextOp(s, s.ops[op], pick); n.Some? && OpInv(ProceedOp(s, op, pick, cfg), n.value, cfg)
  {
    var o, t := s.ops[op], ProceedOp(s, op, pick, cfg);
    assert t.tokens == s.tokens && t.now == s.now && t.issued == s.issued;
    if o.todo == {} {
      assert o.all - o.todo == o.all;
    }
  }

  lemma MovedTake(s: Store, op: nat, pick: string, cfg: Config)
    requires op in s.ops && s.ops[op].ReuseTake? && OpInv(s, s.ops[op], cfg)
    ensures var n := NextOp(s, s.ops[op], pick); n.Some? && OpInv(ProceedOp(s, op, pick, cfg), n.value, cfg)
  {
    var o, t := s.ops[op], ProceedOp(s, op, pick, cfg);
    ProceedTokens(s, op, pick, cfg);
    assert !Live(t, o.token);
    assert FreeOf(t, o.all - o.todo - {o.token}, o.session);
  }

  lemma MovedNote(s: Store, op: nat, pick: string, cfg: Config)
    requires op in s.ops && s.ops[op].SweepNote? && OpInv(s, s.ops[op], cfg)
    ensures var n := NextOp(s, s.ops[op], pick); n.Some? && OpInv(ProceedOp(s, op, pick, cfg), n.value, cfg)
  {
    StepFollows(s, Proceed(op, pick), cfg);
    OthersKeep(s, ProceedOp(s, op, pick, cfg), s.ops[op], cfg);
  }

  lemma StepOps(s: Store, e: Event, cfg: Config)
    requires Inv(s, cfg)
    ensures forall op :: op in Step(s, e, cfg).ops ==> OpInv(Step(s, e, cfg), Step(s, e, cfg).ops[op], cfg)
  {
    var t := Step(s, e, cfg);
    StepFollows(s, e, cfg);
    forall op | op in t.ops ensures OpInv(t, t.ops[op], cfg) {
      if op in s.ops && t.ops[op] == s.ops[op] {
        OthersKeep(s, t, s.ops[op], cfg);
      } else if e.Proceed? {
        MovedOp(s, op, e.pick, cfg);
      } else {
        StartedOp(s, e, op, cfg);
      }
    }
  }

  lemma StartedOp(s: Store, e: Event, op: nat, cfg: Config)
    requires !e.Proceed? && op !in s.ops && s.tokens.Keys <= s.issued
    requires op in Step(s, e, cfg).ops
    ensures OpInv(Step(s, e, cfg), Step(s, e, cfg).ops[op], cfg)
  {
  }

  lemma StepKeeps(s: Store, e: Event, cfg: Config)
    requires Inv(s, cfg) && cfg.refreshTtl >= 0.0
    ensures Inv(Step(s, e, cfg), cfg)
  {
    if e.Proceed? {
      if e.op in s.ops {
        ProceedIndexed(s, e.op, e.pick, cfg);
      }
    } else {
      PlainIndexed(s, e, cfg);
    }
    StepClaims(s, e, cfg);
    StepEnds(s, e, cfg);
    StepOps(s, e, cfg);
  }

  lemma {:induction false} RunKeeps(s: Store, es: seq<Event>, cfg: Config)
    requires Inv(s, cfg) && cfg.refreshTtl >= 0.0
    ensures Inv(Run(s, es, cfg), cfg)
  {
    if es != [] {
      RunKeeps(s, es[..|es| - 1], cfg);
      StepKeeps(Run(s, es[..|es| - 1], cfg), es[|es| - 1], cfg);
    }
  }

  // ---------------------------------------------------------------- every run

  lemma EmptyInv(cfg: Config)
    ensures Inv(EMPTY, cfg)
  {
  }

  /** Each live token is in its user's index, and that index outlives it. */
  lemma LiveTokensIndexed(es: seq<Event>, cfg: Config, t: string)
    requires cfg.refreshTtl >= 0.0
    requires Live(Run(EMPTY, es, cfg), t)
    ensures var s := Run(EMPTY, es, cfg); var u := s.tokens[t].user;
      t in Members(s, u) && s.tokens[t].until <= s.index[u].until
  {
    EmptyInv(cfg);
    RunKeeps(EMPTY, es, cfg);
  }

  /** No token is claimed twice, and a claimed token never lives again. */
  lemma ClaimedAtMostOnce(es: seq<Event>, cfg: Config, i: nat)
    requires cfg.refreshTtl >= 0.0
    requires i < |Run(EMPTY, es, cfg).claims|
    ensures var s := Run(EMPTY, es, cfg);
      !Live(s, s.claims[i]) && forall j :: 0 <= j < |s.claims| && j != i ==> s.claims[j] != s.claims[i]
  {
    EmptyInv(cfg);
    RunKeeps(EMPTY, es, cfg);
  }

  /** What a sweep took from its index read. */
  function Taken(o: Op): Option<set<string>> {
    match o
    case Sweep(_, all, _, _, _) => Some(all)
    case SweepNote(_, all, _, _, _, _) => Some(all)
    case Swept(_, all, _, _) => Some(all)
    case ReuseLook(_, _, all, _) => Some(all)
    case ReuseTake(_, _, all, _, _) => Some(all)
    case ReuseUnindex(_, _, all, _, _) => Some(all)
    case ReuseDone(_, _, all) => Some(all)
    case _ => None
  }

  lemma TakenStep(s: Store, e: Event, cfg: Config, op: nat, all: set<string>)
    requires op in s.ops && Taken(s.ops[op]) == Some(all) && e != Abandon(op)
    ensures var t := Step(s, e, cfg); op in t.ops && Taken(t.ops[op]) == Some(all)
  {
    match e
    case Proceed(o, pick) => if o in s.ops { assert NextOp(s, s.ops[op], pick).Some?; }
    case _ =>
  }

  /** A sweep that has read its index works on that read to its end. */
  lemma {:induction false} SweepKeepsItsRead(s: Store, es: seq<Event>, cfg: Config, op: nat, all: set<string>)
    requires op in s.ops && Taken(s.ops[op]) == Some(all)
    requires Abandon(op) !in es
    ensures var t := Run(s, es, cfg); op in t.ops && Taken(t.ops[op]) == Some(all)
  {
    if es != [] {
      SweepKeepsItsRead(s, es[..|es| - 1], cfg, op, all);
      var e := es[|es| - 1];
      assert e in es;
      TakenStep(Run(s, es[..|es| - 1], cfg), e, cfg, op, all);
    }
  }

  /** A sweep that read the index in `s` and has returned in `t`: no token of the user that was live
      at the read is live, and every session whose token it deleted was recorded as ended, by a record
      that holds for `Lasting` from then however often it is rewritten. */
  ghost predicate Revoked(s: Store, t: Store, o: Op, user: string, cfg: Config)
    requires o.Swept?
  {
    && o.all == Members(s, user)
    && (forall x :: x in o.all ==> !Live(t, x))
    && (forall x :: Live(s, x) && s.tokens[x].user == user ==> !Live(t, x))
    && (forall x :: x in o.removed ==>
          x in o.noted && o.noted[x] <= t.now && x in t.ended && t.ended[x] >= o.noted[x] + Lasting(cfg))
  }

  lemma SweptRevokes(s: Store, t: Store, o: Op, user: string, cfg: Config)
    requires Indexed(s) && OpInv(t, o, cfg) && o.Swept? && o.all == Members(s, user)
    ensures Revoked(s, t, o, user, cfg)
  {
  }

  lemma RevokeAllFrom(s: Store, more: seq<Event>, cfg: Config, op: nat, pick: string, user: string)
    requires Inv(s, cfg) && cfg.refreshTtl >= 0.0 && op in s.ops && s.ops[op] == SweepRead(user) && Abandon(op) !in more
    ensures var t := Run(Step(s, Proceed(op, pick), cfg), more, cfg);
      op in t.ops && (t.ops[op].Swept? ==> Revoked(s, t, t.ops[op], user, cfg))
  {
    var s1 := Step(s, Proceed(op, pick), cfg);
    StepKeeps(s, Proceed(op, pick), cfg);
    RunKeeps(s1, more, cfg);
    ReadTakes(s, op, pick, user, cfg);
    SweepKeepsItsRead(s1, more, cfg, op, Members(s, user));
    SweepEnds(s, Run(s1, more, cfg), op, user, cfg);
  }

  lemma SweepEnds(s: Store, t: Store, op: nat, user: string, cfg: Config)
    requires Indexed(s) && Inv(t, cfg) && op in t.ops && Taken(t.ops[op]) == Some(Members(s, user))
    ensures t.ops[op].Swept? ==> Revoked(s, t, t.ops[op], user, cfg)
  {
    assert OpInv(t, t.ops[op], cfg);
    if t.ops[op].Swept? { SweptRevokes(s, t, t.ops[op], user, cfg); }
  }

  /** A revoke-all reads the index in some reachable state; whatever interleaves, once it has returned
      its read is revoked. */
  lemma RevokeAllRevokes(es: seq<Event>, more: seq<Event>, cfg: Config, op: nat, pick: string, user: string)
    requires cfg.refreshTtl >= 0.0
    requires var s := Run(EMPTY, es, cfg); op in s.ops && s.ops[op] == SweepRead(user)
    requires Abandon(op) !in more
    ensures var s := Run(EMPTY, es, cfg); var t := Run(Step(s, Proceed(op, pick), cfg), more, cfg);
      op in t.ops && (t.ops[op].Swept? ==> Revoked(s, t, t.ops[op], user, cfg))
  {
    EmptyInv(cfg);
    RunKeeps(EMPTY, es, cfg);
    RevokeAllFrom(Run(EMPTY, es, cfg), more, cfg, op, pick, user);
  }

  lemma ReadTakes(s: Store, op: nat, pick: string, user: string, cfg: Config)
    requires op in s.ops && s.ops[op] == SweepRead(user)
    ensures var t := Step(s, Proceed(op, pick), cfg); op in t.ops && Taken(t.ops[op]) == Some(Members(s, user))
  {
  }

  // ---------------------------------------------------------------- ending a reused session

  /** The session a reuse is ending. */
  function Ends(o: Op): Option<string> {
    match o
    case ReuseLook(_, session, _, _) => Some(session)
    case ReuseTake(_, session, _, _, _) => Some(session)
    case ReuseUnindex(_, session, _, _, _) => Some(session)
    case ReuseDone(_, session, _) => Some(session)
    case _ => None
  }

  lemma {:induction false} ReuseKeepsItsSession(s: Store, es: seq<Event>, cfg: Config, op: nat, session: string)
    requires op in s.ops && Ends(s.ops[op]) == Some(session)
    requires Abandon(op) !in es
    ensures var t := Run(s, es, cfg); op in t.ops && Ends(t.ops[op]) == Some(session)
  {
    if es != [] {
      ReuseKeepsItsSession(s, es[..|es| - 1], cfg, op, session);
      var e := es[|es| - 1];
      assert e in es;
      EndsStep(Run(s, es[..|es| - 1], cfg), e, cfg, op, session);
    }
  }

  lemma EndsStep(s: Store, e: Event, cfg: Config, op: nat, session: string)
    requires op in s.ops && Ends(s.ops[op]) == Some(session) && e != Abandon(op)
    ensures var t := Step(s, e, cfg); op in t.ops && Ends(t.ops[op]) == Some(session)
  {
    match e
    case Proceed(o, pick) => if o in s.ops { assert NextOp(s, s.ops[op], pick).Some?; }
    case _ =>
  }

  lemma ReuseReadTakes(s: Store, op: nat, pick: string, user: string, session: string, cfg: Config)
    requires op in s.ops && s.ops[op] == ReuseRead(user, session)
    ensures var t := Step(s, Proceed(op, pick), cfg);
      op in t.ops && Taken(t.ops[op]) == Some(Members(s, user)) && Ends(t.ops[op]) == Some(session)
  {
  }

  lemma ReuseEndsFrom(s: Store, more: seq<Event>, cfg: Config, op: nat, pick: string, user: string, session: string)
    requires Inv(s, cfg) && cfg.refreshTtl >= 0.0 && op in s.ops && s.ops[op] == ReuseRead(user, session) && Abandon(op) !in more
    ensures var t := Run(Step(s, Proceed(op, pick), cfg), more, cfg);
      op in t.ops && (t.ops[op].ReuseDone? ==> NoneLeft(s, t, user, session))
  {
    var s1 := Step(s, Proceed(op, pick), cfg);
    StepKeeps(s, Proceed(op, pick), cfg);
    RunKeeps(s1, more, cfg);
    ReuseReadTakes(s, op, pick, user, session, cfg);
    SweepKeepsItsRead(s1, more, cfg, op, Members(s, user));
    ReuseKeepsItsSession(s1, more, cfg, op, session);
    StepFollows(s, Proceed(op, pick), cfg);
    RunOnlyDies(s1, more, cfg);
    ReuseEnded(s, s1, Run(s1, more, cfg), op, user, session, cfg);
  }

  /** No token of the user and session that was live in `s` is live in `t`. */
  ghost predicate NoneLeft(s: Store, t: Store, user: string, session: string) {
    forall x :: Live(s, x) && s.tokens[x].user == user && SessionOf(s.tokens[x]) == Some(session) ==> !Live(t, x)
  }

  /** A token issued by `s` that lives in `t` lived in `s`, unchanged. */
  ghost predicate OnlyDie(s: Store, t: Store) {
    && s.issued <= t.issued
    && (forall x :: x in s.issued && Live(t, x) ==> Live(s, x) && t.tokens[x] == s.tokens[x])
  }

  lemma {:induction false} RunOnlyDies(s: Store, es: seq<Event>, cfg: Config)
    ensures OnlyDie(s, Run(s, es, cfg))
  {
    if es != [] {
      RunOnlyDies(s, es[..|es| - 1], cfg);
      StepFollows(Run(s, es[..|es| - 1], cfg), es[|es| - 1], cfg);
    }
  }

  lemma ReuseEnded(s: Store, s1: Store, t: Store, op: nat, user: string, session: string, cfg: Config)
    requires Indexed(s) && s.tokens.Keys <= s.issued && Follows(s, s1, cfg) && OnlyDie(s1, t)
    requires op in t.ops && OpInv(t, t.ops[op], cfg) && Taken(t.ops[op]) == Some(Members(s, user)) && Ends(t.ops[op]) == Some(session)
    ensures t.ops[op].ReuseDone? ==> NoneLeft(s, t, user, session)
  {
  }

  /** When the ending of a reused session has returned, no refresh token of that user and session live
      at its index read is live, whatever interleaved. */
  lemma ReuseEndsTheSession(es: seq<Event>, more: seq<Event>, cfg: Config, op: nat, pick: string, user: string, session: string)
    requires cfg.refreshTtl >= 0.0
    requires var s := Run(EMPTY, es, cfg); op in s.ops && s.ops[op] == ReuseRead(user, session)
    requires Abandon(op) !in more
    ensures var s := Run(EMPTY, es, cfg); var t := Run(Step(s, Proceed(op, pick), cfg), more, cfg);
      op in t.ops && (t.ops[op].ReuseDone? ==> NoneLeft(s, t, user, session))
  {
    EmptyInv(cfg);
    RunKeeps(EMPTY, es, cfg);
    ReuseEndsFrom(Run(EMPTY, es, cfg), more, cfg, op, pick, user, session);
  }
}
