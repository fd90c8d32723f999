/** A claimed refresh token is remembered for its lifetime, so that presenting it again is told apart
    (services/api_gateway/messaging/refresh_tokens.py). */
module SessionReuse {
  import opened Common
  import opened Sessions
  import opened SessionRuns

  predicate Claiming(s: Store, op: nat, t: string) {
    op in s.ops && (s.ops[op].ClaimUnindex? || s.ops[op].ClaimNote?) && s.ops[op].token == t
  }

  predicate Agree(a: Rotation, b: Rotation) { (a.user, a.sid, a.at) == (b.user, b.sid, b.at) }

  /** A token whose claim is under way is claimed and not yet on record, and has one claim under way. */
  ghost predicate ClaimsApart(s: Store) {
    && (forall op, t :: Claiming(s, op, t) ==> t in s.claims && t !in s.rotated)
    && (forall a, b, t :: Claiming(s, a, t) && Claiming(s, b, t) ==> a == b)
    && (forall t :: t in s.rotated ==> t in s.claims)
  }

  /** A reuse about to mark a record holds that record. */
  ghost predicate MarksAgree(s: Store) {
    forall op :: op in s.ops && s.ops[op].ReuseMark? ==> s.ops[op].token in s.rotated && Agree(s.rotated[s.ops[op].token], s.ops[op].record)
  }

  ghost predicate RecordsRecent(s: Store, cfg: Config) {
    forall t :: t in s.rotated ==> s.rotated[t].until <= s.now + RefreshTtl(cfg)
  }

  ghost predicate RotInv(s: Store, cfg: Config) { ClaimsApart(s) && MarksAgree(s) && RecordsRecent(s, cfg) }

  /** What every step does to the records: none leaves, changes what it says, or ends sooner. */
  ghost predicate Remembers(s: Store, t: Store) {
    forall x :: x in s.rotated ==> x in t.rotated && Agree(t.rotated[x], s.rotated[x]) && t.rotated[x].until >= s.rotated[x].until
  }

  lemma ProceedRotates(s: Store, op: nat, pick: string, cfg: Config)
    requires op in s.ops
    ensures var t := ProceedOp(s, op, pick, cfg); var o := s.ops[op];
      && t.now == s.now && t.claims == s.claims
      && (o.ClaimNote? ==> t.rotated == s.rotated[o.token := Rotation(o.user, o.sid, s.now, s.now + RefreshTtl(cfg), false)])
      && (o.ReuseMark? ==> t.rotated == s.rotated[o.token := o.record.(ended := true, until := s.now + RefreshTtl(cfg))])
      && (!o.ClaimNote? && !o.ReuseMark? ==> t.rotated == s.rotated)
      && (forall x :: x != op ==> (x in t.ops <==> x in s.ops) && (x in s.ops ==> t.ops[x] == s.ops[x]))
      && (op in t.ops && t.ops[op].ReuseMark? ==> t.ops[op] == o)
      && (forall y :: Claiming(t, op, y) ==> Claiming(s, op, y) && !o.ClaimNote?)
  {
    ProceedTokens(s, op, pick, cfg);
  }

  lemma ProceedRemembers(s: Store, op: nat, pick: string, cfg: Config)
    requires op in s.ops && RotInv(s, cfg)
    ensures Remembers(s, ProceedOp(s, op, pick, cfg)) && RecordsRecent(ProceedOp(s, op, pick, cfg), cfg)
  {
    ProceedRotates(s, op, pick, cfg);
    var o := s.ops[op];
    if o.ClaimNote? { assert Claiming(s, op, o.token); }
  }

  lemma ProceedRotInv(s: Store, op: nat, pick: string, cfg: Config)
    requires op in s.ops && RotInv(s, cfg)
    ensures RotInv(ProceedOp(s, op, pick, cfg), cfg)
  {
    var o, t := s.ops[op], ProceedOp(s, op, pick, cfg);
    ProceedRotates(s, op, pick, cfg);
    ProceedRemembers(s, op, pick, cfg);
    if o.ClaimNote? { assert Claiming(s, op, o.token); }
    forall a, x | Claiming(t, a, x) ensures Claiming(s, a, x) && x in t.claims && x !in t.rotated {
      if a != op { assert t.ops[a] == s.ops[a]; }
      assert Claiming(s, a, x);
    }
    forall a | a in t.ops && t.ops[a].ReuseMark? ensures t.ops[a].token in t.rotated && Agree(t.rotated[t.ops[a].token], t.ops[a].record) {
      if a != op { assert t.ops[a] == s.ops[a]; }
      assert s.ops[a] == t.ops[a];
    }
  }

  /** Events other than a pending operation's next call leave the records alone. */
  lemma PlainRotates(s: Store, e: Event, cfg: Config)
    requires !e.Proceed?
    ensures var t := Step(s, e, cfg);
      && t.rotated == s.rotated && s.now <= t.now
      && (t.claims == s.claims || (e.Claim? && e.op !in s.ops && Live(s, e.token) && t.claims == s.claims + [e.token]))
      && (forall x :: x in t.ops && x in s.ops ==> t.ops[x] == s.ops[x])
  {
  }

  lemma PlainStarts(s: Store, e: Event, cfg: Config, x: nat)
    requires !e.Proceed? && x !in s.ops && x in Step(s, e, cfg).ops
    ensures var t := Step(s, e, cfg); var o := t.ops[x];
      && (o.ClaimUnindex? || o.ClaimNote? ==> e == Claim(x, o.token) && t.claims == s.claims + [o.token])
      && (o.ReuseMark? ==> o.token in s.rotated && o.record == s.rotated[o.token])
  {
  }

  lemma PlainRotInv(s: Store, e: Event, cfg: Config)
    requires !e.Proceed? && RotInv(s, cfg) && ClaimedOnce(s)
    ensures RotInv(Step(s, e, cfg), cfg) && Remembers(s, Step(s, e, cfg))
  {
    var t := Step(s, e, cfg);
    PlainRotates(s, e, cfg);
    forall x | x in t.ops && x !in s.ops
      ensures (forall y :: Claiming(t, x, y) ==> e == Claim(x, y) && t.claims == s.claims + [y])
      ensures t.ops[x].ReuseMark? ==> t.ops[x].token in s.rotated && t.ops[x].record == s.rotated[t.ops[x].token]
    {
      PlainStarts(s, e, cfg, x);
    }
    forall a, x | Claiming(t, a, x) ensures x in t.claims && x !in t.rotated && (a in s.ops ==> Claiming(s, a, x)) {
      if a in s.ops { assert Claiming(s, a, x); } else { assert x in s.tokens; }
    }
    forall a, b, x | Claiming(t, a, x) && Claiming(t, b, x) ensures a == b {
      if a in s.ops { assert Claiming(s, a, x); }
      if b in s.ops { assert Claiming(s, b, x); }
    }
  }

  lemma {:induction false} RunRotInv(s: Store, es: seq<Event>, cfg: Config)
    requires RotInv(s, cfg) && ClaimedOnce(s)
    ensures var t := Run(s, es, cfg); RotInv(t, cfg) && ClaimedOnce(t) && Remembers(s, t)
  {
    if es != [] {
      var t, e := Run(s, es[..|es| - 1], cfg), es[|es| - 1];
      RunRotInv(s, es[..|es| - 1], cfg);
      StepClaims(t, e, cfg);
      if !e.Proceed? { PlainRotInv(t, e, cfg); }
      else if e.op in t.ops { ProceedRotInv(t, e.op, e.pick, cfg); ProceedRemembers(t, e.op, e.pick, cfg); }
    }
  }

  lemma RecognisedFrom(s: Store, more: seq<Event>, cfg: Config, op: nat, pick: string, token: string)
    requires RotInv(s, cfg) && ClaimedOnce(s) && op in s.ops && s.ops[op].ClaimNote? && s.ops[op].token == token
    ensures var t := Run(Step(s, Proceed(op, pick), cfg), more, cfg);
      && token in t.rotated && t.rotated[token].sid == s.ops[op].sid
      && t.rotated[token].at == s.now && t.rotated[token].until >= s.now + RefreshTtl(cfg)
  {
    var s1 := Step(s, Proceed(op, pick), cfg);
    StepClaims(s, Proceed(op, pick), cfg);
    ProceedRotInv(s, op, pick, cfg);
    ProceedRotates(s, op, pick, cfg);
    RunRotInv(s1, more, cfg);
  }

  /** Once a claim is on record, on every run, presenting the token again after the grace and within its
      lifetime is recognised: as the reuse that ends its session, or as one that already did. */
  lemma ReuseIsRecognised(es: seq<Event>, more: seq<Event>, cfg: Config, op: nat, pick: string, token: string)
    requires var s := Run(EMPTY, es, cfg); op in s.ops && s.ops[op].ClaimNote? && s.ops[op].token == token
    ensures var s := Run(EMPTY, es, cfg); var t := Run(Step(s, Proceed(op, pick), cfg), more, cfg);
      s.now + ROTATION_GRACE < t.now < s.now + RefreshTtl(cfg) ==>
        token in t.rotated && t.rotated[token].sid == s.ops[op].sid && (Reused(t, token) || t.rotated[token].ended)
  {
    RunRotInv(EMPTY, es, cfg);
    RecognisedFrom(Run(EMPTY, es, cfg), more, cfg, op, pick, token);
  }
}
