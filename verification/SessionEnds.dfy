/** Which access tokens an end refuses, and for how long
    (libs/industryflow_contracts/industryflow_contracts/sessions.py and
    services/api_gateway/messaging/refresh_tokens.py). */
module SessionEnds {
  import opened Common
  import opened Sessions
  import opened SessionRuns

  predicate SessionEnded(s: Store, session: string) { session in s.ended && s.now < s.ended[session] }

  /** The end of all the user's sessions, if it is still on record. */
  function EndOf(s: Store, user: string): Option<real> {
    if user in s.userEnds && s.now < s.userEnds[user].until then Some(s.userEnds[user].at) else None
  }

  predicate RefusedBy(end: Option<real>, iat: Option<real>) {
    end.Some? && (iat.None? || iat.value <= end.value + CLOCK_SKEW)
  }

  /** What every request asks of an access token. */
  predicate Refused(s: Store, user: string, session: Option<string>, iat: Option<real>) {
    (session.Some? && SessionEnded(s, session.value)) || RefusedBy(EndOf(s, user), iat)
  }

  /** The latest expiry of a token issued at `iat`: its lifetime, and up to 58 seconds between reading
      the issue time and fixing the expiry. */
  function Expiry(iat: real, cfg: Config): real { iat + AccessTtl(cfg) + 58.0 }

  predicate Unexpired(s: Store, iat: real, cfg: Config) { s.now < Expiry(iat, cfg) }

  // ---------------------------------------------------------------- refusals last

  /** The user whose end this event puts on record. */
  predicate WritesEnd(s: Store, e: Event, user: string) {
    e.Proceed? && e.op in s.ops && s.ops[e.op].EndAllWrite? && s.ops[e.op].user == user
  }

  /** The event does not move the user's recorded end back while tokens it refuses are unexpired. */
  predicate InOrder(s: Store, e: Event, user: string, cfg: Config) {
    WritesEnd(s, e, user) && user in s.userEnds ==>
      s.ops[e.op].at >= s.userEnds[user].at || s.now >= s.userEnds[user].at + EndedTtl(cfg)
  }

  ghost predicate KeepsRefusals(s: Store, t: Store, user: string, cfg: Config) {
    forall iat :: RefusedBy(EndOf(s, user), Some(iat)) && Unexpired(t, iat, cfg) ==> RefusedBy(EndOf(t, user), Some(iat))
  }

  lemma OtherEventsKeepEnds(s: Store, e: Event, user: string, cfg: Config)
    requires !WritesEnd(s, e, user)
    ensures var t := Step(s, e, cfg); s.now <= t.now && (user in t.userEnds <==> user in s.userEnds)
    ensures user in s.userEnds ==> Step(s, e, cfg).userEnds[user] == s.userEnds[user]
  {
    StepFollows(s, e, cfg);
  }

  lemma OthersKeepRefusals(s: Store, e: Event, user: string, cfg: Config)
    requires EndsOutlive(s, cfg) && !WritesEnd(s, e, user)
    ensures KeepsRefusals(s, Step(s, e, cfg), user, cfg)
  {
    OtherEventsKeepEnds(s, e, user, cfg);
  }

  /** One step keeps every unexpired token refused exactly when it does not move the end back. */
  lemma EndWriteExactly(s: Store, e: Event, user: string, cfg: Config)
    requires EndsOutlive(s, cfg) && OpsSound(s, cfg) && cfg.accessTtl >= 0.0
    ensures KeepsRefusals(s, Step(s, e, cfg), user, cfg) <==> InOrder(s, e, user, cfg)
  {
    if !WritesEnd(s, e, user) {
      OthersKeepRefusals(s, e, user, cfg);
    } else {
      WriteExactly(s, e.op, e.pick, user, cfg);
    }
  }

  ghost predicate OpsSound(s: Store, cfg: Config) { forall op :: op in s.ops ==> OpInv(s, s.ops[op], cfg) }

  lemma WriteExactly(s: Store, op: nat, pick: string, user: string, cfg: Config)
    requires EndsOutlive(s, cfg) && op in s.ops && s.ops[op].EndAllWrite? && s.ops[op].user == user
    requires OpInv(s, s.ops[op], cfg) && cfg.accessTtl >= 0.0
    ensures KeepsRefusals(s, Step(s, Proceed(op, pick), cfg), user, cfg) <==> InOrder(s, Proceed(op, pick), user, cfg)
  {
    var e, t := Proceed(op, pick), Step(s, Proceed(op, pick), cfg);
    assert EndOf(t, user) == Some(s.ops[op].at);
    if !InOrder(s, e, user, cfg) {
      var iat := s.userEnds[user].at + CLOCK_SKEW;
      assert RefusedBy(EndOf(s, user), Some(iat)) && Unexpired(t, iat, cfg);
      assert !RefusedBy(EndOf(t, user), Some(iat));
    }
  }

  ghost predicate AllInOrder(s: Store, es: seq<Event>, user: string, cfg: Config) {
    forall i :: 0 <= i < |es| ==> InOrder(Run(s, es[..i], cfg), es[i], user, cfg)
  }

  /** A token refused because all its user's sessions ended stays refused until it expires, on every
      run whose writes of the end are in order. */
  lemma {:induction false} RefusedStaysRefused(s: Store, es: seq<Event>, user: string, iat: real, cfg: Config)
    requires Inv(s, cfg) && cfg.refreshTtl >= 0.0 && cfg.accessTtl >= 0.0
    requires RefusedBy(EndOf(s, user), Some(iat)) && AllInOrder(s, es, user, cfg)
    requires Unexpired(Run(s, es, cfg), iat, cfg)
    ensures forall session :: Refused(Run(s, es, cfg), user, session, Some(iat))
    ensures RefusedBy(EndOf(Run(s, es, cfg), user), Some(iat))
  {
    if es != [] {
      var front, e := es[..|es| - 1], es[|es| - 1];
      var t := Run(s, front, cfg);
      assert forall i :: 0 <= i < |front| ==> front[..i] == es[..i];
      StepFollows(t, e, cfg);
      RefusedStaysRefused(s, front, user, iat, cfg);
      RunKeeps(s, front, cfg);
      assert InOrder(t, e, user, cfg);
      EndWriteExactly(t, e, user, cfg);
    }
  }

  // ---------------------------------------------------------------- one end at a time

  ghost predicate Ending(s: Store, op: nat, user: string) {
    op in s.ops && s.ops[op].EndAllWrite? && s.ops[op].user == user
  }

  /** At most one end of this user is between reading its clock and writing, and what it read is no
      older than what is on record. */
  ghost predicate OneEnding(s: Store, user: string) {
    && (forall a, b :: Ending(s, a, user) && Ending(s, b, user) ==> a == b)
    && (forall a :: Ending(s, a, user) && user in s.userEnds ==> s.ops[a].at >= s.userEnds[user].at)
  }

  /** An end of the user's sessions starts only while none is pending. */
  ghost predicate StartsAlone(s: Store, e: Event, user: string) {
    e.EndAll? && e.user == user ==> forall op :: !Ending(s, op, user)
  }

  ghost predicate AllStartAlone(s: Store, es: seq<Event>, user: string, cfg: Config) {
    forall i :: 0 <= i < |es| ==> StartsAlone(Run(s, es[..i], cfg), es[i], user)
  }

  lemma EndingStep(s: Store, e: Event, user: string, op: nat, cfg: Config)
    requires Ending(Step(s, e, cfg), op, user)
    ensures (Ending(s, op, user) && Step(s, e, cfg).ops[op] == s.ops[op]) || (op !in s.ops && e == EndAll(op, user) && Step(s, e, cfg).ops[op].at == s.now)
    ensures !(WritesEnd(s, e, user) && e.op == op)
  {
  }

  lemma OneEndingStep(s: Store, e: Event, user: string, cfg: Config)
    requires OneEnding(s, user) && StartsAlone(s, e, user) && EndsOutlive(s, cfg)
    ensures OneEnding(Step(s, e, cfg), user)
  {
    var t := Step(s, e, cfg);
    forall a, b | Ending(t, a, user) && Ending(t, b, user) ensures a == b {
      EndingStep(s, e, user, a, cfg);
      EndingStep(s, e, user, b, cfg);
    }
    forall a | Ending(t, a, user) && user in t.userEnds ensures t.ops[a].at >= t.userEnds[user].at {
      EndingStep(s, e, user, a, cfg);
      if WritesEnd(s, e, user) {
        assert Ending(s, e.op, user);
      } else {
        OtherEventsKeepEnds(s, e, user, cfg);
      }
    }
  }

  lemma {:induction false} OneEndingRun(s: Store, es: seq<Event>, user: string, cfg: Config)
    requires Inv(s, cfg) && cfg.refreshTtl >= 0.0 && OneEnding(s, user) && AllStartAlone(s, es, user, cfg)
    ensures OneEnding(Run(s, es, cfg), user)
  {
    if es != [] {
      var front := es[..|es| - 1];
      assert forall i :: 0 <= i < |front| ==> front[..i] == es[..i];
      OneEndingRun(s, front, user, cfg);
      RunKeeps(s, front, cfg);
      assert StartsAlone(Run(s, front, cfg), es[|es| - 1], user);
      OneEndingStep(Run(s, front, cfg), es[|es| - 1], user, cfg);
    }
  }

  /** Ends that never overlap are recorded in order. */
  lemma AloneInOrder(s: Store, es: seq<Event>, user: string, cfg: Config)
    requires Inv(s, cfg) && cfg.refreshTtl >= 0.0 && OneEnding(s, user) && AllStartAlone(s, es, user, cfg)
    ensures AllInOrder(s, es, user, cfg)
  {
    forall i | 0 <= i < |es| ensures InOrder(Run(s, es[..i], cfg), es[i], user, cfg) {
      assert forall k :: 0 <= k < i ==> es[..i][..k] == es[..k];
      OneEndingRun(s, es[..i], user, cfg);
      var t := Run(s, es[..i], cfg);
      if WritesEnd(t, es[i], user) {
        assert Ending(t, es[i].op, user);
      }
    }
  }

  /** From an empty store, a refused token stays refused while ends of its user never overlap. */
  lemma RefusedOnEveryRun(before: seq<Event>, after: seq<Event>, user: string, iat: real, cfg: Config)
    requires cfg.refreshTtl >= 0.0 && cfg.accessTtl >= 0.0
    requires AllStartAlone(EMPTY, before, user, cfg) && AllStartAlone(Run(EMPTY, before, cfg), after, user, cfg)
    requires RefusedBy(EndOf(Run(EMPTY, before, cfg), user), Some(iat))
    requires Unexpired(Run(Run(EMPTY, before, cfg), after, cfg), iat, cfg)
    ensures forall session :: Refused(Run(Run(EMPTY, before, cfg), after, cfg), user, session, Some(iat))
  {
    EmptyInv(cfg);
    RunKeeps(EMPTY, before, cfg);
    OneEndingRun(EMPTY, before, user, cfg);
    var s := Run(EMPTY, before, cfg);
    AloneInOrder(s, after, user, cfg);
    RefusedStaysRefused(s, after, user, iat, cfg);
  }

  // ---------------------------------------------------------------- overlapping ends

  function Four(a: Event, b: Event, c: Event, d: Event): seq<Event> { [a, b, c, d] }

  lemma RunFour(s: Store, a: Event, b: Event, c: Event, d: Event, cfg: Config)
    ensures Run(s, Four(a, b, c, d), cfg) == Step(Step(Step(Step(s, a, cfg), b, cfg), c, cfg), d, cfg)
  {
    assert [a, b, c, d][..3] == [a, b, c] && [a, b, c][..2] == [a, b] && [a, b][..1] == [a] && [a][..0] == [];
    assert Run(s, [a], cfg) == Step(s, a, cfg);
    assert Run(s, [a, b], cfg) == Step(Step(s, a, cfg), b, cfg);
    assert Run(s, [a, b, c], cfg) == Step(Step(Step(s, a, cfg), b, cfg), c, cfg);
  }

  /** Two overlapping ends: the one that read its clock first writes last, and a token the other had
      refused is accepted. */
  lemma OverlapUnrefuses(cfg: Config)
    requires cfg.accessTtl >= 0.0
    ensures var s := Run(EMPTY, Four(EndAll(1, "ann"), Tick(3.5), EndAll(2, "ann"), Proceed(2, "")), cfg);
      && RefusedBy(EndOf(s, "ann"), Some(3.0)) && Unexpired(s, 3.0, cfg)
      && !Refused(Step(s, Proceed(1, ""), cfg), "ann", None, Some(3.0))
  {
    RunFour(EMPTY, EndAll(1, "ann"), Tick(3.5), EndAll(2, "ann"), Proceed(2, ""), cfg);
    var s1 := Step(EMPTY, EndAll(1, "ann"), cfg);
    assert s1.ops == map[1 := EndAllWrite("ann", 0.0)];
    var s3 := Step(Step(s1, Tick(3.5), cfg), EndAll(2, "ann"), cfg);
    assert s3.now == 3.5 && s3.ops == map[1 := EndAllWrite("ann", 0.0), 2 := EndAllWrite("ann", 3.5)];
    var s4 := Step(s3, Proceed(2, ""), cfg);
    assert s4.ops[1] == EndAllWrite("ann", 0.0);
  }

  // ---------------------------------------------------------------- waiting an end out

  /** The first whole second after the allowance. */
  function Ready(ended: real): real { ((ended + CLOCK_SKEW).Floor + 1) as real }

  predicate Waits(ended: real, started: real) { 0.0 < Ready(ended) - started <= CLOCK_SKEW + 1.0 }

  /** The wait before a token is minted. `clock` holds the successive readings of the wall clock, the
      first one when the wait starts; `last` is the reading at which it ends. */
  method WaitOutAnEnd(end: Option<real>, clock: seq<real>) returns (last: nat)
    requires clock != [] && forall i, j :: 0 <= i < j < |clock| ==> clock[i] <= clock[j]
    requires end.Some? && Waits(end.value, clock[0]) ==> clock[|clock| - 1] >= Ready(end.value)
    ensures last < |clock|
    ensures end.None? ==> last == 0
    ensures end.Some? && !Waits(end.value, clock[0]) ==> last == 0
    ensures end.Some? && Waits(end.value, clock[0]) ==>
      Ready(end.value) <= clock[last] && forall i :: 0 <= i < last ==> clock[i] < Ready(end.value)
  {
    last := 0;
    if end.Some? {
      var ready := Ready(end.value);
      if 0.0 < ready - clock[0] <= CLOCK_SKEW + 1.0 {
        while clock[last] < ready
          invariant last < |clock| && forall i :: 0 <= i < last ==> clock[i] < ready
          decreases |clock| - last
        {
          assert last < |clock| - 1;
          last := last + 1;
        }
      }
    }
  }

  /** The issue time of a token minted at `at`, in whole seconds. */
  function IssuedAt(at: real): real { at.Floor as real }

  /** The reading at which the wait for `ended`, begun at `started`, may return. */
  predicate Returns(ended: real, started: real, at: real) {
    started <= at && (Waits(ended, started) ==> Ready(ended) <= at)
  }

  /** Whatever is minted once the wait is over counts as issued after the end, exactly when the wait
      started no more than one second plus the allowance before the first such second. */
  lemma MintedAfterTheWait(ended: real, started: real)
    ensures (forall at, mint :: Returns(ended, started, at) && at <= mint ==> !RefusedBy(Some(ended), Some(IssuedAt(mint))))
      <==> Ready(ended) - started <= CLOCK_SKEW + 1.0
  {
    if Ready(ended) - started <= CLOCK_SKEW + 1.0 {
      forall at, mint | Returns(ended, started, at) && at <= mint ensures !RefusedBy(Some(ended), Some(IssuedAt(mint))) {
        assert Ready(ended) <= mint;
        FloorAtLeast(mint, (ended + CLOCK_SKEW).Floor + 1);
      }
    } else {
      assert Returns(ended, started, started);
      assert RefusedBy(Some(ended), Some(IssuedAt(started)));
    }
  }

  lemma FloorAtLeast(x: real, n: int)
    requires n as real <= x
    ensures n <= x.Floor
  {
  }

  /** A wait started no earlier than the end always suffices. */
  lemma WaitSuffices(ended: real, started: real, at: real, mint: real)
    requires ended <= started && Returns(ended, started, at) && at <= mint
    ensures !RefusedBy(Some(ended), Some(IssuedAt(mint)))
  {
    MintedAfterTheWait(ended, started);
  }

  // ---------------------------------------------------------------- one session's record

  /** The session whose record this event writes for the access lifetime only. */
  predicate ShortWrite(s: Store, e: Event, session: string) {
    || e == EndSession(session)
    || (e.Proceed? && e.op in s.ops && (s.ops[e.op].RevokeNote? || s.ops[e.op].SweepNote?) && s.ops[e.op].session == session)
  }

  /** A step takes time off a session's record exactly when it is an access-lifetime write that ends
      sooner than the record in place. */
  lemma ShortenedExactly(s: Store, e: Event, session: string, cfg: Config)
    requires session in s.ended && s.ended[session] <= s.now + RefreshTtl(cfg)
    ensures session in Step(s, e, cfg).ended
    ensures var t := Step(s, e, cfg);
      (t.ended[session] < s.ended[session] <==> ShortWrite(s, e, session) && s.now + EndedTtl(cfg) < s.ended[session])
  {
    if e.Proceed? && e.op in s.ops {
      assert EndedAfter(s, s.ops[e.op], cfg) == Step(s, e, cfg).ended;
    }
  }

  ghost predicate NeverShort(s: Store, es: seq<Event>, session: string, cfg: Config) {
    forall i :: 0 <= i < |es| ==> !ShortWrite(Run(s, es[..i], cfg), es[i], session)
  }

  ghost predicate RecordsBounded(s: Store, cfg: Config) {
    forall x :: x in s.ended ==> s.ended[x] <= s.now + RefreshTtl(cfg)
  }

  lemma BoundedStep(s: Store, e: Event, cfg: Config)
    requires RecordsBounded(s, cfg) && EndedTtl(cfg) <= RefreshTtl(cfg)
    ensures RecordsBounded(Step(s, e, cfg), cfg)
  {
    StepFollows(s, e, cfg);
    if e.Proceed? && e.op in s.ops {
      assert EndedAfter(s, s.ops[e.op], cfg) == Step(s, e, cfg).ended;
    }
  }

  /** The record a reuse writes holds for the refresh lifetime on every run without a later
      access-lifetime write for that session: until then, no refresh token of the session that was
      issued by the time of the record can be presented without finding the session ended. */
  lemma {:induction false} ReuseRecordHolds(s: Store, es: seq<Event>, session: string, cfg: Config)
    requires session in s.ended && RecordsBounded(s, cfg) && EndedTtl(cfg) <= RefreshTtl(cfg)
    requires NeverShort(s, es, session, cfg)
    ensures var t := Run(s, es, cfg); RecordsBounded(t, cfg) && session in t.ended && t.ended[session] >= s.ended[session]
  {
    if es != [] {
      var front, e := es[..|es| - 1], es[|es| - 1];
      assert forall i :: 0 <= i < |front| ==> front[..i] == es[..i];
      ReuseRecordHolds(s, front, session, cfg);
      var t := Run(s, front, cfg);
      assert !ShortWrite(t, e, session);
      ShortenedExactly(t, e, session, cfg);
      BoundedStep(t, e, cfg);
    }
  }

  lemma ReusedSessionStaysEnded(s: Store, op: nat, pick: string, es: seq<Event>, cfg: Config, session: string, token: string)
    requires op in s.ops && s.ops[op].ReuseNote? && s.ops[op].session == session
    requires RecordsBounded(s, cfg) && EndedTtl(cfg) <= RefreshTtl(cfg)
    requires NeverShort(Step(s, Proceed(op, pick), cfg), es, session, cfg)
    ensures var t := Run(Step(s, Proceed(op, pick), cfg), es, cfg);
      Live(t, token) && t.tokens[token].until <= s.now + RefreshTtl(cfg) ==> SessionEnded(t, session)
  {
    var s1 := Step(s, Proceed(op, pick), cfg);
    BoundedStep(s, Proceed(op, pick), cfg);
    ReuseWrites(s, op, pick, cfg);
    ReuseRecordHolds(s1, es, session, cfg);
  }

  lemma ReuseWrites(s: Store, op: nat, pick: string, cfg: Config)
    requires op in s.ops && s.ops[op].ReuseNote?
    ensures Step(s, Proceed(op, pick), cfg).ended == s.ended[s.ops[op].session := s.now + RefreshTtl(cfg)]
  {
  }

  /** On every run without a shorter write the token finds its session ended for as long as it lives. */
  ghost predicate AlwaysFound(s: Store, session: string, token: string, cfg: Config) {
    forall es :: NeverShort(s, es, session, cfg) && Live(Run(s, es, cfg), token) ==> SessionEnded(Run(s, es, cfg), session)
  }

  lemma NeverShortTick(s: Store, dt: real, session: string, cfg: Config)
    ensures NeverShort(s, [Tick(dt)], session, cfg)
    ensures dt >= 0.0 ==> Run(s, [Tick(dt)], cfg) == s.(now := s.now + dt)
  {
    assert [Tick(dt)][..0] == [] && Run(s, [], cfg) == s;
  }

  /** A refresh token of an ended session always finds it ended, exactly when the record in place lasts at
      least as long as the token. */
  lemma FoundExactly(s: Store, session: string, token: string, cfg: Config)
    requires session in s.ended && RecordsBounded(s, cfg) && EndedTtl(cfg) <= RefreshTtl(cfg)
    requires Live(s, token) && token in s.issued
    ensures AlwaysFound(s, session, token, cfg) <==> s.tokens[token].until <= s.ended[session]
  {
    if s.tokens[token].until <= s.ended[session] {
      forall es | NeverShort(s, es, session, cfg) && Live(Run(s, es, cfg), token) ensures SessionEnded(Run(s, es, cfg), session) {
        ReuseRecordHolds(s, es, session, cfg);
        RunOnlyDies(s, es, cfg);
      }
    } else {
      var dt := if s.now < s.ended[session] then s.ended[session] - s.now else 0.0;
      NeverShortTick(s, dt, session, cfg);
      assert Live(Run(s, [Tick(dt)], cfg), token) && !SessionEnded(Run(s, [Tick(dt)], cfg), session);
    }
  }

  /** For a token issued at `issued` and a reuse recorded at `noted`, each for the refresh lifetime: exactly
      when it was issued no later than the record was written. */
  lemma FoundIfIssuedBefore(s: Store, session: string, token: string, issued: real, noted: real, cfg: Config)
    requires session in s.ended && RecordsBounded(s, cfg) && EndedTtl(cfg) <= RefreshTtl(cfg)
    requires Live(s, token) && token in s.issued
    requires s.tokens[token].until == issued + RefreshTtl(cfg) && s.ended[session] == noted + RefreshTtl(cfg)
    ensures AlwaysFound(s, session, token, cfg) <==> issued <= noted
  {
    FoundExactly(s, session, token, cfg);
  }

  /** A token of the session issued later in the race is live, at the end, with no record of its end. */
  lemma LaterTokenOutlivesReuse(s: Store, token: string, user: string, session: string, later: real, cfg: Config)
    requires session in s.ended && s.ended[session] == s.now + RefreshTtl(cfg) && token !in s.issued && 0.0 < later <= RefreshTtl(cfg)
    ensures var t := Run(s, Four(Tick(later), Create(token, user, false, Some(session)), Tick(RefreshTtl(cfg) - later), Tick(0.0)), cfg);
      Live(t, token) && t.tokens[token].sid == Some(session) && !SessionEnded(t, session)
  {
    RunFour(s, Tick(later), Create(token, user, false, Some(session)), Tick(RefreshTtl(cfg) - later), Tick(0.0), cfg);
  }

  /** A logout of a session whose reuse was recorded shortens the record: a refresh token of the
      session issued in the race is then live with no record that its session ended. */
  lemma LogoutShortensReuse(s: Store, token: string, user: string, session: string, cfg: Config)
    requires session in s.ended && token !in s.issued && EndedTtl(cfg) < RefreshTtl(cfg) && cfg.accessTtl >= 0.0
    ensures var t := Run(s, Four(Create(token, user, false, Some(session)), EndSession(session), Tick(EndedTtl(cfg)), Tick(0.0)), cfg);
      Live(t, token) && t.tokens[token].sid == Some(session) && !SessionEnded(t, session)
  {
    RunFour(s, Create(token, user, false, Some(session)), EndSession(session), Tick(EndedTtl(cfg)), Tick(0.0), cfg);
  }
}
