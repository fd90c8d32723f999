/** Refresh tokens, their per-user index and the ended-session records
    (services/api_gateway/messaging/refresh_tokens.py and
    libs/industryflow_contracts/industryflow_contracts/sessions.py). Every event is one call to the
    shared store; operations of several calls interleave freely and may stop anywhere. The clock is
    one nondecreasing clock. */
module Sessions {
  import opened Common

  const CLOCK_SKEW := 2.0
  const ROTATION_GRACE := 10.0

  /** Lifetimes in seconds: the configured days of a refresh token, the configured minutes of an access
      token. */
  datatype Config = Config(refreshTtl: real, accessTtl: real)

  function RefreshTtl(cfg: Config): real { cfg.refreshTtl }
  function AccessTtl(cfg: Config): real { cfg.accessTtl }
  function EndedTtl(cfg: Config): real { cfg.accessTtl + 60.0 }

  /** How long any write of an ended-session record holds at least. */
  function Lasting(cfg: Config): real { if RefreshTtl(cfg) < EndedTtl(cfg) then RefreshTtl(cfg) else EndedTtl(cfg) }

  /** `legacy` is a token from before fingerprints: its value is the bare user id. */
  datatype Token = Token(user: string, legacy: bool, sid: Option<string>, until: real)
  datatype Index = Index(members: set<string>, until: real)
  /** What a claimed token left behind; `ended` once a reuse of it has ended its session. */
  datatype Rotation = Rotation(user: string, sid: Option<string>, at: real, until: real, ended: bool)
  datatype UserEnd = UserEnd(at: real, until: real)

  /** What an operation still has to do, and what it holds. `all` are the tokens its index read gave,
      `removed` the sessions of the tokens it deleted, `noted` when it recorded a session as ended. */
  datatype Op =
    | ClaimUnindex(user: string, token: string, sid: Option<string>)
    | ClaimNote(user: string, token: string, sid: Option<string>)
    | RevokeNote(user: string, token: string, session: string)
    | RevokeUnindex(user: string, token: string)
    | EndAllWrite(user: string, at: real)
    | SweepRead(user: string)
    | Sweep(user: string, all: set<string>, todo: set<string>, removed: set<string>, noted: map<string, real>)
    | SweepNote(user: string, all: set<string>, todo: set<string>, removed: set<string>, noted: map<string, real>, session: string)
    | Swept(user: string, all: set<string>, removed: set<string>, noted: map<string, real>)
    | ReuseMark(token: string, record: Rotation)
    | ReuseNote(user: string, session: string)
    | ReuseRead(user: string, session: string)
    | ReuseLook(user: string, session: string, all: set<string>, todo: set<string>)
    | ReuseTake(user: string, session: string, all: set<string>, todo: set<string>, token: string)
    | ReuseUnindex(user: string, session: string, all: set<string>, todo: set<string>, token: string)
    | ReuseDone(user: string, session: string, all: set<string>)

  /** `issued` and `claims` are history: every token ever created, every successful claim in order. */
  datatype Store = Store(
    now: real, tokens: map<string, Token>, index: map<string, Index>, rotated: map<string, Rotation>,
    ended: map<string, real>, userEnds: map<string, UserEnd>, ops: map<nat, Op>,
    issued: set<string>, claims: seq<string>)

  datatype Event =
    | Tick(dt: real)
    | Create(token: string, user: string, legacy: bool, sid: Option<string>)
    | Claim(op: nat, token: string)
    | Revoke(op: nat, token: string)
    | RevokeAll(op: nat, user: string)
    | EndAll(op: nat, user: string)
    | EndSession(session: string)
    | Reuse(op: nat, token: string)
    | Proceed(op: nat, pick: string)
    | Abandon(op: nat)

  /** The session a stored token names; a token from before fingerprints names none. */
  function SessionOf(t: Token): Option<string> { if t.legacy then None else t.sid }

  predicate Live(s: Store, t: string) { t in s.tokens && s.now < s.tokens[t].until }

  function Members(s: Store, user: string): set<string> {
    if user in s.index && s.now < s.index[user].until then s.index[user].members else {}
  }

  function Unindexed(s: Store, user: string, ts: set<string>): map<string, Index> {
    if user in s.index then s.index[user := s.index[user].(members := s.index[user].members - ts)] else s.index
  }

  function WithOp(s: Store, op: nat, o: Op): Store { s.(ops := s.ops[op := o]) }
  function Done(s: Store, op: nat): Store { s.(ops := s.ops - {op}) }

  function Step(s: Store, e: Event, cfg: Config): Store {
    match e
    case Tick(dt) => if dt >= 0.0 then s.(now := s.now + dt) else s
    case Create(t, user, legacy, sid) =>
      if t in s.issued then s else
        s.(tokens := s.tokens[t := Token(user, legacy, sid, s.now + RefreshTtl(cfg))],
           index := s.index[user := Index(Members(s, user) + {t}, s.now + RefreshTtl(cfg))],
           issued := s.issued + {t})
    case Claim(op, t) => if op in s.ops || !Live(s, t) then s else StartClaim(s, op, t)
    case Revoke(op, t) => if op in s.ops || !Live(s, t) then s else StartRevoke(s, op, t)
    case RevokeAll(op, user) => if op in s.ops then s else WithOp(s, op, SweepRead(user))
    case EndAll(op, user) => if op in s.ops then s else WithOp(s, op, EndAllWrite(user, s.now))
    case EndSession(session) => s.(ended := s.ended[session := s.now + EndedTtl(cfg)])
    case Reuse(op, t) => if op !in s.ops && Reused(s, t) then WithOp(s, op, ReuseMark(t, s.rotated[t])) else s
    case Proceed(op, pick) => if op in s.ops then ProceedOp(s, op, pick, cfg) else s
    case Abandon(op) => Done(s, op)
  }

  /** The atomic get-and-delete; a token from before fingerprints yields no claim. */
  function StartClaim(s: Store, op: nat, t: string): Store
    requires t in s.tokens
  {
    if s.tokens[t].legacy then s.(tokens := s.tokens - {t})
    else s.(tokens := s.tokens - {t}, claims := s.claims + [t],
            ops := s.ops[op := ClaimUnindex(s.tokens[t].user, t, s.tokens[t].sid)])
  }

  function StartRevoke(s: Store, op: nat, t: string): Store
    requires t in s.tokens
  {
    var user, session := s.tokens[t].user, SessionOf(s.tokens[t]);
    s.(tokens := s.tokens - {t},
       ops := s.ops[op := if session.Some? then RevokeNote(user, t, session.value) else RevokeUnindex(user, t)])
  }

  /** An already claimed token presented again after the grace, for the first time on record. */
  predicate Reused(s: Store, t: string) {
    t in s.rotated && s.now < s.rotated[t].until && s.now - s.rotated[t].at > ROTATION_GRACE && !s.rotated[t].ended
  }

  /** The next call of a pending operation; `pick` says which token a loop over a set takes next. */
  function ProceedOp(s: Store, op: nat, pick: string, cfg: Config): Store
    requires op in s.ops
  {
    var o := s.ops[op];
    s.(tokens := TokensAfter(s, o, pick), index := IndexAfter(s, o), rotated := RotatedAfter(s, o, cfg),
       ended := EndedAfter(s, o, cfg), userEnds := UserEndsAfter(s, o, cfg), ops := OpsAfter(s, op, pick))
  }

  function TokensAfter(s: Store, o: Op, pick: string): map<string, Token> {
    match o
    case Sweep(_, _, todo, _, _) => if pick in todo && Live(s, pick) then s.tokens - {pick} else s.tokens
    case ReuseTake(_, _, _, _, t) => if Live(s, t) then s.tokens - {t} else s.tokens
    case _ => s.tokens
  }

  function IndexAfter(s: Store, o: Op): map<string, Index> {
    match o
    case ClaimUnindex(user, t, _) => Unindexed(s, user, {t})
    case RevokeUnindex(user, t) => Unindexed(s, user, {t})
    case Sweep(user, all, todo, _, _) => if todo == {} then Unindexed(s, user, all) else s.index
    case ReuseUnindex(user, _, _, _, t) => Unindexed(s, user, {t})
    case _ => s.index
  }

  function RotatedAfter(s: Store, o: Op, cfg: Config): map<string, Rotation> {
    match o
    case ClaimNote(user, t, sid) => s.rotated[t := Rotation(user, sid, s.now, s.now + RefreshTtl(cfg), false)]
    case ReuseMark(t, record) => s.rotated[t := record.(ended := true, until := s.now + RefreshTtl(cfg))]
    case _ => s.rotated
  }

  function EndedAfter(s: Store, o: Op, cfg: Config): map<string, real> {
    match o
    case RevokeNote(_, _, session) => s.ended[session := s.now + EndedTtl(cfg)]
    case SweepNote(_, _, _, _, _, session) => s.ended[session := s.now + EndedTtl(cfg)]
    case ReuseNote(_, session) => s.ended[session := s.now + RefreshTtl(cfg)]
    case _ => s.ended
  }

  function UserEndsAfter(s: Store, o: Op, cfg: Config): map<string, UserEnd> {
    if o.EndAllWrite? then s.userEnds[o.user := UserEnd(o.at, s.now + EndedTtl(cfg))] else s.userEnds
  }

  function OpsAfter(s: Store, op: nat, pick: string): map<nat, Op>
    requires op in s.ops
  {
    var next := NextOp(s, s.ops[op], pick);
    if next.Some? then s.ops[op := next.value] else s.ops - {op}
  }

  function NextOp(s: Store, o: Op, pick: string): Option<Op> {
    match o
    case ClaimUnindex(user, t, sid) => Some(ClaimNote(user, t, sid))
    case ClaimNote(_, _, _) => None
    case RevokeNote(user, t, _) => Some(RevokeUnindex(user, t))
    case RevokeUnindex(_, _) => None
    case EndAllWrite(user, _) => Some(SweepRead(user))
    case SweepRead(user) =>
      Some(if Members(s, user) == {} then Swept(user, {}, {}, map[])
           else Sweep(user, Members(s, user), Members(s, user), {}, map[]))
    case Sweep(user, all, todo, removed, noted) =>
      if todo == {} then Some(Swept(user, all, removed, noted))
      else if pick !in todo then Some(o)
      else if Live(s, pick) && SessionOf(s.tokens[pick]).Some? then
        var session := SessionOf(s.tokens[pick]).value;
        Some(SweepNote(user, all, todo - {pick}, removed + {session}, noted, session))
      else Some(Sweep(user, all, todo - {pick}, removed, noted))
    case SweepNote(user, all, todo, removed, noted, session) =>
      Some(Sweep(user, all, todo, removed, noted[session := s.now]))
    case Swept(_, _, _, _) => Some(o)
    case ReuseMark(_, record) => if record.sid.Some? then Some(ReuseNote(record.user, record.sid.value)) else None
    case ReuseNote(user, session) => Some(ReuseRead(user, session))
    case ReuseRead(user, session) => Some(ReuseLook(user, session, Members(s, user), Members(s, user)))
    case ReuseLook(user, session, all, todo) =>
      if todo == {} then Some(ReuseDone(user, session, all))
      else if pick !in todo then Some(o)
      else if Live(s, pick) && SessionOf(s.tokens[pick]) == Some(session)
      then Some(ReuseTake(user, session, all, todo - {pick}, pick))
      else Some(ReuseLook(user, session, all, todo - {pick}))
    case ReuseTake(user, session, all, todo, t) => Some(ReuseUnindex(user, session, all, todo, t))
    case ReuseUnindex(user, session, all, todo, _) => Some(ReuseLook(user, session, all, todo))
    case ReuseDone(_, _, _) => Some(o)
  }

  function Run(s: Store, es: seq<Event>, cfg: Config): Store {
    if es == [] then s else Step(Run(s, es[..|es| - 1], cfg), es[|es| - 1], cfg)
  }

  const EMPTY := Store(0.0, map[], map[], map[], map[], map[], map[], {}, [])

  // ---------------------------------------------------------------- the invariant

  /** Each live token is in its user's index, and the index outlives it. */
  ghost predicate Indexed(s: Store) {
    forall t :: Live(s, t) ==>
      var u := s.tokens[t].user;
      u in s.index && t in s.index[u].members && s.tokens[t].until <= s.index[u].until
  }

  ghost predicate Gone(s: Store, ts: set<string>) { forall t :: t in ts ==> t in s.issued && !Live(s, t) }

  /** The tokens an operation is about to take out of the index, or has found dead. */
  function Settled(o: Op): set<string> {
    match o
    case ClaimUnindex(_, t, _) => {t}
    case RevokeNote(_, t, _) => {t}
    case RevokeUnindex(_, t) => {t}
    case Sweep(_, all, todo, _, _) => all - todo
    case SweepNote(_, all, todo, _, _, _) => all - todo
    case Swept(_, all, _, _) => all
    case ReuseUnindex(_, _, _, _, t) => {t}
    case _ => {}
  }

  /** The tokens an operation read from an index. */
  function Read(o: Op): set<string> {
    match o
    case Sweep(_, all, todo, _, _) => all + todo
    case SweepNote(_, all, todo, _, _, _) => all + todo
    case Swept(_, all, _, _) => all
    case ReuseLook(_, _, all, todo) => all + todo
    case ReuseTake(_, _, all, todo, t) => all + todo + {t}
    case ReuseUnindex(_, _, all, todo, t) => all + todo + {t}
    case ReuseDone(_, _, all) => all
    case _ => {}
  }

  ghost predicate NotedHolds(s: Store, noted: map<string, real>, cfg: Config) {
    forall x :: x in noted ==> noted[x] <= s.now && x in s.ended && s.ended[x] >= noted[x] + Lasting(cfg)
  }

  /** None of these tokens is a live token of the session. */
  ghost predicate FreeOf(s: Store, ts: set<string>, session: string) {
    forall t :: t in ts && Live(s, t) ==> SessionOf(s.tokens[t]) != Some(session)
  }

  ghost predicate OpInv(s: Store, o: Op, cfg: Config) {
    && Gone(s, Settled(o)) && Read(o) <= s.issued
    && match o
       case Sweep(_, all, todo, removed, noted) => todo <= all && removed <= noted.Keys && NotedHolds(s, noted, cfg)
       case SweepNote(_, all, todo, removed, noted, session) =>
         todo <= all && removed <= noted.Keys + {session} && NotedHolds(s, noted, cfg)
       case Swept(_, _, removed, noted) => removed <= noted.Keys && NotedHolds(s, noted, cfg)
       case EndAllWrite(_, at) => at <= s.now
       case ReuseLook(_, session, all, todo) => FreeOf(s, all - todo, session)
       case ReuseTake(_, session, all, todo, t) => FreeOf(s, all - todo - {t}, session)
       case ReuseUnindex(_, session, all, todo, t) => FreeOf(s, all - todo, session)
       case ReuseDone(_, session, all) => FreeOf(s, all, session)
       case _ => true
  }

  ghost predicate IndexSound(s: Store, cfg: Config) {
    forall u :: u in s.index ==> s.index[u].members <= s.issued && s.index[u].until <= s.now + RefreshTtl(cfg)
  }

  ghost predicate ClaimedOnce(s: Store) {
    && s.tokens.Keys <= s.issued
    && (forall t :: t in s.claims ==> t in s.issued && t !in s.tokens)
    && (forall i, j :: 0 <= i < j < |s.claims| ==> s.claims[i] != s.claims[j])
  }

  ghost predicate EndsOutlive(s: Store, cfg: Config) {
    forall u :: u in s.userEnds ==> s.userEnds[u].at <= s.now && s.userEnds[u].until >= s.userEnds[u].at + EndedTtl(cfg)
  }

  ghost predicate Inv(s: Store, cfg: Config) {
    && Indexed(s) && IndexSound(s, cfg) && ClaimedOnce(s) && EndsOutlive(s, cfg)
    && (forall op :: op in s.ops ==> OpInv(s, s.ops[op], cfg))
  }

  /** What steps do to the rest of the store: time moves on, nothing dead revives, ended-session
      records are only rewritten to hold at least `Lasting` from now. */
  ghost predicate Follows(s: Store, t: Store, cfg: Config) {
    && s.now <= t.now && s.issued <= t.issued
    && (forall x :: x in s.issued && Live(t, x) ==> Live(s, x) && t.tokens[x] == s.tokens[x])
    && (forall x :: x in s.ended ==> x in t.ended && (t.ended[x] >= s.ended[x] || t.ended[x] >= s.now + Lasting(cfg)))
  }

  /** Enough for `Follows`: tokens only leave, and at most one ended-session record is rewritten. */
  lemma FollowsBy(s: Store, t: Store, x: string, cfg: Config)
    requires s.now == t.now && s.issued == t.issued && OnlyLeave(s.tokens, t.tokens)
    requires t.ended == s.ended || t.ended == s.ended[x := s.now + EndedTtl(cfg)] || t.ended == s.ended[x := s.now + RefreshTtl(cfg)]
    ensures Follows(s, t, cfg)
  {
  }

  predicate OnlyLeave(a: map<string, Token>, b: map<string, Token>) {
    forall k :: k in b ==> k in a && b[k] == a[k]
  }

  lemma ProceedTokens(s: Store, op: nat, pick: string, cfg: Config)
    requires op in s.ops
    ensures var t := ProceedOp(s, op, pick, cfg);
      t.now == s.now && t.issued == s.issued && t.claims == s.claims && OnlyLeave(s.tokens, t.tokens)
  {
  }

  lemma ProceedEnded(s: Store, op: nat, pick: string, cfg: Config) returns (x: string)
    requires op in s.ops
    ensures var t := ProceedOp(s, op, pick, cfg);
      t.ended == s.ended || t.ended == s.ended[x := s.now + EndedTtl(cfg)] || t.ended == s.ended[x := s.now + RefreshTtl(cfg)]
  {
    var o := s.ops[op];
    x := if o.RevokeNote? || o.SweepNote? || o.ReuseNote? then o.session else "";
  }

  lemma StepFollows(s: Store, e: Event, cfg: Config)
    ensures Follows(s, Step(s, e, cfg), cfg)
  {
    var t := Step(s, e, cfg);
    if e.Proceed? && e.op in s.ops {
      ProceedTokens(s, e.op, e.pick, cfg);
      var x := ProceedEnded(s, e.op, e.pick, cfg);
      FollowsBy(s, t, x, cfg);
    } else if !e.Proceed? {
      PlainFollows(s, e, cfg);
    }
  }

  lemma TakeFollows(s: Store, t: Store, cfg: Config)
    requires t.now == s.now && t.issued == s.issued && t.ended == s.ended && OnlyLeave(s.tokens, t.tokens)
    ensures Follows(s, t, cfg)
  {
  }

  lemma PlainFollows(s: Store, e: Event, cfg: Config)
    requires !e.Proceed?
    ensures Follows(s, Step(s, e, cfg), cfg)
  {
    match e {
      case Tick(_) =>
      case Create(t, user, legacy, sid) => CreateFollows(s, e, cfg);
      case EndSession(x) => FollowsBy(s, Step(s, e, cfg), x, cfg);
      case Claim(op, t) => if op !in s.ops && Live(s, t) { TakeFollows(s, StartClaim(s, op, t), cfg); }
      case Revoke(op, t) => if op !in s.ops && Live(s, t) { TakeFollows(s, StartRevoke(s, op, t), cfg); }
      case _ => OpsOnly(s, e, cfg);
    }
  }

  /** Starting or abandoning an operation touches nothing else. */
  lemma OpsOnly(s: Store, e: Event, cfg: Config)
    requires e.RevokeAll? || e.EndAll? || e.Reuse? || e.Abandon?
    ensures var t := Step(s, e, cfg); t == s.(ops := t.ops)
  {
  }

  lemma CreateFollows(s: Store, e: Event, cfg: Config)
    requires e.Create?
    ensures Follows(s, Step(s, e, cfg), cfg)
  {
  }

  lemma GoneStays(s: Store, t: Store, o: Op, cfg: Config)
    requires Follows(s, t, cfg) && Gone(s, Settled(o)) && Read(o) <= s.issued
    ensures Gone(t, Settled(o)) && Read(o) <= t.issued
  {
  }

  lemma FreeStays(s: Store, t: Store, ts: set<string>, session: string, cfg: Config)
    requires Follows(s, t, cfg) && FreeOf(s, ts, session) && ts <= s.issued
    ensures FreeOf(t, ts, session)
  {
  }

  lemma NotedStays(s: Store, t: Store, noted: map<string, real>, cfg: Config)
    requires Follows(s, t, cfg) && NotedHolds(s, noted, cfg)
    ensures NotedHolds(t, noted, cfg)
  {
  }

  /** What an operation relies on survives everybody else's steps. */
  lemma OthersKeep(s: Store, t: Store, o: Op, cfg: Config)
    requires OpInv(s, o, cfg) && Follows(s, t, cfg)
    ensures OpInv(t, o, cfg)
  {
    GoneStays(s, t, o, cfg);
    match o
    case Sweep(_, _, _, _, noted) => NotedStays(s, t, noted, cfg);
    case SweepNote(_, _, _, _, noted, _) => NotedStays(s, t, noted, cfg);
    case Swept(_, _, _, noted) => NotedStays(s, t, noted, cfg);
    case ReuseLook(_, session, all, todo) => FreeStays(s, t, all - todo, session, cfg);
    case ReuseTake(_, session, all, todo, x) => FreeStays(s, t, all - todo - {x}, session, cfg);
    case ReuseUnindex(_, session, all, todo, _) => FreeStays(s, t, all - todo, session, cfg);
    case ReuseDone(_, session, all) => FreeStays(s, t, all, session, cfg);
    case _ =>
  }
}
