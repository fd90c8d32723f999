/** The back-off that slows password guessing
    (services/api_gateway/sign_in_throttle.py). One address, any number of sources, one clock. */
module SignIn {
  import opened Common

  const THRESHOLD: nat := 5
  const MAX_DELAY: nat := 300
  const FORGET_AFTER := 3600.0

  function Pow2(n: nat): (r: nat)
    ensures r >= 1
  {
    if n == 0 then 1 else 2 * Pow2(n - 1)
  }

  /** How long the next attempt must wait after this many failures. */
  function DelayAfter(failures: nat): (r: nat)
    ensures r <= MAX_DELAY && (failures < THRESHOLD <==> r == 0)
  {
    if failures < THRESHOLD then 0
    else if Pow2(failures - THRESHOLD) < MAX_DELAY then Pow2(failures - THRESHOLD) else MAX_DELAY
  }

  datatype Failures = Failures(n: nat, at: real)

  /** The address's record: each source's failures, and when the whole record is forgotten. `admitted`
      is history: every attempt let through, in order. */
  datatype Record = Record(sources: map<string, Failures>, until: real, admitted: seq<(string, real)>)

  const FRESH := Record(map[], 0.0, [])

  function Seen(s: Record, source: string, now: real): Failures {
    if source in s.sources && now < s.until then s.sources[source] else Failures(0, 0.0)
  }

  predicate Admits(s: Record, source: string, now: real) {
    var f := Seen(s, source, now);
    f.n < THRESHOLD || f.at + DelayAfter(f.n) as real <= now
  }

  function Live(s: Record, now: real): map<string, Failures> { if now < s.until then s.sources else map[] }

  function Reserved(s: Record, source: string, now: real): Record {
    if !Admits(s, source, now) then s
    else Record(Live(s, now)[source := Failures(Seen(s, source, now).n + 1, now)], now + FORGET_AFTER, s.admitted + [(source, now)])
  }

  function Ceil(x: real): int { if x == x.Floor as real then x.Floor else x.Floor + 1 }

  class AddressRecord {
    var sources: map<string, Failures>
    var until: real
    ghost var admitted: seq<(string, real)>

    ghost function View(): Record reads this { Record(sources, until, admitted) }

    constructor ()
      ensures View() == FRESH
    {
      sources, until, admitted := map[], 0.0, [];
    }

    /** The reserve script: 0 when the attempt may go ahead, and is counted; else the whole seconds
        still to wait, after which it would be let through and before which it would not. */
    method Reserve(source: string, now: real) returns (wait: int)
      modifies this
      ensures View() == Reserved(old(View()), source, now)
      ensures wait == 0 <==> Admits(old(View()), source, now)
      ensures wait != 0 ==>
        && wait > 0
        && var due := Seen(old(View()), source, now).at + DelayAfter(Seen(old(View()), source, now).n) as real;
           (wait - 1) as real < due - now <= wait as real
    {
      if until <= now { sources := map[]; }
      var n, at := 0, 0.0;
      if source in sources { n, at := sources[source].n, sources[source].at; }
      if n >= THRESHOLD {
        var delay := if Pow2(n - THRESHOLD) < MAX_DELAY then Pow2(n - THRESHOLD) else MAX_DELAY;
        var remaining := at + delay as real - now;
        if remaining > 0.0 {
          return Ceil(remaining);
        }
      }
      sources := sources[source := Failures(n + 1, now)];
      until := now + FORGET_AFTER;
      admitted := admitted + [(source, now)];
      return 0;
    }

    /** The password was right: this source's count starts again. */
    method Succeeded(source: string)
      modifies this
      ensures View() == Step(old(View()), Success(source))
    {
      sources := sources - {source};
    }

    /** A new password: no source's failures count against it. */
    method Cleared()
      modifies this
      ensures View() == Step(old(View()), Clear)
    {
      sources := map[];
    }
  }

  // ---------------------------------------------------------------- runs

  datatype Event = Attempt(source: string, at: real) | Success(source: string) | Clear

  function Step(s: Record, e: Event): Record {
    match e
    case Attempt(source, at) => Reserved(s, source, at)
    case Success(source) => s.(sources := s.sources - {source})
    case Clear => s.(sources := map[])
  }

  function Run(es: seq<Event>): Record { if es == [] then FRESH else Step(Run(es[..|es| - 1]), es[|es| - 1]) }

  /** The clock does not go back, and started at no less than zero. */
  predicate Timed(es: seq<Event>) {
    && (forall i, j :: 0 <= i < j < |es| && es[i].Attempt? && es[j].Attempt? ==> es[i].at <= es[j].at)
    && (forall i :: 0 <= i < |es| && es[i].Attempt? ==> es[i].at >= 0.0)
  }

  predicate LaterThan(es: seq<Event>, now: real) { forall i :: 0 <= i < |es| && es[i].Attempt? ==> es[i].at <= now }

  /** Every failure kept is an hour short of being forgotten, and none is in the future. */
  ghost predicate Outlasts(s: Record, now: real) {
    forall x :: x in s.sources ==> s.sources[x].at + FORGET_AFTER <= s.until && s.sources[x].at <= now
  }

  lemma OutlastsStep(s: Record, e: Event, now: real)
    requires Outlasts(s, if e.Attempt? then e.at else now) && (e.Attempt? ==> e.at <= now)
    ensures Outlasts(Step(s, e), now)
  {
  }

  lemma {:induction false} RecordsOutlast(es: seq<Event>, now: real)
    requires Timed(es) && LaterThan(es, now)
    ensures Outlasts(Run(es), now)
  {
    if es != [] {
      var front, e := es[..|es| - 1], es[|es| - 1];
      RecordsOutlast(front, if e.Attempt? then e.at else now);
      OutlastsStep(Run(front), e, now);
    }
  }

  /** The record's expiry never lets an attempt through early: it goes ahead exactly when the wait from
      the source's last failure, as last recorded, is over, whether or not the record was forgotten. */
  lemma ExpiryNeverEarly(es: seq<Event>, source: string, now: real)
    requires Timed(es) && LaterThan(es, now) && source in Run(es).sources
    ensures var f := Run(es).sources[source]; Admits(Run(es), source, now) <==> f.at + DelayAfter(f.n) as real <= now
  {
    RecordsOutlast(es, now);
  }

  /** One source's attempt neither admits nor slows another's. */
  lemma SourcesApart(es: seq<Event>, a: string, b: string, now: real, later: real)
    requires Timed(es) && LaterThan(es, now) && a != b && now <= later
    ensures Admits(Reserved(Run(es), a, now), b, later) <==> Admits(Run(es), b, later)
  {
    RecordsOutlast(es, now);
    var s := Run(es);
    if b in s.sources && s.until <= now {
      assert s.sources[b].at + DelayAfter(s.sources[b].n) as real <= later;
    }
  }

  /** A success frees its own source at once and leaves every other as it was; a new password frees
      them all. */
  lemma ClearingFrees(s: Record, source: string, other: string, now: real)
    ensures Admits(Step(s, Success(source)), source, now) && Admits(Step(s, Clear), other, now)
    ensures other != source ==> (Admits(Step(s, Success(source)), other, now) <==> Admits(s, other, now))
  {
  }

  // ---------------------------------------------------------------- how long k attempts take

  function Times(admitted: seq<(string, real)>, source: string): seq<real> {
    if admitted == [] then []
    else
      var last := admitted[|admitted| - 1];
      Times(admitted[..|admitted| - 1], source) + if last.0 == source then [last.1] else []
  }

  /** The event neither clears the source's count nor comes after an hour without an attempt. */
  predicate Continues(s: Record, e: Event, source: string) {
    match e
    case Attempt(_, at) => s.admitted == [] || at < s.until
    case Success(x) => x != source
    case Clear => false
  }

  ghost predicate Unbroken(es: seq<Event>, source: string) {
    forall i :: 0 <= i < |es| ==> Continues(Run(es[..i]), es[i], source)
  }

  ghost predicate Gapped(ts: seq<real>) {
    forall i :: 1 <= i < |ts| ==> ts[i] - ts[i - 1] >= DelayAfter(i) as real
  }

  /** The source's count is the number of its attempts let through, each of which waited. */
  ghost predicate Counted(s: Record, source: string) {
    var ts := Times(s.admitted, source);
    && Gapped(ts)
    && (source in s.sources <==> ts != [])
    && (ts != [] ==> s.sources[source] == Failures(|ts|, ts[|ts| - 1]))
    && (s.admitted == [] ==> s.sources == map[])
  }

  lemma CountedStep(s: Record, e: Event, source: string)
    requires Counted(s, source) && Continues(s, e, source)
    requires e.Attempt? ==> forall x :: x in s.sources ==> s.sources[x].at <= e.at
    ensures Counted(Step(s, e), source)
  {
    if e.Attempt? && Admits(s, e.source, e.at) {
      var t, ts := Step(s, e), Times(s.admitted, source);
      assert t.admitted[..|t.admitted| - 1] == s.admitted;
      if e.source == source {
        assert Times(t.admitted, source) == ts + [e.at];
        assert ts != [] ==> Seen(s, source, e.at) == s.sources[source];
      } else {
        assert Times(t.admitted, source) == ts;
      }
    }
  }

  lemma {:induction false} RunCounted(es: seq<Event>, source: string)
    requires Timed(es) && Unbroken(es, source)
    ensures Counted(Run(es), source)
  {
    if es != [] {
      var front, e := es[..|es| - 1], es[|es| - 1];
      assert forall i :: 0 <= i < |front| ==> front[..i] == es[..i];
      RunCounted(front, source);
      if e.Attempt? { RecordsOutlast(front, e.at); }
      assert Continues(Run(front), e, source);
      CountedStep(Run(front), e, source);
    }
  }

  /** The delays from the fifth failure to the one before the k-th. */
  function DelaysTo(k: nat): nat { if k <= THRESHOLD then 0 else DelaysTo(k - 1) + DelayAfter(k - 1) }

  lemma {:induction false} GapsAdd(ts: seq<real>, k: nat)
    requires Gapped(ts) && 1 <= k <= |ts|
    ensures ts[k - 1] - ts[0] >= DelaysTo(k) as real
  {
    if k > 1 {
      GapsAdd(ts, k - 1);
      assert ts[k - 1] - ts[k - 2] >= DelayAfter(k - 1) as real;
      assert DelaysTo(k) as real == DelaysTo(k - 1) as real + DelayAfter(k - 1) as real;
    }
  }

  /** k attempts let through for one address and source, with no success, no clear and no hour without
      an attempt between them, span at least the delays of the 5th to the (k-1)-th failure. */
  lemma AttemptsSpan(es: seq<Event>, source: string, k: nat)
    requires Timed(es) && Unbroken(es, source) && 1 <= k <= |Times(Run(es).admitted, source)|
    ensures var ts := Times(Run(es).admitted, source); ts[k - 1] - ts[0] >= DelaysTo(k) as real
  {
    RunCounted(es, source);
    GapsAdd(Times(Run(es).admitted, source), k);
  }

  /** The delays double up to the cap and stay there: 1, 2, 4, … 256, then 300 each. */
  lemma {:induction false} DelaysSum(k: nat)
    ensures THRESHOLD <= k <= THRESHOLD + 9 ==> DelaysTo(k) == Pow2(k - THRESHOLD) - 1
    ensures k > THRESHOLD + 9 ==> DelaysTo(k) == 511 + MAX_DELAY * (k - THRESHOLD - 9)
  {
    if k > THRESHOLD {
      DelaysSum(k - 1);
      PowBound(k - 1 - THRESHOLD);
    }
    assert Pow2(9) == 512;
  }

  lemma {:induction false} PowBound(n: nat)
    ensures n <= 8 ==> Pow2(n) <= 256
    ensures n >= 9 ==> Pow2(n) >= 512
  {
    if n > 0 { PowBound(n - 1); }
    assert Pow2(8) == 256 && Pow2(9) == 512;
  }
}
