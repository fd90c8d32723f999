/** The scripts that record what is done with capabilities
    (libs/industryflow_contracts/industryflow_contracts/capability_audit.py). Each script is one atomic
    step of the store; a key set at `w` for `d` seconds is gone from `w + d` on. */
module CapabilityRecord {
  import opened Common

  // ---------------------------------------------------------------- repeats

  const REPEAT_WINDOW := 300.0
  const REPEAT_COUNT_TTL := 604800.0

  datatype Count = Count(n: nat, until: real)
  datatype Recorded = Recorded(at: real, suppressed: Option<nat>)

  /** One entry, plane and kind: its window marker, its count, what was appended for it. */
  datatype Repeats = Repeats(marker: Option<real>, count: Option<Count>, out: seq<Recorded>)

  const NO_REPEATS := Repeats(None, None, [])

  predicate Marked(s: Repeats, now: real) { s.marker.Some? && now < s.marker.value }

  function Pending(s: Repeats, now: real): nat { if s.count.Some? && now < s.count.value.until then s.count.value.n else 0 }

  function Present(s: Repeats, now: real): Repeats {
    if Marked(s, now) then s.(count := Some(Count(Pending(s, now) + 1, now + REPEAT_COUNT_TTL)))
    else
      var carried := if s.count.Some? && now < s.count.value.until then Some(s.count.value.n) else None;
      Repeats(Some(now + REPEAT_WINDOW), None, s.out + [Recorded(now, carried)])
  }

  class RepeatKey {
    var marker: Option<real>
    var count: Option<Count>
    var out: seq<Recorded>

    ghost function View(): Repeats reads this { Repeats(marker, count, out) }

    constructor ()
      ensures View() == NO_REPEATS
    {
      marker, count, out := None, None, [];
    }

    /** The repeat script: 1 when recorded, 0 when counted instead. */
    method Repeat(now: real) returns (r: int)
      modifies this
      ensures View() == Present(old(View()), now)
      ensures r == |out| - |old(out)| && (r == 0 || r == 1)
    {
      if marker.None? || marker.value <= now {
        marker := Some(now + REPEAT_WINDOW);
        var n := if count.Some? && now < count.value.until then Some(count.value.n) else None;
        count := None;
        out := out + [Recorded(now, n)];
        return 1;
      }
      var n := if count.Some? && now < count.value.until then count.value.n else 0;
      count := Some(Count(n + 1, now + REPEAT_COUNT_TTL));
      return 0;
    }
  }

  function PresentAll(ts: seq<real>): Repeats {
    if ts == [] then NO_REPEATS else Present(PresentAll(ts[..|ts| - 1]), ts[|ts| - 1])
  }

  predicate InOrder(ts: seq<real>) { forall i, j :: 0 <= i < j < |ts| ==> ts[i] <= ts[j] }

  function Carried(out: seq<Recorded>): nat {
    if out == [] then 0 else Carried(out[..|out| - 1]) + out[|out| - 1].suppressed.GetOr(0)
  }

  /** The presentation `i` was counted, not recorded. */
  predicate Counted(ts: seq<real>, i: nat)
    requires i < |ts|
  {
    Marked(PresentAll(ts[..i]), ts[i])
  }

  /** A counted presentation followed by a silence as long as the count lives. */
  predicate LapsesAt(ts: seq<real>, i: nat)
    requires i + 1 < |ts|
  {
    Counted(ts, i) && ts[i + 1] - ts[i] >= REPEAT_COUNT_TTL
  }

  ghost predicate Lapses(ts: seq<real>) { exists i :: 0 <= i < |ts| - 1 && LapsesAt(ts, i) }

  /** What the latest presentation leaves: the marker of the last recording, and a count exactly when
      something was counted since. */
  ghost predicate Settled(ts: seq<real>, s: Repeats)
    requires ts != []
  {
    var last := ts[|ts| - 1];
    && s.out != [] && s.marker == Some(s.out[|s.out| - 1].at + REPEAT_WINDOW) && last < s.marker.value
    && s.out[|s.out| - 1].at <= last
    && (s.count.Some? <==> Counted(ts, |ts| - 1))
    && (s.count.Some? ==> s.count.value.n > 0 && s.count.value.until == last + REPEAT_COUNT_TTL)
  }

  lemma {:induction false} PresentAllSettled(ts: seq<real>)
    requires ts != [] && InOrder(ts)
    ensures Settled(ts, PresentAll(ts))
  {
    var front := ts[..|ts| - 1];
    if front != [] {
      PresentAllSettled(front);
    }
  }

  function Total(s: Repeats): nat { |s.out| + Carried(s.out) + if s.count.Some? then s.count.value.n else 0 }

  lemma CarriedAppend(out: seq<Recorded>, r: Recorded)
    ensures Carried(out + [r]) == Carried(out) + r.suppressed.GetOr(0)
  {
    assert (out + [r])[..|out|] == out;
  }

  lemma PresentTotal(s: Repeats, now: real)
    requires s.count.Some? ==> s.count.value.n > 0
    ensures Total(Present(s, now)) <= Total(s) + 1
    ensures Total(Present(s, now)) == Total(s) + 1 <==> !(s.count.Some? && s.count.value.until <= now)
  {
    if !Marked(s, now) {
      CarriedAppend(s.out, Present(s, now).out[|s.out|]);
    }
  }

  /** Every presentation is recorded, carried by a recording, or pending: exactly when no counted one
      is followed by a silence as long as the count's life. Otherwise some are lost, never doubled. */
  lemma {:induction false} RepeatsConserved(ts: seq<real>)
    requires InOrder(ts)
    ensures Total(PresentAll(ts)) <= |ts|
    ensures Total(PresentAll(ts)) == |ts| <==> !Lapses(ts)
  {
    if |ts| >= 1 {
      var front, k := ts[..|ts| - 1], |ts| - 1;
      RepeatsConserved(front);
      var s := PresentAll(front);
      if front != [] {
        PresentAllSettled(front);
        assert ts[..k - 1] == front[..k - 1];
        assert Counted(ts, k - 1) == Counted(front, k - 1);
        assert LapsesAt(ts, k - 1) <==> s.count.Some? && s.count.value.until <= ts[k];
      }
      PresentTotal(s, ts[k]);
      LapsesFront(ts);
    }
  }

  lemma LapsesFront(ts: seq<real>)
    requires |ts| >= 1
    ensures Lapses(ts) <==> Lapses(ts[..|ts| - 1]) || (|ts| >= 2 && LapsesAt(ts, |ts| - 2))
  {
    var front := ts[..|ts| - 1];
    assert forall i :: 0 <= i < |front| ==> front[..i] == ts[..i];
    assert forall i :: 0 <= i < |front| - 1 ==> (LapsesAt(front, i) <==> LapsesAt(ts, i));
  }

  /** A recording, a repeat a second later, a week of silence: the repeat is in no record. */
  lemma LapsedRepeatIsLost()
    ensures var ts := [0.0, 1.0, 604801.0]; InOrder(ts) && Lapses(ts) && Total(PresentAll(ts)) == 2
  {
    var ts := [0.0, 1.0, 604801.0];
    var a, b := Recorded(0.0, None), Recorded(604801.0, None);
    PresentOn([], 0.0);
    PresentOn([0.0], 1.0);
    PresentOn([0.0, 1.0], 604801.0);
    assert PresentAll([0.0]) == Repeats(Some(300.0), None, [a]) by { assert [] + [0.0] == [0.0]; }
    assert PresentAll([0.0, 1.0]) == Repeats(Some(300.0), Some(Count(1, 604801.0)), [a]) by { assert [0.0] + [1.0] == [0.0, 1.0]; }
    assert PresentAll(ts) == Repeats(Some(605101.0), None, [a, b]) by { assert [0.0, 1.0] + [604801.0] == ts; }
    NothingCarried(a, b);
    assert ts[..1] == [0.0];
    assert LapsesAt(ts, 1);
  }

  lemma PresentOn(ts: seq<real>, now: real)
    ensures PresentAll(ts + [now]) == Present(PresentAll(ts), now)
  {
    assert (ts + [now])[..|ts|] == ts;
  }

  lemma NothingCarried(a: Recorded, b: Recorded)
    requires a.suppressed == None && b.suppressed == None
    ensures Carried([a, b]) == 0
  {
    CarriedAppend([], a);
    CarriedAppend([a], b);
    assert [] + [a] == [a] && [a] + [b] == [a, b];
  }

  /** Any two recordings are at least one window apart. */
  ghost predicate Spaced(out: seq<Recorded>) {
    forall i, j :: 0 <= i < j < |out| ==> out[j].at - out[i].at >= REPEAT_WINDOW
  }

  lemma SpacedAppend(out: seq<Recorded>, r: Recorded)
    requires Spaced(out) && (out != [] ==> r.at - out[|out| - 1].at >= REPEAT_WINDOW)
    ensures Spaced(out + [r])
  {
    var more := out + [r];
    forall i, j | 0 <= i < j < |more| ensures more[j].at - more[i].at >= REPEAT_WINDOW {
      if j == |out| && i < |out| - 1 {
        assert out[|out| - 1].at - out[i].at >= REPEAT_WINDOW;
      }
    }
  }

  lemma {:induction false} RecordingsSpaced(ts: seq<real>)
    requires InOrder(ts)
    ensures Spaced(PresentAll(ts).out)
  {
    if ts != [] {
      var front, now := ts[..|ts| - 1], ts[|ts| - 1];
      RecordingsSpaced(front);
      var was := PresentAll(front);
      if front != [] {
        PresentAllSettled(front);
      }
      if !Marked(was, now) {
        SpacedAppend(was.out, PresentAll(ts).out[|was.out|]);
      }
    }
  }

  ghost predicate Near(out: seq<Recorded>, at: real) {
    exists r :: r in out && r.at <= at < r.at + REPEAT_WINDOW
  }

  lemma NearGrows(out: seq<Recorded>, more: seq<Recorded>, at: real)
    requires out <= more && Near(out, at)
    ensures Near(more, at)
  {
    var r :| r in out && r.at <= at < r.at + REPEAT_WINDOW;
    assert r in more;
  }

  /** Every presentation is at or less than a window after a recording. */
  lemma {:induction false} RecordedNearby(ts: seq<real>, k: nat)
    requires InOrder(ts) && k < |ts|
    ensures Near(PresentAll(ts).out, ts[k])
  {
    var front, out := ts[..|ts| - 1], PresentAll(ts).out;
    if k < |front| {
      RecordedNearby(front, k);
      NearGrows(PresentAll(front).out, out, ts[k]);
    } else {
      PresentAllSettled(ts);
      assert out[|out| - 1] in out;
    }
  }

  // ---------------------------------------------------------------- values that name no entry

  const DIGEST_WINDOW := 3600.0
  const SOURCE_LIMIT: nat := 60
  const SOURCE_WINDOW := 60.0

  /** What one presentation of an unknown value came to: the script's answer, and the end of the
      source's window it fell in when it was counted there. */
  datatype Answer = Answer(digest: string, source: string, at: real, code: int, window: real)
  datatype Refusals = Refusals(digests: map<string, real>, sources: map<string, Count>, log: seq<Answer>)

  const NO_REFUSALS := Refusals(map[], map[], [])

  predicate Known(s: Refusals, digest: string, now: real) { digest in s.digests && now < s.digests[digest] }

  function Increment(s: Refusals, source: string, now: real): Count {
    if source in s.sources && now < s.sources[source].until then Count(s.sources[source].n + 1, s.sources[source].until)
    else Count(1, now + SOURCE_WINDOW)
  }

  function CodeOf(n: nat): int { if n <= SOURCE_LIMIT then 1 else if n == SOURCE_LIMIT + 1 then -1 else -2 }

  function Refuse(s: Refusals, digest: string, source: string, now: real): Refusals {
    if Known(s, digest, now) then s.(log := s.log + [Answer(digest, source, now, 0, now)])
    else
      var c := Increment(s, source, now);
      Refusals(if c.n <= SOURCE_LIMIT then s.digests[digest := now + DIGEST_WINDOW] else s.digests,
               s.sources[source := c],
               s.log + [Answer(digest, source, now, CodeOf(c.n), c.until)])
  }

  class RefusalStore {
    var digests: map<string, real>
    var sources: map<string, Count>
    ghost var log: seq<Answer>

    ghost function View(): Refusals reads this { Refusals(digests, sources, log) }

    constructor ()
      ensures View() == NO_REFUSALS
    {
      digests, sources, log := map[], map[], [];
    }

    /** The unknown-refusal script. */
    method Unknown(digest: string, source: string, now: real) returns (r: int)
      modifies this
      ensures View() == Refuse(old(View()), digest, source, now)
      ensures r == log[|log| - 1].code
    {
      if digest in digests && now < digests[digest] {
        log := log + [Answer(digest, source, now, 0, now)];
        return 0;
      }
      var c := Count(1, now + SOURCE_WINDOW);
      if source in sources && now < sources[source].until {
        c := Count(sources[source].n + 1, sources[source].until);
      }
      sources := sources[source := c];
      if c.n > SOURCE_LIMIT {
        r := if c.n == SOURCE_LIMIT + 1 then -1 else -2;
      } else {
        digests := digests[digest := now + DIGEST_WINDOW];
        r := 1;
      }
      log := log + [Answer(digest, source, now, r, c.until)];
    }
  }

  datatype Presented = Presented(digest: string, source: string, at: real)

  function RefuseAll(ps: seq<Presented>): Refusals {
    if ps == [] then NO_REFUSALS
    else var p := ps[|ps| - 1]; Refuse(RefuseAll(ps[..|ps| - 1]), p.digest, p.source, p.at)
  }

  predicate TimesInOrder(ps: seq<Presented>) { forall i, j :: 0 <= i < j < |ps| ==> ps[i].at <= ps[j].at }

  /** How many presentations were counted in the source's window that ends at `w`, and how many of
      those were answered with `code`. */
  function InWindow(log: seq<Answer>, source: string, w: real): nat {
    if log == [] then 0
    else var a := log[|log| - 1];
      InWindow(log[..|log| - 1], source, w) + if a.code != 0 && a.source == source && a.window == w then 1 else 0
  }

  function Answered(log: seq<Answer>, source: string, w: real, code: int): nat {
    if log == [] then 0
    else var a := log[|log| - 1];
      Answered(log[..|log| - 1], source, w, code) + if a.code == code && a.source == source && a.window == w then 1 else 0
  }

  lemma InWindowAppend(log: seq<Answer>, a: Answer, source: string, w: real)
    ensures InWindow(log + [a], source, w)
      == InWindow(log, source, w) + if a.code != 0 && a.source == source && a.window == w then 1 else 0
  {
    assert (log + [a])[..|log|] == log;
  }

  lemma AnsweredAppend(log: seq<Answer>, a: Answer, source: string, w: real, code: int)
    ensures Answered(log + [a], source, w, code)
      == Answered(log, source, w, code) + if a.code == code && a.source == source && a.window == w then 1 else 0
  {
    assert (log + [a])[..|log|] == log;
  }

  /** The counter of a source's current window counts that window, and later windows are empty. */
  ghost predicate CounterIs(s: Refusals, source: string, w: real) {
    && (source !in s.sources ==> InWindow(s.log, source, w) == 0)
    && (source in s.sources && w == s.sources[source].until ==> InWindow(s.log, source, w) == s.sources[source].n)
    && (source in s.sources && w > s.sources[source].until ==> InWindow(s.log, source, w) == 0)
  }

  lemma {:induction false} CounterCounts(ps: seq<Presented>, source: string, w: real)
    requires TimesInOrder(ps)
    ensures CounterIs(RefuseAll(ps), source, w)
  {
    if ps != [] {
      var front, p := ps[..|ps| - 1], ps[|ps| - 1];
      CounterCounts(front, source, w);
      var s := RefuseAll(front);
      InWindowAppend(s.log, RefuseAll(ps).log[|s.log|], source, w);
    }
  }

  /** How many of n values counted in a window are answered with a code. */
  function Share(n: nat, code: int): nat {
    if code == 1 then (if n <= SOURCE_LIMIT then n else SOURCE_LIMIT)
    else if code == -1 then (if n > SOURCE_LIMIT then 1 else 0)
    else if code == -2 then (if n > SOURCE_LIMIT then n - SOURCE_LIMIT - 1 else 0)
    else 0
  }

  lemma ShareGrows(n: nat, code: int)
    ensures Share(n + 1, code) == Share(n, code) + if CodeOf(n + 1) == code then 1 else 0
  {
  }

  /** In every window of a source that counted n values: min(n, limit) are recorded, the overflow is
      reported once if n exceeds the limit and not at all otherwise, and the rest are silent. */
  lemma {:induction false} WindowAnswers(ps: seq<Presented>, source: string, w: real, code: int)
    requires TimesInOrder(ps) && code != 0
    ensures var log := RefuseAll(ps).log; Answered(log, source, w, code) == Share(InWindow(log, source, w), code)
  {
    if ps != [] {
      var front := ps[..|ps| - 1];
      WindowAnswers(front, source, w, code);
      CounterCounts(front, source, w);
      var s, p := RefuseAll(front), ps[|ps| - 1];
      NextAnswer(s, p, source, w);
      var a := Refuse(s, p.digest, p.source, p.at).log[|s.log|];
      assert RefuseAll(ps).log == s.log + [a];
      NextAnswered(s.log, a, source, w, code);
    }
  }

  lemma NextAnswered(log: seq<Answer>, a: Answer, source: string, w: real, code: int)
    requires code != 0 && Answered(log, source, w, code) == Share(InWindow(log, source, w), code)
    requires a.code != 0 && a.source == source && a.window == w ==> a.code == CodeOf(InWindow(log, source, w) + 1)
    ensures Answered(log + [a], source, w, code) == Share(InWindow(log + [a], source, w), code)
  {
    InWindowAppend(log, a, source, w);
    AnsweredAppend(log, a, source, w, code);
    ShareGrows(InWindow(log, source, w), code);
  }

  /** A value counted in a window is answered by how many were counted there before it. */
  lemma NextAnswer(s: Refusals, p: Presented, source: string, w: real)
    requires CounterIs(s, source, w)
    ensures var a := Refuse(s, p.digest, p.source, p.at).log[|s.log|];
      a.code != 0 && a.source == source && a.window == w ==> a.code == CodeOf(InWindow(s.log, source, w) + 1)
  {
  }

  /** Windows of one source do not overlap: what was counted lies within its window, and two windows
      end at least a window's length apart. */
  lemma {:induction false} WindowsApart(ps: seq<Presented>, i: nat, j: nat)
    requires TimesInOrder(ps) && i < j < |RefuseAll(ps).log|
    requires var log := RefuseAll(ps).log; log[i].source == log[j].source && log[i].code != 0 && log[j].code != 0
    ensures var log := RefuseAll(ps).log;
      && log[i].at < log[i].window <= log[i].at + SOURCE_WINDOW
      && (log[i].window == log[j].window || log[i].window + SOURCE_WINDOW <= log[j].window)
  {
    var front := ps[..|ps| - 1];
    var s := RefuseAll(front);
    WindowInPlace(front, i);
    if j < |s.log| {
      WindowsApart(front, i, j);
    }
  }

  ghost predicate Placed(s: Refusals, a: Answer) {
    a.code != 0 ==>
      && a.at < a.window <= a.at + SOURCE_WINDOW
      && a.source in s.sources && a.window <= s.sources[a.source].until
      && (a.window == s.sources[a.source].until || a.window + SOURCE_WINDOW <= s.sources[a.source].until)
  }

  lemma {:induction false} WindowInPlace(ps: seq<Presented>, i: nat)
    requires TimesInOrder(ps) && i < |RefuseAll(ps).log|
    ensures Placed(RefuseAll(ps), RefuseAll(ps).log[i])
  {
    var front, p := ps[..|ps| - 1], ps[|ps| - 1];
    if i < |RefuseAll(front).log| {
      WindowInPlace(front, i);
    } else if front != [] {
      SourcesRecent(front);
    }
  }

  lemma {:induction false} SourcesRecent(ps: seq<Presented>)
    requires TimesInOrder(ps)
    ensures forall x :: x in RefuseAll(ps).sources ==> ps != [] && RefuseAll(ps).sources[x].until <= ps[|ps| - 1].at + SOURCE_WINDOW
  {
    if ps != [] {
      SourcesRecent(ps[..|ps| - 1]);
    }
  }

  /** A value is recorded at most once in each window of its own. */
  lemma {:induction false} DigestsSpaced(ps: seq<Presented>, i: nat, j: nat)
    requires TimesInOrder(ps) && i < j < |RefuseAll(ps).log|
    requires var log := RefuseAll(ps).log; log[i].digest == log[j].digest && log[i].code == 1 && log[j].code == 1
    ensures RefuseAll(ps).log[j].at - RefuseAll(ps).log[i].at >= DIGEST_WINDOW
  {
    var front := ps[..|ps| - 1];
    if j < |RefuseAll(front).log| {
      DigestsSpaced(front, i, j);
    } else {
      DigestHeld(front, i);
    }
  }

  lemma {:induction false} DigestHeld(ps: seq<Presented>, i: nat)
    requires TimesInOrder(ps) && i < |RefuseAll(ps).log| && RefuseAll(ps).log[i].code == 1
    ensures var s := RefuseAll(ps); s.log[i].digest in s.digests && s.digests[s.log[i].digest] >= s.log[i].at + DIGEST_WINDOW
    ensures |RefuseAll(ps).log| == |ps| && RefuseAll(ps).log[i].at <= ps[|ps| - 1].at
  {
    LogLength(ps);
    LogLength(ps[..|ps| - 1]);
    if i < |ps| - 1 {
      DigestHeld(ps[..|ps| - 1], i);
    }
  }

  lemma {:induction false} LogLength(ps: seq<Presented>)
    ensures |RefuseAll(ps).log| == |ps|
  {
    if ps != [] {
      LogLength(ps[..|ps| - 1]);
    }
  }
}
