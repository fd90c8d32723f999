/** Alert de-duplication: the serialised database check (services/alert_service/worker/repository.py)
    and the engine's bounded cache in front of it (services/alert_service/worker/rules_engine.py).
    Times and windows are integers (microseconds); `body` stands for the columns that do not decide
    anything. */
module Alerts {
  import opened Common

  const RETRAIN := "retrain_recommended"

  datatype Alert = Alert(company: string, rule: string, sensor: Option<string>, equipment: Option<string>,
                         model: Option<string>, condition: string, at: int, body: string)

  datatype Scope =
    | AlertScope(company: string, rule: string, sensor: Option<string>, equipment: Option<string>)
    | RetrainScope(company: string, model: Option<string>)

  /** The cooldown of alerts, and the longer one of retrain recommendations. */
  datatype Config = Config(cooldown: int, retrainCooldown: int)

  predicate IsRetrain(a: Alert) { a.condition == RETRAIN }

  /** What the engine's builders guarantee: a retrain recommendation always names its model. */
  predicate Built(a: Alert) { IsRetrain(a) ==> a.model.Some? }

  function ScopeOf(a: Alert): Scope {
    if IsRetrain(a) then RetrainScope(a.company, a.model) else AlertScope(a.company, a.rule, a.sensor, a.equipment)
  }

  function WindowFor(cfg: Config, a: Alert): int {
    if IsRetrain(a) then cfg.retrainCooldown else cfg.cooldown
  }

  // ---------------------------------------------------------------- the database check

  /** The scope clause of the SQL, inside the tenant's schema. `=` is never true of a null. */
  predicate SqlScope(row: Alert, a: Alert, retrain: bool) {
    && row.company == a.company
    && if retrain then row.model.Some? && row.model == a.model && row.condition == RETRAIN
       else row.rule == a.rule && row.sensor == a.sensor && row.equipment == a.equipment && row.condition != RETRAIN
  }

  predicate Near(row: Alert, a: Alert, window: int) {
    SqlScope(row, a, IsRetrain(a)) && a.at - window < row.at < a.at + window
  }

  /** The primary key (alert_id, triggered_at); the id is derived from the scope and the event time. */
  predicate SameId(row: Alert, a: Alert) { ScopeOf(row) == ScopeOf(a) && row.at == a.at }

  predicate Blocked(rows: seq<Alert>, a: Alert, window: int) {
    exists i :: 0 <= i < |rows| && (Near(rows[i], a, window) || SameId(rows[i], a))
  }

  function Saved(rows: seq<Alert>, a: Alert, window: int): seq<Alert> {
    if Blocked(rows, a, window) then rows else rows + [a]
  }

  /** The latest event time within the window, if any. */
  function PriorAt(rows: seq<Alert>, a: Alert, window: int): Option<int> {
    if rows == [] then None else
      var last, before := rows[|rows| - 1], PriorAt(rows[..|rows| - 1], a, window);
      if !Near(last, a, window) then before
      else if before.Some? && before.value >= last.at then before else Some(last.at)
  }

  /** The clause the SQL compares by is the engine's own scope. */
  lemma ScopesAgree(row: Alert, a: Alert)
    requires Built(row) && Built(a)
    ensures SqlScope(row, a, IsRetrain(a)) <==> ScopeOf(row) == ScopeOf(a)
  {
  }

  lemma {:induction false} PriorIsLatest(rows: seq<Alert>, a: Alert, window: int)
    ensures PriorAt(rows, a, window).None? <==> forall i :: 0 <= i < |rows| ==> !Near(rows[i], a, window)
    ensures PriorAt(rows, a, window).Some? ==>
      && (exists i :: 0 <= i < |rows| && Near(rows[i], a, window) && rows[i].at == PriorAt(rows, a, window).value)
      && (forall i :: 0 <= i < |rows| && Near(rows[i], a, window) ==> rows[i].at <= PriorAt(rows, a, window).value)
  {
    if rows != [] {
      var init := rows[..|rows| - 1];
      PriorIsLatest(init, a, window);
      assert forall i :: 0 <= i < |init| ==> init[i] == rows[i];
    }
  }

  class AlertsTable {
    var rows: seq<Alert>

    constructor ()
      ensures rows == []
    {
      rows := [];
    }

    /** One transaction under the scope's advisory lock. */
    method SaveAlertOnce(a: Alert, window: int) returns (inserted: bool, priorAt: Option<int>)
      modifies this
      ensures rows == Saved(old(rows), a, window)
      ensures inserted <==> !Blocked(old(rows), a, window)
      ensures priorAt == PriorAt(old(rows), a, window)
    {
      priorAt := None;
      var conflict := false;
      for i := 0 to |rows|
        invariant priorAt == PriorAt(rows[..i], a, window)
        invariant conflict <==> exists j :: 0 <= j < i && SameId(rows[j], a)
        invariant rows == old(rows)
      {
        assert rows[..i + 1][..i] == rows[..i];
        if Near(rows[i], a, window) && !(priorAt.Some? && priorAt.value >= rows[i].at) {
          priorAt := Some(rows[i].at);
        }
        conflict := conflict || SameId(rows[i], a);
      }
      assert rows[..|rows|] == rows;
      PriorIsLatest(rows, a, window);
      inserted := priorAt.None? && !conflict;
      if inserted { rows := rows + [a]; }
    }
  }

  // ---------------------------------------------------------------- the engine's cache

  /** The last alert known of a scope; the cache lists its entries least recently used first. */
  datatype Known = Known(scope: Scope, at: int)

  predicate CachedWithin(cache: seq<Known>, scope: Scope, at: int, window: int) {
    exists i :: 0 <= i < |cache| && cache[i].scope == scope && -window < at - cache[i].at < window
  }

  function Forget(cache: seq<Known>, scope: Scope): (r: seq<Known>)
    ensures forall e :: e in r <==> e in cache && e.scope != scope
    ensures |r| <= |cache|
  {
    if cache == [] then []
    else if cache[0].scope == scope then Forget(cache[1..], scope)
    else [cache[0]] + Forget(cache[1..], scope)
  }

  function Trimmed(cache: seq<Known>, max: nat): seq<Known> {
    if |cache| > max then cache[|cache| - max..] else cache
  }

  function Remembered(cache: seq<Known>, known: Known, max: nat): seq<Known> {
    Trimmed(Forget(cache, known.scope) + [known], max)
  }

  /** Every cache entry names a stored alert. */
  ghost predicate Sound(cache: seq<Known>, rows: seq<Alert>) {
    forall e :: e in cache ==> Stored(rows, e)
  }

  ghost predicate Stored(rows: seq<Alert>, e: Known) {
    exists i :: 0 <= i < |rows| && ScopeOf(rows[i]) == e.scope && rows[i].at == e.at
  }

  ghost predicate AllBuilt(rows: seq<Alert>) { forall r :: r in rows ==> Built(r) }

  /** What one `_emit` does to the table and to the engine's cache. */
  function EmitOn(rows: seq<Alert>, cache: seq<Known>, a: Alert, window: int, max: nat): (seq<Alert>, seq<Known>) {
    if CachedWithin(cache, ScopeOf(a), a.at, window) then (rows, cache)
    else (Saved(rows, a, window), CacheAfter(rows, cache, a, window, max))
  }

  function CacheAfter(rows: seq<Alert>, cache: seq<Known>, a: Alert, window: int, max: nat): seq<Known> {
    if !Blocked(rows, a, window) then Remembered(cache, Known(ScopeOf(a), a.at), max)
    else if PriorAt(rows, a, window).Some? then Remembered(cache, Known(ScopeOf(a), PriorAt(rows, a, window).value), max)
    else cache
  }

  class RulesEngine {
    const repo: AlertsTable
    const cfg: Config
    const cacheMax: nat
    var lastEmit: seq<Known>

    constructor (repo: AlertsTable, cfg: Config, cacheMax: nat)
      ensures this.repo == repo && this.cfg == cfg && this.cacheMax == cacheMax && lastEmit == []
    {
      this.repo := repo;
      this.cfg := cfg;
      this.cacheMax := cacheMax;
      lastEmit := [];
    }

    method Remember(scope: Scope, at: int)
      modifies this`lastEmit
      ensures lastEmit == Remembered(old(lastEmit), Known(scope, at), cacheMax)
      ensures |lastEmit| <= cacheMax
    {
      lastEmit := Forget(lastEmit, scope) + [Known(scope, at)];
      ghost var full := lastEmit;
      while |lastEmit| > cacheMax
        invariant |lastEmit| <= |full| && lastEmit == full[|full| - |lastEmit|..]
        invariant |full| >= cacheMax ==> |lastEmit| >= cacheMax
        invariant |full| < cacheMax ==> lastEmit == full
      {
        lastEmit := lastEmit[1..];
      }
    }

    /** Writes the alert unless one of its scope exists within the window; true when a row was written. */
    method Emit(a: Alert, window: int) returns (written: bool)
      requires Built(a) && AllBuilt(repo.rows) && Sound(lastEmit, repo.rows)
      modifies this`lastEmit, repo
      ensures (repo.rows, lastEmit) == EmitOn(old(repo.rows), old(lastEmit), a, window, cacheMax)
      ensures repo.rows == Saved(old(repo.rows), a, window)
      ensures written <==> !Blocked(old(repo.rows), a, window)
      ensures AllBuilt(repo.rows) && Sound(lastEmit, repo.rows)
    {
      EmitIsSaved(repo.rows, lastEmit, a, window, cacheMax);
      var scope := ScopeOf(a);
      if CachedWithin(lastEmit, scope, a.at, window) { return false; }
      var inserted, priorAt := repo.SaveAlertOnce(a, window);
      if inserted {
        Remember(scope, a.at);
        return true;
      }
      if priorAt.Some? { Remember(scope, priorAt.value); }
      return false;
    }

    /** The alerts a reading's applicable rules raised, in rule order. */
    method Evaluate(raised: seq<Alert>) returns (triggered: seq<Alert>)
      requires forall a :: a in raised ==> !IsRetrain(a)
      requires AllBuilt(repo.rows) && Sound(lastEmit, repo.rows)
      modifies this`lastEmit, repo
      ensures repo.rows == SavedAll(old(repo.rows), raised, cfg)
      ensures repo.rows == old(repo.rows) + triggered
      ensures AllBuilt(repo.rows) && Sound(lastEmit, repo.rows)
    {
      triggered := [];
      for i := 0 to |raised|
        invariant repo.rows == SavedAll(old(repo.rows), raised[..i], cfg) == old(repo.rows) + triggered
        invariant AllBuilt(repo.rows) && Sound(lastEmit, repo.rows)
      {
        assert raised[..i + 1][..i] == raised[..i];
        var written := Emit(raised[i], cfg.cooldown);
        if written { triggered := triggered + [raised[i]]; }
      }
      assert raised[..|raised|] == raised;
    }
  }

  /** One in-order pass of the database check alone. */
  function SavedAll(rows: seq<Alert>, raised: seq<Alert>, cfg: Config): seq<Alert> {
    if raised == [] then rows
    else
      var last := raised[|raised| - 1];
      Saved(SavedAll(rows, raised[..|raised| - 1], cfg), last, WindowFor(cfg, last))
  }

  /** A cache hit is a database refusal: with a sound cache, of any size and however evicted, `_emit`
      leaves the table the database check alone would leave, and the cache stays sound. */
  lemma EmitIsSaved(rows: seq<Alert>, cache: seq<Known>, a: Alert, window: int, max: nat)
    requires Built(a) && AllBuilt(rows) && Sound(cache, rows)
    ensures EmitOn(rows, cache, a, window, max).0 == Saved(rows, a, window)
    ensures Sound(EmitOn(rows, cache, a, window, max).1, EmitOn(rows, cache, a, window, max).0)
    ensures AllBuilt(EmitOn(rows, cache, a, window, max).0)
  {
    if CachedWithin(cache, ScopeOf(a), a.at, window) {
      var c :| 0 <= c < |cache| && cache[c].scope == ScopeOf(a) && -window < a.at - cache[c].at < window;
      assert cache[c] in cache;
      var i :| 0 <= i < |rows| && ScopeOf(rows[i]) == cache[c].scope && rows[i].at == cache[c].at;
      ScopesAgree(rows[i], a);
      assert Near(rows[i], a, window);
    } else {
      CacheStaysSound(rows, cache, a, window, max);
    }
  }

  lemma SoundGrows(cache: seq<Known>, rows: seq<Alert>, a: Alert)
    requires Sound(cache, rows)
    ensures Sound(cache, rows + [a])
  {
    forall e | e in cache ensures Stored(rows + [a], e) {
      var i :| 0 <= i < |rows| && ScopeOf(rows[i]) == e.scope && rows[i].at == e.at;
      assert (rows + [a])[i] == rows[i];
    }
  }

  lemma CacheStaysSound(rows: seq<Alert>, cache: seq<Known>, a: Alert, window: int, max: nat)
    requires Built(a) && AllBuilt(rows) && Sound(cache, rows)
    ensures Sound(CacheAfter(rows, cache, a, window, max), Saved(rows, a, window))
  {
    PriorIsLatest(rows, a, window);
    if !Blocked(rows, a, window) {
      SoundGrows(cache, rows, a);
      assert (rows + [a])[|rows|] == a;
      assert Stored(rows + [a], Known(ScopeOf(a), a.at));
    } else if PriorAt(rows, a, window).Some? {
      var i :| 0 <= i < |rows| && Near(rows[i], a, window) && rows[i].at == PriorAt(rows, a, window).value;
      ScopesAgree(rows[i], a);
      assert Stored(rows, Known(ScopeOf(a), rows[i].at));
    }
  }
}
