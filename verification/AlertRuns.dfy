/** Alert emission under concurrency and redelivery: any number of replicas with their own caches
    share one table, and one partition is consumed at least once. */
module AlertRuns {
  import opened Common
  import opened Alerts

  // ---------------------------------------------------------------- what the table keeps

  /** Two alerts of one scope are never closer than its cooldown in event time, nor at one time. */
  ghost predicate Spaced(rows: seq<Alert>, cfg: Config) {
    forall i, j :: 0 <= i < j < |rows| && ScopeOf(rows[i]) == ScopeOf(rows[j]) ==>
      && rows[i].at != rows[j].at
      && (rows[j].at - rows[i].at >= WindowFor(cfg, rows[i]) || rows[i].at - rows[j].at >= WindowFor(cfg, rows[i]))
  }

  lemma SavedKeepsSpacing(rows: seq<Alert>, a: Alert, cfg: Config)
    requires Spaced(rows, cfg) && AllBuilt(rows) && Built(a)
    ensures Spaced(Saved(rows, a, WindowFor(cfg, a)), cfg) && AllBuilt(Saved(rows, a, WindowFor(cfg, a)))
  {
    var w := WindowFor(cfg, a);
    if !Blocked(rows, a, w) {
      forall i | 0 <= i < |rows| && ScopeOf(rows[i]) == ScopeOf(a)
        ensures rows[i].at != a.at && !(a.at - w < rows[i].at < a.at + w) && WindowFor(cfg, rows[i]) == w
      {
        ScopesAgree(rows[i], a);
        assert !Near(rows[i], a, w) && !SameId(rows[i], a);
      }
    }
  }

  lemma {:induction false} PassIsSpaced(raised: seq<Alert>, cfg: Config)
    requires AllBuilt(raised)
    ensures Spaced(SavedAll([], raised, cfg), cfg) && AllBuilt(SavedAll([], raised, cfg))
  {
    if raised != [] {
      PassIsSpaced(raised[..|raised| - 1], cfg);
      SavedKeepsSpacing(SavedAll([], raised[..|raised| - 1], cfg), raised[|raised| - 1], cfg);
    }
  }

  // ---------------------------------------------------------------- replicas

  /** An emission under way: past the cache check, or past the database and about to be cached. */
  datatype Task = Saving(replica: nat, alert: Alert) | Noting(replica: nat, known: Known)

  /** `decided` lists the emissions in the order their fate was settled. */
  datatype Fleet = Fleet(rows: seq<Alert>, caches: map<nat, seq<Known>>, tasks: map<nat, Task>, decided: seq<Alert>)

  datatype FleetEvent =
    | Check(task: nat, replica: nat, alert: Alert)
    | Save(task: nat)
    | Note(task: nat)
    | Evict(replica: nat, scope: Scope)
    | Restart(replica: nat)

  function CacheOf(f: Fleet, replica: nat): seq<Known> {
    if replica in f.caches then f.caches[replica] else []
  }

  function FleetStep(f: Fleet, e: FleetEvent, cfg: Config, max: nat): Fleet {
    match e
    case Check(task, replica, a) =>
      if task in f.tasks || !Built(a) then f
      else if CachedWithin(CacheOf(f, replica), ScopeOf(a), a.at, WindowFor(cfg, a)) then
        f.(decided := f.decided + [a])
      else f.(tasks := f.tasks[task := Saving(replica, a)])
    case Save(task) =>
      if task !in f.tasks || !f.tasks[task].Saving? then f
      else
        var Saving(replica, a) := f.tasks[task];
        var w := WindowFor(cfg, a);
        var prior := PriorAt(f.rows, a, w);
        f.(rows := Saved(f.rows, a, w), decided := f.decided + [a],
           tasks := if !Blocked(f.rows, a, w) then f.tasks[task := Noting(replica, Known(ScopeOf(a), a.at))]
                    else if prior.Some? then f.tasks[task := Noting(replica, Known(ScopeOf(a), prior.value))]
                    else f.tasks - {task})
    case Note(task) =>
      if task !in f.tasks || !f.tasks[task].Noting? then f
      else
        var Noting(replica, known) := f.tasks[task];
        f.(caches := f.caches[replica := Remembered(CacheOf(f, replica), known, max)], tasks := f.tasks - {task})
    case Evict(replica, scope) => f.(caches := f.caches[replica := Forget(CacheOf(f, replica), scope)])
    case Restart(replica) =>
      f.(caches := f.caches[replica := []],
         tasks := map t | t in f.tasks && f.tasks[t].replica != replica :: f.tasks[t])
  }

  function FleetRun(f: Fleet, es: seq<FleetEvent>, cfg: Config, max: nat): Fleet {
    if es == [] then f else FleetStep(FleetRun(f, es[..|es| - 1], cfg, max), es[|es| - 1], cfg, max)
  }

  ghost predicate FleetInv(f: Fleet, cfg: Config) {
    && AllBuilt(f.rows) && AllBuilt(f.decided)
    && (forall r :: r in f.caches ==> Sound(f.caches[r], f.rows))
    && (forall t :: t in f.tasks && f.tasks[t].Saving? ==> Built(f.tasks[t].alert))
    && (forall t :: t in f.tasks && f.tasks[t].Noting? ==> Stored(f.rows, f.tasks[t].known))
    && f.rows == SavedAll([], f.decided, cfg)
  }

  lemma DecidedNext(f: Fleet, a: Alert, cfg: Config)
    requires f.rows == SavedAll([], f.decided, cfg)
    ensures SavedAll([], f.decided + [a], cfg) == Saved(f.rows, a, WindowFor(cfg, a))
  {
    assert (f.decided + [a])[..|f.decided|] == f.decided;
  }

  lemma CheckKeeps(f: Fleet, task: nat, replica: nat, a: Alert, cfg: Config, max: nat)
    requires FleetInv(f, cfg)
    ensures FleetInv(FleetStep(f, Check(task, replica, a), cfg, max), cfg)
  {
    if task !in f.tasks && Built(a) && CachedWithin(CacheOf(f, replica), ScopeOf(a), a.at, WindowFor(cfg, a)) {
      DecidedNext(f, a, cfg);
      EmitIsSaved(f.rows, CacheOf(f, replica), a, WindowFor(cfg, a), max);
    }
  }

  lemma SaveKeeps(f: Fleet, task: nat, cfg: Config, max: nat)
    requires FleetInv(f, cfg)
    ensures FleetInv(FleetStep(f, Save(task), cfg, max), cfg)
  {
    if task in f.tasks && f.tasks[task].Saving? {
      var a := f.tasks[task].alert;
      var w := WindowFor(cfg, a);
      var g := FleetStep(f, Save(task), cfg, max);
      DecidedNext(f, a, cfg);
      forall r | r in g.caches ensures Sound(g.caches[r], g.rows) {
        if !Blocked(f.rows, a, w) { SoundGrows(f.caches[r], f.rows, a); }
      }
      forall t | t in g.tasks && g.tasks[t].Noting? ensures Stored(g.rows, g.tasks[t].known) {
        if t == task {
          NewlyKnown(f.rows, a, w);
        } else {
          assert Sound([f.tasks[t].known], f.rows);
          if !Blocked(f.rows, a, w) { SoundGrows([f.tasks[t].known], f.rows, a); }
          assert f.tasks[t].known in [f.tasks[t].known];
        }
      }
    }
  }

  lemma NewlyKnown(rows: seq<Alert>, a: Alert, w: int)
    requires Built(a) && AllBuilt(rows)
    ensures !Blocked(rows, a, w) ==> Stored(Saved(rows, a, w), Known(ScopeOf(a), a.at))
    ensures Blocked(rows, a, w) && PriorAt(rows, a, w).Some? ==> Stored(rows, Known(ScopeOf(a), PriorAt(rows, a, w).value))
  {
    PriorIsLatest(rows, a, w);
    if !Blocked(rows, a, w) {
      assert (rows + [a])[|rows|] == a;
    } else if PriorAt(rows, a, w).Some? {
      var i :| 0 <= i < |rows| && Near(rows[i], a, w) && rows[i].at == PriorAt(rows, a, w).value;
      ScopesAgree(rows[i], a);
    }
  }

  lemma {:induction false} FleetRunKeeps(f: Fleet, es: seq<FleetEvent>, cfg: Config, max: nat)
    requires FleetInv(f, cfg)
    ensures FleetInv(FleetRun(f, es, cfg, max), cfg)
  {
    if es != [] {
      var g, e := FleetRun(f, es[..|es| - 1], cfg, max), es[|es| - 1];
      FleetRunKeeps(f, es[..|es| - 1], cfg, max);
      match e {
        case Check(task, replica, a) => CheckKeeps(g, task, replica, a, cfg, max);
        case Save(task) => SaveKeeps(g, task, cfg, max);
        case _ =>
      }
    }
  }

  /** Whatever the caches held, evicted or lost, and however emissions of any number of replicas
      interleaved, the table is what the database check alone makes of the same emissions; every cache
      entry names a stored alert; and one scope's alerts keep their cooldown. */
  lemma CachesAreInvisible(es: seq<FleetEvent>, cfg: Config, max: nat)
    ensures var f := FleetRun(Fleet([], map[], map[], []), es, cfg, max);
      && f.rows == SavedAll([], f.decided, cfg)
      && (forall r :: r in f.caches ==> Sound(f.caches[r], f.rows))
      && Spaced(f.rows, cfg)
  {
    FleetRunKeeps(Fleet([], map[], map[], []), es, cfg, max);
    PassIsSpaced(FleetRun(Fleet([], map[], map[], []), es, cfg, max).decided, cfg);
  }

  // ---------------------------------------------------------------- redelivery

  lemma BlockedStays(rows: seq<Alert>, more: seq<Alert>, a: Alert, w: int)
    requires Blocked(rows, a, w)
    ensures Blocked(rows + more, a, w)
  {
    var i :| 0 <= i < |rows| && (Near(rows[i], a, w) || SameId(rows[i], a));
    assert (rows + more)[i] == rows[i];
  }

  /** An emission already made is blocked ever after: by its own row, or by the row that first blocked it. */
  lemma {:induction false} ReplayIsBlocked(raised: seq<Alert>, i: nat, cfg: Config)
    requires i < |raised|
    ensures Blocked(SavedAll([], raised, cfg), raised[i], WindowFor(cfg, raised[i]))
  {
    var init, last := raised[..|raised| - 1], raised[|raised| - 1];
    var before, w := SavedAll([], init, cfg), WindowFor(cfg, last);
    if i < |init| {
      ReplayIsBlocked(init, i, cfg);
      if !Blocked(before, last, w) { BlockedStays(before, [last], raised[i], WindowFor(cfg, raised[i])); }
    } else if !Blocked(before, last, w) {
      assert SameId((before + [last])[|before|], last);
    }
  }

  /** One partition: message m raises log[m], in rule order. The worker stands at alert `sub` of
      message `next`; offsets below `committed` are committed. */
  datatype Worker = Worker(rows: seq<Alert>, cache: seq<Known>, next: nat, sub: nat, committed: nat)

  datatype WorkerEvent =
    | EmitNext          // emit the next alert of the message under evaluation
    | Finish            // the message is evaluated
    | RetryMessage      // an attempt failed; the message is evaluated again from its first rule
    | Commit            // the batch's offsets are committed
    | Rewind            // failed batch, lost commit or rebalance: back to the last commit
    | RestartWorker     // crash: back to the last commit with an empty cache

  function WorkerStep(s: Worker, e: WorkerEvent, log: seq<seq<Alert>>, cfg: Config, max: nat): Worker {
    match e
    case EmitNext =>
      if s.next < |log| && s.sub < |log[s.next]| then
        var a := log[s.next][s.sub];
        var (rows, cache) := EmitOn(s.rows, s.cache, a, WindowFor(cfg, a), max);
        s.(rows := rows, cache := cache, sub := s.sub + 1)
      else s
    case Finish => if s.next < |log| && s.sub == |log[s.next]| then s.(next := s.next + 1, sub := 0) else s
    case RetryMessage => s.(sub := 0)
    case Commit => if s.sub == 0 then s.(committed := s.next) else s
    case Rewind => s.(next := s.committed, sub := 0)
    case RestartWorker => s.(next := s.committed, sub := 0, cache := [])
  }

  function WorkerRun(s: Worker, es: seq<WorkerEvent>, log: seq<seq<Alert>>, cfg: Config, max: nat): Worker {
    if es == [] then s else WorkerStep(WorkerRun(s, es[..|es| - 1], log, cfg, max), es[|es| - 1], log, cfg, max)
  }

  function Flat(log: seq<seq<Alert>>): seq<Alert> {
    if log == [] then [] else Flat(log[..|log| - 1]) + log[|log| - 1]
  }

  lemma {:induction false} FlatAt(log: seq<seq<Alert>>, m: nat, j: nat)
    requires m < |log| && j <= |log[m]|
    ensures |Flat(log[..m])| + j <= |Flat(log)| && Flat(log[..m + 1]) == Flat(log[..m]) + log[m]
    ensures j < |log[m]| ==> |Flat(log[..m])| + j < |Flat(log)| && Flat(log)[|Flat(log[..m])| + j] == log[m][j]
  {
    assert log[..m + 1][..m] == log[..m];
    if m < |log| - 1 {
      var init := log[..|log| - 1];
      assert init[..m] == log[..m];
      FlatAt(init, m, j);
    } else {
      assert log[..m + 1] == log;
    }
  }

  /** How many of the partition's alerts precede the worker's place. */
  ghost function Place(s: Worker, log: seq<seq<Alert>>): nat
    requires s.next <= |log|
  {
    |Flat(log[..s.next])| + s.sub
  }

  /** The furthest place ever reached, `mark`, determines the table. */
  ghost predicate Delivered(s: Worker, mark: nat, log: seq<seq<Alert>>, cfg: Config) {
    && s.committed <= |log| && s.next <= |log|
    && (s.next < |log| ==> s.sub <= |log[s.next]|) && (s.next == |log| ==> s.sub == 0)
    && Place(s, log) <= mark <= |Flat(log)| && |Flat(log[..s.committed])| <= mark
    && s.rows == SavedAll([], Flat(log)[..mark], cfg)
    && AllBuilt(s.rows) && Sound(s.cache, s.rows)
  }

  /** Emitting alert p of a pass that already took in `mark` of them: nothing new, or the next one. */
  lemma EmitNextOf(all: seq<Alert>, mark: nat, p: nat, cfg: Config)
    requires p <= mark <= |all| && p < |all|
    ensures var mark' := if p < mark then mark else mark + 1;
      Saved(SavedAll([], all[..mark], cfg), all[p], WindowFor(cfg, all[p])) == SavedAll([], all[..mark'], cfg)
  {
    if p < mark {
      assert all[..mark][p] == all[p];
      ReplayIsBlocked(all[..mark], p, cfg);
    } else {
      assert all[..mark + 1][..mark] == all[..mark] && all[..mark + 1][mark] == all[p];
    }
  }

  lemma EmitDelivers(s: Worker, mark: nat, log: seq<seq<Alert>>, cfg: Config, max: nat) returns (mark': nat)
    requires Delivered(s, mark, log, cfg) && AllBuilt(Flat(log)) && s.next < |log| && s.sub < |log[s.next]|
    ensures mark <= mark' && Delivered(WorkerStep(s, EmitNext, log, cfg, max), mark', log, cfg)
  {
    var a, p := log[s.next][s.sub], Place(s, log);
    FlatAt(log, s.next, s.sub);
    assert Flat(log)[p] == a && a in Flat(log);
    EmitIsSaved(s.rows, s.cache, a, WindowFor(cfg, a), max);
    mark' := if p < mark then mark else mark + 1;
    EmitNextOf(Flat(log), mark, p, cfg);
  }

  lemma StepDelivers(s: Worker, e: WorkerEvent, mark: nat, log: seq<seq<Alert>>, cfg: Config, max: nat) returns (mark': nat)
    requires Delivered(s, mark, log, cfg) && AllBuilt(Flat(log))
    ensures mark <= mark' && Delivered(WorkerStep(s, e, log, cfg, max), mark', log, cfg)
  {
    mark' := mark;
    if e.EmitNext? && s.next < |log| && s.sub < |log[s.next]| {
      mark' := EmitDelivers(s, mark, log, cfg, max);
    } else if e.Finish? && s.next < |log| && s.sub == |log[s.next]| {
      FlatAt(log, s.next, s.sub);
    }
  }

  lemma {:induction false} RunDelivers(es: seq<WorkerEvent>, log: seq<seq<Alert>>, cfg: Config, max: nat) returns (mark: nat)
    requires AllBuilt(Flat(log))
    ensures Delivered(WorkerRun(Worker([], [], 0, 0, 0), es, log, cfg, max), mark, log, cfg)
  {
    if es == [] {
      mark := 0;
      assert Flat(log)[..0] == [] && log[..0] == [];
    } else {
      mark := RunDelivers(es[..|es| - 1], log, cfg, max);
      mark := StepDelivers(WorkerRun(Worker([], [], 0, 0, 0), es[..|es| - 1], log, cfg, max), es[|es| - 1], mark, log, cfg, max);
    }
  }

  /** Delivery at least once, effect exactly once: any run that reaches the end of the partition,
      through whatever rewinds, partial evaluations, lost commits and restarts, leaves the alerts table
      of one in-order pass. No bound on the cooldown is needed: the primary key absorbs replays the
      window does not. */
  lemma ExactlyOnce(es: seq<WorkerEvent>, log: seq<seq<Alert>>, cfg: Config, max: nat)
    requires AllBuilt(Flat(log))
    requires WorkerRun(Worker([], [], 0, 0, 0), es, log, cfg, max).next == |log|
    ensures WorkerRun(Worker([], [], 0, 0, 0), es, log, cfg, max).rows == SavedAll([], Flat(log), cfg)
  {
    var mark := RunDelivers(es, log, cfg, max);
    assert log[..|log|] == log;
    assert Flat(log)[..mark] == Flat(log);
  }
}
