/** Emptying a deleted tenant out of the tracking store
    (services/notebook_tracking_gateway/offboarding.py and infrastructure/mlflow/collect_deleted.py). */
module Offboarding {
  import opened Common
  import opened Tenancy
  import opened Staging

  datatype Experiment = Experiment(name: string, deleted: bool, logged: set<string>)
  datatype State = State(models: set<string>, objects: set<string>, experiments: map<string, Experiment>)

  function StagedArea(u: string): string { STAGING_ROOT + Token(u) + "/" }

  /** Where the emptying of tenant `u` takes one experiment. */
  function Settled(u: string, id: string, e: Experiment): Experiment {
    if NamePrefix(u) <= e.name then Experiment(DeletedPrefix(u) + id, true, {})
    else if DeletedPrefix(u) <= e.name && !e.deleted then e.(deleted := true, logged := {})
    else e
  }

  function SettledAll(u: string, es: map<string, Experiment>): map<string, Experiment> { map id | id in es :: Settled(u, id, es[id]) }

  predicate OwnsObject(u: string, key: string) { ArtifactPrefix(u) <= key || StagedArea(u) <= key }

  /** The store once the tenant is out of it, as far as the gateway can take it. */
  function Emptied(u: string, s: State): State {
    State((set m | m in s.models && !(NamePrefix(u) <= m)), (set k | k in s.objects && !OwnsObject(u, k)), SettledAll(u, s.experiments))
  }

  /** Only the emptying itself puts experiments under the deleted prefix, each under its own id. */
  predicate NamedById(u: string, es: map<string, Experiment>) {
    forall id :: id in es && DeletedPrefix(u) <= es[id].name ==> es[id].name == DeletedPrefix(u) + id
  }

  /** Nothing was added: what is left to do has not grown. */
  predicate NoMore(s: State, t: State) {
    && t.models <= s.models && t.objects <= s.objects && t.experiments.Keys == s.experiments.Keys
    && forall id :: id in s.experiments ==> t.experiments[id].logged <= s.experiments[id].logged
  }

  predicate Step(u: string, s: State, t: State) {
    Emptied(u, t) == Emptied(u, s) && NamedById(u, t.experiments) && NoMore(s, t)
  }

  lemma StepOn(u: string, a: State, b: State, c: State)
    requires Step(u, a, b) && Step(u, b, c)
    ensures Step(u, a, c)
  {
  }

  /** The logged models of these experiments. */
  function Logged(es: map<string, Experiment>, ids: set<string>): set<(string, string)> {
    set id, m | id in ids && id in es && m in es[id].logged :: (id, m)
  }

  /** Enough calls for a whole emptying: each model, object and logged model once, each experiment found
      twice, restored, renamed and deleted, and the two searches. */
  function Enough(s: State): nat {
    |s.models| + |s.objects| + 5 * |s.experiments| + |Logged(s.experiments, s.experiments.Keys)| + 2
  }

  lemma {:induction false} Fewer<T(!new)>(a: set<T>, b: set<T>)
    requires a <= b
    ensures |a| <= |b|
  {
    if a != {} {
      var x :| x in a;
      Fewer(a - {x}, b - {x});
    }
  }

  lemma LoggedShrinks(s: State, t: State)
    requires NoMore(s, t)
    ensures |t.experiments| == |s.experiments|
    ensures |Logged(t.experiments, t.experiments.Keys)| <= |Logged(s.experiments, s.experiments.Keys)|
  {
    assert |t.experiments| == |t.experiments.Keys| == |s.experiments.Keys| == |s.experiments|;
    Fewer(Logged(t.experiments, t.experiments.Keys), Logged(s.experiments, s.experiments.Keys));
  }

  lemma EnoughShrinks(s: State, t: State)
    requires NoMore(s, t)
    ensures Enough(t) <= Enough(s)
  {
    Fewer(t.models, s.models);
    Fewer(t.objects, s.objects);
    assert |t.experiments| == |t.experiments.Keys| == |s.experiments.Keys| == |s.experiments|;
    Fewer(Logged(t.experiments, t.experiments.Keys), Logged(s.experiments, s.experiments.Keys));
  }

  /** `LIKE` reads an underscore as any character. */
  predicate Like(prefix: string, name: string) {
    |prefix| <= |name| && forall i :: 0 <= i < |prefix| ==> prefix[i] == '_' || prefix[i] == name[i]
  }

  // ---------------------------------------------------------------- what the end state is

  /** Emptying again changes nothing. */
  lemma EmptiedTwice(u: string, s: State)
    requires Canonical(u)
    ensures Emptied(u, Emptied(u, s)) == Emptied(u, s)
  {
    forall id | id in s.experiments ensures Settled(u, id, Settled(u, id, s.experiments[id])) == Settled(u, id, s.experiments[id]) {
      DeletedApart(u, u, DeletedPrefix(u) + id);
    }
  }

  /** The tenant's models, objects and named experiments are gone; every experiment it had is deleted,
      under its own id in the deleted root, with no logged model. */
  lemma NothingOfTheTenant(u: string, s: State)
    requires NamedById(u, s.experiments)
    ensures var t := Emptied(u, s);
      && (forall m :: m in t.models ==> !(NamePrefix(u) <= m))
      && (forall k :: k in t.objects ==> !OwnsObject(u, k))
      && t.experiments.Keys == s.experiments.Keys
      && (forall id :: id in t.experiments ==> !(NamePrefix(u) <= t.experiments[id].name))
      && (forall id :: id in s.experiments && NamePrefix(u) <= s.experiments[id].name ==>
            t.experiments[id] == Experiment(DeletedPrefix(u) + id, true, {}))
      && (forall id :: id in t.experiments && DeletedPrefix(u) <= t.experiments[id].name ==> t.experiments[id].deleted)
      && NamedById(u, t.experiments)
  {
    var t := Emptied(u, s);
    forall id | id in t.experiments ensures !(NamePrefix(u) <= t.experiments[id].name) {
      if NamePrefix(u) <= s.experiments[id].name {
        DeletedApart(u, u, DeletedPrefix(u) + id);
      }
    }
  }

  /** Nothing another tenant has changes: models, objects, experiments, deleted or not. */
  lemma OthersUntouched(u: string, v: string, s: State, name: string)
    requires Canonical(u) && Canonical(v) && u != v
    ensures NamePrefix(v) <= name ==> (name in Emptied(u, s).models <==> name in s.models)
    ensures OwnsObject(v, name) ==> (name in Emptied(u, s).objects <==> name in s.objects)
    ensures name in s.experiments && (NamePrefix(v) <= s.experiments[name].name || DeletedPrefix(v) <= s.experiments[name].name) ==>
      Emptied(u, s).experiments[name] == s.experiments[name]
  {
    OwnedByOne(u, v, name);
    StagedApart(u, v, name);
    if name in s.experiments {
      var n := s.experiments[name].name;
      OwnedByOne(u, v, n);
      if DeletedPrefix(v) <= n { DeletedApart(v, u, n); }
      if DeletedPrefix(u) <= n { DeletedApart(u, v, n); }
    }
  }

  lemma StagedApart(u: string, v: string, key: string)
    requires Canonical(u) && Canonical(v) && u != v
    ensures !(StagedArea(u) <= key && StagedArea(v) <= key)
    ensures !(StagedArea(u) <= key && ArtifactPrefix(v) <= key)
    ensures !(ArtifactPrefix(u) <= key && StagedArea(v) <= key)
  {
    TokensDiffer(u, v, '/');
    assert StagedArea(u) == STAGING_ROOT + (Token(u) + "/") && StagedArea(v) == STAGING_ROOT + (Token(v) + "/");
    SameTail(STAGING_ROOT, Token(u) + "/", Token(v) + "/");
    assert |StagedArea(u)| == |StagedArea(v)|;
    assert StagedArea(u)[0] == '_' && ArtifactPrefix(v)[0] == 't' && StagedArea(v)[0] == '_' && ArtifactPrefix(u)[0] == 't';
  }

  // ---------------------------------------------------------------- collection

  predicate Collectable(e: Experiment) { e.deleted && "_deleted.tenant_" <= e.name }

  /** Collection takes exactly what emptying left: everything of the emptied tenant, and never an
      experiment in any tenant's own name space, deleted or not. */
  lemma CollectsOnlyDeletedTenants(u: string, s: State, id: string)
    requires id in s.experiments
    ensures NamePrefix(u) <= s.experiments[id].name ==> Collectable(Emptied(u, s).experiments[id])
    ensures forall v :: Canonical(v) && NamePrefix(v) <= s.experiments[id].name ==> !Collectable(s.experiments[id])
    ensures !s.experiments[id].deleted ==> !Collectable(s.experiments[id])
  {
    assert DeletedPrefix(u) + id == "_deleted.tenant_" + Replace(u, '-', '_') + "." + id;
    forall v | Canonical(v) && NamePrefix(v) <= s.experiments[id].name ensures !Collectable(s.experiments[id]) {
      assert NamePrefix(v)[0] == 't' && s.experiments[id].name[0] == 't';
    }
  }

  // ---------------------------------------------------------------- the calls

  /** These are the experiments in the tenant's own name space. */
  ghost predicate Named(u: string, es: map<string, Experiment>, ids: set<string>) {
    forall id :: id in ids <==> id in es && NamePrefix(u) <= es[id].name
  }

  /** These are in the deleted root, and of the rest there every one is deleted. */
  ghost predicate Undone(u: string, es: map<string, Experiment>, ids: set<string>) {
    && ids <= es.Keys && (forall id :: id in ids ==> DeletedPrefix(u) <= es[id].name)
    && forall id :: id in es && DeletedPrefix(u) <= es[id].name && id !in ids ==> es[id].deleted
  }

  predicate SameNames(a: map<string, Experiment>, b: map<string, Experiment>) {
    a.Keys == b.Keys && forall id :: id in a ==> a[id].name == b[id].name
  }

  /** One step of the emptying on one experiment leads to the same end. */
  lemma SameEnd(u: string, s: State, id: string, e: Experiment)
    requires id in s.experiments && NamedById(u, s.experiments)
    requires Settled(u, id, e) == Settled(u, id, s.experiments[id]) && e.logged <= s.experiments[id].logged
    requires DeletedPrefix(u) <= e.name ==> e.name == DeletedPrefix(u) + id
    ensures Step(u, s, s.(experiments := s.experiments[id := e]))
  {
    assert SettledAll(u, s.experiments[id := e]) == SettledAll(u, s.experiments);
  }

  /** A store with nothing of the tenant left to do is its own end. */
  lemma NothingLeft(u: string, s: State)
    requires forall id :: id in s.experiments ==> !(NamePrefix(u) <= s.experiments[id].name)
    requires forall id :: id in s.experiments && DeletedPrefix(u) <= s.experiments[id].name ==> s.experiments[id].deleted
    ensures Emptied(u, s).experiments == s.experiments
  {
  }

  /** The new name is no other experiment's. */
  lemma RenameNeverCollides(u: string, es: map<string, Experiment>, id: string, other: string)
    requires NamedById(u, es) && other in es && other != id
    ensures es[other].name != DeletedPrefix(u) + id
  {
    SameTail(DeletedPrefix(u), id, other);
  }

  /** The tracking and artifact stores, which answer `calls` more calls and then fail. */
  class Tracking {
    var models: set<string>
    var objects: set<string>
    var experiments: map<string, Experiment>
    var calls: nat

    ghost function View(): State reads this { State(models, objects, experiments) }

    constructor (s: State, calls: nat)
      ensures View() == s && this.calls == calls
    {
      models, objects, experiments, this.calls := s.models, s.objects, s.experiments, calls;
    }

    method Call() returns (up: bool)
      modifies this`calls
      ensures up == (old(calls) > 0) && calls == if up then old(calls) - 1 else 0
    {
      up := calls > 0;
      if up { calls := calls - 1; }
    }

    /** The server's candidates for a filter, in pages; the last may be empty. */
    method SearchPages(prefix: string) returns (pages: seq<seq<string>>)
      ensures forall id :: id in experiments && Like(prefix, experiments[id].name) ==> exists p :: p in pages && id in p
      ensures forall p, id :: p in pages && id in p ==> id in experiments
      ensures 0 < |pages| <= |experiments| + 1
    {
      pages := [[]];
      var todo := experiments.Keys;
      while todo != {}
        invariant todo <= experiments.Keys && 0 < |pages| && |pages| + |todo| <= |experiments| + 1
        invariant forall id :: id in experiments && id !in todo && Like(prefix, experiments[id].name) ==> exists p :: p in pages && id in p
        invariant forall p, id :: p in pages && id in p ==> id in experiments
        decreases |todo|
      {
        var id :| id in todo;
        todo := todo - {id};
        if Like(prefix, experiments[id].name) {
          ghost var was := pages;
          pages := [[id]] + pages;
          assert [id] in pages && id in [id];
          assert forall p :: p in was ==> p in pages;
        }
      }
    }

    /** Every experiment, active or deleted, whose name starts with the prefix: the filter only selects
        candidates. */
    method Experiments(prefix: string) returns (up: bool, found: set<string>)
      modifies this`calls
      ensures up ==> found == set id | id in experiments && prefix <= experiments[id].name
      ensures old(calls) > |experiments| ==> up
      ensures calls + |experiments| + 1 >= old(calls)
    {
      found := {};
      var pages := SearchPages(prefix);
      for i := 0 to |pages|
        invariant calls + i == old(calls)
        invariant forall id :: id in found ==> id in experiments && prefix <= experiments[id].name
        invariant forall j, id :: 0 <= j < i && id in pages[j] && prefix <= experiments[id].name ==> id in found
      {
        up := Call();
        if !up { return; }
        found := found + set id | id in pages[i] && prefix <= experiments[id].name;
      }
      forall id | id in experiments && prefix <= experiments[id].name ensures id in found {
        assert Like(prefix, experiments[id].name);
        var p :| p in pages && id in p;
      }
      up := true;
    }

    method DeleteModels(u: string) returns (up: bool)
      requires NamedById(u, experiments)
      modifies this`models, this`calls
      ensures Step(u, old(View()), View())
      ensures up ==> models == Emptied(u, old(View())).models
      ensures old(calls) >= |old(models)| ==> up
      ensures calls + |old(models)| >= old(calls)
    {
      var todo := set m | m in models && NamePrefix(u) <= m;
      Fewer(todo, models);
      while todo != {}
        invariant todo == set m | m in models && NamePrefix(u) <= m
        invariant models <= old(models) && calls + |old(models)| >= old(calls) + |todo|
        invariant Emptied(u, View()).models == Emptied(u, old(View())).models
        decreases |todo|
      {
        var m :| m in todo;
        up := Call();
        if !up { return; }
        models, todo := models - {m}, todo - {m};
      }
      assert forall m :: m in models && NamePrefix(u) <= m ==> m in todo;
      up := true;
    }

    method DeleteArtifacts(u: string) returns (up: bool)
      requires NamedById(u, experiments)
      modifies this`objects, this`calls
      ensures Step(u, old(View()), View())
      ensures up ==> objects == Emptied(u, old(View())).objects
      ensures old(calls) >= |old(objects)| ==> up
      ensures calls + |old(objects)| >= old(calls)
    {
      var todo := set k | k in objects && OwnsObject(u, k);
      Fewer(todo, objects);
      while todo != {}
        invariant todo == set k | k in objects && OwnsObject(u, k)
        invariant objects <= old(objects) && calls + |old(objects)| >= old(calls) + |todo|
        invariant Emptied(u, View()).objects == Emptied(u, old(View())).objects
        decreases |todo|
      {
        var k :| k in todo;
        up := Call();
        if !up { return; }
        objects, todo := objects - {k}, todo - {k};
      }
      assert forall k :: k in objects && OwnsObject(u, k) ==> k in todo;
      up := true;
    }

    /** Moves every experiment of the tenant under the deleted prefix. */
    method RenameExperiments(u: string) returns (up: bool)
      requires NamedById(u, experiments)
      modifies this`experiments, this`calls
      ensures Step(u, old(View()), View())
      ensures up ==> forall id :: id in experiments ==> !(NamePrefix(u) <= experiments[id].name)
      ensures old(calls) > 3 * |old(experiments)| ==> up
      ensures calls + 3 * |old(experiments)| + 1 >= old(calls)
    {
      var todo;
      up, todo := Experiments(NamePrefix(u));
      if !up { return; }
      Fewer(todo, experiments.Keys);
      ghost var n, start := |experiments|, View();
      assert Named(u, experiments, todo);
      while todo != {}
        invariant Step(u, start, View()) && Named(u, experiments, todo)
        invariant calls + 3 * n + 1 >= old(calls) + 2 * |todo|
        decreases |todo|
      {
        var id :| id in todo;
        ghost var mid := View();
        up := RenameNext(u, id, todo);
        StepOn(u, start, mid, View());
        if !up { return; }
        todo := todo - {id};
      }
      up := true;
    }

    method RenameNext(u: string, id: string, ghost todo: set<string>) returns (up: bool)
      requires NamedById(u, experiments) && id in todo && Named(u, experiments, todo)
      modifies this`experiments, this`calls
      ensures Step(u, old(View()), View()) && (up ==> Named(u, experiments, todo - {id}))
      ensures (old(calls) >= 2 ==> up) && calls + 2 >= old(calls)
    {
      up := RenameOne(u, id);
    }

    /** A deleted experiment cannot be renamed: it is restored first. */
    method RenameOne(u: string, id: string) returns (up: bool)
      requires NamedById(u, experiments) && id in experiments && NamePrefix(u) <= experiments[id].name
      modifies this`experiments, this`calls
      ensures Step(u, old(View()), View())
      ensures forall x :: x in experiments && x != id ==> experiments[x] == old(experiments)[x]
      ensures up ==> !(NamePrefix(u) <= experiments[id].name)
      ensures old(calls) >= 2 ==> up
      ensures calls + 2 >= old(calls)
    {
      if experiments[id].deleted {
        up := Call();
        if !up { return; }
        SameEnd(u, View(), id, experiments[id].(deleted := false));
        experiments := experiments[id := experiments[id].(deleted := false)];
      }
      up := Call();
      if !up { return; }
      var name := DeletedPrefix(u) + id;
      DeletedApart(u, u, name);
      SameEnd(u, View(), id, experiments[id].(name := name));
      experiments := experiments[id := experiments[id].(name := name)];
    }

    /** Deletes every experiment under the deleted prefix, its logged models first. */
    method DeleteExperiments(u: string) returns (up: bool)
      requires NamedById(u, experiments)
      modifies this`experiments, this`calls
      ensures Step(u, old(View()), View())
      ensures forall id :: id in experiments && NamePrefix(u) <= experiments[id].name ==> id in old(experiments) && NamePrefix(u) <= old(experiments)[id].name
      ensures up ==> forall id :: id in experiments && DeletedPrefix(u) <= experiments[id].name ==> experiments[id].deleted
      ensures old(calls) > 2 * |old(experiments)| + |Logged(old(experiments), old(experiments).Keys)| ==> up
    {
      var todo;
      up, todo := Experiments(DeletedPrefix(u));
      if !up { return; }
      Fewer(todo, experiments.Keys);
      Fewer(Logged(experiments, todo), Logged(experiments, experiments.Keys));
      ghost var start, need := View(), 2 * |experiments| + |Logged(experiments, experiments.Keys)| + 1;
      while todo != {}
        invariant Step(u, start, View()) && Undone(u, experiments, todo) && SameNames(start.experiments, experiments)
        invariant calls + need >= old(calls) + |todo| + |Logged(experiments, todo)|
        decreases |todo|
      {
        var id :| id in todo;
        ghost var mid := View();
        up := DeleteNext(u, id, todo);
        StepOn(u, start, mid, View());
        if !up { return; }
        todo := todo - {id};
      }
      up := true;
    }

    method DeleteNext(u: string, id: string, ghost todo: set<string>) returns (up: bool)
      requires NamedById(u, experiments) && id in todo && Undone(u, experiments, todo)
      modifies this`experiments, this`calls
      ensures Step(u, old(View()), View()) && SameNames(old(experiments), experiments)
      ensures up ==> Undone(u, experiments, todo - {id})
      ensures old(calls) >= 1 + |Logged(old(experiments), todo)| ==> up
      ensures calls + |Logged(old(experiments), todo)| + 1 >= old(calls) + |Logged(experiments, todo - {id})|
    {
      LoggedSplit(experiments, todo, id);
      up := true;
      if !experiments[id].deleted {
        up := DeleteOne(u, id);
      }
      assert Logged(experiments, todo - {id}) == Logged(old(experiments), todo - {id});
    }

    method DeleteOne(u: string, id: string) returns (up: bool)
      requires NamedById(u, experiments) && id in experiments && !experiments[id].deleted && DeletedPrefix(u) <= experiments[id].name
      modifies this`experiments, this`calls
      ensures Step(u, old(View()), View())
      ensures forall x :: x in experiments ==> experiments[x].name == old(experiments)[x].name && (x != id ==> experiments[x] == old(experiments)[x])
      ensures up ==> experiments[id].deleted
      ensures old(calls) > |old(experiments)[id].logged| ==> up
      ensures calls + |old(experiments)[id].logged| + 1 >= old(calls)
    {
      DeletedApart(u, u, experiments[id].name);
      var models := experiments[id].logged;
      while models != {}
        invariant Step(u, old(View()), View()) && calls + |old(experiments)[id].logged| == old(calls) + |models|
        invariant experiments == old(experiments)[id := old(experiments)[id].(logged := experiments[id].logged)]
        invariant models == experiments[id].logged
        decreases |models|
      {
        var m :| m in models;
        up := Call();
        if !up { return; }
        SameEnd(u, View(), id, experiments[id].(logged := experiments[id].logged - {m}));
        experiments := experiments[id := experiments[id].(logged := experiments[id].logged - {m})];
        models := models - {m};
      }
      up := Call();
      if !up { return; }
      SameEnd(u, View(), id, experiments[id].(deleted := true));
      experiments := experiments[id := experiments[id].(deleted := true)];
    }

    method EmptyExperiments(u: string) returns (up: bool)
      requires NamedById(u, experiments)
      modifies this`experiments, this`calls
      ensures Step(u, old(View()), View())
      ensures up ==> experiments == Emptied(u, old(View())).experiments
      ensures old(calls) > 5 * |old(experiments)| + |Logged(old(experiments), old(experiments).Keys)| + 1 ==> up
    {
      ghost var start := View();
      up := RenameExperiments(u);
      if !up { return; }
      ghost var mid := View();
      LoggedShrinks(start, mid);
      up := DeleteExperiments(u);
      StepOn(u, start, mid, View());
      if !up { return; }
      NothingLeft(u, View());
    }

    /** Empties the tenant. With enough calls answered it gets through; cut off at any call, it leaves a
        store whose emptying ends the same. */
    method EmptyTenant(u: string) returns (up: bool)
      requires NamedById(u, experiments)
      modifies this
      ensures Step(u, old(View()), View())
      ensures up ==> View() == Emptied(u, old(View()))
      ensures old(calls) >= Enough(old(View())) ==> up
    {
      up := DeleteModels(u);
      if !up { return; }
      up := DeleteArtifacts(u);
      if !up { return; }
      up := EmptyExperiments(u);
    }

    /** The emptying, repeated after each failure with as many calls as the store then answers: it gets
        through if one of them is enough for the first state, and whenever it does, the end is that of one
        undisturbed call on the first state. */
    method EmptyRepeatedly(u: string, answers: seq<nat>) returns (up: bool)
      requires NamedById(u, experiments)
      modifies this
      ensures Step(u, old(View()), View())
      ensures up ==> View() == Emptied(u, old(View()))
      ensures (exists i :: 0 <= i < |answers| && answers[i] >= Enough(old(View()))) ==> up
    {
      up := false;
      ghost var start := View();
      for i := 0 to |answers|
        invariant Step(u, start, View())
        invariant forall j :: 0 <= j < i ==> answers[j] < Enough(start)
      {
        up := EmptyOnce(u, answers[i], start);
        if up { return; }
      }
    }

    /** One call of the emptying on what earlier ones left of `start`. */
    method EmptyOnce(u: string, answered: nat, ghost start: State) returns (up: bool)
      requires Step(u, start, View())
      modifies this
      ensures Step(u, start, View())
      ensures up ==> View() == Emptied(u, start)
      ensures answered >= Enough(start) ==> up
    {
      ghost var before := View();
      EnoughShrinks(start, before);
      calls := answered;
      up := EmptyTenant(u);
      StepOn(u, start, before, View());
    }
  }

  lemma LoggedSplit(es: map<string, Experiment>, todo: set<string>, id: string)
    requires id in todo && id in es
    ensures |Logged(es, todo)| == |Logged(es, todo - {id})| + |es[id].logged|
  {
    var rest, mine := Logged(es, todo - {id}), set m | m in es[id].logged :: (id, m);
    assert Logged(es, todo) == rest + mine && rest !! mine;
    PairCount(id, es[id].logged);
  }

  lemma {:induction false} PairCount(id: string, ms: set<string>)
    ensures |set m | m in ms :: (id, m)| == |ms|
  {
    if ms != {} {
      var x :| x in ms;
      PairCount(id, ms - {x});
      assert (set m | m in ms :: (id, m)) == (set m | m in ms - {x} :: (id, m)) + {(id, x)};
    }
  }
}
