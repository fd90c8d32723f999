/** What the export guarantees over every run: nothing ingested is lost, listed parts are well formed
    and frozen once recorded, and a legacy day is safe exactly when `LegacySafe` holds of it. */
module ColdTheorems {
  import opened ColdNaming
  import opened ColdExport

  // ---------------------------------------------------------------- days that start without an archive

  ghost predicate Unexported(s: Day) {
    && s.files == map[] && s.manifest == Absent && s.drops == {} && s.pc == Idle
    && forall r :: r in s.ingested <==> r.key in s.hot && s.hot[r.key] == r.reading
  }

  /** Every part the exporter treats as committed has its drop recorded. */
  ghost predicate Recorded(s: Day) {
    !s.manifest.Legacy? && forall i :: 0 <= i < |Committed(s)| ==> Parts(s)[i].file in s.drops
  }

  lemma ListingKeepsRecorded(s: Day, e: Event)
    requires Shape(s) && PcInv(s) && Recorded(s) && e.Advance? && s.pc.Listing?
    ensures Recorded(Step(s, e))
  {
    var t := Step(s, e);
    ListIs(s, e.kept, e.reported);
    if ListsNew(s) {
      ListNewPending(s, t);
      forall i | 0 <= i < |Committed(t)| ensures Parts(t)[i].file in t.drops {
        assert Parts(t)[i] == Committed(s)[i] == Parts(s)[i];
      }
    } else {
      assert Parts(t) == Committed(s) == Parts(s);
      assert Committed(t) == Committed(s) && Parts(t) == Parts(s);
    }
  }

  lemma DroppingKeepsRecorded(s: Day, e: Event)
    requires PcInv(s) && Recorded(s) && e.Advance? && s.pc.Dropping?
    ensures Recorded(Step(s, e))
  {
    var t := Step(s, e);
    assert Parts(t) == Parts(s);
    if t.drops != s.drops {
      var last := |Parts(s)| - 1;
      forall i | 0 <= i < |Committed(t)| ensures Parts(t)[i].file in t.drops {
        if i < last { assert i < |Committed(s)|; }
      }
    } else {
      assert Committed(t) == Committed(s);
    }
  }

  lemma StepKeepsRecorded(s: Day, e: Event)
    requires Inv(s) && Recorded(s)
    ensures Recorded(Step(s, e))
  {
    if e.Advance? && s.pc.Listing? {
      ListingKeepsRecorded(s, e);
    } else if e.Advance? && s.pc.Dropping? {
      DroppingKeepsRecorded(s, e);
    } else {
      UnlistedStep(s, e);
    }
  }

  lemma UnlistedStep(s: Day, e: Event)
    requires !(e.Advance? && (s.pc.Listing? || s.pc.Dropping?))
    ensures Step(s, e).manifest == s.manifest && Step(s, e).drops == s.drops
  {
  }

  lemma {:induction false} RunFromUnexported(s: Day, es: seq<Event>)
    requires Unexported(s)
    ensures Inv(Run(s, es)) && Recorded(Run(s, es))
  {
    if es == [] {
      assert Inv(s);
    } else {
      var before := Run(s, es[..|es| - 1]);
      RunFromUnexported(s, es[..|es| - 1]);
      StepKeeps(before, es[|es| - 1]);
      StepKeepsRecorded(before, es[|es| - 1]);
    }
  }

  /** The key is in a listed part whose drop the database recorded. */
  ghost predicate InRecordedPart(s: Day, k: Key) {
    exists i :: 0 <= i < |Parts(s)| && Parts(s)[i].file in s.drops && Holds(s.files, Parts(s)[i].file, k)
  }

  /** No reading is ever dropped unexported, whatever inserts, lost rows, deferred drops and crashes
      the run met: its key is still hot, or in a part with a drop record. */
  lemma NothingLost(s: Day, es: seq<Event>, r: Row)
    requires Unexported(s) && r in Run(s, es).ingested
    ensures r.key in Run(s, es).hot || InRecordedPart(Run(s, es), r.key)
  {
    RunFromUnexported(s, es);
    var t := Run(s, es);
    if r.key !in t.hot {
      var i :| 0 <= i < |Committed(t)| && Holds(t.files, Committed(t)[i].file, r.key);
      assert Parts(t)[i] == Committed(t)[i] && Parts(t)[i].file in t.drops;
    }
  }

  /** When a redelivery carries the same reading, the reading itself survives, not only its key. */
  lemma ReadingsSurvive(s: Day, es: seq<Event>, r: Row)
    requires Unexported(s) && r in Run(s, es).ingested
    requires forall a, b :: a in Run(s, es).ingested && b in Run(s, es).ingested && a.key == b.key ==> a == b
    ensures var t := Run(s, es);
      (r.key in t.hot && t.hot[r.key] == r.reading) ||
      exists i :: 0 <= i < |Parts(t)| && Parts(t)[i].file in t.drops && Holds(t.files, Parts(t)[i].file, r.key) &&
                  t.files[Parts(t)[i].file][r.key] == r.reading
  {
    NothingLost(s, es, r);
    RunFromUnexported(s, es);
    var t := Run(s, es);
    if r.key in t.hot {
      assert Row(r.key, t.hot[r.key]) in t.ingested;
    } else {
      var i :| 0 <= i < |Parts(t)| && Parts(t)[i].file in t.drops && Holds(t.files, Parts(t)[i].file, r.key);
      assert Row(r.key, t.files[Parts(t)[i].file][r.key]) in t.ingested;
    }
  }

  /** Entry i is named by its index, only the last entry can lack a drop record, recorded entries keep
      their verified count, and no key sits in two listed parts. */
  lemma ListedPartsWellFormed(s: Day, es: seq<Event>)
    requires Unexported(s)
    ensures var t := Run(s, es); var parts := Parts(t);
      && (forall i :: 0 <= i < |parts| ==> parts[i].file == Part(i) && parts[i].file in t.files)
      && (forall i :: 0 <= i < |parts| - 1 ==> parts[i].file in t.drops)
      && (forall i :: 0 <= i < |parts| && parts[i].file in t.drops ==> PartMatches(t.files, parts[i]))
      && (forall i, j, k :: 0 <= i < j < |parts| && Holds(t.files, parts[i].file, k) ==> !Holds(t.files, parts[j].file, k))
  {
    RunFromUnexported(s, es);
    WellFormed(Run(s, es));
  }

  lemma WellFormed(t: Day)
    requires Named(t) && Counted(t) && Recorded(t)
    ensures var parts := Parts(t);
      && (forall i :: 0 <= i < |parts| - 1 ==> parts[i].file in t.drops)
      && (forall i :: 0 <= i < |parts| && parts[i].file in t.drops ==> PartMatches(t.files, parts[i]))
  {
    assert |Committed(t)| >= |Parts(t)| - 1;
    forall i | 0 <= i < |Parts(t)| - 1 ensures Parts(t)[i].file in t.drops {
      assert i < |Committed(t)|;
    }
  }

  lemma OneFileTouched(s: Day, e: Event, f: FileName)
    requires f in s.files && !(e.Advance? && s.pc.Writing? && f == Part(|s.pc.base|))
    ensures f in Step(s, e).files && Step(s, e).files[f] == s.files[f]
  {
  }

  /** One step never touches a part whose drop is recorded, nor the record. */
  lemma StepFreezes(s: Day, e: Event, f: FileName)
    requires Shape(s) && PcInv(s) && f in s.drops
    ensures f in Step(s, e).drops
    ensures f in s.files ==> f in Step(s, e).files && Step(s, e).files[f] == s.files[f]
  {
    assert s.drops <= Step(s, e).drops;
    NextPartIsFree(s);
    if f in s.files { OneFileTouched(s, e, f); }
  }

  lemma RunAppend(s: Day, es: seq<Event>, e: Event)
    ensures Run(s, es + [e]) == Step(Run(s, es), e)
  {
    assert (es + [e])[..|es|] == es;
  }

  lemma {:induction false} RunConcat(s: Day, a: seq<Event>, b: seq<Event>)
    ensures Run(s, a + b) == Run(Run(s, a), b)
  {
    if b == [] {
      assert a + b == a;
    } else {
      RunConcat(s, a, b[..|b| - 1]);
      assert (a + b)[..|a + b| - 1] == a + b[..|b| - 1];
    }
  }

  lemma {:induction false} FrozenFrom(s: Day, more: seq<Event>, f: FileName)
    requires Inv(s) && f in s.drops
    ensures f in Run(s, more).drops
    ensures f in s.files ==> f in Run(s, more).files && Run(s, more).files[f] == s.files[f]
  {
    if more != [] {
      var init := more[..|more| - 1];
      FrozenFrom(s, init, f);
      RunKeeps(s, init);
      StepFreezes(Run(s, init), more[|more| - 1], f);
    }
  }

  /** A part with a drop record is never written again, whatever happens after. */
  lemma RecordedPartsFrozen(s: Day, es: seq<Event>, more: seq<Event>, f: FileName)
    requires Unexported(s) && f in Run(s, es).drops
    ensures f in Run(s, es + more).drops
    ensures f in Run(s, es).files ==> f in Run(s, es + more).files && Run(s, es + more).files[f] == Run(s, es).files[f]
  {
    RunFromUnexported(s, es);
    FrozenFrom(Run(s, es), more, f);
    RunConcat(s, es, more);
  }

  // ---------------------------------------------------------------- legacy days

  /** A day exported before parts and drop records existed: one file, one count, no record. */
  ghost predicate LegacyDay(s: Day) {
    && Part(0) in s.files && s.files == map[Part(0) := s.files[Part(0)]]
    && s.manifest == Legacy(|s.files[Part(0)]|) && s.drops == {} && s.pc == Idle
    && (forall k :: k in s.hot ==> Row(k, s.hot[k]) in s.ingested)
    && (forall k :: k in s.files[Part(0)] ==> Row(k, s.files[Part(0)][k]) in s.ingested)
    && (forall r :: r in s.ingested ==> r.key in s.hot || r.key in s.files[Part(0)])
  }

  ghost predicate Gone(s: Day, k: Key) {
    k !in s.hot && forall f :: f in s.files ==> k !in s.files[f]
  }

  /** Every row ever ingested is hot or in a part the manifest lists. */
  ghost predicate KeepsEverything(s: Day) {
    forall r :: r in s.ingested ==> r.key in s.hot || InParts(s.files, Parts(s), r.key)
  }

  lemma LegacyInv(s: Day)
    requires LegacyDay(s) && LegacySafe(s)
    ensures Inv(s)
  {
    assert Parts(s) == [Entry(Part(0), |s.files[Part(0)]|)] && Committed(s) == Parts(s);
    forall i: nat | Part(i) in s.files ensures i == 0 { }
    forall r | r in s.ingested && r.key !in s.hot ensures InParts(s.files, Committed(s), r.key) {
      assert Holds(s.files, Committed(s)[0].file, r.key);
    }
  }

  predicate NoInserts(es: seq<Event>) { forall i :: 0 <= i < |es| ==> !es[i].Insert? }

  /** Some run without an insert leads from `s` to `t`. */
  ghost predicate Reaches(s: Day, t: Day) {
    exists es :: NoInserts(es) && Run(s, es) == t
  }

  lemma ReachesStep(s: Day, t: Day, e: Event, u: Day)
    requires Reaches(s, t) && Step(t, e) == u && !e.Insert?
    ensures Reaches(s, u)
  {
    var es :| NoInserts(es) && Run(s, es) == t;
    RunAppend(s, es, e);
    assert NoInserts(es + [e]);
  }

  lemma ReachesSelf(s: Day)
    ensures Reaches(s, s)
  {
    assert NoInserts([]) && Run(s, []) == s;
  }

  lemma ReachesOn(s: Day, t: Day, u: Day)
    requires Reaches(s, t) && Reaches(t, u)
    ensures Reaches(s, u)
  {
    var a :| NoInserts(a) && Run(s, a) == t;
    var b :| NoInserts(b) && Run(t, b) == u;
    RunConcat(s, a, b);
    assert NoInserts(a + b);
  }

  lemma ReadLegacy(s: Day, parts: seq<Entry>)
    requires s.pc == Idle && |s.hot| > 0 && Part(0) in s.files && s.manifest == Legacy(|s.files[Part(0)]|)
    requires parts == [Entry(Part(0), |s.files[Part(0)]|)]
    ensures Reaches(s, s.(pc := Joining(parts, s.hot, {}, 0)))
  {
    var next := Advance({}, 0);
    ReachesSelf(s);
    ReachesStep(s, s, next, s.(pc := Opened(s.manifest)));
    ReachesStep(s, s.(pc := Opened(s.manifest)), next, s.(pc := Checking(parts, false, 0)));
    ReachesStep(s, s.(pc := Checking(parts, false, 0)), next, s.(pc := Checking(parts, false, 1)));
    ReachesStep(s, s.(pc := Checking(parts, false, 1)), next, s.(pc := Joining(parts, s.hot, {}, 0)));
  }

  lemma JoinLegacy(s: Day, parts: seq<Entry>)
    requires Part(0) in s.files && s.hot.Keys <= s.files[Part(0)].Keys
    requires parts == [Entry(Part(0), |s.files[Part(0)]|)] && s.pc == Joining(parts, s.hot, {}, 0)
    ensures Reaches(s, s.(pc := Writing(parts, s.hot, map[])))
  {
    var next, keys := Advance({}, 0), {} + s.files[Part(0)].Keys;
    ReachesSelf(s);
    ReachesStep(s, s, next, s.(pc := Joining(parts, s.hot, keys, 1)));
    assert s.hot - keys == map[];
    ReachesStep(s, s.(pc := Joining(parts, s.hot, keys, 1)), next, s.(pc := Writing(parts, s.hot, map[])));
  }

  lemma ListLegacy(s: Day, parts: seq<Entry>)
    requires |parts| == 1 && parts[0].file == Part(0) && s.pc == Writing(parts, s.hot, map[])
    ensures Reaches(s, s.(manifest := Listed(parts), pc := Idle))
  {
    var next := Advance({}, 0);
    var listing := s.(pc := Listing(parts, Part(0), s.hot));
    var listed := s.(manifest := Listed(parts), pc := Dropping(Part(0), s.hot));
    ReachesSelf(s);
    ReachesStep(s, s, next, listing);
    ReachesStep(s, listing, next, listed);
    ReachesStep(s, listed, Crash, s.(manifest := Listed(parts), pc := Idle));
  }

  /** A run over a legacy day whose hot rows are all archived already rewrites the manifest in the
      current format and dies before its drop. */
  lemma RewriteThenCrash(s: Day, parts: seq<Entry>)
    requires s.pc == Idle && |s.hot| > 0 && Part(0) in s.files && s.manifest == Legacy(|s.files[Part(0)]|)
    requires s.hot.Keys <= s.files[Part(0)].Keys && parts == [Entry(Part(0), |s.files[Part(0)]|)]
    ensures Reaches(s, s.(manifest := Listed(parts)))
  {
    var joining, writing := s.(pc := Joining(parts, s.hot, {}, 0)), s.(pc := Writing(parts, s.hot, map[]));
    ReadLegacy(s, parts);
    JoinLegacy(joining, parts);
    ReachesOn(s, joining, writing);
    ListLegacy(writing, parts);
    ReachesOn(s, writing, s.(manifest := Listed(parts)));
  }

  /** The next run takes the unrecorded part for pending and writes the hot rows over it. */
  lemma OverwritePart(s: Day)
    requires s.pc == Idle && s.drops == {} && |s.hot| > 0 && Part(0) in s.files
    requires s.manifest == Listed([Entry(Part(0), |s.files[Part(0)]|)])
    ensures Reaches(s, s.(files := s.files[Part(0) := s.hot], pc := Verifying([], s.hot, s.hot, |s.hot|)))
  {
    var next := Advance(s.hot.Keys, |s.hot|);
    var parts := [Entry(Part(0), |s.files[Part(0)]|)];
    ReachesSelf(s);
    ReachesStep(s, s, next, s.(pc := Opened(s.manifest)));
    ReachesStep(s, s.(pc := Opened(s.manifest)), next, s.(pc := Checking(parts, true, 0)));
    assert CommittedOf(parts, true) == [];
    ReachesStep(s, s.(pc := Checking(parts, true, 0)), next, s.(pc := Joining([], s.hot, {}, 0)));
    assert s.hot - {} == s.hot;
    ReachesStep(s, s.(pc := Joining([], s.hot, {}, 0)), next, s.(pc := Writing([], s.hot, s.hot)));
    assert Kept(s.hot, s.hot.Keys) == s.hot;
    ReachesStep(s, s.(pc := Writing([], s.hot, s.hot)), next,
                s.(files := s.files[Part(0) := s.hot], pc := Verifying([], s.hot, s.hot, |s.hot|)));
  }

  /** Some archived rows came back, some did not: a crash before the drop loses the ones that did not. */
  lemma LosesARow(s: Day, k: Key) returns (t: Day)
    requires LegacyDay(s) && |s.hot| > 0 && s.hot.Keys <= s.files[Part(0)].Keys
    requires k in s.files[Part(0)] && k !in s.hot
    ensures Reaches(s, t) && t.ingested == s.ingested && Gone(t, k)
  {
    var mid := s.(manifest := Listed([Entry(Part(0), |s.files[Part(0)]|)]));
    RewriteThenCrash(s, mid.manifest.parts);
    OverwritePart(mid);
    t := mid.(files := mid.files[Part(0) := s.hot], pc := Verifying([], s.hot, s.hot, |s.hot|));
    ReachesOn(s, mid, t);
  }

  lemma LostIsNotKept(t: Day, r: Row)
    requires r in t.ingested && Gone(t, r.key)
    ensures !KeepsEverything(t)
  {
    forall i | 0 <= i < |Parts(t)| ensures !Holds(t.files, Parts(t)[i].file, r.key) { }
  }

  lemma UnsafeLegacyLoses(s: Day) returns (es: seq<Event>)
    requires LegacyDay(s) && !LegacySafe(s)
    ensures !KeepsEverything(Run(s, es))
  {
    var f := s.files[Part(0)];
    if |s.hot| > 0 {
      var k :| k in f && k !in s.hot;
      var t := LosesARow(s, k);
      es :| NoInserts(es) && Run(s, es) == t;
      LostIsNotKept(t, Row(k, f[k]));
    } else {
      assert s.hot == map[] && |f.Keys| > 1;
      var j :| j in f;
      assert |f.Keys - {j}| > 0;
      var k :| k in f.Keys - {j};
      var late := Insert(j, f[j]);
      var u := Step(s, late);
      assert u.hot == map[j := f[j]] && u.files == s.files;
      var t := LosesARow(u, k);
      var more :| NoInserts(more) && Run(u, more) == t;
      assert [late][..0] == [] && Run(s, [late]) == u;
      RunConcat(s, [late], more);
      es := [late] + more;
      LostIsNotKept(t, Row(k, f[k]));
    }
  }

  /** A legacy day is exported without losing a row, whatever the run meets, exactly when its file's
      rows are all hot, or the hot table holds a row the file lacks, or it has at most one row. */
  lemma LegacyDayExactly(s: Day)
    requires LegacyDay(s)
    ensures (forall es :: KeepsEverything(Run(s, es))) <==> LegacySafe(s)
  {
    if LegacySafe(s) {
      LegacyInv(s);
      forall es ensures KeepsEverything(Run(s, es)) {
        RunKeeps(s, es);
        CoveredKeeps(Run(s, es));
      }
    } else {
      var es := UnsafeLegacyLoses(s);
      assert !KeepsEverything(Run(s, es));
    }
  }

  lemma CoveredKeeps(t: Day)
    requires Covered(t)
    ensures KeepsEverything(t)
  {
    forall r | r in t.ingested && r.key !in t.hot ensures InParts(t.files, Parts(t), r.key) {
      var i :| 0 <= i < |Committed(t)| && Holds(t.files, Committed(t)[i].file, r.key);
      assert Committed(t)[i] == Parts(t)[i];
    }
  }
}
