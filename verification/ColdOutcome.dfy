/** What an undisturbed run leaves: every exportable day empty, each ingested key in exactly one
    listed part, and nothing for a further run to do. */
module ColdOutcome {
  import opened ColdNaming
  import opened ColdExport
  import opened ColdTheorems
  import opened ColdRun

  const STEADY := Advance({}, 0)

  // ---------------------------------------------------------------- the machine takes the same path

  lemma {:induction false} ChecksPass(s: Day)
    requires s.pc.Checking?
    requires var base := CommittedOf(s.pc.parts, s.pc.pending);
      s.pc.next <= |base| && forall i :: 0 <= i < |base| ==> PartMatches(s.files, base[i])
    ensures Reaches(s, s.(pc := Checking(s.pc.parts, s.pc.pending, |CommittedOf(s.pc.parts, s.pc.pending)|)))
    decreases |CommittedOf(s.pc.parts, s.pc.pending)| - s.pc.next
  {
    var Checking(parts, pending, next) := s.pc;
    var base := CommittedOf(parts, pending);
    ReachesSelf(s);
    if next < |base| {
      var t := s.(pc := Checking(parts, pending, next + 1));
      ReachesStep(s, s, STEADY, t);
      ChecksPass(t);
      ReachesOn(s, t, s.(pc := Checking(parts, pending, |base|)));
    }
  }

  lemma {:induction false} JoinsComplete(s: Day)
    requires s.pc.Joining? && s.pc.next <= |s.pc.base|
    requires forall i :: 0 <= i < |s.pc.base| ==> s.pc.base[i].file in s.files
    requires s.pc.archived == ArchivedKeys(s.files, s.pc.base[..s.pc.next])
    ensures Reaches(s, s.(pc := Writing(s.pc.base, s.pc.snap, s.pc.snap - ArchivedKeys(s.files, s.pc.base))))
    decreases |s.pc.base| - s.pc.next
  {
    var Joining(base, snap, archived, next) := s.pc;
    var end := s.(pc := Writing(base, snap, snap - ArchivedKeys(s.files, base)));
    ReachesSelf(s);
    if next < |base| {
      var t := s.(pc := Joining(base, snap, archived + s.files[base[next].file].Keys, next + 1));
      assert base[..next + 1][..next] == base[..next];
      ReachesStep(s, s, STEADY, t);
      JoinsComplete(t);
      ReachesOn(s, t, end);
    } else {
      assert base[..next] == base;
      ReachesStep(s, s, STEADY, end);
    }
  }

  lemma ReachesWriting(s: Day)
    requires Shape(s) && s.pc == Idle && |s.hot| > 0
    ensures Reaches(s, s.(pc := Writing(Committed(s), s.hot, Novel(s))))
  {
    var parts, pending, base := Parts(s), Pending(s), Committed(s);
    var begun, checking := s.(pc := Opened(s.manifest)), s.(pc := Checking(parts, pending, 0));
    var checked, joining := s.(pc := Checking(parts, pending, |base|)), s.(pc := Joining(base, s.hot, {}, 0));
    ReachesSelf(s);
    ReachesStep(s, s, STEADY, begun);
    ReachesStep(s, begun, STEADY, checking);
    assert forall i :: 0 <= i < |base| ==> base[i] == parts[i];
    ChecksPass(checking);
    ReachesOn(s, checking, checked);
    ReachesStep(s, checked, STEADY, joining);
    JoinsComplete(joining);
    ReachesOn(s, joining, s.(pc := Writing(base, s.hot, Novel(s))));
  }

  lemma ReachesListingNovel(s: Day, base: seq<Entry>, novel: Rows, part: FileName)
    requires s.pc == Writing(base, s.hot, novel) && |novel| > 0 && part == Part(|base|)
    ensures Reaches(s, s.(files := s.files[part := novel], pc := Listing(base + [Entry(part, |novel|)], part, s.hot)))
  {
    var verifying := s.(files := s.files[part := novel], pc := Verifying(base, s.hot, novel, |novel|));
    assert Kept(novel, novel.Keys) == novel;
    ReachesSelf(s);
    ReachesStep(s, s, Advance(novel.Keys, |novel|), verifying);
    ReachesStep(s, verifying, STEADY, verifying.(pc := Listing(base + [Entry(part, |novel|)], part, s.hot)));
  }

  lemma ReachesListing(s: Day, t: Day)
    requires s.pc == Writing(Committed(s), s.hot, Novel(s)) && |After(s)| > 0
    requires t == s.(files := Written(s), pc := Listing(After(s), After(s)[|After(s)| - 1].file, s.hot))
    ensures Reaches(s, t)
  {
    if |Novel(s)| > 0 {
      ReachesListingNovel(s, Committed(s), Novel(s), Part(|Committed(s)|));
    } else {
      ReachesSelf(s);
      ReachesStep(s, s, STEADY, t);
    }
  }

  lemma PcDoesNotMatter(s: Day, pc: Pc)
    ensures var t := s.(pc := pc);
      Committed(t) == Committed(s) && Novel(t) == Novel(s) && After(t) == After(s) && Written(t) == Written(s)
  {
  }

  /** The undisturbed run just before its manifest write. */
  function AtListing(s: Day): Day
    requires |After(s)| > 0
  {
    s.(files := Written(s), pc := Listing(After(s), After(s)[|After(s)| - 1].file, s.hot))
  }

  lemma WritingReachesListing(s: Day)
    requires |After(s)| > 0
    ensures Reaches(s.(pc := Writing(Committed(s), s.hot, Novel(s))), AtListing(s))
  {
    var writing := s.(pc := Writing(Committed(s), s.hot, Novel(s)));
    PcDoesNotMatter(s, writing.pc);
    ReachesListing(writing, AtListing(s));
  }

  lemma ReachesDropping(s: Day)
    requires Shape(s) && s.pc == Idle && |s.hot| > 0 && |After(s)| > 0
    ensures Reaches(s, AtDrop(s))
  {
    ReachesWriting(s);
    WritingReachesListing(s);
    ReachesOn(s, s.(pc := Writing(Committed(s), s.hot, Novel(s))), AtListing(s));
    ListsAsShipped(s);
    ReachesStep(s, AtListing(s), STEADY, AtDrop(s));
  }

  lemma ListsAsShipped(s: Day)
    requires |After(s)| > 0
    ensures Step(AtListing(s), STEADY) == AtDrop(s)
  {
  }

  /** The imperative `export_day` is a run of the machine: whatever holds of every run holds of it. */
  lemma ExportIsARun(s: Day)
    requires Inv(s) && s.pc == Idle
    ensures Reaches(s, Export(s).0)
  {
    ReachesSelf(s);
    AllMatch(s);
    if |s.hot| > 0 && |After(s)| > 0 {
      ReachesDropping(s);
      DropsAsShipped(s);
      ReachesStep(s, AtDrop(s), STEADY, Ship(s).0);
    } else if |s.hot| == 0 {
      PendingHasRows(s);
    }
  }

  lemma DropsAsShipped(s: Day)
    requires s.pc == Idle && |After(s)| > 0
    ensures Step(AtDrop(s), STEADY) == Ship(s).0
  {
  }

  /** The undisturbed run just before its drop. */
  function AtDrop(s: Day): Day
    requires |After(s)| > 0
  {
    s.(files := Written(s), manifest := Listed(After(s)), pc := Dropping(After(s)[|After(s)| - 1].file, s.hot))
  }

  lemma AllMatch(s: Day)
    requires Shape(s)
    ensures Intact(s)
  {
    forall i | 0 <= i < |Committed(s)| ensures PartMatches(s.files, Committed(s)[i]) {
      assert Committed(s)[i] == Parts(s)[i];
    }
  }

  lemma PendingHasRows(s: Day)
    requires PendingIsHot(s) && |s.hot| == 0
    ensures !Pending(s)
  {
    assert s.hot == map[];
  }

  lemma HotIsShipped(s: Day)
    requires Inv(s) && |s.hot| > 0
    ensures |After(s)| > 0
  {
    if Committed(s) == [] { assert s.hot - {} == s.hot; }
  }

  lemma LastIsNamed(s: Day)
    requires Shape(s) && |After(s)| > 0
    ensures After(s)[|After(s)| - 1].file == Part(|After(s)| - 1)
  {
    if |Novel(s)| == 0 { assert After(s)[|After(s)| - 1] == Parts(s)[|After(s)| - 1]; }
  }

  lemma ExportKeepsInv(s: Day)
    requires Inv(s) && s.pc == Idle
    ensures Inv(Export(s).0)
  {
    ExportIsARun(s);
    var es :| NoInserts(es) && Run(s, es) == Export(s).0;
    RunKeeps(s, es);
  }

  /** An undisturbed run over a day fails only when the part it ends on is past the ten thousand names
      the drop accepts; otherwise the day is left without hot rows. */
  lemma ExportEmptiesExactly(s: Day)
    requires Inv(s) && s.pc == Idle
    ensures Export(s).1 == Failed <==> |s.hot| > 0 && |After(s)| > 10000
    ensures Export(s).1 != Failed <==> Export(s).0.hot == map[]
    ensures Export(s).0.ingested == s.ingested && Export(s).0.pc == Idle
  {
    AllMatch(s);
    if |s.hot| > 0 {
      HotIsShipped(s);
      LastIsNamed(s);
      assert s.hot != map[];
    } else {
      PendingHasRows(s);
      assert s.hot == map[];
    }
  }

  /** After a successful run each ingested key is in exactly one listed part. */
  lemma EachKeyOnce(s: Day, r: Row)
    requires Inv(s) && s.pc == Idle && Export(s).1 != Failed && r in s.ingested
    ensures var t := Export(s).0;
      exists i :: 0 <= i < |Parts(t)| && Holds(t.files, Parts(t)[i].file, r.key) &&
        forall j :: 0 <= j < |Parts(t)| && j != i ==> !Holds(t.files, Parts(t)[j].file, r.key)
  {
    ExportEmptiesExactly(s);
    ExportKeepsInv(s);
    var t := Export(s).0;
    var i :| 0 <= i < |Committed(t)| && Holds(t.files, Committed(t)[i].file, r.key);
    assert Committed(t)[i] == Parts(t)[i];
    forall j | 0 <= j < |Parts(t)| && j != i ensures !Holds(t.files, Parts(t)[j].file, r.key) {
      if j < i { assert Holds(t.files, Parts(t)[i].file, r.key); }
    }
  }

  /** A further run changes nothing. */
  lemma SecondRunChangesNothing(s: Day)
    requires Inv(s) && s.pc == Idle && Export(s).1 != Failed
    ensures Export(Export(s).0).0 == Export(s).0
    ensures Export(Export(s).0).1 == Empty || Export(Export(s).0).1 == AlreadyDone
  {
    ExportEmptiesExactly(s);
    ExportKeepsInv(s);
    var t := Export(s).0;
    AllMatch(t);
    PendingHasRows(t);
  }

  /** Whether the day has rows to ship and no droppable name left for their part. */
  predicate OutOfNames(s: Day) { |s.hot| > 0 && |After(s)| > 10000 }

  lemma {:induction false} DaysInTurn(exportDay: Day -> (Day, Outcome), days: map<int, Day>, order: seq<int>)
    requires forall i :: 0 <= i < |order| ==> order[i] in days
    requires forall i, j :: 0 <= i < j < |order| ==> order[i] != order[j]
    ensures var (after, ok) := ExportAll(exportDay, days, order);
      && after.Keys == days.Keys
      && (forall d :: d in days && d !in order ==> after[d] == days[d])
      && (ok <==> forall i :: 0 <= i < |order| ==> exportDay(days[order[i]]).1 != Failed)
      && (ok ==> forall i :: 0 <= i < |order| ==> after[order[i]] == exportDay(days[order[i]]).0)
  {
    if order != [] {
      var d, rest := order[0], order[1..];
      var next := days[d := exportDay(days[d]).0];
      assert d !in rest;
      assert forall i :: 1 <= i < |order| ==> rest[i - 1] == order[i] && next[rest[i - 1]] == days[order[i]];
      if exportDay(days[d]).1 != Failed {
        DaysInTurn(exportDay, next, rest);
        assert forall i :: 0 <= i < |rest| ==> next[rest[i]] == days[order[i + 1]];
      }
    }
  }

  /** A tenant's run succeeds exactly when no day ran out of part names, and then leaves every
      exportable day without hot rows and no other day changed. */
  lemma TenantEmptied(days: map<int, Day>, order: seq<int>)
    requires forall i :: 0 <= i < |order| ==> order[i] in days && Inv(days[order[i]]) && days[order[i]].pc == Idle
    requires forall i, j :: 0 <= i < j < |order| ==> order[i] < order[j]
    ensures ExportAll(Export, days, order).1 <==> forall i :: 0 <= i < |order| ==> !OutOfNames(days[order[i]])
    ensures var (after, ok) := ExportAll(Export, days, order);
      && after.Keys == days.Keys
      && (forall d :: d in days && d !in order ==> after[d] == days[d])
      && (ok ==> forall i :: 0 <= i < |order| ==> after[order[i]].hot == map[])
  {
    DaysInTurn(Export, days, order);
    forall i | 0 <= i < |order|
      ensures Export(days[order[i]]).1 == Failed <==> OutOfNames(days[order[i]])
      ensures Export(days[order[i]]).1 != Failed ==> Export(days[order[i]]).0.hot == map[]
    {
      ExportEmptiesExactly(days[order[i]]);
    }
  }
}
