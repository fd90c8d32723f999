/** The reader of one day's directory (clients/python/industryflow/cold.py) against the exporter. */
module ColdReader {
  import opened ColdNaming
  import opened ColdExport
  import opened ColdTheorems
  import opened ColdRun
  import opened ColdOutcome

  datatype ReadResult = Verified(files: seq<FileName>) | MissingPart(file: FileName)

  function ManifestPartFiles(m: Manifest): seq<FileName> {
    match m
    case Absent => []
    case Legacy(_) => [Part(0)]
    case Listed(parts) => seq(|parts|, i requires 0 <= i < |parts| => parts[i].file)
  }

  /** `names` and `hasManifest` come from listing the directory, `m` from opening its manifest. */
  method VerifiedParts(names: set<FileName>, hasManifest: bool, m: Manifest) returns (r: ReadResult)
    ensures r.Verified? <==> !hasManifest || forall i :: 0 <= i < |ManifestPartFiles(m)| ==> ManifestPartFiles(m)[i] in names
    ensures r.Verified? ==> r.files == if hasManifest then ManifestPartFiles(m) else []
    ensures r.MissingPart? ==> r.file in ManifestPartFiles(m) && r.file !in names
  {
    if !hasManifest { return Verified([]); }
    var listed, parts := ManifestPartFiles(m), [];
    for i := 0 to |listed|
      invariant parts == listed[..i]
      invariant forall j :: 0 <= j < i ==> listed[j] in names
    {
      if listed[i] !in names { return MissingPart(listed[i]); }
      parts := parts + [listed[i]];
    }
    assert listed[..|listed|] == listed;
    return Verified(parts);
  }

  /** Whether the reader gets an answer from a listing of `names` and a manifest opened later. */
  ghost predicate ReadsThrough(names: set<FileName>, hasManifest: bool, m: Manifest) {
    !hasManifest || forall i :: 0 <= i < |ManifestPartFiles(m)| ==> ManifestPartFiles(m)[i] in names
  }

  lemma ReaderAndExporterAgree(m: Manifest)
    ensures |ManifestPartFiles(m)| == |ManifestParts(m)|
    ensures forall i :: 0 <= i < |ManifestParts(m)| ==> ManifestPartFiles(m)[i] == ManifestParts(m)[i].file
  {
  }

  /** Reading any reachable state at one moment finds every listed part, and its rows with the hot
      rows are exactly the keys ever ingested. */
  lemma ReaderSeesEverything(s: Day, es: seq<Event>, k: Key)
    requires Unexported(s)
    ensures var t := Run(s, es); ReadsThrough(t.files.Keys, t.manifest != Absent, t.manifest)
    ensures var t := Run(s, es);
      (exists r :: r in t.ingested && r.key == k) <==>
      k in t.hot || exists i :: 0 <= i < |ManifestPartFiles(t.manifest)| && Holds(t.files, ManifestPartFiles(t.manifest)[i], k)
  {
    RunFromUnexported(s, es);
    var t := Run(s, es);
    var names := ManifestPartFiles(t.manifest);
    ReaderAndExporterAgree(t.manifest);
    if r :| r in t.ingested && r.key == k && k !in t.hot {
      var i :| 0 <= i < |Committed(t)| && Holds(t.files, Committed(t)[i].file, r.key);
      assert Committed(t)[i] == Parts(t)[i];
      assert Holds(t.files, names[i], k);
    }
    if k in t.hot { assert Row(k, t.hot[k]) in t.ingested; }
    if i :| 0 <= i < |names| && Holds(t.files, names[i], k) {
      assert Holds(t.files, Parts(t)[i].file, k);
      assert Row(k, t.files[names[i]][k]) in t.ingested;
    }
  }

  lemma StaleListing(before: Day, after: Day)
    requires Numbered(before) && Named(after)
    ensures ReadsThrough(before.files.Keys, true, after.manifest) <==>
      |Parts(after)| == 0 || Part(|Parts(after)| - 1) in before.files
  {
    ReaderAndExporterAgree(after.manifest);
    var n := |Parts(after)|;
    if n > 0 {
      assert ManifestPartFiles(after.manifest)[n - 1] == Part(n - 1);
      if Part(n - 1) in before.files {
        forall i | 0 <= i < n ensures ManifestPartFiles(after.manifest)[i] in before.files.Keys {
          assert Parts(after)[i].file == Part(i);
        }
      }
    }
  }

  /** Any settled day with a late row not yet written is a day where an export between the two calls makes
      the reader report a part missing. */
  lemma StaleListingFails(s: Day)
    requires Inv(s) && s.pc == Idle && s.manifest.Listed? && |Novel(s)| > 0 && Part(|Committed(s)|) !in s.files
    ensures exists es :: NoInserts(es) && !ReadsThrough(s.files.Keys, true, Run(s, es).manifest)
  {
    ExportIsARun(s);
    var es :| NoInserts(es) && Run(s, es) == Export(s).0;
    AllMatch(s);
    assert s.hot != map[] by { assert Novel(s) != map[]; }
    var t := Run(s, es);
    ReaderAndExporterAgree(t.manifest);
    var n := |Committed(s)|;
    assert ManifestPartFiles(t.manifest)[n] == Part(n);
    assert !ReadsThrough(s.files.Keys, true, Run(s, es).manifest);
  }

  // ---------------------------------------------------------------- listing, then opening the manifest

  /** While nothing is new, whatever the exporter does, files and manifest stay as they are. */
  ghost predicate Still(s: Day, t: Day) {
    && t.files == s.files && t.manifest == s.manifest && s.drops <= t.drops
    && (t.hot == s.hot || t.hot == map[])
  }

  ghost predicate AllKnown(s: Day) {
    s.manifest.Listed? && !Pending(s) && forall k :: k in s.hot ==> InParts(s.files, Parts(s), k)
  }

  lemma StillCommitted(s: Day, t: Day)
    requires AllKnown(s) && Still(s, t)
    ensures Committed(t) == Parts(t) == Parts(s)
  {
  }

  lemma NothingToWrite(s: Day, t: Day, snap: Rows, novel: Rows)
    requires AllKnown(s) && Still(s, t) && Within(snap, t.hot) && IsFresh(t, snap, novel)
    ensures |novel| == 0
  {
    StillCommitted(s, t);
    forall k | k in snap ensures InParts(t.files, Committed(t), k) { assert k in s.hot; }
    assert novel == map[];
  }

  lemma StillListing(s: Day, t: Day, kept: set<Key>, reported: int)
    requires AllKnown(s) && Still(s, t) && t.pc.Listing? && PcInv(t)
    ensures Still(s, Proceed(t, kept, reported))
  {
    ListIs(t, kept, reported);
    StillCommitted(s, t);
    if ListsNew(t) {
      NothingToWrite(s, t, t.pc.snap, t.files[t.pc.part]);
    } else {
      assert t.pc.after == Parts(t);
    }
  }

  lemma StillWriting(s: Day, t: Day)
    requires AllKnown(s) && Still(s, t) && t.pc.Writing? && PcInv(t)
    ensures OnlyReads(t.pc)
  {
    NothingToWrite(s, t, t.pc.snap, t.pc.novel);
  }

  lemma StillDropping(s: Day, t: Day, kept: set<Key>, reported: int)
    requires Still(s, t) && t.pc.Dropping?
    ensures Still(s, Proceed(t, kept, reported))
  {
  }

  lemma StillStep(s: Day, t: Day, e: Event)
    requires AllKnown(s) && Still(s, t) && PcInv(t) && !e.Insert?
    ensures Still(s, Step(t, e))
  {
    if e.Advance? {
      if t.pc.Writing? { StillWriting(s, t); }
      if t.pc.Listing? { StillListing(s, t, e.kept, e.reported); }
      else if t.pc.Dropping? { StillDropping(s, t, e.kept, e.reported); }
      else { ReadsOnly(t, e.kept, e.reported); }
    }
  }

  lemma {:induction false} StillRun(s: Day, more: seq<Event>)
    requires Inv(s) && AllKnown(s) && NoInserts(more)
    ensures Still(s, Run(s, more))
  {
    if more != [] {
      var front := more[..|more| - 1];
      assert NoInserts(front);
      StillRun(s, front);
      RunKeeps(s, front);
      StillStep(s, Run(s, front), more[|more| - 1]);
    }
  }

  /** The exporter holds no snapshot and no part of one. */
  predicate Rests(pc: Pc) { !pc.Joining? && !pc.Writing? && !pc.Verifying? && !pc.Listing? }

  /** Without new rows, at most one part is added to the `c` committed ones: once it is recorded there is
      nothing left to export. */
  ghost predicate Few(t: Day, c: nat) {
    && t.manifest.Listed? && |Parts(t)| <= c + 1
    && ((t.hot == map[] && Rests(t.pc)) || |Committed(t)| <= c)
  }

  lemma FewStep(t: Day, c: nat, e: Event)
    requires Inv(t) && Few(t, c) && !e.Insert?
    ensures Few(Step(t, e), c)
  {
    if e.Advance? {
      if OnlyReads(t.pc) { FewReads(t, c, e.kept, e.reported); }
      else if t.pc.Listing? { FewLists(t, c, e.kept, e.reported); }
      else if t.pc.Dropping? { FewDrops(t, c, e.kept, e.reported); }
      else { WriteIs(t, e.kept, e.reported); }
    }
  }

  lemma FewReads(t: Day, c: nat, kept: set<Key>, reported: int)
    requires Few(t, c) && OnlyReads(t.pc)
    ensures Few(Proceed(t, kept, reported), c)
  {
    ReadsOnly(t, kept, reported);
  }

  lemma FewDrops(t: Day, c: nat, kept: set<Key>, reported: int)
    requires Few(t, c) && t.pc.Dropping?
    ensures Few(Proceed(t, kept, reported), c)
  {
  }

  lemma FewLists(t: Day, c: nat, kept: set<Key>, reported: int)
    requires Shape(t) && PcInv(t) && Few(t, c) && t.pc.Listing?
    ensures Few(Proceed(t, kept, reported), c)
  {
    var n := Proceed(t, kept, reported);
    ListIs(t, kept, reported);
    if ListsNew(t) {
      ListNewPending(t, n);
    } else {
      assert Parts(n) == Committed(t) == Parts(t);
      assert Committed(n) == Committed(t);
    }
  }

  lemma {:induction false} FewRun(s: Day, more: seq<Event>)
    requires Inv(s) && s.pc == Idle && s.manifest.Listed? && NoInserts(more)
    ensures Few(Run(s, more), |Committed(s)|)
  {
    if more != [] {
      var front := more[..|more| - 1];
      assert NoInserts(front);
      FewRun(s, front);
      RunKeeps(s, front);
      FewStep(Run(s, front), |Committed(s)|, more[|more| - 1]);
    }
  }

  lemma NothingNovel(s: Day)
    requires Inv(s) && s.manifest.Listed? && |Novel(s)| == 0
    ensures AllKnown(s)
  {
    assert Novel(s) == map[];
    forall k | k in s.hot ensures InParts(s.files, Committed(s), k) {
      ArchivedAre(s.files, Committed(s), k);
      assert k !in Novel(s);
    }
  }

  /** The reader lists the directory in `s` and opens the manifest later. Whatever the exporter does in
      between, the read goes through, exactly when there was nothing new to export or the next part's file
      was already there to list. */
  lemma StaleListingExactly(s: Day)
    requires Inv(s) && s.pc == Idle && s.manifest.Listed?
    ensures (forall more :: NoInserts(more) ==> ReadsThrough(s.files.Keys, true, Run(s, more).manifest))
      <==> |Novel(s)| == 0 || Part(|Committed(s)|) in s.files
  {
    if |Novel(s)| == 0 {
      NothingNovel(s);
      forall more | NoInserts(more) ensures ReadsThrough(s.files.Keys, true, Run(s, more).manifest) {
        StillRun(s, more);
        RunKeeps(s, more);
        StaleListing(s, Run(s, more));
      }
    } else if Part(|Committed(s)|) in s.files {
      forall more | NoInserts(more) ensures ReadsThrough(s.files.Keys, true, Run(s, more).manifest) {
        FewRun(s, more);
        RunKeeps(s, more);
        StaleListing(s, Run(s, more));
      }
    } else {
      StaleListingFails(s);
    }
  }
}
