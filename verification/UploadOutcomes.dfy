/** When an upload lands, and what a commit refused because its members changed does to an earlier one
    (services/notebook_tracking_gateway/gateway.py). */
module UploadOutcomes {
  import opened Common
  import opened Tenancy
  import opened Admission
  import opened Staging
  import opened Uploads

  // ---------------------------------------------------------------- an undisturbed commit

  /** The reads of these members, all of the same objects. */
  function SeenIn(u: Upload, objects: Objects, keys: seq<string>): Seen { map k | k in keys :: ReadIn(u, objects, k) }

  lemma {:induction false} QuietWorld(w: World, n: nat)
    requires w.others == []
    ensures AtCall(w, n).objects == w.objects && AtCall(w, n).others == []
  {
    if n > 0 { QuietWorld(w, n - 1); }
  }

  lemma QuietReads(u: Upload, keys: seq<string>, w: World, seen: Seen)
    requires w.others == [] && ReadInTurn(u, keys, w, seen)
    ensures seen == SeenIn(u, w.objects, keys)
  {
    forall i | 0 <= i < |keys| ensures seen[keys[i]] == ReadIn(u, w.objects, keys[i]) { QuietWorld(w, i + 1); }
    forall k | k in seen ensures k in SeenIn(u, w.objects, keys) && seen[k] == SeenIn(u, w.objects, keys)[k] {
      var i :| 0 <= i < |keys| && keys[i] == k;
    }
  }

  /** Nothing changes between the read of a member and its copy. */
  lemma QuietStays(u: Upload, keys: seq<string>, w: World, seen: Seen, i: nat)
    requires w.others == [] && seen == SeenIn(u, w.objects, keys) && i < |keys| && keys[i] in w.objects
    ensures Unchanged(keys, seen, AtCall(w, |keys|), i)
  {
    var copying := AtCall(w, |keys|);
    QuietWorld(w, |keys|);
    QuietWorld(copying, i + 1);
    ReadVersion(u, w.objects, keys, i);
    StaysThatVersion(keys, seen, copying, i, w.objects);
  }

  lemma ReadVersion(u: Upload, objects: Objects, keys: seq<string>, i: nat)
    requires i < |keys| && keys[i] in objects
    ensures var seen := SeenIn(u, objects, keys); keys[i] in seen && seen[keys[i]].Some? && seen[keys[i]].value.version == objects[keys[i]]
  {
    assert keys[i] in keys;
  }

  lemma StaysThatVersion(keys: seq<string>, seen: Seen, copying: World, i: nat, objects: Objects)
    requires i < |keys| && keys[i] in objects && keys[i] in seen && seen[keys[i]].Some? && seen[keys[i]].value.version == objects[keys[i]]
    requires AtCall(copying, i + 1).objects == objects
    ensures Unchanged(keys, seen, copying, i)
  {
  }

  lemma QuietJudged(outcome: Outcome, r: Reader, u: Upload, w: World, keys: seq<string>, seen: Seen, n: nat)
    requires n <= |keys| && w.others == [] && w.calls >= 4 * |keys| && Caused(outcome, r, u, keys, seen, w, n)
    requires forall i :: 0 <= i < |keys| ==> keys[i] in w.objects
    ensures seen == SeenIn(u, w.objects, keys)
    ensures outcome == if Passed(r, u, keys, seen) then Landed else if Large(u, seen) then TooLarge else Refused
  {
    CallsLeft(w, |keys|);
    QuietReads(u, keys, w, seen);
    forall i | 0 <= i < |keys| ensures Unchanged(keys, seen, AtCall(w, |keys|), i) { QuietStays(u, keys, w, seen, i); }
  }

  /** A commit of something staged, with a live handle, that nobody disturbs and the store answers, lands
      exactly when what is staged passes; otherwise it is refused. */
  lemma QuietCommitLands(outcome: Outcome, r: Reader, u: Upload, w: World, keys: seq<string>, seen: Seen, n: nat)
    requires n <= |keys| && IsUploadId(u.id) && w.others == [] && w.calls >= 1 + 4 * |keys|
    requires keys != [] && Ended(outcome, r, u, w, true, keys, seen, n)
    ensures seen == SeenIn(u, w.objects, keys)
    ensures outcome == if Passed(r, u, keys, seen) then Landed else if Large(u, seen) then TooLarge else Refused
  {
    EndedIsCaused(outcome, r, u, w, keys, seen, n);
    QuietJudged(outcome, r, u, Turned(w), keys, seen, n);
  }

  lemma EndedIsCaused(outcome: Outcome, r: Reader, u: Upload, w: World, keys: seq<string>, seen: Seen, n: nat)
    requires n <= |keys| && IsUploadId(u.id) && w.calls > 0 && keys != [] && Ended(outcome, r, u, w, true, keys, seen, n)
    ensures Caused(outcome, r, u, keys, seen, Turned(w), n)
    ensures forall i :: 0 <= i < |keys| ==> keys[i] in Turned(w).objects
  {
    forall i | 0 <= i < |keys| ensures keys[i] in Turned(w).objects { assert keys[i] in keys; }
  }

  /** And then every staged object is at its place. */
  lemma QuietCommitPlaces(r: Reader, u: Upload, w: World, before: Objects, after: Objects, keys: seq<string>, seen: Seen, k: string)
    requires seen == SeenIn(u, w.objects, keys) && Leaves(Landed, r, u, before, after, keys, seen, |keys|)
    requires forall k :: k in keys ==> Staged(u) <= k && k in w.objects
    requires k in keys
    ensures Dst(u, k) in after && after[Dst(u, k)] == w.objects[k]
  {
    PromotedExactly(u, before, keys, seen, Dst(u, k));
  }

  // ---------------------------------------------------------------- a commit that ends in 409

  /** A commit refused because a member changed leaves the landing area as it was exactly when none of
      the places it copied to was taken before. */
  lemma TakesBackExactly(r: Reader, u: Upload, before: Objects, after: Objects, keys: seq<string>, seen: Seen, n: nat)
    requires n <= |keys| && Leaves(Changed, r, u, before, after, keys, seen, n)
    ensures after == before <==> ToSet(Dsts(u, keys[..n])) !! before.Keys
  {
    var gone := ToSet(Dsts(u, keys[..n]));
    if after == before {
      forall k | k in gone ensures k !in before { assert k !in before - gone; }
    }
  }

  /** Wherever it stops, it leaves the area as it was, exactly when the area holds none of the places of
      the members listed before the last. */
  lemma RefusalKeepsExactly(u: Upload, before: Objects, keys: seq<string>)
    ensures (forall n :: 0 <= n < |keys| ==> before - ToSet(Dsts(u, keys[..n])) == before)
      <==> forall i :: 0 <= i < |keys| - 1 ==> Dst(u, keys[i]) !in before
  {
    if forall n :: 0 <= n < |keys| ==> before - ToSet(Dsts(u, keys[..n])) == before {
      forall i | 0 <= i < |keys| - 1 ensures Dst(u, keys[i]) !in before {
        var places := Dsts(u, keys[..|keys| - 1]);
        assert places[i] == Dst(u, keys[i]) && places[i] in ToSet(places);
        assert before - ToSet(places) == before;
        assert places[i] !in before - ToSet(places);
      }
    }
    if forall i :: 0 <= i < |keys| - 1 ==> Dst(u, keys[i]) !in before {
      forall n | 0 <= n < |keys| ensures before - ToSet(Dsts(u, keys[..n])) == before {
        forall k | k in ToSet(Dsts(u, keys[..n])) ensures k !in before {
          var i :| 0 <= i < n && Dsts(u, keys[..n])[i] == k;
        }
      }
    }
  }

  /** After a commit that landed, a later one of the same upload id that copied a member and then ended in
      409 has removed that member's landed object. */
  lemma LaterRefusalUndoes(r: Reader, u: Upload, before: Objects, mid: Objects, after: Objects,
                           keys: seq<string>, seen: Seen, keys': seq<string>, seen': Seen, n: nat)
    requires Leaves(Landed, r, u, before, mid, keys, seen, |keys|) && 0 < n <= |keys'| && Leaves(Changed, r, u, mid, after, keys', seen', n)
    requires (forall k :: k in keys ==> Staged(u) <= k && k in seen && seen[k].Some?) && keys'[0] in keys
    ensures Dst(u, keys'[0]) in mid && Dst(u, keys'[0]) !in after
  {
    PromotedExactly(u, before, keys, seen, Dst(u, keys'[0]));
    assert Dsts(u, keys'[..n])[0] == Dst(u, keys'[0]);
    assert Dst(u, keys'[0]) in ToSet(Dsts(u, keys'[..n]));
  }

  // ---------------------------------------------------------------- such a run

  /** A reader that finds one harmless flavor in every manifest. */
  function Plain(): Reader {
    Reader((b: Bytes) => Some(Map([Entry(Some("flavors"), Map([Entry(Some("f"), Scalar)]))])), (s: string) => s)
  }

  lemma PlainPasses(u: Upload, keys: seq<string>, seen: Seen)
    requires ManifestOf(u, seen).Some? && 0 < |ManifestOf(u, seen).value| <= MANIFEST_MAX
    requires forall i :: 0 <= i < |keys| ==> |HeadOf(seen, keys[i])| < 2
    ensures Passed(Plain(), u, keys, seen)
  {
    var only := Entry(Some("f"), Scalar);
    var flavors := Map([only]);
    assert Get(Plain().parse(ManifestOf(u, seen).value).value, "flavors") == Some(flavors);
    assert Walk(flavors) == [only] by {
      assert [only][1..] == [];
      assert WalkEntry(only) == [only];
      assert WalkEntries([only]) == [only];
    }
    forall path | At(flavors, path).Some? ensures !Declares(Plain(), At(flavors, path).value) { PathWalked(flavors, path); }
    forall i | 0 <= i < |keys| ensures !ExecutableStream(Heads(u, keys, seen)[i].1) { }
  }

  function Manifest(u: Upload): string { Staged(u) + MANIFEST_NAME }
  function Data(u: Upload): string { Staged(u) + "data" }

  /** The two members staged. */
  function TwoStaged(u: Upload, rest: Objects): Objects { rest[Manifest(u) := [1]][Data(u) := [2]] }

  lemma TwoKeys(u: Upload, rest: Objects, keys: seq<string>)
    requires Distinct(keys) && forall k :: k in rest ==> Landing(u) <= k
    requires forall k :: k in keys <==> k in TwoStaged(u, rest) && Staged(u) <= k && k != Staged(u)
    ensures |keys| == 2 && Manifest(u) != Data(u) && (forall k :: k in keys <==> k == Manifest(u) || k == Data(u))
  {
    MembersDiffer(u);
    forall k | Staged(u) <= k ensures k !in rest { StagedNotLanding(u, k); }
    assert Manifest(u) in keys && Data(u) in keys;
    assert ToSet(keys) == {Manifest(u), Data(u)};
    DistinctCount(keys);
  }

  lemma {:induction false} DistinctCount(keys: seq<string>)
    requires Distinct(keys)
    ensures |ToSet(keys)| == |keys|
  {
    if keys != [] {
      var front, last := keys[..|keys| - 1], keys[|keys| - 1];
      DistinctCount(front);
      assert ToSet(keys) == ToSet(front) + {last};
      assert last !in front;
    }
  }

  lemma TwoPass(u: Upload, rest: Objects, keys: seq<string>, seen: Seen)
    requires seen == SeenIn(u, TwoStaged(u, rest), keys) && Manifest(u) != Data(u)
    requires forall k :: k in keys <==> k == Manifest(u) || k == Data(u)
    ensures Passed(Plain(), u, keys, seen)
  {
    assert Manifest(u) in keys;
    forall i | 0 <= i < |keys| ensures |HeadOf(seen, keys[i])| < 2 { assert keys[i] in keys; }
    PlainPasses(u, keys, seen);
  }

  /** What others do to the second commit: nothing, until both members are put again before its second
      copy. */
  function Script(u: Upload): seq<seq<Change>> { [[], [], [], [], [Put(Manifest(u), [3]), Put(Data(u), [3])]] }

  lemma ScriptedWorld(u: Upload, objects: Objects, n: nat)
    requires n <= 5 && Manifest(u) != Data(u)
    ensures var w := AtCall(World(objects, Script(u), 9), n);
      && w.others == Script(u)[n..] && w.calls == 9 - n
      && (n < 5 ==> w.objects == objects)
      && (n == 5 ==> IsVersion(w.objects, Manifest(u), [3]) && IsVersion(w.objects, Data(u), [3]))
  {
    if n > 0 {
      ScriptedWorld(u, objects, n - 1);
      var cs := Script(u)[n - 1];
      assert Script(u)[n - 1..][0] == cs;
      if n == 5 {
        assert cs[..1] == [cs[0]] && cs[..1][..0] == [];
        assert Apply(objects, cs[..1]) == ApplyOne(objects, cs[0]);
        assert Apply(objects, cs) == ApplyOne(ApplyOne(objects, cs[0]), cs[1]);
      }
    }
  }

  lemma ScriptedReads(u: Upload, objects: Objects, keys: seq<string>, seen: Seen)
    requires |keys| == 2 && Manifest(u) != Data(u) && ReadInTurn(u, keys, AtCall(World(objects, Script(u), 9), 1), seen)
    ensures seen == SeenIn(u, objects, keys)
  {
    var w := World(objects, Script(u), 9);
    forall i | 0 <= i < 2 ensures seen[keys[i]] == ReadIn(u, objects, keys[i]) {
      AtCallOn(w, 1, i + 1);
      ScriptedWorld(u, objects, i + 2);
    }
    forall k | k in keys ensures seen[k] == ReadIn(u, objects, k) { var i :| 0 <= i < 2 && keys[i] == k; }
  }

  lemma ScriptedCopies(u: Upload, objects: Objects, keys: seq<string>, seen: Seen)
    requires |keys| == 2 && Manifest(u) != Data(u) && seen == SeenIn(u, objects, keys)
    requires forall i :: 0 <= i < 2 ==> (keys[i] == Manifest(u) || keys[i] == Data(u)) && keys[i] in objects && objects[keys[i]] != [3]
    ensures var copying := AtCall(World(objects, Script(u), 9), 3);
      Unchanged(keys, seen, copying, 0) && !Unchanged(keys, seen, copying, 1)
  {
    var w := World(objects, Script(u), 9);
    AtCallOn(w, 3, 1);
    AtCallOn(w, 3, 2);
    ScriptedWorld(u, objects, 4);
    ScriptedWorld(u, objects, 5);
    assert keys[0] in keys && keys[1] in keys;
  }

  lemma StopsAtTheSecond(outcome: Outcome, r: Reader, u: Upload, keys: seq<string>, seen: Seen, copying: World, n: nat)
    requires n <= |keys| == 2 && Judged(outcome, r, u, keys, seen, copying, n) && Passed(r, u, keys, seen) && copying.calls >= 6
    requires Unchanged(keys, seen, copying, 0) && !Unchanged(keys, seen, copying, 1)
    ensures outcome == Changed && n == 1
  {
  }

  /** The second commit copies one member and then finds the other changed. */
  lemma SecondEndsChanged(outcome: Outcome, u: Upload, rest: Objects, keys: seq<string>, seen: Seen, n: nat)
    requires n <= |keys| && (forall k :: k in rest ==> Landing(u) <= k) && Distinct(keys)
    requires forall k :: k in keys <==> k in TwoStaged(u, rest) && Staged(u) <= k && k != Staged(u)
    requires Caused(outcome, Plain(), u, keys, seen, AtCall(World(TwoStaged(u, rest), Script(u), 9), 1), n)
    ensures outcome == Changed && n == 1 && |keys| == 2
  {
    var objects := TwoStaged(u, rest);
    var w := World(objects, Script(u), 9);
    MembersDiffer(u);
    TwoKeys(u, rest, keys);
    ScriptedWorld(u, objects, 1);
    ScriptedWorld(u, objects, 3);
    AtCallOn(w, 1, 2);
    ScriptedReads(u, objects, keys, seen);
    TwoPass(u, rest, keys, seen);
    assert keys[0] in keys && keys[1] in keys;
    ScriptedCopies(u, objects, keys, seen);
    StopsAtTheSecond(outcome, Plain(), u, keys, seen, AtCall(w, 3), n);
  }

  lemma MembersDiffer(u: Upload)
    ensures Manifest(u) != Data(u)
  {
    assert Manifest(u)[|Staged(u)|] == 'M' && Data(u)[|Staged(u)|] == 'd';
  }

  lemma OnlyStaged(u: Upload, landed: Objects)
    requires forall k :: k in landed ==> Landing(u) <= k
    ensures Under(TwoStaged(u, landed), Landing(u)) == landed
  {
    StagedNotLanding(u, Manifest(u));
    StagedNotLanding(u, Data(u));
  }

  lemma FirstLands(outcome: Outcome, u: Upload, after: Objects, keys: seq<string>, seen: Seen, n: nat)
    requires n <= |keys| && IsUploadId(u.id) && Distinct(keys)
    requires Ended(outcome, Plain(), u, World(TwoStaged(u, map[]), [], 9), true, keys, seen, n)
    requires Leaves(outcome, Plain(), u, map[], after, keys, seen, n)
    ensures outcome == Landed && keys != [] && |after| == 2 && Dst(u, Manifest(u)) in after && Dst(u, Data(u)) in after
  {
    var w := World(TwoStaged(u, map[]), [], 9);
    TwoKeys(u, map[], keys);
    QuietCommitLands(outcome, Plain(), u, w, keys, seen, n);
    TwoPass(u, map[], keys, seen);
    TwoLanded(u, after, keys, seen);
  }

  lemma SecondLeaves(outcome: Outcome, u: Upload, landed: Objects, after: Objects, keys: seq<string>, seen: Seen, n: nat)
    requires n <= |keys| && IsUploadId(u.id) && Distinct(keys)
    requires Dst(u, Manifest(u)) in landed && Dst(u, Data(u)) in landed && forall k :: k in landed ==> Landing(u) <= k
    requires Ended(outcome, Plain(), u, World(TwoStaged(u, landed), Script(u), 9), true, keys, seen, n)
    requires Leaves(outcome, Plain(), u, landed, after, keys, seen, n)
    ensures outcome == Changed && exists k :: k in landed && after == landed - {k}
  {
    var w := World(TwoStaged(u, landed), Script(u), 9);
    assert AtCall(w, 1) == Turned(w) by { assert AtCall(w, 0) == w; }
    MembersDiffer(u);
    ScriptedWorld(u, w.objects, 1);
    TwoKeys(u, landed, keys);
    EndedIsCaused(outcome, Plain(), u, w, keys, seen, n);
    SecondEndsChanged(outcome, u, landed, keys, seen, n);
    assert keys[0] in keys;
    OneTakenBack(u, landed, after, keys);
  }

  lemma OneTakenBack(u: Upload, landed: Objects, after: Objects, keys: seq<string>)
    requires keys != [] && after == landed - ToSet(Dsts(u, keys[..1])) && Dst(u, keys[0]) in landed
    ensures exists k :: k in landed && after == landed - {k}
  {
    assert Dsts(u, keys[..1]) == [Dst(u, keys[0])];
    assert ToSet([Dst(u, keys[0])]) == {Dst(u, keys[0])};
  }

  method CommitTwo(u: Upload, handles: HandleStore) returns (outcome: Outcome, landed: Objects)
    requires IsUploadId(u.id) && handles.handles == {"one", "two"}
    modifies handles
    ensures outcome == Landed && handles.handles == {"two"} && |landed| == 2
    ensures Dst(u, Manifest(u)) in landed && Dst(u, Data(u)) in landed && forall k :: k in landed ==> Landing(u) <= k
  {
    var store := new ArtifactStore(TwoStaged(u, map[]), [], 9);
    OnlyStaged(u, map[]);
    var keys, seen, n;
    outcome, keys, seen, n := Commit(store, handles, Plain(), u, "one");
    landed := Under(store.objects, Landing(u));
    FirstLands(outcome, u, landed, keys, seen, n);
  }

  method CommitAgain(u: Upload, handles: HandleStore, landed: Objects) returns (outcome: Outcome, left: Objects)
    requires IsUploadId(u.id) && "two" in handles.handles
    requires Dst(u, Manifest(u)) in landed && Dst(u, Data(u)) in landed && forall k :: k in landed ==> Landing(u) <= k
    modifies handles
    ensures outcome == Changed && exists k :: k in landed && left == landed - {k}
  {
    ScriptElsewhere(u);
    var store := new ArtifactStore(TwoStaged(u, landed), Script(u), 9);
    OnlyStaged(u, landed);
    var keys, seen, n;
    outcome, keys, seen, n := Commit(store, handles, Plain(), u, "two");
    left := Under(store.objects, Landing(u));
    SecondLeaves(outcome, u, landed, left, keys, seen, n);
  }

  lemma ScriptElsewhere(u: Upload)
    ensures Elsewhere(Script(u), Landing(u))
  {
    StagedNotLanding(u, Manifest(u));
    StagedNotLanding(u, Data(u));
    var changes: seq<seq<Change>> := Script(u);
    assert forall i :: 0 <= i < 4 ==> changes[i] == [];
    assert changes[4][0].key == Manifest(u) && changes[4][1].key == Data(u);
  }

  /** A client commits an upload with one handle, puts its members again through URLs still valid, and
      commits it with a second handle while putting them once more: the second commit ends in 409, and an
      object the first had landed is gone. */
  method SecondCommitLoses(u: Upload) returns (first: Outcome, second: Outcome, landed: Objects, left: Objects)
    requires IsUploadId(u.id)
    ensures first == Landed && second == Changed
    ensures |landed| == 2 && exists k :: k in landed && left == landed - {k}
  {
    var handles := new HandleStore({"one", "two"});
    first, landed := CommitTwo(u, handles);
    second, left := CommitAgain(u, handles, landed);
  }

  lemma TwoLanded(u: Upload, landed: Objects, keys: seq<string>, seen: Seen)
    requires Leaves(Landed, Plain(), u, map[], landed, keys, seen, |keys|) && |keys| == 2 && Distinct(keys)
    requires forall k :: k in keys ==> Staged(u) <= k && k in seen && seen[k].Some?
    ensures |landed| == 2 && forall k :: k in keys ==> Dst(u, k) in landed
  {
    assert keys[0] in keys && keys[1] in keys;
    var a, b := Dst(u, keys[0]), Dst(u, keys[1]);
    if a == b { DstInjective(u, keys[0], keys[1]); }
    forall d ensures d in landed <==> d == a || d == b {
      PromotedExactly(u, map[], keys, seen, d);
      assert forall k :: k in keys <==> k == keys[0] || k == keys[1];
    }
    assert landed.Keys == {a, b};
  }
}
