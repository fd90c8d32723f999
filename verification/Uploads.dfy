/** Judging a staged upload and promoting it, while its staged objects may be written again at any time
    (services/notebook_tracking_gateway/gateway.py). An object's version (its ETag) is its content. */
module Uploads {
  import opened Common
  import opened Tenancy
  import opened Admission
  import opened Staging

  const HEAD_BYTES: nat := 16
  const MANIFEST_MAX: nat := 262144
  const MANIFEST_NAME := "MLmodel"

  type Objects = map<string, Bytes>

  /** What somebody else does to the store between two calls. */
  datatype Change = Put(key: string, content: Bytes) | Delete(key: string)

  function Apply(objects: Objects, cs: seq<Change>): Objects {
    if cs == [] then objects
    else ApplyOne(Apply(objects, cs[..|cs| - 1]), cs[|cs| - 1])
  }

  function ApplyOne(objects: Objects, c: Change): Objects {
    match c
    case Put(key, content) => objects[key := content]
    case Delete(key) => objects - {key}
  }

  /** The part of the store under a prefix. */
  function Under(objects: Objects, prefix: string): Objects { map k | k in objects && prefix <= k :: objects[k] }

  ghost predicate Elsewhere(others: seq<seq<Change>>, prefix: string) {
    forall i, j :: 0 <= i < |others| && 0 <= j < |others[i]| ==> !(prefix <= others[i][j].key)
  }

  lemma {:induction false} ApplyElsewhere(objects: Objects, cs: seq<Change>, prefix: string)
    requires forall j :: 0 <= j < |cs| ==> !(prefix <= cs[j].key)
    ensures Under(Apply(objects, cs), prefix) == Under(objects, prefix)
  {
    if cs != [] {
      ApplyElsewhere(objects, cs[..|cs| - 1], prefix);
      var before, c := Apply(objects, cs[..|cs| - 1]), cs[|cs| - 1];
      assert !(prefix <= c.key);
      assert forall k :: k in Under(Apply(objects, cs), prefix) <==> k in Under(before, prefix);
    }
  }

  /** A member's opening bytes and the version they are of. */
  datatype Read = Read(head: Bytes, version: Bytes)

  function Opening(content: Bytes, n: nat): Bytes { if |content| <= n then content else content[..n] }

  /** The store's objects, what others will do before each of the next calls, and how many more calls
      it answers. */
  datatype World = World(objects: Objects, others: seq<seq<Change>>, calls: nat)

  /** The world at the next call, before the call's own effect. */
  function Turned(w: World): World {
    World(if w.others == [] then w.objects else Apply(w.objects, w.others[0]),
          if w.others == [] then [] else w.others[1..], if w.calls > 0 then w.calls - 1 else 0)
  }

  /** The world at the n-th call from here, when none of ours before it changed anything. */
  function AtCall(w: World, n: nat): World { if n == 0 then w else Turned(AtCall(w, n - 1)) }

  lemma {:induction false} AtCallOn(w: World, n: nat, m: nat)
    ensures AtCall(AtCall(w, n), m) == AtCall(w, n + m)
  {
    if m > 0 { AtCallOn(w, n, m - 1); }
  }

  lemma {:induction false} CallsLeft(w: World, n: nat)
    ensures AtCall(w, n).calls == if w.calls > n then w.calls - n else 0
  {
    if n > 0 { CallsLeft(w, n - 1); }
  }

  /** The part of the store outside a prefix. */
  function Outside(objects: Objects, prefix: string): Objects { map k | k in objects && !(prefix <= k) :: objects[k] }

  ghost predicate SameOutside(a: World, b: World, prefix: string) {
    Outside(a.objects, prefix) == Outside(b.objects, prefix) && a.others == b.others && a.calls == b.calls
  }

  lemma {:induction false} ApplyOutside(a: Objects, b: Objects, cs: seq<Change>, prefix: string)
    requires Outside(a, prefix) == Outside(b, prefix)
    ensures Outside(Apply(a, cs), prefix) == Outside(Apply(b, cs), prefix)
  {
    if cs != [] {
      ApplyOutside(a, b, cs[..|cs| - 1], prefix);
      OneOutside(Apply(a, cs[..|cs| - 1]), Apply(b, cs[..|cs| - 1]), cs[|cs| - 1], prefix);
    }
  }

  lemma OneOutside(a: Objects, b: Objects, c: Change, prefix: string)
    requires Outside(a, prefix) == Outside(b, prefix)
    ensures Outside(ApplyOne(a, c), prefix) == Outside(ApplyOne(b, c), prefix)
  {
    var x, y := ApplyOne(a, c), ApplyOne(b, c);
    forall k ensures k in Outside(x, prefix) <==> k in Outside(y, prefix) {
      assert k in Outside(a, prefix) <==> k in Outside(b, prefix);
    }
    forall k | k in Outside(x, prefix) ensures Outside(x, prefix)[k] == Outside(y, prefix)[k] {
      if k != c.key { assert Outside(a, prefix)[k] == Outside(b, prefix)[k]; }
    }
  }

  lemma TurnedOutside(a: World, b: World, prefix: string)
    requires SameOutside(a, b, prefix)
    ensures SameOutside(Turned(a), Turned(b), prefix)
  {
    if a.others != [] { ApplyOutside(a.objects, b.objects, a.others[0], prefix); }
  }

  /** The object store. Before each of the next calls, somebody else makes the next of the `others`
      changes; after `calls` more calls the store fails. */
  class ArtifactStore {
    var objects: Objects
    var others: seq<seq<Change>>
    var calls: nat

    constructor (objects: Objects, others: seq<seq<Change>>, calls: nat)
      ensures this.objects == objects && this.others == others && this.calls == calls
    {
      this.objects, this.others, this.calls := objects, others, calls;
    }

    ghost function Now(): World reads this { World(objects, others, calls) }

    /** Somebody else's turn, then a call's: whether the store answers it. */
    method Turn(ghost prefix: string) returns (up: bool)
      requires Elsewhere(others, prefix)
      modifies this
      ensures Elsewhere(others, prefix) && Under(objects, prefix) == Under(old(objects), prefix)
      ensures Now() == Turned(old(Now())) && up == (old(calls) > 0)
    {
      if others != [] {
        ApplyElsewhere(objects, others[0], prefix);
        objects := Apply(objects, others[0]);
        others := others[1..];
      }
      up := calls > 0;
      if up { calls := calls - 1; }
    }

    /** The staged keys of an upload, each once. */
    method ListKeys(prefix: string) returns (keys: seq<string>)
      ensures forall k :: k in keys <==> k in objects && prefix <= k && k != prefix
      ensures Distinct(keys)
    {
      keys := [];
      var todo := objects.Keys;
      while todo != {}
        invariant todo <= objects.Keys
        invariant forall k :: k in keys <==> k in objects && k !in todo && prefix <= k && k != prefix
        invariant Distinct(keys)
        decreases |todo|
      {
        var k :| k in todo;
        todo := todo - {k};
        if prefix <= k && k != prefix { keys := keys + [k]; }
      }
    }

    /** The first `n` bytes and the version they are of. */
    method Head(key: string, n: nat) returns (r: Option<Read>)
      ensures r == if key in objects then Some(Read(Opening(objects[key], n), objects[key])) else None
    {
      if key !in objects { return None; }
      return Some(Read(Opening(objects[key], n), objects[key]));
    }

    /** Copies `src` if it is still the version named. */
    method Copy(src: string, dst: string, version: Bytes) returns (ok: bool)
      modifies this
      ensures ok == (src in old(objects) && old(objects)[src] == version)
      ensures objects == if ok then old(objects)[dst := version] else old(objects)
      ensures others == old(others) && calls == old(calls)
    {
      ok := src in objects && objects[src] == version;
      if ok { objects := objects[dst := objects[src]]; }
    }

    method Remove(key: string)
      modifies this
      ensures objects == old(objects) - {key} && others == old(others) && calls == old(calls)
    {
      objects := objects - {key};
    }

    /** Removes keys one by one: all of them, or the first few when the store fails. */
    method Discard(keys: seq<string>, ghost prefix: string) returns (up: bool, n: nat)
      requires Elsewhere(others, prefix)
      modifies this
      ensures Elsewhere(others, prefix) && n <= |keys| && (up ==> n == |keys|)
      ensures Under(objects, prefix) == Under(old(objects), prefix) - ToSet(keys[..n])
      ensures up == (old(calls) >= |keys|) && (up ==> calls == old(calls) - |keys|)
    {
      n := 0;
      while n < |keys|
        invariant n <= |keys| && Elsewhere(others, prefix) && calls + n == old(calls)
        invariant Under(objects, prefix) == Under(old(objects), prefix) - ToSet(keys[..n])
      {
        up := Turn(prefix);
        if !up { return; }
        RemovedUnder(objects, keys[n], prefix);
        Remove(keys[n]);
        assert ToSet(keys[..n + 1]) == ToSet(keys[..n]) + {keys[n]};
        n := n + 1;
      }
      up := true;
    }
  }

  lemma RemovedUnder(objects: Objects, key: string, prefix: string)
    ensures Under(objects - {key}, prefix) == Under(objects, prefix) - {key}
  {
  }

  predicate Distinct(keys: seq<string>) { forall i, j :: 0 <= i < j < |keys| ==> keys[i] != keys[j] }

  function ToSet(keys: seq<string>): set<string> { set k | k in keys }

  // ---------------------------------------------------------------- a commit

  datatype Upload = Upload(company: string, id: string)

  function Staged(u: Upload): string { StagingPrefix(Token(u.company), u.id) }
  function Landing(u: Upload): string { AdmittedPrefix(ArtifactPrefix(u.company), u.id) }

  function MemberOf(u: Upload, key: string): string { if |Staged(u)| <= |key| then key[|Staged(u)|..] else "" }
  function Dst(u: Upload, key: string): string { AdmittedKey(ArtifactPrefix(u.company), u.id, MemberOf(u, key)) }
  function Dsts(u: Upload, keys: seq<string>): seq<string> { seq(|keys|, i requires 0 <= i < |keys| => Dst(u, keys[i])) }

  function Limit(u: Upload, key: string): nat { if key == Staged(u) + MANIFEST_NAME then MANIFEST_MAX + 1 else HEAD_BYTES }

  type Seen = map<string, Option<Read>>

  ghost predicate ReadsOf(u: Upload, keys: seq<string>, seen: Seen) {
    && seen.Keys == ToSet(keys)
    && forall k :: k in seen && seen[k].Some? ==> seen[k].value.head == Opening(seen[k].value.version, Limit(u, k))
  }

  /** The landing area once these keys are promoted over `base`, in the versions read. */
  function Promoted(u: Upload, base: Objects, keys: seq<string>, seen: Seen): Objects {
    if keys == [] then base
    else
      var before, key := Promoted(u, base, keys[..|keys| - 1], seen), keys[|keys| - 1];
      if key in seen && seen[key].Some? then before[Dst(u, key) := seen[key].value.version] else before
  }

  function Heads(u: Upload, keys: seq<string>, seen: Seen): seq<(string, Bytes)> {
    seq(|keys|, i requires 0 <= i < |keys| => (MemberOf(u, keys[i]), HeadOf(seen, keys[i])))
  }

  function HeadOf(seen: Seen, key: string): Bytes {
    if key in seen && seen[key].Some? then Opening(seen[key].value.head, HEAD_BYTES) else []
  }

  function ManifestOf(u: Upload, seen: Seen): Option<Bytes> {
    var key := Staged(u) + MANIFEST_NAME;
    if key in seen && seen[key].Some? then Some(seen[key].value.head) else None
  }

  ghost predicate Passed(r: Reader, u: Upload, keys: seq<string>, seen: Seen) {
    && Harmless(r, ManifestOf(u, seen), Heads(u, keys, seen))
    && |ManifestOf(u, seen).value| <= MANIFEST_MAX
  }

  /** What a read of one member gives of these objects. */
  function ReadIn(u: Upload, objects: Objects, key: string): Option<Read> {
    if key in objects then Some(Read(Opening(objects[key], Limit(u, key)), objects[key])) else None
  }

  /** Each read is of the object the store held at the key when its turn came. */
  ghost predicate ReadInTurn(u: Upload, keys: seq<string>, w: World, seen: Seen) {
    seen.Keys == ToSet(keys) && forall i :: 0 <= i < |keys| ==> keys[i] in seen && seen[keys[i]] == ReadIn(u, AtCall(w, i + 1).objects, keys[i])
  }

  lemma ReadInTurnNext(u: Upload, keys: seq<string>, w: World, seen: Seen, i: nat)
    requires i < |keys| && Distinct(keys) && ReadInTurn(u, keys[..i], w, seen)
    ensures ReadInTurn(u, keys[..i + 1], w, seen[keys[i] := ReadIn(u, AtCall(w, i + 1).objects, keys[i])])
  {
    var first := keys[..i];
    assert keys[..i + 1] == first + [keys[i]];
    assert forall j :: 0 <= j < i ==> first[j] == keys[j] && keys[j] != keys[i];
  }

  lemma ReadsInTurnAreReads(u: Upload, keys: seq<string>, w: World, seen: Seen)
    requires ReadInTurn(u, keys, w, seen)
    ensures ReadsOf(u, keys, seen)
  {
    forall k | k in seen && seen[k].Some? ensures seen[k].value.head == Opening(seen[k].value.version, Limit(u, k)) {
      assert k in keys;
      var i :| 0 <= i < |keys| && keys[i] == k;
    }
  }

  /** One read per member, in turn. */
  method ReadAll(store: ArtifactStore, u: Upload, keys: seq<string>) returns (up: bool, seen: Seen)
    requires Elsewhere(store.others, Landing(u)) && Distinct(keys)
    modifies store
    ensures Elsewhere(store.others, Landing(u))
    ensures Under(store.objects, Landing(u)) == Under(old(store.objects), Landing(u))
    ensures up == (old(store.calls) >= |keys|)
    ensures up ==> store.Now() == AtCall(old(store.Now()), |keys|) && ReadInTurn(u, keys, old(store.Now()), seen)
  {
    seen := map[];
    ghost var w := store.Now();
    for i := 0 to |keys|
      invariant Elsewhere(store.others, Landing(u)) && w.calls >= i
      invariant Under(store.objects, Landing(u)) == Under(old(store.objects), Landing(u))
      invariant store.Now() == AtCall(w, i) && ReadInTurn(u, keys[..i], w, seen)
    {
      CallsLeft(w, i);
      up := store.Turn(Landing(u));
      if !up { return; }
      var read := store.Head(keys[i], Limit(u, keys[i]));
      ReadInTurnNext(u, keys, w, seen, i);
      seen := seen[keys[i] := read];
    }
    assert keys[..|keys|] == keys;
    up := true;
  }

  lemma StagedNotLanding(u: Upload, key: string)
    requires Staged(u) <= key
    ensures !(Landing(u) <= key)
    ensures Landing(u) <= Dst(u, key)
  {
    assert Staged(u)[0] == '_' && Landing(u)[0] == 't';
  }

  lemma CopiedUnder(objects: Objects, dst: string, version: Bytes, prefix: string)
    requires prefix <= dst
    ensures Under(objects[dst := version], prefix) == Under(objects, prefix)[dst := version]
  {
  }

  /** Copies one key to its place if it is still the version read. */
  method PromoteOne(store: ArtifactStore, u: Upload, key: string, version: Bytes) returns (up: bool, ok: bool)
    requires Elsewhere(store.others, Landing(u)) && Staged(u) <= key
    modifies store
    ensures Elsewhere(store.others, Landing(u))
    ensures Under(store.objects, Landing(u)) ==
      if up && ok then Under(old(store.objects), Landing(u))[Dst(u, key) := version] else Under(old(store.objects), Landing(u))
    ensures up == (old(store.calls) > 0) && SameOutside(store.Now(), Turned(old(store.Now())), Landing(u))
    ensures ok == (up && IsVersion(Turned(old(store.Now())).objects, key, version))
  {
    ok := false;
    up := store.Turn(Landing(u));
    if !up { return; }
    StagedNotLanding(u, key);
    CopiedUnder(store.objects, Dst(u, key), version, Landing(u));
    ok := store.Copy(key, Dst(u, key), version);
  }

  predicate IsVersion(objects: Objects, key: string, version: Bytes) { key in objects && objects[key] == version }

  /** At its turn to be copied, the i-th member is still there in the version read. */
  ghost predicate Unchanged(keys: seq<string>, seen: Seen, w: World, i: nat)
    requires i < |keys|
  {
    keys[i] in seen && seen[keys[i]].Some? && IsVersion(AtCall(w, i + 1).objects, keys[i], seen[keys[i]].value.version)
  }

  /** Outside the landing area our copies change nothing. */
  lemma StillStaged(a: World, b: World, u: Upload, key: string, version: Bytes)
    requires SameOutside(a, b, Landing(u)) && Staged(u) <= key
    ensures IsVersion(a.objects, key, version) == IsVersion(b.objects, key, version)
  {
    StagedNotLanding(u, key);
    assert key in Outside(a.objects, Landing(u)) <==> key in Outside(b.objects, Landing(u));
    assert key in a.objects ==> Outside(a.objects, Landing(u))[key] == a.objects[key];
  }

  lemma NextCall(now: World, w: World, n: nat, u: Upload, key: string, version: Bytes)
    requires SameOutside(now, AtCall(w, n), Landing(u)) && Staged(u) <= key
    ensures SameOutside(Turned(now), AtCall(w, n + 1), Landing(u))
    ensures IsVersion(Turned(now).objects, key, version) == IsVersion(AtCall(w, n + 1).objects, key, version)
  {
    TurnedOutside(now, AtCall(w, n), Landing(u));
    StillStaged(Turned(now), AtCall(w, n + 1), u, key, version);
  }

  /** How far the copies have come: the first `n` keys are in place, and elsewhere the world is as if
      nothing had been copied. */
  ghost predicate CopiedSoFar(now: World, u: Upload, keys: seq<string>, seen: Seen, base: Objects, w: World, n: nat) {
    && n <= |keys| && n <= w.calls && Elsewhere(now.others, Landing(u))
    && Under(now.objects, Landing(u)) == Promoted(u, base, keys[..n], seen)
    && SameOutside(now, AtCall(w, n), Landing(u)) && AllUnchanged(keys, seen, w, n)
  }

  ghost predicate AllUnchanged(keys: seq<string>, seen: Seen, w: World, n: nat)
    requires n <= |keys|
  {
    forall i :: 0 <= i < n ==> Unchanged(keys, seen, w, i)
  }

  lemma UnchangedWereRead(keys: seq<string>, seen: Seen, w: World, n: nat)
    requires n <= |keys| && AllUnchanged(keys, seen, w, n)
    ensures forall i :: 0 <= i < n ==> keys[i] in seen && seen[keys[i]].Some?
  {
    forall i | 0 <= i < n ensures keys[i] in seen && seen[keys[i]].Some? { assert Unchanged(keys, seen, w, i); }
  }

  /** The n-th copy. */
  method PromoteNext(store: ArtifactStore, u: Upload, keys: seq<string>, seen: Seen, n: nat, ghost base: Objects, ghost w: World)
    returns (up: bool, ok: bool)
    requires CopiedSoFar(store.Now(), u, keys, seen, base, w, n) && n < |keys| && Staged(u) <= keys[n]
    requires keys[n] in seen && seen[keys[n]].Some?
    modifies store
    ensures Elsewhere(store.others, Landing(u)) && up == (w.calls > n) && store.calls + n + 1 >= w.calls
    ensures up ==> ok == Unchanged(keys, seen, w, n)
    ensures if up && ok then CopiedSoFar(store.Now(), u, keys, seen, base, w, n + 1)
            else Under(store.objects, Landing(u)) == Promoted(u, base, keys[..n], seen)
  {
    CallsLeft(w, n);
    PromotedNext(u, base, keys, seen, n);
    NextCall(store.Now(), w, n, u, keys[n], seen[keys[n]].value.version);
    up, ok := PromoteOne(store, u, keys[n], seen[keys[n]].value.version);
  }

  /** Promotes the keys in turn, each only in the version read. It stops exactly at the first that has
      changed or vanished by its turn, or when the store fails; `n` were copied. */
  method Promote(store: ArtifactStore, u: Upload, keys: seq<string>, seen: Seen) returns (up: bool, n: nat)
    requires Elsewhere(store.others, Landing(u)) && forall i :: 0 <= i < |keys| ==> keys[i] in seen && Staged(u) <= keys[i]
    modifies store
    ensures Elsewhere(store.others, Landing(u)) && n <= |keys|
    ensures Under(store.objects, Landing(u)) == Promoted(u, Under(old(store.objects), Landing(u)), keys[..n], seen)
    ensures AllUnchanged(keys, seen, old(store.Now()), n)
    ensures up && n < |keys| ==> !Unchanged(keys, seen, old(store.Now()), n)
    ensures !up ==> n < |keys| && old(store.calls) == n
    ensures store.calls + |keys| >= old(store.calls)
  {
    n := 0;
    ghost var base, w := Under(store.objects, Landing(u)), store.Now();
    while n < |keys|
      invariant CopiedSoFar(store.Now(), u, keys, seen, base, w, n)
    {
      CallsLeft(w, n);
      if seen[keys[n]].None? { return true, n; }
      var ok;
      up, ok := PromoteNext(store, u, keys, seen, n, base, w);
      if !up || !ok { return; }
      n := n + 1;
    }
    CallsLeft(w, n);
    up := true;
  }

  lemma PromotedNext(u: Upload, base: Objects, keys: seq<string>, seen: Seen, n: nat)
    requires n < |keys| && keys[n] in seen && seen[keys[n]].Some?
    ensures Promoted(u, base, keys[..n + 1], seen) == Promoted(u, base, keys[..n], seen)[Dst(u, keys[n]) := seen[keys[n]].value.version]
  {
    assert keys[..n + 1][..n] == keys[..n];
  }

  lemma DiscardStaged(u: Upload, area: Objects, keys: seq<string>)
    requires forall k :: k in area ==> Landing(u) <= k
    requires forall k :: k in keys ==> Staged(u) <= k
    ensures area - ToSet(keys) == area
  {
    forall k | k in keys ensures k !in area { StagedNotLanding(u, k); }
  }

  // ---------------------------------------------------------------- handles

  /** The upload handles still in the capability store, and the consumptions recorded. */
  class HandleStore {
    var handles: set<string>
    var consumed: seq<string>

    constructor (handles: set<string>)
      ensures this.handles == handles && consumed == []
    {
      this.handles, consumed := handles, [];
    }

    /** The atomic claim: removed and recorded together, or neither. */
    method Consume(handle: string) returns (won: bool)
      modifies this
      ensures won == (handle in old(handles)) && handles == old(handles) - {handle}
      ensures consumed == if won then old(consumed) + [handle] else old(consumed)
    {
      won := handle in handles;
      if won { handles, consumed := handles - {handle}, consumed + [handle]; }
    }
  }

  datatype HandleEvent = Mint(handle: string) | Lapse(handle: string) | Claim(handle: string)
  datatype Handles = Handles(live: set<string>, minted: set<string>, won: seq<string>)

  /** Handles are minted once; they expire or are revoked; a claim wins while the handle is there. */
  function HandleStep(s: Handles, e: HandleEvent): Handles {
    match e
    case Mint(h) => if h in s.minted then s else s.(live := s.live + {h}, minted := s.minted + {h})
    case Lapse(h) => s.(live := s.live - {h})
    case Claim(h) => if h in s.live then s.(live := s.live - {h}, won := s.won + [h]) else s
  }

  function HandleRun(es: seq<HandleEvent>): Handles {
    if es == [] then Handles({}, {}, []) else HandleStep(HandleRun(es[..|es| - 1]), es[|es| - 1])
  }

  /** However claims interleave, one handle wins at most once, and never after it lapsed or was won. */
  lemma {:induction false} WonAtMostOnce(es: seq<HandleEvent>)
    ensures var s := HandleRun(es);
      && s.live <= s.minted
      && (forall h :: h in s.won ==> h in s.minted && h !in s.live)
      && (forall i, j :: 0 <= i < j < |s.won| ==> s.won[i] != s.won[j])
  {
    if es != [] {
      WonAtMostOnce(es[..|es| - 1]);
      var s := HandleRun(es[..|es| - 1]);
      assert forall i :: 0 <= i < |s.won| ==> s.won[i] in s.won;
    }
  }

  // ---------------------------------------------------------------- the commit

  datatype Outcome = BadId | NothingStaged | Unclaimed | TooLarge | Refused | Changed | Landed | Raised

  /** What a commit that copied the first `n` keys has made of its landing area. */
  ghost predicate Leaves(outcome: Outcome, r: Reader, u: Upload, before: Objects, after: Objects, keys: seq<string>, seen: Seen, n: nat)
    requires n <= |keys|
  {
    match outcome
    case Landed => n == |keys| && Passed(r, u, keys, seen) && after == Promoted(u, before, keys, seen)
    case Changed => after == before - ToSet(Dsts(u, keys[..n]))
    case Raised =>
      && (n > 0 ==> Passed(r, u, keys, seen))
      && exists gone :: after == Promoted(u, before, keys[..n], seen) - gone
    case _ => n == 0 && after == before
  }

  ghost predicate Large(u: Upload, seen: Seen) { ManifestOf(u, seen).Some? && |ManifestOf(u, seen).value| > MANIFEST_MAX }

  /** Why a commit that has read its members and makes its copies from `copying` on ends as it does. */
  ghost predicate Judged(outcome: Outcome, r: Reader, u: Upload, keys: seq<string>, seen: Seen, copying: World, n: nat)
    requires n <= |keys|
  {
    match outcome
    case TooLarge => Large(u, seen)
    case Refused => !Large(u, seen) && !Harmless(r, ManifestOf(u, seen), Heads(u, keys, seen))
    case Changed => Passed(r, u, keys, seen) && n < |keys| && !Unchanged(keys, seen, copying, n) && AllUnchanged(keys, seen, copying, n)
    case Landed => Passed(r, u, keys, seen) && AllUnchanged(keys, seen, copying, |keys|)
    case Raised => copying.calls < 3 * |keys|
    case _ => false
  }

  /** Why a claimed commit that starts its reads in `w` ends as it does. */
  ghost predicate Caused(outcome: Outcome, r: Reader, u: Upload, keys: seq<string>, seen: Seen, w: World, n: nat)
    requires n <= |keys|
  {
    if w.calls < |keys| then outcome == Raised
    else ReadInTurn(u, keys, w, seen) && Judged(outcome, r, u, keys, seen, AtCall(w, |keys|), n)
  }

  /** How a commit that begins in `w` ends: by its id, by the store, by what is staged, by its claim, and
      then by what it reads and what others change. */
  ghost predicate Ended(outcome: Outcome, r: Reader, u: Upload, w: World, live: bool, keys: seq<string>, seen: Seen, n: nat)
    requires n <= |keys|
  {
    if !IsUploadId(u.id) then outcome == BadId
    else if w.calls == 0 then outcome == Raised
    else
      && (forall k :: k in keys <==> k in Turned(w).objects && Staged(u) <= k && k != Staged(u))
      && (if keys == [] then outcome == NothingStaged else if !live then outcome == Unclaimed
          else Caused(outcome, r, u, keys, seen, Turned(w), n))
  }

  method Commit(store: ArtifactStore, handles: HandleStore, r: Reader, u: Upload, handle: string)
    returns (outcome: Outcome, keys: seq<string>, seen: Seen, n: nat)
    requires Elsewhere(store.others, Landing(u))
    modifies store, handles
    ensures n <= |keys|
    ensures Leaves(outcome, r, u, Under(old(store.objects), Landing(u)), Under(store.objects, Landing(u)), keys, seen, n)
    ensures Ended(outcome, r, u, old(store.Now()), handle in old(handles.handles), keys, seen, n)
    ensures (forall k :: k in keys ==> Staged(u) <= k) && Distinct(keys)
    ensures handles.handles == old(handles.handles) - (if keys == [] then {} else {handle})
    ensures outcome in {TooLarge, Refused, Changed, Landed} ==> handle in old(handles.handles) && ReadsOf(u, keys, seen)
    ensures n > 0 ==> ReadsOf(u, keys, seen) && forall i :: 0 <= i < n ==> keys[i] in seen && seen[keys[i]].Some?
  {
    keys, seen, n := [], map[], 0;
    ghost var before := Under(store.objects, Landing(u));
    if !IsUploadId(u.id) { return BadId, keys, seen, n; }
    var up := store.Turn(Landing(u));
    if !up { NothingGone(u, before, seen); return Raised, keys, seen, n; }
    keys := store.ListKeys(Staged(u));
    if keys == [] { return NothingStaged, keys, seen, n; }
    var won := handles.Consume(handle);
    if !won { return Unclaimed, keys, seen, n; }
    outcome, seen, n := JudgeAndPromote(store, r, u, keys);
  }

  lemma NothingGone(u: Upload, before: Objects, seen: Seen)
    ensures before == Promoted(u, before, [], seen) - {}
  {
  }

  /** The reading, the judgement, the copies and the clearing away of a claimed commit. */
  method JudgeAndPromote(store: ArtifactStore, r: Reader, u: Upload, keys: seq<string>) returns (outcome: Outcome, seen: Seen, n: nat)
    requires Elsewhere(store.others, Landing(u)) && (forall k :: k in keys ==> Staged(u) <= k) && Distinct(keys)
    modifies store
    ensures n <= |keys| && outcome !in {BadId, NothingStaged, Unclaimed}
    ensures Leaves(outcome, r, u, Under(old(store.objects), Landing(u)), Under(store.objects, Landing(u)), keys, seen, n)
    ensures Caused(outcome, r, u, keys, seen, old(store.Now()), n)
    ensures outcome != Raised || n > 0 ==> ReadsOf(u, keys, seen)
    ensures forall i :: 0 <= i < n ==> keys[i] in seen && seen[keys[i]].Some?
  {
    n := 0;
    ghost var before, w := Under(store.objects, Landing(u)), store.Now();
    var up;
    up, seen := ReadAll(store, u, keys);
    NothingGone(u, before, seen);
    assert keys[..0] == [];
    if !up { return Raised, seen, n; }
    ReadsInTurnAreReads(u, keys, w, seen);
    outcome, n := Judge(store, r, u, keys, seen);
  }

  /** The judgement of what was read, then the copies, or the clearing away of what is refused. */
  method Judge(store: ArtifactStore, r: Reader, u: Upload, keys: seq<string>, seen: Seen) returns (outcome: Outcome, n: nat)
    requires Elsewhere(store.others, Landing(u)) && forall i :: 0 <= i < |keys| ==> keys[i] in seen && Staged(u) <= keys[i]
    modifies store
    ensures n <= |keys| && outcome !in {BadId, NothingStaged, Unclaimed}
    ensures Leaves(outcome, r, u, Under(old(store.objects), Landing(u)), Under(store.objects, Landing(u)), keys, seen, n)
    ensures Judged(outcome, r, u, keys, seen, old(store.Now()), n)
    ensures forall i :: 0 <= i < n ==> keys[i] in seen && seen[keys[i]].Some?
  {
    n := 0;
    ghost var before := Under(store.objects, Landing(u));
    NothingGone(u, before, seen);
    assert keys[..0] == [];
    var up;
    var manifest := ManifestOf(u, seen);
    if manifest.Some? && |manifest.value| > MANIFEST_MAX {
      up := Clear(store, u, keys);
      return if up then TooLarge else Raised, n;
    }
    var verdict := Evaluate(r, manifest, Heads(u, keys, seen));
    if !verdict.Admitted? {
      up := Clear(store, u, keys);
      return if up then Refused else Raised, n;
    }
    outcome, n := CopyAndFinish(store, r, u, keys, seen);
  }

  /** The copies of a passed upload, and what follows them. */
  method CopyAndFinish(store: ArtifactStore, r: Reader, u: Upload, keys: seq<string>, seen: Seen) returns (outcome: Outcome, n: nat)
    requires Elsewhere(store.others, Landing(u)) && Passed(r, u, keys, seen)
    requires forall i :: 0 <= i < |keys| ==> keys[i] in seen && Staged(u) <= keys[i]
    modifies store
    ensures n <= |keys| && outcome in {Changed, Landed, Raised}
    ensures Leaves(outcome, r, u, Under(old(store.objects), Landing(u)), Under(store.objects, Landing(u)), keys, seen, n)
    ensures Judged(outcome, r, u, keys, seen, old(store.Now()), n)
    ensures forall i :: 0 <= i < n ==> keys[i] in seen && seen[keys[i]].Some?
  {
    ghost var before := Under(store.objects, Landing(u));
    var up;
    ghost var w := store.Now();
    up, n := Promote(store, u, keys, seen);
    UnchangedWereRead(keys, seen, w, n);
    outcome := Finish(store, r, u, keys, seen, n, up, before);
  }

  /** Clears the staged keys away; the landing area does not notice. */
  method Clear(store: ArtifactStore, u: Upload, keys: seq<string>) returns (up: bool)
    requires Elsewhere(store.others, Landing(u)) && forall i :: 0 <= i < |keys| ==> Staged(u) <= keys[i]
    modifies store
    ensures Elsewhere(store.others, Landing(u))
    ensures Under(store.objects, Landing(u)) == Under(old(store.objects), Landing(u))
    ensures up == (old(store.calls) >= |keys|)
  {
    var n;
    up, n := store.Discard(keys, Landing(u));
    DiscardStaged(u, Under(old(store.objects), Landing(u)), keys[..n]);
  }

  /** After the copies: all made and the staged keys cleared away, or what was copied taken back. */
  method Finish(store: ArtifactStore, r: Reader, u: Upload, keys: seq<string>, seen: Seen, n: nat, up: bool, ghost before: Objects)
    returns (outcome: Outcome)
    requires Elsewhere(store.others, Landing(u)) && n <= |keys| && Passed(r, u, keys, seen)
    requires forall i :: 0 <= i < |keys| ==> Staged(u) <= keys[i]
    requires Under(store.objects, Landing(u)) == Promoted(u, before, keys[..n], seen)
    modifies store
    ensures Leaves(outcome, r, u, before, Under(store.objects, Landing(u)), keys, seen, n)
    ensures outcome in {Raised, if n < |keys| then Changed else Landed}
    ensures !up ==> outcome.Raised?
    ensures up && old(store.calls) >= n + |keys| ==> !outcome.Raised?
  {
    if !up {
      assert Under(store.objects, Landing(u)) == Promoted(u, before, keys[..n], seen) - {};
      return Raised;
    }
    ghost var gone := {};
    var alive := true;
    if n < |keys| {
      var m;
      alive, m := store.Discard(Dsts(u, keys[..n]), Landing(u));
      gone := ToSet(Dsts(u, keys[..n])[..m]);
      if alive { TakenBack(u, before, keys[..n], seen); assert Dsts(u, keys[..n])[..m] == Dsts(u, keys[..n]); }
    }
    assert Under(store.objects, Landing(u)) == Promoted(u, before, keys[..n], seen) - gone;
    if alive { alive := Clear(store, u, keys); }
    if !alive { return Raised; }
    if n < |keys| { return Changed; }
    assert keys[..n] == keys;
    return Landed;
  }

  lemma {:induction false} TakenBack(u: Upload, base: Objects, keys: seq<string>, seen: Seen)
    ensures Promoted(u, base, keys, seen) - ToSet(Dsts(u, keys)) == base - ToSet(Dsts(u, keys))
  {
    if keys != [] {
      var front, key := keys[..|keys| - 1], keys[|keys| - 1];
      TakenBack(u, base, front, seen);
      assert ToSet(Dsts(u, keys)) == ToSet(Dsts(u, front)) + {Dst(u, key)} by {
        assert Dsts(u, keys) == Dsts(u, front) + [Dst(u, key)];
      }
      var a, b := Promoted(u, base, front, seen), Promoted(u, base, keys, seen);
      assert a - ToSet(Dsts(u, front)) - {Dst(u, key)} == base - ToSet(Dsts(u, front)) - {Dst(u, key)};
      assert b - ToSet(Dsts(u, keys)) == a - ToSet(Dsts(u, keys));
      var all := ToSet(Dsts(u, keys));
      assert a - all == a - ToSet(Dsts(u, front)) - {Dst(u, key)};
      assert base - all == base - ToSet(Dsts(u, front)) - {Dst(u, key)};
    }
  }

  // ---------------------------------------------------------------- what was promoted

  lemma DstInjective(u: Upload, a: string, b: string)
    requires Staged(u) <= a && Staged(u) <= b && Dst(u, a) == Dst(u, b)
    ensures a == b
  {
    assert MemberOf(u, a) == Dst(u, a)[|Landing(u)|..] && MemberOf(u, b) == Dst(u, b)[|Landing(u)|..];
    assert a == Staged(u) + MemberOf(u, a) && b == Staged(u) + MemberOf(u, b);
  }

  /** Each key promoted is at its place in the version read; nothing else has changed. */
  lemma {:induction false} PromotedExactly(u: Upload, base: Objects, keys: seq<string>, seen: Seen, dst: string)
    requires (forall k :: k in keys ==> Staged(u) <= k) && forall k :: k in keys ==> k in seen && seen[k].Some?
    ensures forall k :: k in keys && Dst(u, k) == dst ==>
      dst in Promoted(u, base, keys, seen) && Promoted(u, base, keys, seen)[dst] == seen[k].value.version
    ensures (forall k :: k in keys ==> Dst(u, k) != dst) ==>
      (dst in Promoted(u, base, keys, seen) <==> dst in base) &&
      (dst in base ==> Promoted(u, base, keys, seen)[dst] == base[dst])
  {
    if keys != [] {
      var front, key := keys[..|keys| - 1], keys[|keys| - 1];
      assert forall k :: k in keys <==> k in front || k == key;
      PromotedExactly(u, base, front, seen, dst);
      forall k | k in keys && Dst(u, k) == dst
        ensures dst in Promoted(u, base, keys, seen) && Promoted(u, base, keys, seen)[dst] == seen[k].value.version
      {
        if Dst(u, key) == dst {
          DstInjective(u, k, key);
        }
      }
    }
  }

  function Whole(u: Upload, keys: seq<string>, seen: Seen): seq<(string, Bytes)>
    requires forall k :: k in keys ==> k in seen && seen[k].Some?
  {
    seq(|keys|, i requires 0 <= i < |keys| => (MemberOf(u, keys[i]), seen[keys[i]].value.version))
  }

  /** What passed on opening bytes passes as whole objects: the manifest judged is the entire manifest
      of the version read, and no member opens as an object stream. */
  lemma WholeObjectsPass(r: Reader, u: Upload, keys: seq<string>, seen: Seen)
    requires ReadsOf(u, keys, seen) && Passed(r, u, keys, seen) && forall k :: k in keys ==> k in seen && seen[k].Some?
    ensures var m := Staged(u) + MANIFEST_NAME;
      m in keys && Harmless(r, Some(seen[m].value.version), Whole(u, keys, seen))
  {
    var m := Staged(u) + MANIFEST_NAME;
    assert m in seen && m in ToSet(keys);
    var files := Whole(u, keys, seen);
    forall i | 0 <= i < |keys| ensures !ExecutableStream(files[i].1) {
      assert keys[i] in keys;
      assert !ExecutableStream(Heads(u, keys, seen)[i].1);
    }
  }

  /** However a commit ends, even cut off, every object in its landing area was there before or is the
      exact version of a member that was read and passed; a commit that ends in a refusal leaves none
      of what it copied. */
  lemma LandingHolds(outcome: Outcome, r: Reader, u: Upload, before: Objects, after: Objects, keys: seq<string>, seen: Seen, n: nat, k: string)
    requires n <= |keys| && Leaves(outcome, r, u, before, after, keys, seen, n)
    requires forall k :: k in keys ==> Staged(u) <= k
    requires forall i :: 0 <= i < n ==> keys[i] in seen && seen[keys[i]].Some?
    ensures k in after ==> (k in before && after[k] == before[k]) || (Passed(r, u, keys, seen) && LandedFrom(u, keys[..n], seen, k, after[k]))
    ensures outcome.Changed? && k in Dsts(u, keys[..n]) ==> k !in after
  {
    var first := keys[..n];
    assert forall x :: x in first ==> x in keys && exists i :: 0 <= i < n && keys[i] == x;
    PromotedExactly(u, before, first, seen, k);
    if outcome.Landed? { assert first == keys; }
  }

  ghost predicate LandedFrom(u: Upload, keys: seq<string>, seen: Seen, dst: string, content: Bytes) {
    exists k :: k in keys && Dst(u, k) == dst && k in seen && seen[k].Some? && seen[k].value.version == content
  }
}
