/** The structural rule an uploaded artifact is judged by
    (services/notebook_tracking_gateway/admission.py). Parsing the manifest's YAML and folding a string
    (strip and lower-case) are parameters. */
module Admission {
  import opened Common

  type Byte = x: int | 0 <= x < 256
  type Bytes = seq<Byte>

  datatype Node = Text(text: string) | Map(entries: seq<Entry>) | List(items: seq<Node>) | Scalar
  datatype Entry = Entry(key: Option<string>, value: Node)

  datatype Reader = Reader(parse: Bytes -> Option<Node>, fold: string -> string)

  const EXECUTABLE := {"pickle", "cloudpickle", "dill", "joblib"}
  const MARKERS := {"cloudpickle_version", "python_model"}

  /** Every entry of the mappings in a node, at any depth, in the order they are met. */
  function Walk(n: Node): seq<Entry> {
    match n
    case Map(entries) => WalkEntries(entries)
    case List(items) => WalkItems(items)
    case _ => []
  }

  function WalkEntries(es: seq<Entry>): seq<Entry> {
    if es == [] then [] else WalkEntry(es[0]) + WalkEntries(es[1..])
  }

  function WalkEntry(e: Entry): seq<Entry> { [e] + Walk(e.value) }

  function WalkItems(items: seq<Node>): seq<Entry> {
    if items == [] then [] else Walk(items[0]) + WalkItems(items[1..])
  }

  predicate Declares(r: Reader, e: Entry) {
    (e.key.Some? && e.key.value in MARKERS) || (e.value.Text? && r.fold(e.value.text) in EXECUTABLE)
  }

  /** The first declaring entry, if any. */
  method DeclaredExecutable(r: Reader, flavors: Node) returns (found: Option<Entry>)
    ensures found.Some? ==> found.value in Walk(flavors) && Declares(r, found.value)
    ensures found.None? ==> forall e :: e in Walk(flavors) ==> !Declares(r, e)
  {
    var all := Walk(flavors);
    for i := 0 to |all|
      invariant forall k :: 0 <= k < i ==> !Declares(r, all[k])
    {
      if Declares(r, all[i]) { return Some(all[i]); }
    }
    return None;
  }

  predicate ExecutableStream(head: Bytes) { |head| >= 2 && head[0] == 0x80 && 2 <= head[1] < 6 }

  function Get(n: Node, key: string): Option<Node> {
    if n.Map? then Lookup(n.entries, key) else None
  }

  /** The value of a key in a mapping; keys are distinct. */
  function Lookup(es: seq<Entry>, key: string): Option<Node> {
    if es == [] then None else if es[0].key == Some(key) then Some(es[0].value) else Lookup(es[1..], key)
  }

  datatype Verdict = Admitted | NoManifest | Unreadable | NoFlavors | Declared(entry: Entry) | Stream(path: string)

  method Evaluate(r: Reader, manifest: Option<Bytes>, files: seq<(string, Bytes)>) returns (v: Verdict)
    ensures v.Admitted? <==> Harmless(r, manifest, files)
    ensures v.NoManifest? <==> manifest.None? || manifest == Some([])
    ensures v.Stream? ==> exists f :: f in files && f.0 == v.path && ExecutableStream(f.1)
  {
    if manifest.None? || manifest.value == [] { return NoManifest; }
    var parsed := r.parse(manifest.value);
    if parsed.None? || !parsed.value.Map? { return Unreadable; }
    var flavors := Get(parsed.value, "flavors");
    if flavors.None? || !flavors.value.Map? || flavors.value.entries == [] { return NoFlavors; }
    var declared := DeclaredExecutable(r, flavors.value);
    if declared.Some? {
      WalkReaches(flavors.value, declared.value);
      return Declared(declared.value);
    }
    forall path | At(flavors.value, path).Some? ensures !Declares(r, At(flavors.value, path).value) {
      PathWalked(flavors.value, path);
    }
    for i := 0 to |files|
      invariant forall k :: 0 <= k < i ==> !ExecutableStream(files[k].1)
    {
      if ExecutableStream(files[i].1) { return Stream(files[i].0); }
    }
    return Admitted;
  }

  // ---------------------------------------------------------------- the rule itself

  /** The entry a path of positions leads to: each position picks an entry of a mapping or an item of a
      list; only an entry of a mapping is an answer. */
  function At(n: Node, path: seq<nat>): Option<Entry>
    decreases |path|
  {
    if path == [] then None
    else match n
      case Map(es) => if path[0] < |es| then if |path| == 1 then Some(es[path[0]]) else At(es[path[0]].value, path[1..]) else None
      case List(items) => if path[0] < |items| then At(items[path[0]], path[1..]) else None
      case _ => None
  }

  ghost predicate Reached(n: Node, e: Entry) { exists path :: At(n, path) == Some(e) }

  /** The walk meets exactly the entries that some path leads to. */
  lemma WalkReaches(n: Node, e: Entry)
    ensures e in Walk(n) <==> Reached(n, e)
  {
    if e in Walk(n) {
      var path := PathTo(n, e);
    }
    if Reached(n, e) {
      var path :| At(n, path) == Some(e);
      PathWalked(n, path);
    }
  }

  lemma {:induction false} PathTo(n: Node, e: Entry) returns (path: seq<nat>)
    requires e in Walk(n)
    ensures At(n, path) == Some(e)
    decreases n
  {
    match n
    case Map(es) =>
      var i := EntryWith(es, e);
      if es[i] == e {
        path := [i];
      } else {
        var rest := PathTo(es[i].value, e);
        path := [i] + rest;
        assert path[1..] == rest && rest != [];
      }
    case List(items) =>
      var i := ItemWith(items, e);
      var rest := PathTo(items[i], e);
      path := [i] + rest;
      assert path[1..] == rest && rest != [];
  }

  lemma {:induction false} EntryWith(es: seq<Entry>, e: Entry) returns (i: nat)
    requires e in WalkEntries(es)
    ensures i < |es| && (es[i] == e || e in Walk(es[i].value))
  {
    if es[0] == e || e in Walk(es[0].value) {
      i := 0;
    } else {
      i := EntryWith(es[1..], e);
      i := i + 1;
    }
  }

  lemma {:induction false} ItemWith(items: seq<Node>, e: Entry) returns (i: nat)
    requires e in WalkItems(items)
    ensures i < |items| && e in Walk(items[i])
  {
    if e in Walk(items[0]) {
      i := 0;
    } else {
      i := ItemWith(items[1..], e);
      i := i + 1;
    }
  }

  lemma {:induction false} PathWalked(n: Node, path: seq<nat>)
    requires At(n, path).Some?
    ensures At(n, path).value in Walk(n)
    decreases |path|
  {
    match n
    case Map(es) =>
      EntriesHold(es, path[0]);
      if |path| > 1 {
        PathWalked(es[path[0]].value, path[1..]);
      }
    case List(items) =>
      ItemsHold(items, path[0]);
      PathWalked(items[path[0]], path[1..]);
  }

  lemma {:induction false} EntriesHold(es: seq<Entry>, i: nat)
    requires i < |es|
    ensures es[i] in WalkEntries(es) && forall e :: e in Walk(es[i].value) ==> e in WalkEntries(es)
  {
    if i > 0 {
      EntriesHold(es[1..], i - 1);
    }
  }

  lemma {:induction false} ItemsHold(items: seq<Node>, i: nat)
    requires i < |items|
    ensures forall e :: e in Walk(items[i]) ==> e in WalkItems(items)
  {
    if i > 0 {
      ItemsHold(items[1..], i - 1);
    }
  }

  /** The artifact has a readable manifest with flavors, no path into the flavors leads to an entry
      declaring an executable serialisation, and no file opens as an object stream. */
  ghost predicate Harmless(r: Reader, manifest: Option<Bytes>, files: seq<(string, Bytes)>) {
    && manifest.Some? && manifest.value != []
    && var parsed := r.parse(manifest.value);
    && parsed.Some? && parsed.value.Map?
    && var flavors := Get(parsed.value, "flavors");
    && flavors.Some? && flavors.value.Map? && flavors.value.entries != []
    && (forall path :: At(flavors.value, path).Some? ==> !Declares(r, At(flavors.value, path).value))
    && (forall i :: 0 <= i < |files| ==> !ExecutableStream(files[i].1))
  }
}
