/** What the tracking gateway does to the names in a request and its response
    (services/notebook_tracking_gateway/scoping.py). */
module Scoping {
  import opened Common
  import opened Tenancy

  datatype Value = Text(text: string) | Obj(fields: map<string, Value>) | List(items: seq<Value>) | Scalar(text: string) | Null

  /** A response path: a list's entries, a named object, or a field of the response itself. */
  datatype Path = Entries(key: string, field: string) | Member(key: string, field: string) | Own(field: string)

  predicate Named(v: Value, field: string) { v.Obj? && field in v.fields && v.fields[field].Text? }

  /** The name in `field`, as the store knows it. */
  function NameIn(v: Value, field: string): string
    requires Named(v, field)
  {
    v.fields[field].text
  }

  /** Nothing to scope, or the tenant's own. */
  predicate Mine(v: Value, field: string, prefix: string) {
    !Named(v, field) || OwnedName(prefix, NameIn(v, field)).Some?
  }

  function Unqualified(v: Value, field: string, prefix: string): Value {
    if Named(v, field) && Mine(v, field, prefix)
    then Obj(v.fields[field := Text(OwnedName(prefix, NameIn(v, field)).value)])
    else v
  }

  function Kept(items: seq<Value>, field: string, prefix: string): seq<Value> {
    if items == [] then []
    else
      var last := items[|items| - 1];
      Kept(items[..|items| - 1], field, prefix) + if Mine(last, field, prefix) then [Unqualified(last, field, prefix)] else []
  }

  function AtPath(v: Value, p: Path, prefix: string): Value {
    if !v.Obj? then v
    else match p
      case Entries(key, field) =>
        if key in v.fields && v.fields[key].List? then Obj(v.fields[key := List(Kept(v.fields[key].items, field, prefix))]) else v
      case Member(key, field) =>
        if key in v.fields && v.fields[key].Obj?
        then Obj(v.fields[key := if Mine(v.fields[key], field, prefix) then Unqualified(v.fields[key], field, prefix) else Null]) else v
      case Own(field) => Unqualified(v, field, prefix)
  }

  function AtPaths(v: Value, ps: seq<Path>, prefix: string): Value {
    if ps == [] then v else AtPath(AtPaths(v, ps[..|ps| - 1], prefix), ps[|ps| - 1], prefix)
  }

  /** Whether the value is the tenant's to see, and the value to show. */
  method UnqualifyLeaf(v: Value, field: string, prefix: string) returns (mine: bool, out: Value)
    ensures mine == Mine(v, field, prefix) && out == Unqualified(v, field, prefix)
  {
    if !v.Obj? || field !in v.fields || !v.fields[field].Text? { return true, v; }
    var plain := OwnedName(prefix, v.fields[field].text);
    if plain.None? { return false, v; }
    return true, Obj(v.fields[field := Text(plain.value)]);
  }

  method ApplyNamePath(v: Value, p: Path, prefix: string) returns (out: Value)
    ensures out == AtPath(v, p, prefix)
  {
    out := v;
    if !v.Obj? { return; }
    match p
    case Entries(key, field) =>
      if key !in v.fields || !v.fields[key].List? { return; }
      var items, kept := v.fields[key].items, [];
      for i := 0 to |items|
        invariant kept == Kept(items[..i], field, prefix)
      {
        var mine, item := UnqualifyLeaf(items[i], field, prefix);
        assert items[..i + 1][..i] == items[..i];
        if mine { kept := kept + [item]; }
      }
      assert items[..|items|] == items;
      out := Obj(v.fields[key := List(kept)]);
    case Member(key, field) =>
      if key in v.fields && v.fields[key].Obj? {
        var mine, child := UnqualifyLeaf(v.fields[key], field, prefix);
        out := Obj(v.fields[key := if mine then child else Null]);
      }
    case Own(field) =>
      var _, whole := UnqualifyLeaf(v, field, prefix);
      out := whole;
  }

  method ScopeResponse(payload: Value, paths: seq<Path>, prefix: string) returns (out: Value)
    ensures out == AtPaths(payload, paths, prefix)
  {
    out := payload;
    for i := 0 to |paths|
      invariant out == AtPaths(payload, paths[..i], prefix)
    {
      assert paths[..i + 1][..i] == paths[..i];
      out := ApplyNamePath(out, paths[i], prefix);
    }
    assert paths[..|paths|] == paths;
  }

  function Qualified(fields: map<string, Value>, names: seq<string>, prefix: string): map<string, Value> {
    map k | k in fields :: if k in names && fields[k].Text? then Text(QualifyName(prefix, fields[k].text)) else fields[k]
  }

  method ScopeRequest(payload: map<string, Value>, names: seq<string>, prefix: string) returns (out: map<string, Value>)
    requires prefix != ""
    ensures out == Qualified(payload, names, prefix)
  {
    out := payload;
    for i := 0 to |names|
      invariant out == Qualified(payload, names[..i], prefix)
    {
      QualifiedNext(payload, names, i, prefix);
      if names[i] in out && out[names[i]].Text? {
        out := out[names[i] := Text(QualifyName(prefix, out[names[i]].text))];
      }
    }
    assert names[..|names|] == names;
  }

  /** Qualifying one more field, even one named before. */
  lemma QualifiedNext(payload: map<string, Value>, names: seq<string>, i: nat, prefix: string)
    requires i < |names| && prefix != ""
    ensures var was, field := Qualified(payload, names[..i], prefix), names[i];
      Qualified(payload, names[..i + 1], prefix) ==
      if field in was && was[field].Text? then was[field := Text(QualifyName(prefix, was[field].text))] else was
  {
    var was, now, field := Qualified(payload, names[..i], prefix), Qualified(payload, names[..i + 1], prefix), names[i];
    assert names[..i + 1] == names[..i] + [field];
    if field in payload && payload[field].Text? { QualifyExactly(prefix, payload[field].text); }
  }

  // ---------------------------------------------------------------- what a list response shows

  function MineCount(items: seq<Value>, field: string, prefix: string): nat {
    if items == [] then 0
    else MineCount(items[..|items| - 1], field, prefix) + if Mine(items[|items| - 1], field, prefix) then 1 else 0
  }

  /** The entries shown are exactly the tenant's, in the order they came: the i-th item, when it is
      theirs, is shown after exactly the earlier ones that are. */
  lemma {:induction false} KeptExactly(items: seq<Value>, field: string, prefix: string, i: nat)
    requires i < |items|
    ensures |Kept(items, field, prefix)| == MineCount(items, field, prefix)
    ensures Mine(items[i], field, prefix) ==>
      var at := MineCount(items[..i], field, prefix);
      at < |Kept(items, field, prefix)| && Kept(items, field, prefix)[at] == Unqualified(items[i], field, prefix)
  {
    var front := items[..|items| - 1];
    if i < |front| {
      KeptExactly(front, field, prefix, i);
      assert front[..i] == items[..i];
    } else if front != [] {
      KeptExactly(front, field, prefix, |front| - 1);
      assert items[..i] == front;
    }
  }

  /** Whatever is shown came from an item of the tenant, its name without the prefix. */
  lemma {:induction false} ShownIsMine(items: seq<Value>, field: string, prefix: string, k: nat)
    requires k < |Kept(items, field, prefix)|
    ensures exists i :: 0 <= i < |items| && Mine(items[i], field, prefix) && Kept(items, field, prefix)[k] == Unqualified(items[i], field, prefix)
  {
    var front := items[..|items| - 1];
    if k < |Kept(front, field, prefix)| {
      ShownIsMine(front, field, prefix, k);
      var i :| 0 <= i < |front| && Mine(front[i], field, prefix) && Kept(front, field, prefix)[k] == Unqualified(front[i], field, prefix);
      assert items[i] == front[i];
    } else {
      assert items[|items| - 1] == items[|front|];
    }
  }

  /** An entry named for one tenant is not another tenant's to see; to its own it is shown by the name
      that, qualified again, is the stored one. */
  lemma NamedForOne(u: string, v: string, item: Value, field: string)
    requires Canonical(u) && Canonical(v) && Named(item, field) && NamePrefix(v) <= NameIn(item, field)
    ensures Mine(item, field, NamePrefix(u)) <==> u == v
    ensures var shown := Unqualified(item, field, NamePrefix(v));
      && Named(shown, field)
      && NamePrefix(v) + NameIn(shown, field) == NameIn(item, field)
      && shown.fields - {field} == item.fields - {field}
  {
    if u != v {
      OwnedByOne(u, v, NameIn(item, field));
    }
    assert NamePrefix(v) != "";
    QualifyExactly(NamePrefix(v), NameIn(item, field));
  }

  /** A request's name comes back as the caller sent it, unless it already carried the prefix. */
  lemma RequestComesBack(fields: map<string, Value>, names: seq<string>, field: string, u: string)
    requires field in fields && fields[field].Text? && field in names
    ensures var out := Obj(Qualified(fields, names, NamePrefix(u)));
      && Mine(out, field, NamePrefix(u)) && NamePrefix(u) <= NameIn(out, field)
      && (NameIn(Unqualified(out, field, NamePrefix(u)), field) == fields[field].text <==> !(NamePrefix(u) <= fields[field].text))
  {
    assert NamePrefix(u) != "";
    QualifyExactly(NamePrefix(u), fields[field].text);
  }
}
