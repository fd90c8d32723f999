/** Tenant names and the test of who owns a name or key
    (libs/industryflow_contracts/industryflow_contracts/tenancy.py). */
module Tenancy {
  import opened Common

  predicate HexDigit(c: char) { '0' <= c <= '9' || 'a' <= c <= 'f' }
  predicate HyphenAt(i: int) { i == 8 || i == 13 || i == 18 || i == 23 }

  /** The canonical, lower-case, hyphenated spelling of a UUID. */
  predicate Canonical(u: string) {
    |u| == 36 && forall i :: 0 <= i < 36 ==> if HyphenAt(i) then u[i] == '-' else HexDigit(u[i])
  }

  function Replace(s: string, a: char, b: char): (r: string)
    ensures |r| == |s| && forall i :: 0 <= i < |s| ==> r[i] == if s[i] == a then b else s[i]
  {
    seq(|s|, i requires 0 <= i < |s| => if s[i] == a then b else s[i])
  }

  function Token(u: string): string { "tenant_" + Replace(u, '-', '_') }
  function SchemaName(u: string): string { Token(u) }
  function ReaderRole(u: string): string { "tenant_reader_" + Replace(u, '-', '_') }
  function SqlLogin(u: string): string { "tenant_sqlproxy_" + Replace(u, '-', '_') }
  function NamePrefix(u: string): string { Token(u) + "." }
  function DeletedPrefix(u: string): string { "_deleted." + NamePrefix(u) }
  function ArtifactPrefix(u: string): string { Token(u) + "/" }
  function ColdKeyPrefix(u: string): string { "tenant_" + u + "/" }

  lemma ReplaceBack(u: string)
    requires Canonical(u)
    ensures Replace(Replace(u, '-', '_'), '_', '-') == u
  {
  }

  lemma ReplaceInjective(u: string, v: string)
    requires Canonical(u) && Canonical(v) && Replace(u, '-', '_') == Replace(v, '-', '_')
    ensures u == v
  {
    ReplaceBack(u);
    ReplaceBack(v);
  }

  // ---------------------------------------------------------------- from a schema back to its tenant

  /** What is asked of the UUID parser: it reads a canonical spelling as itself, and answers with one. */
  ghost predicate Parses(parse: string -> Option<string>) {
    && (forall u :: Canonical(u) ==> parse(u) == Some(u))
    && (forall s :: parse(s).Some? ==> Canonical(parse(s).value))
  }

  function CompanyIdFromSchema(parse: string -> Option<string>, name: string): Option<string> {
    if !("tenant_" <= name) then None
    else
      var id := parse(Replace(name[7..], '_', '-'));
      if id.None? || SchemaName(id.value) != name then None else id
  }

  /** It accepts exactly the names built for tenants, and undoes the building, whatever else the parser
      takes for a UUID. */
  lemma FromSchemaExactly(parse: string -> Option<string>, name: string, u: string)
    requires Parses(parse)
    ensures CompanyIdFromSchema(parse, name) == Some(u) <==> Canonical(u) && name == SchemaName(u)
  {
    if Canonical(u) && name == SchemaName(u) {
      assert name[7..] == Replace(u, '-', '_');
      ReplaceBack(u);
    }
  }

  /** A tenant's schema, reader role and login are never another tenant's, nor one another. */
  lemma NamesDistinct(u: string, v: string)
    requires Canonical(u) && Canonical(v)
    ensures SchemaName(u) == SchemaName(v) ==> u == v
    ensures ReaderRole(u) == ReaderRole(v) ==> u == v
    ensures SqlLogin(u) == SqlLogin(v) ==> u == v
    ensures SchemaName(u) != ReaderRole(v) && SchemaName(u) != SqlLogin(v) && ReaderRole(u) != SqlLogin(v)
  {
    var a, b := Replace(u, '-', '_'), Replace(v, '-', '_');
    if a == b {
      ReplaceInjective(u, v);
    } else {
      SameTail("tenant_", a, b);
      SameTail("tenant_reader_", a, b);
      SameTail("tenant_sqlproxy_", a, b);
    }
  }

  lemma SameTail(p: string, a: string, b: string)
    requires a != b
    ensures p + a != p + b
  {
    assert (p + a)[|p|..] == a && (p + b)[|p|..] == b;
  }

  // ---------------------------------------------------------------- ownership of names

  function QualifyName(prefix: string, name: string): string { if prefix <= name then name else prefix + name }

  function OwnedName(prefix: string, qualified: string): Option<string> {
    if qualified == "" || !(prefix <= qualified) then None else Some(qualified[|prefix|..])
  }

  lemma TokensDiffer(u: string, v: string, c: char)
    requires Canonical(u) && Canonical(v) && u != v
    ensures Token(u) + [c] != Token(v) + [c]
  {
    NamesDistinct(u, v);
    assert (Token(u) + [c])[..43] == Token(u) && (Token(v) + [c])[..43] == Token(v);
  }

  /** No name or key belongs to two tenants: among experiment and model names, deleted names, artifact
      keys and archive keys, nor between the artifact keys of one and the archive keys of another. */
  lemma OwnedByOne(u: string, v: string, name: string)
    requires Canonical(u) && Canonical(v) && u != v
    ensures !(NamePrefix(u) <= name && NamePrefix(v) <= name)
    ensures !(DeletedPrefix(u) <= name && DeletedPrefix(v) <= name)
    ensures !(ArtifactPrefix(u) <= name && ArtifactPrefix(v) <= name)
    ensures !(ColdKeyPrefix(u) <= name && ColdKeyPrefix(v) <= name)
    ensures !(ArtifactPrefix(u) <= name && ColdKeyPrefix(v) <= name)
  {
    TokensDiffer(u, v, '.');
    TokensDiffer(u, v, '/');
    SameTail("_deleted.", NamePrefix(u), NamePrefix(v));
    assert ColdKeyPrefix(u)[7..43] == u && ColdKeyPrefix(v)[7..43] == v;
    assert ArtifactPrefix(u)[15] == '_' && ColdKeyPrefix(v)[15] == '-';
  }

  /** A tenant's own names are outside the deleted root, and deleted names outside every tenant. */
  lemma DeletedApart(u: string, v: string, name: string)
    requires DeletedPrefix(u) <= name
    ensures !(NamePrefix(v) <= name)
  {
    assert DeletedPrefix(u)[0] == '_' && NamePrefix(v)[0] == 't';
  }

  /** Qualifying lands in the namespace, changes nothing the second time, and is undone by the owner's
      reading exactly for the names that do not already carry the prefix. */
  lemma QualifyExactly(prefix: string, name: string)
    requires prefix != ""
    ensures var q := QualifyName(prefix, name);
      && prefix <= q && QualifyName(prefix, q) == q && OwnedName(prefix, q).Some?
      && (OwnedName(prefix, q) == Some(name) <==> !(prefix <= name))
      && (forall plain :: OwnedName(prefix, name) == Some(plain) ==> prefix + plain == name)
  {
    var q := QualifyName(prefix, name);
    if prefix <= name {
      assert |name[|prefix|..]| < |name|;
    } else {
      assert (prefix + name)[|prefix|..] == name;
    }
  }

  // ---------------------------------------------------------------- keys

  function Split(s: string): (r: seq<string>)
    ensures r != []
  {
    if s == "" then [""]
    else if s[0] == '/' then [""] + Split(s[1..])
    else var rest := Split(s[1..]); [[s[0]] + rest[0]] + rest[1..]
  }

  predicate Control(c: char) { c as int < 0x20 || 0x7f <= c as int < 0xa0 }
  predicate PlainSegment(seg: string) { seg != "" && seg != "." && seg != ".." }

  predicate IsPlainKey(key: string) {
    && (forall i :: 0 <= i < |key| ==> key[i] != '\\' && !Control(key[i]))
    && forall i :: 0 <= i < |Split(key)| ==> PlainSegment(Split(key)[i])
  }

  function LStrip(s: string): string { if s != "" && s[0] == '/' then LStrip(s[1..]) else s }
  function RStrip(s: string): string
    decreases |s|
  {
    if s != "" && s[|s| - 1] == '/' then RStrip(s[..|s| - 1]) else s
  }

  predicate OwnsKey(prefix: string, key: string, encoded: bool) {
    var k := LStrip(key);
    k != "" && !(encoded && '%' in k) && IsPlainKey(k) && prefix <= k
  }

  /** `None` where the source raises. */
  function ScopeKey(prefix: string, path: string): Option<string> {
    var p := LStrip(path);
    if p != "" && !IsPlainKey(RStrip(p)) then None
    else Some(if prefix <= p then p else prefix + p)
  }

  lemma {:induction false} SplitJoin(a: string, b: string)
    ensures Split(a + "/" + b) == Split(a) + Split(b)
  {
    if a == "" {
      assert a + "/" + b == "/" + b;
      assert ("/" + b)[1..] == b;
    } else {
      assert (a + "/" + b)[1..] == a[1..] + "/" + b;
      SplitJoin(a[1..], b);
    }
  }

  lemma {:induction false} SplitWhole(s: string)
    requires '/' !in s
    ensures Split(s) == [s]
  {
    if s != "" {
      SplitWhole(s[1..]);
      assert [s[0]] + s[1..] == s;
    }
  }

  /** A plain key under a plain first segment is plain. */
  lemma PlainUnder(token: string, key: string)
    requires IsPlainKey(token) && '/' !in token && IsPlainKey(key)
    ensures IsPlainKey(token + "/" + key)
  {
    SplitJoin(token, key);
    SplitWhole(token);
  }

  lemma {:induction false} RStripUnder(a: string, p: string)
    requires RStrip(p) != ""
    ensures RStrip(a + p) == a + RStrip(p)
    decreases |p|
  {
    if p[|p| - 1] == '/' {
      assert (a + p)[..|a + p| - 1] == a + p[..|p| - 1];
      RStripUnder(a, p[..|p| - 1]);
    } else {
      assert (a + p)[|a + p| - 1] == p[|p| - 1];
    }
  }

  lemma {:induction false} LStripHead(s: string)
    ensures var p := LStrip(s); p == "" || p[0] != '/'
  {
    if s != "" && s[0] == '/' {
      LStripHead(s[1..]);
    }
  }

  lemma {:induction false} RStripKeepsHead(p: string)
    requires p != "" && p[0] != '/'
    ensures RStrip(p) != ""
    decreases |p|
  {
    if p[|p| - 1] == '/' {
      RStripKeepsHead(p[..|p| - 1]);
    }
  }

  /** Scoping lands under the tenant's prefix with nothing but plain segments, is idempotent, and
      yields a key the tenant owns whenever it is not a listing prefix. */
  lemma ScopeKeyLands(token: string, path: string)
    requires IsPlainKey(token) && '/' !in token
    requires ScopeKey(token + "/", path).Some?
    ensures var r := ScopeKey(token + "/", path).value;
      && token + "/" <= r && IsPlainKey(RStrip(r))
      && ScopeKey(token + "/", r) == Some(r)
      && (r[|r| - 1] != '/' ==> OwnsKey(token + "/", r, false))
  {
    var prefix, p := token + "/", LStrip(path);
    LStripHead(path);
    SplitWhole(token);
    assert PlainSegment(Split(token)[0]);
    assert token[0] in token;
    var r := ScopeKey(prefix, path).value;
    assert r[0] != '/';
    assert LStrip(r) == r;
    if p == "" {
      assert prefix[..|prefix| - 1] == token;
      assert token[|token| - 1] in token;
      assert RStrip(r) == token;
    } else {
      RStripKeepsHead(p);
      if !(prefix <= p) {
        RStripUnder(prefix, p);
        assert prefix + RStrip(p) == token + "/" + RStrip(p);
        PlainUnder(token, RStrip(p));
      }
    }
  }

  /** The prefix the artifact plane scopes with is such a prefix. */
  lemma TokenIsPlain(u: string)
    requires Canonical(u)
    ensures IsPlainKey(Token(u)) && '/' !in Token(u)
  {
    var t := Token(u);
    forall i | 0 <= i < |t| ensures t[i] != '/' && t[i] != '\\' && !Control(t[i]) && t[i] != '.' {
      if i >= 7 { assert t[i] == Replace(u, '-', '_')[i - 7]; }
    }
    SplitWhole(t);
  }

  /** A scoped key is never one another tenant owns. */
  lemma ScopedForOne(u: string, v: string, path: string)
    requires Canonical(u) && Canonical(v) && u != v
    requires ScopeKey(ArtifactPrefix(u), path).Some?
    ensures ArtifactPrefix(u) <= ScopeKey(ArtifactPrefix(u), path).value
    ensures !OwnsKey(ArtifactPrefix(v), ScopeKey(ArtifactPrefix(u), path).value, false)
  {
    TokenIsPlain(u);
    ScopeKeyLands(Token(u), path);
    var r := ScopeKey(ArtifactPrefix(u), path).value;
    assert r[0] == Token(u)[0] == 't';
    assert LStrip(r) == r;
    OwnedByOne(u, v, r);
  }
}
