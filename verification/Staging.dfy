/** Where an upload rests while it is judged, and where it lands
    (services/notebook_tracking_gateway/staging.py). */
module Staging {
  import opened Common
  import opened Tenancy

  const STAGING_ROOT := "_upload-staging/"
  const MAX_PATH := 512

  predicate IdChar(c: char) { 'A' <= c <= 'Z' || 'a' <= c <= 'z' || '0' <= c <= '9' || c == '_' || c == '-' }

  predicate IdCore(core: string) { 16 <= |core| <= 64 && forall i :: 0 <= i < |core| ==> IdChar(core[i]) }

  /** The pattern's `$` also matches before one final newline. */
  predicate IsUploadId(v: string) { IdCore(if v != "" && v[|v| - 1] == '\n' then v[..|v| - 1] else v) }

  /** What is accepted is such an id, or one followed by a newline; of what is accepted, exactly the ids
      that do not end in a newline are made of the pattern's characters alone. */
  lemma UploadIdExactly(v: string)
    ensures IsUploadId(v) <==> IdCore(v) || (v != "" && v[|v| - 1] == '\n' && IdCore(v[..|v| - 1]))
    ensures IsUploadId(v) ==> ((forall i :: 0 <= i < |v| ==> IdChar(v[i])) <==> v[|v| - 1] != '\n')
  {
    if v != "" { assert !IdChar('\n'); }
  }

  /** An id with a newline after it is accepted. */
  lemma NewlineAccepted()
    ensures var v := seq(16, _ => 'a') + "\n"; IsUploadId(v) && !IdCore(v)
  {
    var core := seq(16, _ => 'a');
    var v := core + "\n";
    assert v[..|v| - 1] == core && IdCore(core) && !IdChar(v[16]);
  }

  function Join(segs: seq<string>): string
    requires segs != []
  {
    if |segs| == 1 then segs[0] else segs[0] + "/" + Join(segs[1..])
  }

  function SafeMemberPath(name: string): Option<string> {
    if name == "" || |name| > MAX_PATH then None
    else if name[0] == '/' || name[0] == '\\' then None
    else if '\\' in name || (exists i :: 0 <= i < |name| && (name[i] as int < 0x20 || name[i] as int == 0x7f)) then None
    else if exists i :: 0 <= i < |Split(name)| && !PlainSegment(Split(name)[i]) then None
    else Some(Join(Split(name)))
  }

  lemma JoinFirst(a: string, rest: seq<string>)
    requires rest != []
    ensures Join([a] + rest) == a + "/" + Join(rest)
  {
    assert ([a] + rest)[1..] == rest;
  }

  lemma JoinGrows(c: char, segs: seq<string>)
    requires segs != []
    ensures Join([[c] + segs[0]] + segs[1..]) == [c] + Join(segs)
  {
    var grown := [[c] + segs[0]] + segs[1..];
    if |segs| > 1 {
      assert grown[1..] == segs[1..];
      assert [c] + segs[0] + "/" + Join(segs[1..]) == [c] + (segs[0] + "/" + Join(segs[1..]));
    }
  }

  lemma {:induction false} JoinSplit(s: string)
    ensures Join(Split(s)) == s
  {
    if s != "" {
      JoinSplit(s[1..]);
      if s[0] == '/' {
        JoinFirst("", Split(s[1..]));
        assert s == "" + "/" + s[1..];
      } else {
        JoinGrows(s[0], Split(s[1..]));
        assert s == [s[0]] + s[1..];
      }
    }
  }

  /** A member path is taken as it is or refused, never rewritten: it is taken exactly when it is short
      enough and plain up to the control characters above 0x7f, which this test lets through. */
  lemma MemberPathExactly(name: string)
    ensures SafeMemberPath(name).Some? ==> SafeMemberPath(name).value == name
    ensures SafeMemberPath(name).Some? <==>
      && |name| <= MAX_PATH
      && (forall i :: 0 <= i < |name| ==> name[i] != '\\' && !(name[i] as int < 0x20) && name[i] as int != 0x7f)
      && (forall i :: 0 <= i < |Split(name)| ==> PlainSegment(Split(name)[i]))
    ensures IsPlainKey(name) && |name| <= MAX_PATH ==> SafeMemberPath(name).Some?
  {
    JoinSplit(name);
    if name == "" {
      assert !PlainSegment(Split(name)[0]);
    } else if name[0] == '/' {
      assert !PlainSegment(Split(name)[0]);
    } else if '\\' in name {
      var i :| 0 <= i < |name| && name[i] == '\\';
    }
  }

  /** A path taken is a plain key exactly when it holds no control character from 0x80 to 0x9f. */
  lemma TakenIsPlainExactly(name: string)
    requires SafeMemberPath(name).Some?
    ensures IsPlainKey(name) <==> forall i :: 0 <= i < |name| ==> !(0x80 <= name[i] as int < 0xa0)
  {
    MemberPathExactly(name);
    if forall i :: 0 <= i < |name| ==> !(0x80 <= name[i] as int < 0xa0) {
      forall i | 0 <= i < |name| ensures name[i] != '\\' && !Control(name[i]) { }
    } else {
      var i :| 0 <= i < |name| && 0x80 <= name[i] as int < 0xa0;
      assert Control(name[i]);
    }
  }

  /** Such a path is taken. */
  lemma ControlTaken()
    ensures var name := [0x85 as char]; SafeMemberPath(name) == Some(name) && !IsPlainKey(name)
  {
    var name := [0x85 as char];
    SplitWhole(name);
    assert name[0] as int == 0x85;
    MemberPathExactly(name);
    assert Control(name[0]);
  }

  function StagingPrefix(token: string, id: string): string { STAGING_ROOT + token + "/" + id + "/" }
  function StagingKey(token: string, id: string, member: string): string { StagingPrefix(token, id) + member }
  function AdmittedPrefix(artifactPrefix: string, id: string): string { artifactPrefix + "uploads/" + id + "/" }
  function AdmittedKey(artifactPrefix: string, id: string, member: string): string { AdmittedPrefix(artifactPrefix, id) + member }

  /** The segment before a slash is determined by the string it opens. */
  lemma FirstSegment(a: string, b: string, s: string, t: string)
    requires '/' !in a && '/' !in b && a + "/" + s == b + "/" + t
    ensures a == b && s == t
  {
    assert (a + "/" + s)[|a|] == '/' && (b + "/" + t)[|b|] == '/';
    assert a == (a + "/" + s)[..|a|] && b == (b + "/" + t)[..|b|];
    assert s == (a + "/" + s)[|a| + 1..] && t == (b + "/" + t)[|b| + 1..];
  }

  lemma UploadIdIsSegment(id: string)
    requires IsUploadId(id)
    ensures '/' !in id
  {
    var core := if id[|id| - 1] == '\n' then id[..|id| - 1] else id;
    forall i | 0 <= i < |id| ensures id[i] != '/' {
      if i < |core| { assert IdChar(core[i]); }
    }
  }

  /** A staged key names its tenant, upload and member: no two uploads share one, of one tenant or two. */
  lemma StagedKeysApart(u: string, id: string, m: string, v: string, id': string, m': string)
    requires Canonical(u) && Canonical(v) && IsUploadId(id) && IsUploadId(id')
    requires StagingKey(Token(u), id, m) == StagingKey(Token(v), id', m')
    ensures u == v && id == id' && m == m'
  {
    TokenIsPlain(u);
    TokenIsPlain(v);
    UploadIdIsSegment(id);
    UploadIdIsSegment(id');
    StagedTail(Token(u), id, m);
    StagedTail(Token(v), id', m');
    FirstSegment(Token(u), Token(v), id + "/" + m, id' + "/" + m');
    FirstSegment(id, id', m, m');
    NamesDistinct(u, v);
  }

  lemma StagedTail(token: string, id: string, member: string)
    ensures StagingKey(token, id, member)[|STAGING_ROOT|..] == token + "/" + (id + "/" + member)
  {
  }

  /** No tenant's artifact prefix reaches the staging area, and the owner's reading of a staged key is
      the member. */
  lemma StagedOutOfReach(u: string, token: string, id: string, member: string)
    ensures !(ArtifactPrefix(u) <= StagingKey(token, id, member))
    ensures OwnedName(StagingPrefix(token, id), StagingKey(token, id, member)) == Some(member)
  {
    assert StagingKey(token, id, member)[0] == '_' && ArtifactPrefix(u)[0] == 't';
    assert StagingKey(token, id, member)[|StagingPrefix(token, id)|..] == member;
  }
}
