/**
 * Validation of the two query parameters and derivation of the
 * key-value key (cloudflare/index.js, lines 78-92).
 */
module RequestKey {
  import opened Wrappers
  import opened JsString

  const Zip: string := ".zip"
  const DefaultType: string := "boot"
  const ValidTypes: set<string> := {"boot", "recovery", "modem"}

  /** The query parameters `type` and `url`, each absent or a string. */
  datatype Request = Request(typeParam: Option<string>, urlParam: Option<string>)

  /** Why a request is answered with 400. */
  datatype Rejection = MissingUrl | InvalidType

  /** What a valid request resolves to. */
  datatype Job = Job(imageType: string, url: string, name: string, key: string)

  function RejectionMessage(e: Rejection): string {
    match e
    case MissingUrl => "Missing URL parameter"
    case InvalidType => "Invalid image type. Must be boot, recovery, or modem"
  }

  /** `params.get('type')?.toLowerCase() || 'boot'`: absent or empty falls back to boot. */
  function EffectiveType(t: Option<string>): (r: string)
    ensures r != []
    ensures t.None? || t == Some([]) ==> r == DefaultType
    ensures t.Some? && t.value != [] ==> |r| == |t.value| && r == ToLower(t.value)
  {
    if t.None? || t.value == [] then DefaultType else ToLower(t.value)
  }

  /** `url.split('.zip')[0] + '.zip'`. */
  function Normalize(url: string): string {
    SplitHead(url, Zip) + Zip
  }

  /** `normalizedUrl.split('/').pop().replace('.zip', '')`. */
  function FirmwareName(normalized: string): string {
    ReplaceFirst(LastSegment(normalized), Zip, [])
  }

  /** The template literal `${imageType}:${firmwareName}`. */
  function KvKey(imageType: string, name: string): string {
    imageType + ":" + name
  }

  /** Lines 78-92: the checks in source order (missing url first), then the derived job. */
  function ParseRequest(req: Request): (r: Result<Job, Rejection>)
    ensures r == Failure(MissingUrl) <==> req.urlParam.None? || req.urlParam.value == []
    ensures r == Failure(InvalidType) <==>
      req.urlParam.Some? && req.urlParam.value != [] && EffectiveType(req.typeParam) !in ValidTypes
    ensures r.Success? ==>
      && r.value.imageType in ValidTypes
      && r.value.imageType == EffectiveType(req.typeParam)
      && r.value.url == Normalize(req.urlParam.value)
      && r.value.name == FirmwareName(r.value.url)
      && r.value.key == r.value.imageType + ":" + r.value.name
  {
    var imageType := EffectiveType(req.typeParam);
    if req.urlParam.None? || req.urlParam.value == [] then Failure(MissingUrl)
    else if imageType !in ValidTypes then Failure(InvalidType)
    else
      var normalized := Normalize(req.urlParam.value);
      var name := FirmwareName(normalized);
      Success(Job(imageType, normalized, name, KvKey(imageType, name)))
  }

  /** No suffix of ".zip" is also a prefix of it: appending ".zip" to a text without one creates no earlier occurrence. */
  lemma {:induction false} FirstZipAfter(p: string, rest: string)
    requires Absent(p, Zip)
    ensures IndexOf(p + Zip + rest, Zip) == Some(|p|)
  {
    var s := p + Zip + rest;
    assert s[|p|..|p| + 4] == Zip;
    forall j: nat | j < |p| ensures !OccursAt(s, Zip, j) {
      if j + 4 <= |p| {
        assert s[j..j + 4] == p[j..j + 4];
        assert !OccursAt(p, Zip, j);
      } else {
        assert s[j..j + 4][|p| - j] == '.';
      }
    }
    IndexOfIsFirst(s, Zip, |p|);
  }

  /** A text without ".zip" keeps that property in every suffix. */
  lemma SuffixAbsent(s: string, k: nat)
    requires Absent(s, Zip) && k <= |s|
    ensures Absent(s[k..], Zip)
  {
    forall j: nat | OccursAt(s[k..], Zip, j) ensures false {
      assert s[k..][j..j + 4] == s[k + j..k + j + 4];
      assert OccursAt(s, Zip, k + j);
    }
  }

  /**
   * Line 90: the normalized URL ends in ".zip", its only ".zip" is that
   * final one, and it is the input up to and including its first ".zip"
   * (the input with ".zip" appended when it has none).
   */
  lemma NormalizeShape(url: string)
    ensures var n := Normalize(url);
      && |n| >= 4 && n[|n| - 4..] == Zip
      && IndexOf(n, Zip) == Some(|n| - 4)
      && Absent(n[..|n| - 4], Zip)
    ensures IndexOf(url, Zip).Some? ==> Normalize(url) == url[..IndexOf(url, Zip).value + 4]
    ensures IndexOf(url, Zip).None? ==> Normalize(url) == url + Zip
  {
    var h := SplitHead(url, Zip);
    var n := Normalize(url);
    FirstZipAfter(h, []);
    assert h + Zip + [] == n;
    assert n[..|n| - 4] == h;
    match IndexOf(url, Zip)
    case None =>
    case Some(i) =>
      assert url[i..i + 4] == Zip;
      assert url[..i + 4] == url[..i] + url[i..i + 4];
  }

  /** Line 90: normalizing a normalized URL changes nothing. */
  lemma NormalizeIdempotent(url: string)
    ensures Normalize(Normalize(url)) == Normalize(url)
  {
    var n := Normalize(url);
    NormalizeShape(url);
    NormalizeShape(n);
    assert n[..|n| - 4 + 4] == n;
  }

  /** Anything after the first ".zip" (a query string, a fragment) is dropped. */
  lemma NormalizeDropsTail(p: string, rest: string)
    requires Absent(p, Zip)
    ensures Normalize(p + Zip + rest) == p + Zip
  {
    FirstZipAfter(p, rest);
    assert (p + Zip + rest)[..|p|] == p;
  }

  /** Appending a character other than `/` extends the last segment by that character. */
  lemma LastSegmentSnoc(s: string, c: char)
    requires c != '/'
    ensures LastSegment(s + [c]) == LastSegment(s) + [c]
  {
    assert (s + [c])[..|s|] == s;
  }

  /** The last `/` segment of `a + b`, when `b` holds no `/`, is that of `a` followed by `b`. */
  lemma {:induction false} LastSegmentAppend(a: string, b: string)
    requires '/' !in b
    ensures LastSegment(a + b) == LastSegment(a) + b
  {
    if b == [] {
      assert a + b == a;
    } else {
      var b', c := b[..|b| - 1], b[|b| - 1];
      assert b == b' + [c];
      SeqAssoc(a, b', [c]);
      LastSegmentAppend(a, b');
      LastSegmentSnoc(a + b', c);
    }
  }

  /** Removing the first ".zip" from a segment that ends in its only ".zip" leaves the rest. */
  lemma ReplaceFinalZip(seg: string)
    requires Absent(seg, Zip)
    ensures ReplaceFirst(seg + Zip, Zip, []) == seg
  {
    FirstZipAfter(seg, []);
    assert seg + Zip + [] == seg + Zip;
    assert (seg + Zip)[..|seg|] == seg;
    assert (seg + Zip)[|seg| + 4..] == [];
  }

  /** Line 91: the firmware name is the last `/` segment of the URL before its first ".zip". */
  lemma FirmwareNameOfNormalized(url: string)
    ensures FirmwareName(Normalize(url)) == LastSegment(SplitHead(url, Zip))
  {
    var h := SplitHead(url, Zip);
    LastSegmentAppend(h, Zip);
    var seg := LastSegment(h);
    SuffixAbsent(h, |h| - |seg|);
    ReplaceFinalZip(seg);
  }

  /** The last segment of a text without ".zip" has none either, and appending ".zip" extends it. */
  lemma SegmentOfZipFree(h: string)
    requires Absent(h, Zip)
    ensures Absent(LastSegment(h), Zip)
    ensures LastSegment(h + Zip) == LastSegment(h) + Zip
  {
    SuffixAbsent(h, |h| - |LastSegment(h)|);
    LastSegmentAppend(h, Zip);
  }

  /**
   * Line 91: the firmware name holds no `/` and no ".zip", and followed
   * by ".zip" it is the last `/` segment of the normalized URL.
   */
  lemma FirmwareNameShape(url: string)
    ensures var name := FirmwareName(Normalize(url));
      && '/' !in name
      && Absent(name, Zip)
      && name + Zip == LastSegment(Normalize(url))
  {
    FirmwareNameOfNormalized(url);
    SegmentOfZipFree(SplitHead(url, Zip));
  }

  /** Line 92: distinct (type, name) pairs never share a key, since no valid type holds ':'. */
  lemma KvKeyInjective(t1: string, n1: string, t2: string, n2: string)
    requires ':' !in t1 && ':' !in t2
    requires KvKey(t1, n1) == KvKey(t2, n2)
    ensures t1 == t2 && n1 == n2
  {
    var k := KvKey(t1, n1);
    if |t1| < |t2| {
      KeyCharAt(t1, n1, |t1|);
      KeyCharAt(t2, n2, |t1|);
      assert false;
    } else if |t2| < |t1| {
      KeyCharAt(t2, n2, |t2|);
      KeyCharAt(t1, n1, |t2|);
      assert false;
    }
    assert t1 == k[..|t1|] == t2;
    assert n1 == k[|t1| + 1..] == n2;
  }

  /** The characters of a key: the type, then ':' at the type's length. */
  lemma KeyCharAt(t: string, n: string, i: int)
    ensures 0 <= i < |t| ==> KvKey(t, n)[i] == t[i]
    ensures i == |t| ==> KvKey(t, n)[i] == ':'
  {
  }

  lemma ValidTypesHaveNoColon(t: string)
    requires t in ValidTypes
    ensures ':' !in t
  {
  }

  /** Two valid requests share a key exactly when they agree on image type and firmware name. */
  lemma SameKeySameJob(r1: Request, r2: Request)
    requires ParseRequest(r1).Success? && ParseRequest(r2).Success?
    ensures var j1 := ParseRequest(r1).value; var j2 := ParseRequest(r2).value;
      j1.key == j2.key <==> j1.imageType == j2.imageType && j1.name == j2.name
  {
    var j1 := ParseRequest(r1).value;
    var j2 := ParseRequest(r2).value;
    ValidTypesHaveNoColon(j1.imageType);
    ValidTypesHaveNoColon(j2.imageType);
    if j1.key == j2.key {
      KvKeyInjective(j1.imageType, j1.name, j2.imageType, j2.name);
    }
  }

  /**
   * Lines 90-92 on a URL of the form `dir/file.zip?query`: the query is
   * dropped and the key is the image type, ':' and `file`.
   */
  lemma KeyOfArchiveUrl(typeParam: Option<string>, dir: string, file: string, query: string)
    requires EffectiveType(typeParam) in ValidTypes
    requires dir == [] || dir[|dir| - 1] == '/'
    requires '/' !in file
    requires Absent(dir + file, Zip)
    ensures var t := EffectiveType(typeParam);
      ParseRequest(Request(typeParam, Some(dir + file + Zip + query)))
        == Success(Job(t, dir + file + Zip, file, t + ":" + file))
  {
    ArchiveUrlNormalize(dir, file, query);
    ArchiveUrlName(dir, file);
  }

  /**
   * Lines 90-92 on a URL with no ".zip" that ends in '/': the URL is
   * accepted, ".zip" is appended, the firmware name is empty and the key
   * is the image type followed by ':' alone.
   */
  lemma DirectoryUrlKey(typeParam: Option<string>, dir: string)
    requires EffectiveType(typeParam) in ValidTypes
    requires dir != [] && dir[|dir| - 1] == '/'
    requires Absent(dir, Zip)
    ensures var t := EffectiveType(typeParam);
      ParseRequest(Request(typeParam, Some(dir))) == Success(Job(t, dir + Zip, [], t + ":"))
  {
    NormalizeShape(dir);
    ArchiveName(dir, []);
    assert dir + ([] + Zip) == dir + Zip;
    assert KvKey(EffectiveType(typeParam), []) == EffectiveType(typeParam) + ":";
  }

  /** The firmware name of `dir/file.zip` is `file`. */
  lemma ArchiveName(dir: string, file: string)
    requires dir == [] || dir[|dir| - 1] == '/'
    requires '/' !in file
    requires Absent(file, Zip)
    ensures FirmwareName(dir + (file + Zip)) == file
  {
    assert '/' !in file + Zip;
    LastSegmentAppend(dir, file + Zip);
    assert LastSegment(dir) == [];
    ReplaceFinalZip(file);
  }

  /** A tail of a ".zip"-free string is ".zip"-free. */
  lemma TailAbsent(dir: string, file: string)
    requires Absent(dir + file, Zip)
    ensures Absent(file, Zip)
  {
    assert (dir + file)[|dir|..] == file;
    SuffixAbsent(dir + file, |dir|);
  }

  /** Line 90 on `dir/file.zip?query`: everything after the first ".zip" goes. */
  lemma ArchiveUrlNormalize(dir: string, file: string, query: string)
    requires Absent(dir + file, Zip)
    ensures Normalize(dir + file + Zip + query) == dir + file + Zip
  {
    assert dir + file + Zip + query == (dir + file) + Zip + query;
    NormalizeDropsTail(dir + file, query);
  }

  /** Line 91 on `dir/file.zip`: the firmware name is `file`. */
  lemma ArchiveUrlName(dir: string, file: string)
    requires dir == [] || dir[|dir| - 1] == '/'
    requires '/' !in file
    requires Absent(dir + file, Zip)
    ensures FirmwareName(dir + file + Zip) == file
  {
    TailAbsent(dir, file);
    ArchiveName(dir, file);
    SeqAssoc(dir, file, Zip);
  }

  /**
   * Line 78 matches the type case-insensitively: an explicit non-empty type
   * selects a valid type exactly when it spells that type's letters in any
   * mix of cases, and an empty one selects "boot".
   */
  lemma TypeMatchIgnoresCase(t: string, v: string)
    requires v in ValidTypes
    ensures EffectiveType(Some(t)) == v <==>
      (t == [] && v == DefaultType) ||
      (t != [] && |t| == |v| && forall i :: 0 <= i < |t| ==> t[i] == v[i] || t[i] == UpperChar(v[i]))
  {
    assert forall i :: 0 <= i < |v| ==> 'a' <= v[i] <= 'z' by {
      if v == "boot" {
      } else if v == "recovery" {
      } else {
        assert v == "modem";
      }
    }
    ToLowerMatches(t, v);
  }
}
