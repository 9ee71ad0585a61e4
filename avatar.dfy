/** Where an avatar is stored and which object `deleteAvatar` removes
    (src/api/profile.api.ts). `uploadAvatar` stores the file at
    `avatars/<file>` inside the bucket `avatars`, so its public URL is
    `<base>/storage/v1/object/public/avatars/avatars/<file>`; `deleteAvatar`
    splits that URL at "/avatars/" and prefixes the second part with
    `avatars/`. */
module Avatar {
  import opened Wrappers
  import opened Text

  const Sep := "/avatars/"
  const Bucket := "avatars"

  /** `s.split(sep)` from index `from`: the pieces between the occurrences of
      `sep` found scanning left to right. */
  function SplitFrom(s: string, sep: string, from: nat): (parts: seq<string>)
    requires from <= |s| && |sep| > 0
    ensures |parts| >= 1
    ensures |parts| == 1 <==> IndexOf(s, sep, from).None?
    ensures IndexOf(s, sep, from).None? ==> parts[0] == s[from..]
    ensures IndexOf(s, sep, from).Some? ==> parts[0] == s[from..IndexOf(s, sep, from).value]
    decreases |s| - from
  {
    match IndexOf(s, sep, from)
    case None => [s[from..]]
    case Some(j) => [s[from..j]] + SplitFrom(s, sep, j + |sep|)
  }

  function Join(parts: seq<string>, sep: string): string
    requires |parts| >= 1
  {
    if |parts| == 1 then parts[0] else parts[0] + sep + Join(parts[1..], sep)
  }

  /** Joining the pieces with the separator gives back the split text. */
  lemma {:induction false} SplitJoin(s: string, sep: string, from: nat)
    requires from <= |s| && |sep| > 0
    ensures Join(SplitFrom(s, sep, from), sep) == s[from..]
    decreases |s| - from
  {
    match IndexOf(s, sep, from)
    case None =>
    case Some(j) =>
      SplitJoin(s, sep, j + |sep|);
      var parts := SplitFrom(s, sep, from);
      assert parts == [s[from..j]] + SplitFrom(s, sep, j + |sep|);
      assert parts[1..] == SplitFrom(s, sep, j + |sep|);
      assert Join(parts, sep) == s[from..j] + sep + s[j + |sep|..];
      assert s[j..j + |sep|] == sep;
      assert s[from..] == s[from..j] + s[j..j + |sep|] + s[j + |sep|..];
  }

  predicate PiecesFree(parts: seq<string>, sep: string) {
    forall k :: 0 <= k < |parts| ==> !Contains(parts[k], sep)
  }

  lemma PiecesFreeCons(x: string, rest: seq<string>, sep: string)
    requires !Contains(x, sep) && PiecesFree(rest, sep)
    ensures PiecesFree([x] + rest, sep)
  {
    var parts := [x] + rest;
    forall k | 0 <= k < |parts| ensures !Contains(parts[k], sep) {
      if k > 0 {
        assert parts[k] == rest[k - 1];
      }
    }
  }

  /** No piece of a split holds the separator. */
  lemma {:induction false} SplitPiecesFree(s: string, sep: string, from: nat)
    requires from <= |s| && |sep| > 0
    ensures PiecesFree(SplitFrom(s, sep, from), sep)
    decreases |s| - from
  {
    match IndexOf(s, sep, from)
    case None =>
      NoOccurrenceInSlice(s, sep, from, |s|);
      assert s[from..|s|] == s[from..];
    case Some(j) =>
      SplitPiecesFree(s, sep, j + |sep|);
      NoOccurrenceInSlice(s, sep, from, j);
      PiecesFreeCons(s[from..j], SplitFrom(s, sep, j + |sep|), sep);
  }

  /** A slice that starts at `from` and ends before the first occurrence at or after `from` holds none. */
  lemma NoOccurrenceInSlice(s: string, sep: string, from: nat, to: nat)
    requires from <= to <= |s| && |sep| > 0
    requires forall q :: from <= q < to ==> !OccursAt(s, sep, q)
    ensures !Contains(s[from..to], sep)
  {
    var t := s[from..to];
    forall i | 0 <= i <= |t| ensures !OccursAt(t, sep, i) {
      if i + |sep| <= |t| {
        assert from + i + |sep| <= to;
        var u, v := t[i..i + |sep|], s[from + i..from + i + |sep|];
        assert |u| == |v|;
        forall k | 0 <= k < |sep| ensures u[k] == v[k] {
          assert t[i + k] == s[from + i + k];
        }
        assert u == v;
        assert !OccursAt(s, sep, from + i);
      }
    }
  }

  function Split(s: string, sep: string): seq<string>
    requires |sep| > 0
  {
    SplitFrom(s, sep, 0)
  }

  /** `avatars/${fileName}`: where `uploadAvatar` stores the file in the bucket. */
  function UploadPath(fileName: string): string {
    "avatars/" + fileName
  }

  function PublicPrefix(base: string): string {
    base + "/storage/v1/object/public"
  }

  /** The public URL of object `path` in `bucket`, as the storage client builds it. */
  function PublicUrl(base: string, bucket: string, path: string): string {
    PublicPrefix(base) + "/" + bucket + "/" + path
  }

  /** `deleteAvatar` as written: no removal for a URL without "/avatars/";
      otherwise `avatars/` and the piece between the first occurrence and the
      next one (or the end). */
  function AsWrittenDeletePath(url: string): (r: Option<string>)
    ensures r.None? <==> !Contains(url, Sep)
    ensures r.Some? ==> |r.value| >= 8 && r.value[..8] == "avatars/" && !Contains(r.value[8..], Sep)
    ensures r.Some? ==> (IndexOf(url, Sep, 0).Some? &&
                         var k := IndexOf(url, Sep, 0).value + |Sep|;
                         var rest := if IndexOf(url, Sep, k).None? then url[k..] else url[k..IndexOf(url, Sep, k).value];
                         r.value == "avatars/" + rest)
  {
    var urlParts := Split(url, Sep);
    IndexOfContains(url, Sep);
    SplitPiecesFree(url, Sep, 0);
    if |urlParts| < 2 then None
    else
      var k := IndexOf(url, Sep, 0).value + |Sep|;
      assert urlParts[1] == SplitFrom(url, Sep, k)[0];
      var r := "avatars/" + urlParts[1];
      assert r[8..] == urlParts[1];
      Some(r)
  }

  /** The path `deleteAvatar` evidently means: everything after the
      first "/avatars/", the bucket segment of the URL. */
  function DeletePath(url: string): (r: Option<string>)
    ensures r.None? <==> !Contains(url, Sep)
    ensures r.Some? ==> IndexOf(url, Sep, 0).Some? && r.value == url[IndexOf(url, Sep, 0).value + |Sep|..]
    ensures r.Some? ==> url == url[..IndexOf(url, Sep, 0).value] + Sep + r.value
  {
    IndexOfContains(url, Sep);
    match IndexOf(url, Sep, 0)
    case None => None
    case Some(i) =>
      assert url == url[..i] + url[i..i + |Sep|] + url[i + |Sep|..];
      Some(url[i + |Sep|..])
  }

  /** The first "/avatars/" of an avatar URL is its bucket segment, provided
      the public prefix of the project holds no "/avatars/". */
  lemma BucketSegmentFirst(base: string, path: string)
    requires !Contains(PublicPrefix(base), Sep)
    ensures PublicUrl(base, Bucket, path) == PublicPrefix(base) + Sep + path
    ensures IndexOf(PublicUrl(base, Bucket, path), Sep, 0) == Some(|PublicPrefix(base)|)
  {
    var p := PublicPrefix(base);
    var url := PublicUrl(base, Bucket, path);
    assert url == p + Sep + path;
    assert url[|p|..|p| + |Sep|] == Sep;
    assert OccursAt(url, Sep, |p|);
    assert p[|p| - 1] == 'c';
    forall k | 0 <= k < |p| ensures !OccursAt(url, Sep, k) {
      if k + |Sep| <= |p| {
        assert url[k..k + |Sep|] == p[k..k + |Sep|];
        assert !OccursAt(p, Sep, k);
      } else if k + |Sep| <= |url| {
        assert url[k..k + |Sep|][|p| - 1 - k] == url[|p| - 1] == 'c';
        assert Sep[|p| - 1 - k] != 'c';
      }
    }
  }

  /** The corrected path finds the uploaded object: deleting by it removes
      exactly the file `uploadAvatar` stored. */
  lemma DeleteFindsUpload(base: string, fileName: string)
    requires !Contains(PublicPrefix(base), Sep)
    ensures DeletePath(PublicUrl(base, Bucket, UploadPath(fileName))) == Some(UploadPath(fileName))
  {
    var p := PublicPrefix(base);
    BucketSegmentFirst(base, UploadPath(fileName));
    var url := PublicUrl(base, Bucket, UploadPath(fileName));
    assert url[|p| + |Sep|..] == UploadPath(fileName);
  }

  /** A file stored as `avatars/<file>`, whose name has no '/', has no "/avatars/" in its path. */
  lemma UploadPathHasNoSeparator(fileName: string)
    requires forall i :: 0 <= i < |fileName| ==> fileName[i] != '/'
    ensures !Contains(UploadPath(fileName), Sep)
  {
    var rest := UploadPath(fileName);
    forall q | 0 <= q <= |rest| ensures !OccursAt(rest, Sep, q) {
      if q + |Sep| <= |rest| {
        var w := rest[q..q + |Sep|];
        if q < 7 {
          assert w[0] == rest[q] != '/';
        } else if q == 7 {
          assert w[8] == fileName[7] != '/';
        } else {
          assert w[0] == fileName[q - 8] != '/';
        }
      }
    }
  }

  /** A text whose suffix from `from` holds no separator has no occurrence at or after `from`. */
  lemma NoOccurrenceAfter(s: string, sep: string, from: nat)
    requires from <= |s| && !Contains(s[from..], sep)
    ensures IndexOf(s, sep, from).None?
  {
    var t := s[from..];
    forall q | from <= q ensures !OccursAt(s, sep, q) {
      if q + |sep| <= |s| {
        var u, v := s[q..q + |sep|], t[q - from..q - from + |sep|];
        assert |u| == |v|;
        forall k | 0 <= k < |sep| ensures u[k] == v[k] {
          assert s[q + k] == t[q - from + k];
        }
        assert !OccursAt(t, sep, q - from);
      }
    }
  }

  /** As written, the derived path repeats the folder: for a file name without
      '/', it is `avatars/avatars/<file>` instead of `avatars/<file>`, so the
      uploaded object is not the one removed. */
  lemma AsWrittenDoublesFolder(base: string, fileName: string)
    requires !Contains(PublicPrefix(base), Sep)
    requires forall i :: 0 <= i < |fileName| ==> fileName[i] != '/'
    ensures AsWrittenDeletePath(PublicUrl(base, Bucket, UploadPath(fileName))) == Some("avatars/" + UploadPath(fileName))
    ensures AsWrittenDeletePath(PublicUrl(base, Bucket, UploadPath(fileName))) != Some(UploadPath(fileName))
  {
    var p := PublicPrefix(base);
    var rest := UploadPath(fileName);
    BucketSegmentFirst(base, rest);
    var url := PublicUrl(base, Bucket, rest);
    var from := |p| + |Sep|;
    assert url[from..] == rest;
    UploadPathHasNoSeparator(fileName);
    NoOccurrenceAfter(url, Sep, from);
    var parts := Split(url, Sep);
    assert parts[1..] == SplitFrom(url, Sep, from);
    assert parts[1] == rest;
    assert |"avatars/" + rest| != |rest|;
  }

  /** No "/avatars/" occurs in a text where no '/' is followed by 'a'. */
  lemma NoSeparatorWithoutSlashA(p: string)
    requires NoSlashA(p)
    ensures !Contains(p, Sep)
  {
    forall i | 0 <= i <= |p| ensures !OccursAt(p, Sep, i) {
      if i + |Sep| <= |p| {
        assert p[i..i + |Sep|][0] == p[i] && p[i..i + |Sep|][1] == p[i + 1];
      }
    }
  }

  const ExampleBase := "https://p.supabase.co"

  predicate NoSlashA(p: string) {
    forall i :: 0 <= i < |p| - 1 ==> p[i] != '/' || p[i + 1] != 'a'
  }

  lemma NoSlashAConcat(a: string, b: string)
    requires NoSlashA(a) && NoSlashA(b)
    requires |a| > 0 && |b| > 0 ==> a[|a| - 1] != '/' || b[0] != 'a'
    ensures NoSlashA(a + b)
  {
    var ab := a + b;
    forall i | 0 <= i < |ab| - 1 ensures ab[i] != '/' || ab[i + 1] != 'a' {
      if i + 1 < |a| {
        assert ab[i] == a[i] && ab[i + 1] == a[i + 1];
      } else if i + 1 == |a| {
        assert ab[i] == a[|a| - 1] && ab[i + 1] == b[0];
      } else {
        assert ab[i] == b[i - |a|] && ab[i + 1] == b[i + 1 - |a|];
      }
    }
  }

  lemma ExamplePrefixHasNoSeparator()
    ensures !Contains(PublicPrefix(ExampleBase), Sep)
  {
    var b, t := ExampleBase, "/storage/v1/object/public";
    assert NoSlashA(b) by {
      forall i | 0 <= i < |b| - 1 ensures b[i] != '/' || b[i + 1] != 'a' {
      }
    }
    assert NoSlashA(t) by {
      forall i | 0 <= i < |t| - 1 ensures t[i] != '/' || t[i + 1] != 'a' {
      }
    }
    NoSlashAConcat(b, t);
    NoSeparatorWithoutSlashA(b + t);
  }

}

/** The finding in `deleteAvatar` on one concrete upload. */
module AvatarExample {
  import opened Wrappers
  import opened Avatar

  /** As written, `deleteAvatar` on that URL asks to remove `avatars/avatars/<file>`. */
  lemma ExampleAsWrittenPath(fileName: string)
    requires forall i :: 0 <= i < |fileName| ==> fileName[i] != '/'
    ensures AsWrittenDeletePath(PublicUrl(ExampleBase, Bucket, UploadPath(fileName))) == Some("avatars/avatars/" + fileName)
  {
    ExamplePrefixHasNoSeparator();
    AsWrittenDoublesFolder(ExampleBase, fileName);
    var doubled := "avatars/" + UploadPath(fileName);
    assert doubled == ("avatars/" + "avatars/") + fileName;
    assert "avatars/" + "avatars/" == "avatars/avatars/";
  }

  /** The corrected path on that URL is `avatars/<file>`, the stored object. */
  lemma ExampleCorrectedPath(fileName: string)
    ensures DeletePath(PublicUrl(ExampleBase, Bucket, UploadPath(fileName))) == Some("avatars/" + fileName)
  {
    ExamplePrefixHasNoSeparator();
    DeleteFindsUpload(ExampleBase, fileName);
  }
}
