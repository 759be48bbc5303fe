/** Media references (`mxc://server/id`), the media fields of an event's content,
    and the media directory tree in which files are matched against a media id. */
module Media {
  import opened Wrappers
  import opened PyValue
  import opened Text
  import opened Numerals

  const MxcScheme: string := "mxc://"

  /** `s.split(c, 1)` when `c` occurs in `s`: the text before the first `c` and the
      text after it. */
  function SplitFirst(s: string, c: char): (r: Option<(string, string)>)
    ensures r.None? <==> c !in s
    ensures r.Some? ==> s == r.value.0 + [c] + r.value.1 && c !in r.value.0
  {
    if s == [] then None
    else if s[0] == c then Some(([], s[1..]))
    else match SplitFirst(s[1..], c)
      case None => None
      case Some((a, b)) => Some(([s[0]] + a, b))
  }

  /** Splitting at the first `c` recovers the parts of any `a + [c] + b` whose `a`
      holds no `c`. */
  lemma {:induction false} SplitFirstOfParts(a: string, c: char, b: string)
    requires c !in a
    ensures SplitFirst(a + [c] + b, c) == Some((a, b))
  {
    if a != [] {
      var s := a + [c] + b;
      assert s[0] == a[0] != c;
      assert s[1..] == a[1..] + [c] + b;
      SplitFirstOfParts(a[1..], c, b);
      assert [a[0]] + a[1..] == a;
    }
  }

  /** `parse_mxc`: `None` unless the value is a string that starts with `mxc://` and
      has a `/` after the scheme; otherwise the server before that first `/` and the
      media id after it. */
  function ParseMxc(v: Value): (r: Option<(string, string)>)
    ensures r.Some? <==> v.Str? && StartsWith(v.s, MxcScheme) && '/' in v.s[|MxcScheme|..]
    ensures r.Some? ==> v.s == MxcScheme + r.value.0 + "/" + r.value.1 && '/' !in r.value.0
  {
    if v.Str? && StartsWith(v.s, MxcScheme) then
      var r := SplitFirst(v.s[|MxcScheme|..], '/');
      assert r.Some? ==> v.s == MxcScheme + v.s[|MxcScheme|..];
      r
    else None
  }

  /** Building a reference from a server without `/` and any media id, and parsing
      it, gives back the two parts. */
  lemma ParseMxcRoundTrip(server: string, id: string)
    requires '/' !in server
    ensures ParseMxc(Str(MxcScheme + server + "/" + id)) == Some((server, id))
  {
    var s := MxcScheme + server + "/" + id;
    assert s[|MxcScheme|..] == server + ['/'] + id;
    SplitFirstOfParts(server, '/', id);
  }

  /** The well-formed reference of the cleaner's tests. */
  lemma ParseMxcValidExample()
    ensures ParseMxc(Str("mxc://example.com/abc123")) == Some(("example.com", "abc123"))
  {
    assert "mxc://example.com/abc123" == MxcScheme + "example.com" + "/" + "abc123";
    ParseMxcRoundTrip("example.com", "abc123");
  }

  /** The malformed references of the cleaner's tests: no `/` after the server, a
      different scheme, and no string at all. */
  lemma ParseMxcInvalidExamples()
    ensures ParseMxc(Str("mxc://invalid")) == None
    ensures ParseMxc(Str("https://example.com/file")) == None
    ensures ParseMxc(Null) == None
  {
    var invalid := "mxc://invalid";
    assert invalid[|MxcScheme|..] == "invalid";
    assert '/' !in "invalid";
    var https := "https://example.com/file";
    assert https[..|MxcScheme|][0] != MxcScheme[0];
  }

  // ---------------------------------------------------------------------------
  // extract_mxc_and_info, for a content that is a dict

  /** What an upload event's content says about its media. `url` and `mimetype`
      are whatever the content holds (they need not be strings). */
  datatype MediaInfo = MediaInfo(url: Value, mimetype: Value, size: int)

  /** `c.get("url")`, or, when that is falsy and `c["file"]` is a dict, the `url`
      of that dict. */
  function UrlOf(c: Dict): (r: Value)
    ensures Truthy(Get(c, "url")) ==> r == c["url"]
    ensures !Truthy(Get(c, "url")) && Get(c, "file").Obj? ==> r == Get(c["file"].fields, "url")
    ensures !Truthy(Get(c, "url")) && !Get(c, "file").Obj? ==> r == Get(c, "url")
  {
    var url := Get(c, "url");
    if !Truthy(url) && Get(c, "file").Obj? then Get(Get(c, "file").fields, "url") else url
  }

  /** `info.get("mimetype", "") or ""`: a truthy value is kept whatever its type,
      anything falsy becomes the empty string. */
  function MimetypeOf(v: Value): (r: Value)
    ensures Truthy(v) ==> r == v
    ensures !Truthy(v) ==> r == Str("")
    ensures Truthy(r) || r == Str("")
  {
    if Truthy(v) then v else Str("")
  }

  /** `int(info.get("size") or 0)`: falsy values give 0, integers themselves, bools
      0 or 1, floats truncate toward zero and strings are parsed as integer
      literals; a string that is not one raises, and so do non-empty lists and
      dicts. */
  function SizeOfValue(v: Value): (r: Result<int>)
    ensures !Truthy(v) ==> r == Ok(0)
    ensures v.Int? ==> r == Ok(v.i)
    ensures v.Str? && ParseInt(v.s).Some? ==> r == Ok(ParseInt(v.s).value)
    ensures v.Float? ==> r == Ok(TruncateToInt(v.r))
    ensures r.Raises? <==> Truthy(v) && (v.List? || v.Obj? || (v.Str? && ParseInt(v.s).None?))
  {
    if !Truthy(v) then Ok(0)
    else match v
      case Bool(_) => Ok(1)
      case Int(i) => Ok(i)
      case Float(x) => Ok(TruncateToInt(x))
      case Str(s) => (match ParseInt(s) case Some(n) => Ok(n) case None => Raises)
      case _ => Raises
  }

  /** `c.get("info") if isinstance(c.get("info"), dict) else {}`. */
  function InfoOf(c: Dict): Dict
  {
    if Get(c, "info").Obj? then Get(c, "info").fields else map[]
  }

  /** The dict branch of `extract_mxc_and_info`: the url, the mimetype after
      `or ""` and the size after `int(... or 0)`; only the size conversion can
      raise. A missing `info`, or a missing key in it, gives `""` and `0`. */
  function ExtractMediaInfo(c: Dict): (r: Result<MediaInfo>)
    ensures r.Raises? <==> SizeOfValue(Get(InfoOf(c), "size")).Raises?
    ensures r.Ok? ==> r.value.url == UrlOf(c)
    ensures r.Ok? ==> r.value.mimetype == MimetypeOf(GetOr(InfoOf(c), "mimetype", Str("")))
    ensures r.Ok? ==> r.value.size == SizeOfValue(Get(InfoOf(c), "size")).value
    ensures r.Ok? ==> Truthy(r.value.mimetype) || r.value.mimetype == Str("")
    ensures !Get(c, "info").Obj? ==> r == Ok(MediaInfo(UrlOf(c), Str(""), 0))
    ensures "mimetype" !in InfoOf(c) && r.Ok? ==> r.value.mimetype == Str("")
    ensures Get(InfoOf(c), "mimetype").Str? && r.Ok? ==> r.value.mimetype == InfoOf(c)["mimetype"]
    ensures "size" !in InfoOf(c) ==> r.Ok? && r.value.size == 0
    ensures Get(InfoOf(c), "size").Int? ==> r.Ok? && r.value.size == InfoOf(c)["size"].i
  {
    var info := InfoOf(c);
    match SizeOfValue(Get(info, "size"))
    case Ok(n) => Ok(MediaInfo(UrlOf(c), MimetypeOf(GetOr(info, "mimetype", Str(""))), n))
    case Raises => Raises
  }

  /** The two dict-shaped events of the cleaner's tests: a plain upload and an
      encrypted one whose url is under `file`. */
  lemma ExtractMediaInfoExamples()
    ensures ExtractMediaInfo(map["url" := Str("mxc://test.com/file123"),
                                 "info" := Obj(map["mimetype" := Str("image/png"), "size" := Int(1024)])])
            == Ok(MediaInfo(Str("mxc://test.com/file123"), Str("image/png"), 1024))
    ensures ExtractMediaInfo(map["file" := Obj(map["url" := Str("mxc://test.com/encrypted123")]),
                                 "info" := Obj(map["mimetype" := Str("video/mp4"), "size" := Int(2048)])])
            == Ok(MediaInfo(Str("mxc://test.com/encrypted123"), Str("video/mp4"), 2048))
  {
  }

  /** A size given as padded digits is parsed, and a mimetype that is a number
      is kept as that number. */
  lemma ExtractMediaInfoLooseTypes(url: Value)
    ensures var c := map["url" := url, "info" := Obj(map["mimetype" := Int(7), "size" := Str(" " + "42" + " ")])];
            ExtractMediaInfo(c) == Ok(MediaInfo(UrlOf(c), Int(7), 42))
  {
    var info := map["mimetype" := Int(7), "size" := Str(" " + "42" + " ")];
    var c := map["url" := url, "info" := Obj(info)];
    assert InfoOf(c) == info;
    ParsePaddedExample();
    assert SizeOfValue(Get(info, "size")) == Ok(42);
  }

  /** A size that is not an integer literal raises. */
  lemma ExtractMediaInfoBadSize(url: Value)
    ensures ExtractMediaInfo(map["url" := url, "info" := Obj(map["size" := Str("1.5")])]) == Raises
  {
    var info := map["size" := Str("1.5")];
    var c := map["url" := url, "info" := Obj(info)];
    assert InfoOf(c) == info;
    ParseIntRefuses();
    assert SizeOfValue(Get(info, "size")) == Raises;
  }

  // ---------------------------------------------------------------------------
  // The media tree and find_media_files

  /** `Path(root) / fn` for a file `fn` found in directory `root`. */
  datatype FilePath = FilePath(dir: string, name: string)

  /** One file of the media tree with its size in bytes, in the order `os.walk`
      yields it. */
  datatype FileEntry = FileEntry(path: FilePath, size: nat)

  /** The paths, in walk order, of the files whose name contains `id`. */
  function MatchingPaths(files: seq<FileEntry>, id: string): (r: seq<FilePath>)
    ensures |r| <= |files|
  {
    if files == [] then []
    else
      var last := files[|files| - 1];
      MatchingPaths(files[..|files| - 1], id) + (if Contains(last.path.name, id) then [last.path] else [])
  }

  /** A path is matched exactly when some file under it has a name containing `id`. */
  lemma {:induction false} MatchingPathsMembers(files: seq<FileEntry>, id: string, p: FilePath)
    ensures p in MatchingPaths(files, id) <==>
            exists k :: 0 <= k < |files| && files[k].path == p && Contains(files[k].path.name, id)
  {
    if files != [] {
      var init := files[..|files| - 1];
      MatchingPathsMembers(init, id, p);
      assert forall k :: 0 <= k < |init| ==> init[k] == files[k];
    }
  }

  /** An empty media id (from a reference such as `mxc://server/`) matches every
      file of the tree. */
  lemma {:induction false} EmptyIdMatchesAll(files: seq<FileEntry>)
    ensures |MatchingPaths(files, "")| == |files|
    ensures forall k :: 0 <= k < |files| ==> MatchingPaths(files, "")[k] == files[k].path
  {
    if files != [] {
      var init := files[..|files| - 1];
      EmptyIdMatchesAll(init);
      assert OccursAt(files[|files| - 1].path.name, "", 0);
    }
  }

  /** `find_media_files(media_root, mxc)` over the tree `files`. */
  function MediaFilesOf(files: seq<FileEntry>, mxc: string): seq<FilePath>
  {
    match ParseMxc(Str(mxc))
    case None => []
    case Some((_, id)) => MatchingPaths(files, id)
  }

  /** A file exists at `p`. */
  predicate Exists(files: seq<FileEntry>, p: FilePath)
  {
    exists k :: 0 <= k < |files| && files[k].path == p
  }

  /** `p.stat().st_size` for an existing `p`. */
  function SizeAt(files: seq<FileEntry>, p: FilePath): nat
  {
    if files == [] then 0
    else if files[0].path == p then files[0].size
    else SizeAt(files[1..], p)
  }

  /** The size `stat` reports for an existing path is that of a file at it. */
  lemma {:induction false} SizeAtEntry(files: seq<FileEntry>, p: FilePath)
    requires Exists(files, p)
    ensures exists k :: 0 <= k < |files| && files[k].path == p && files[k].size == SizeAt(files, p)
  {
    if files[0].path != p {
      var rest := files[1..];
      assert Exists(rest, p) by {
        var k :| 0 <= k < |files| && files[k].path == p;
        assert rest[k - 1] == files[k];
      }
      SizeAtEntry(rest, p);
      var k :| 0 <= k < |rest| && rest[k].path == p && rest[k].size == SizeAt(rest, p);
      assert files[k + 1] == rest[k];
    }
  }

  /** The tree after `p.unlink()`: every other file is still there. */
  function Without(files: seq<FileEntry>, p: FilePath): (r: seq<FileEntry>)
    ensures |r| <= |files|
    ensures forall q :: Exists(r, q) <==> Exists(files, q) && q != p
  {
    if files == [] then []
    else
      var rest := Without(files[1..], p);
      assert forall q :: Exists(files, q) <==> files[0].path == q || Exists(files[1..], q);
      if files[0].path == p then rest
      else
        var r := [files[0]] + rest;
        assert forall q :: Exists(r, q) <==> files[0].path == q || Exists(rest, q) by {
          assert r[0] == files[0];
          forall q | Exists(rest, q) ensures Exists(r, q) {
            var k :| 0 <= k < |rest| && rest[k].path == q;
            assert r[k + 1] == rest[k];
          }
          forall q | Exists(r, q) && files[0].path != q ensures Exists(rest, q) {
            var k :| 0 <= k < |r| && r[k].path == q;
            assert r[k] == rest[k - 1];
          }
        }
        r
  }

  /** The total size of the tree's files. */
  function TotalSize(files: seq<FileEntry>): nat
  {
    if files == [] then 0 else files[0].size + TotalSize(files[1..])
  }

  /** No two files of a tree share a path. */
  predicate UniquePaths(files: seq<FileEntry>)
  {
    forall i, j :: 0 <= i < j < |files| ==> files[i].path != files[j].path
  }

  /** Unlinking a path that holds no file leaves the tree as it was. */
  lemma {:induction false} WithoutAbsent(files: seq<FileEntry>, p: FilePath)
    requires !Exists(files, p)
    ensures Without(files, p) == files
  {
    if files != [] {
      assert files[0].path != p;
      assert !Exists(files[1..], p) by {
        forall k | 0 <= k < |files[1..]| ensures files[1..][k].path != p {
          assert files[1..][k] == files[k + 1];
        }
      }
      WithoutAbsent(files[1..], p);
      assert files == [files[0]] + files[1..];
    }
  }

  /** In a tree without shared paths, unlinking `p` takes away exactly the bytes of
      the file at `p`, and the tree keeps its paths apart. */
  lemma {:induction false} WithoutSize(files: seq<FileEntry>, p: FilePath)
    ensures UniquePaths(files) ==>
              TotalSize(Without(files, p)) + (if Exists(files, p) then SizeAt(files, p) else 0) == TotalSize(files)
    ensures UniquePaths(files) ==> UniquePaths(Without(files, p))
  {
    if files != [] && UniquePaths(files) {
      var rest := files[1..];
      assert UniquePaths(rest) by {
        forall i, j | 0 <= i < j < |rest| ensures rest[i].path != rest[j].path {
          assert rest[i] == files[i + 1] && rest[j] == files[j + 1];
        }
      }
      assert Exists(files, p) <==> files[0].path == p || Exists(rest, p) by {
        assert files[0] == files[0];
        forall k | 0 <= k < |rest| ensures rest[k] == files[k + 1] { }
      }
      if files[0].path == p {
        assert !Exists(rest, p) by {
          forall k | 0 <= k < |rest| ensures rest[k].path != p {
            assert rest[k] == files[k + 1];
          }
        }
        WithoutAbsent(rest, p);
      } else {
        WithoutSize(rest, p);
        var w := Without(rest, p);
        var r := [files[0]] + w;
        assert r[1..] == w;
        assert !Exists(rest, files[0].path) by {
          forall k | 0 <= k < |rest| ensures rest[k].path != files[0].path {
            assert rest[k] == files[k + 1];
          }
        }
        forall i, j | 0 <= i < j < |r| ensures r[i].path != r[j].path {
          if i > 0 {
            assert r[i] == w[i - 1] && r[j] == w[j - 1];
          } else {
            assert r[j] == w[j - 1];
          }
        }
      }
    }
  }

  /** What can go wrong on the file system: `stat` of a path in `statFails` and
      `unlink` of a path in `unlinkFails` raise. */
  datatype FsFaults = FsFaults(statFails: set<FilePath>, unlinkFails: set<FilePath>)

  /** The media directory tree that the cleaner walks and unlinks from. */
  class MediaStore {
    var files: seq<FileEntry>
    const faults: FsFaults

    constructor (files: seq<FileEntry>, faults: FsFaults)
      ensures this.files == files && this.faults == faults
    {
      this.files := files;
      this.faults := faults;
    }

    /** `find_media_files`: walks the tree and collects, in walk order, the paths of
        the files whose name contains the media id of `mxc`; nothing for a reference
        that does not parse. */
    method FindMediaFiles(mxc: string) returns (hits: seq<FilePath>)
      ensures hits == MediaFilesOf(files, mxc)
      ensures ParseMxc(Str(mxc)).None? ==> hits == []
      ensures ParseMxc(Str(mxc)).Some? ==>
                forall p :: p in hits <==>
                  exists k :: 0 <= k < |files| && files[k].path == p
                              && Contains(files[k].path.name, ParseMxc(Str(mxc)).value.1)
    {
      hits := [];
      var parsed := ParseMxc(Str(mxc));
      if parsed.None? {
        return;
      }
      var id := parsed.value.1;
      var i := 0;
      while i < |files|
        invariant 0 <= i <= |files|
        invariant hits == MatchingPaths(files[..i], id)
      {
        assert files[..i + 1][..i] == files[..i];
        if Contains(files[i].path.name, id) {
          hits := hits + [files[i].path];
        }
        i := i + 1;
      }
      assert files[..i] == files;
      forall p ensures p in hits <==>
                  exists k :: 0 <= k < |files| && files[k].path == p && Contains(files[k].path.name, id)
      {
        MatchingPathsMembers(files, id, p);
      }
    }

    /** `p.stat().st_size`: raises for a missing path and for a failing one. */
    method Stat(p: FilePath) returns (size: nat, raised: bool)
      ensures raised <==> !Exists(files, p) || p in faults.statFails
      ensures !raised ==> size == SizeAt(files, p)
    {
      raised := !Exists(files, p) || p in faults.statFails;
      size := if raised then 0 else SizeAt(files, p);
    }

    /** `p.unlink()`: raises, and removes nothing, for a missing path and for a
        failing one. */
    method Unlink(p: FilePath) returns (raised: bool)
      modifies this
      ensures raised <==> !Exists(old(files), p) || p in faults.unlinkFails
      ensures files == if raised then old(files) else Without(old(files), p)
    {
      raised := !Exists(files, p) || p in faults.unlinkFails;
      if !raised {
        files := Without(files, p);
      }
    }
  }
}
