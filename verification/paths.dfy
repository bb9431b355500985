/** The parts of Rust's `std::path` the program uses, for Unix paths held as
    strings: `PathBuf::push` (and `Path::join`, which is a push onto a copy),
    `Path::parent` and `Path::extension`. */
module Paths {
  import opened Wrappers
  import opened Text

  predicate IsAbsolute(p: string)
  {
    |p| > 0 && p[0] == '/'
  }

  /** `PathBuf::push`: an absolute path replaces the buffer; a relative one
      is appended, after a `/` only when the buffer is non-empty and does not
      already end in one. */
  function Push(buf: string, path: string): (r: string)
    ensures EndsWith(r, path)
    ensures IsAbsolute(path) ==> r == path
    ensures !IsAbsolute(path) ==> StartsWith(r, buf) && |buf| + |path| <= |r| <= |buf| + 1 + |path|
    ensures !IsAbsolute(path) ==> (|r| == |buf| + 1 + |path| <==> |buf| > 0 && buf[|buf| - 1] != '/')
    ensures |r| == |buf| + 1 + |path| ==> r[|buf|] == '/'
  {
    if IsAbsolute(path) then path
    else if |buf| > 0 && buf[|buf| - 1] != '/' then buf + "/" + path
    else buf + path
  }

  /** `Path::parent` on a normalised path: everything before the last `/`;
      the root `/` for a child of the root; the empty path for a bare name;
      no parent at all for the empty path and for `/`. */
  function Parent(p: string): (r: Option<string>)
    ensures r.None? <==> p == "" || p == "/"
    ensures r == Some("") <==> p != "" && '/' !in p
    ensures r.Some? ==> |r.value| < |p| && StartsWith(p, r.value)
  {
    if p == "" || p == "/" then None
    else match LastIndexOf(p, '/')
      case None => Some("")
      case Some(i) => if i == 0 then Some("/") else Some(p[..i])
  }

  /** The parent a track line is filed under: `Path::parent`, with no parent
      read as the empty path. */
  function RelativeParent(p: string): string
  {
    match Parent(p)
    case None => ""
    case Some(q) => q
  }

  /** `Parent` undoes a join: the parent of `dir/name` is `dir`. */
  lemma ParentOfJoin(dir: string, name: string)
    requires dir != "" && name != "" && '/' !in name
    ensures Parent(dir + "/" + name) == Some(dir)
  {
    LastIndexOfSplit(dir, '/', name);
    assert (dir + "/" + name)[..|dir|] == dir;
  }

  /** `Parent` undoes `Push`: pushing a file name onto a directory and taking
      the parent gives the directory back. */
  lemma ParentOfPush(dir: string, name: string)
    requires dir != "" && dir[|dir| - 1] != '/'
    requires name != "" && '/' !in name
    ensures Parent(Push(dir, name)) == Some(dir)
  {
    assert !IsAbsolute(name) by {
      assert name[0] in name;
    }
    ParentOfJoin(dir, name);
  }

  /** The parent of a name directly under the root is the root itself. */
  lemma ParentOfRootChild(name: string)
    requires name != "" && '/' !in name
    ensures Parent("/" + name) == Some("/")
  {
  }

  /** `Path::extension` of a file name: the text after the last `.`, unless
      there is no `.`, the only `.` leads the name, or the name is `..`. */
  function Extension(name: string): (r: Option<string>)
    ensures r.Some? ==> '.' !in r.value && EndsWith(name, "." + r.value) && |r.value| + 1 < |name|
  {
    if name == ".." then None
    else match LastIndexOf(name, '.')
      case None => None
      case Some(i) =>
        if i == 0 then None
        else
          assert name[i..] == "." + name[i + 1..];
          Some(name[i + 1..])
  }

  /** A name has extension `e` (which holds no `.`) exactly when it is a
      non-empty stem other than `.` followed by `.e`. */
  lemma ExtensionIff(name: string, e: string)
    requires '.' !in e
    ensures Extension(name) == Some(e) <==> name != ".." && |name| > |e| + 1 && EndsWith(name, "." + e)
  {
    if name != ".." && |name| > |e| + 1 && EndsWith(name, "." + e) {
      var k := |name| - |e| - 1;
      assert name[k..] == "." + e;
      assert name == name[..k] + ['.'] + e;
      LastIndexOfSplit(name[..k], '.', e);
    }
  }

  /** The playlist filter: `Extension(name) == Some("m3u8")` keeps exactly the
      names ending in `.m3u8` with a non-empty stem, so `.m3u8` itself and
      `list.M3U8` are skipped. */
  lemma M3u8Filter(name: string)
    ensures Extension(name) == Some("m3u8") <==> |name| > 5 && EndsWith(name, ".m3u8")
  {
    ExtensionIff(name, "m3u8");
  }
}
