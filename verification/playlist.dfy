/** `generate_transformed_playlist`: each line of an `.m3u8` playlist is kept
    if it is a comment and otherwise rewritten to `../<parent>/<hash>.mp3`,
    threading the hash cache through the lines. */
module Playlist {
  import opened Wrappers
  import opened Text
  import opened Paths
  import opened World
  import opened HashCache

  predicate IsComment(line: string)
  {
    StartsWith(line, "#")
  }

  /** The cache key of a decoded track line: every `file://` removed. */
  function CacheKey(decoded: string): string
  {
    ReplaceAll(decoded, "file://")
  }

  /** The path relative to the music root: every occurrence of the root
      string removed. */
  function RelativeName(key: string, musicRoot: string): string
  {
    ReplaceAll(key, musicRoot)
  }

  /** `PathBuf::from("..")`, then `push(parent)`, then `push(fileName)`. */
  function RewritePath(parent: string, fileName: string): (r: string)
    ensures !IsAbsolute(fileName) ==>
      && (parent == "" ==> r == "../" + fileName)
      && (parent != "" && !IsAbsolute(parent) && parent[|parent| - 1] != '/' ==> r == "../" + parent + "/" + fileName)
      && (parent != "" && !IsAbsolute(parent) && parent[|parent| - 1] == '/' ==> r == "../" + parent + fileName)
      && (IsAbsolute(parent) && parent[|parent| - 1] != '/' ==> r == parent + "/" + fileName)
      && (IsAbsolute(parent) && parent[|parent| - 1] == '/' ==> r == parent + fileName)
  {
    Push(Push("..", parent), fileName)
  }

  /** The rewritten text of one line, and the cache after it. */
  datatype LineOut = LineOut(text: string, state: HashState)

  /** One iteration of the line loop. */
  function TransformLine(st: HashState, env: Env, musicRoot: string, line: string): (r: Result<LineOut, Error>)
    ensures IsComment(line) ==> r == Ok(LineOut(line, st))
    ensures r.Ok? ==> Extends(st.cache, r.value.state.cache)
    ensures r.Ok? && Valid(st, env) ==> Valid(r.value.state, env)
    ensures r.Ok? && ComputedOnce(st) ==> ComputedOnce(r.value.state)
    ensures Valid(st, env) ==> TextOf(r) == ReferenceLine(env, musicRoot, line)
  {
    if IsComment(line) then Ok(LineOut(line, st))
    else match env.percentDecode(line)
      case None => Err(InvalidUriComponent(line))
      case Some(decoded) =>
        var key := CacheKey(decoded);
        var parent := RelativeParent(RelativeName(key, musicRoot));
        match GetOrCompute(st, env, key)
        case Err(e) => Err(e)
        case Ok(found) => Ok(LineOut(RewritePath(parent, HashFileName(found.hash)), found.state))
  }

  /** What a track line is rewritten to: the cache key is the decoded line
      with every `file://` removed, the parent comes from the key with every
      occurrence of the music root removed, and the file name is the hash the
      cache holds for the key afterwards. A failure is either an undecodable
      line or a key that is neither cached nor readable. */
  lemma TrackLineRewrite(st: HashState, env: Env, musicRoot: string, line: string)
    requires !IsComment(line)
    ensures var r := TransformLine(st, env, musicRoot, line);
      match env.percentDecode(line)
      case None => r == Err(InvalidUriComponent(line))
      case Some(d) =>
        var key := CacheKey(d);
        && (r.Err? <==> key !in st.cache && key !in env.files)
        && (r.Err? ==> r.error == UnreadableFile(key))
        && (r.Ok? ==> key in r.value.state.cache)
        && (r.Ok? ==> r.value.text == RewritePath(RelativeParent(RelativeName(key, musicRoot)), HashFileName(r.value.state.cache[key])))
        && (key in st.cache ==> r == Ok(LineOut(RewritePath(RelativeParent(RelativeName(key, musicRoot)), HashFileName(st.cache[key])), st)))
  {
  }

  function TextOf(r: Result<LineOut, Error>): Result<string, Error>
  {
    match r
    case Ok(out) => Ok(out.text)
    case Err(e) => Err(e)
  }

  /** The line as it must be rewritten, computed without a cache: the hash
      is the digest of the referenced file's content. */
  function ReferenceLine(env: Env, musicRoot: string, line: string): Result<string, Error>
  {
    if IsComment(line) then Ok(line)
    else match env.percentDecode(line)
      case None => Err(InvalidUriComponent(line))
      case Some(decoded) =>
        var key := CacheKey(decoded);
        if key !in env.files then Err(UnreadableFile(key))
        else Ok(RewritePath(RelativeParent(RelativeName(key, musicRoot)), HashFileName(ContentHash(env, key))))
  }

  /** The rewritten lines, and the cache after the last of them. */
  datatype Rewritten = Rewritten(lines: seq<string>, state: HashState)

  /** Why a playlist was abandoned, and the cache at that moment: the hashes
      computed for its earlier lines stay in the cache. */
  datatype Failure = Failure(error: Error, state: HashState)

  /** The line loop; the first failing line aborts the whole playlist. */
  function TransformLines(st: HashState, env: Env, musicRoot: string, lines: seq<string>): (r: Result<Rewritten, Failure>)
    ensures r.Ok? ==> |r.value.lines| == |lines|
    ensures r.Ok? ==> forall k :: 0 <= k < |lines| && IsComment(lines[k]) ==> r.value.lines[k] == lines[k]
    ensures Grows(st, if r.Ok? then r.value.state else r.error.state, env)
    decreases |lines|
  {
    if lines == [] then Ok(Rewritten([], st))
    else match TransformLine(st, env, musicRoot, lines[0])
      case Err(e) => Err(Failure(e, st))
      case Ok(first) =>
        var tail := TransformLines(first.state, env, musicRoot, lines[1..]);
        GrowsTransitive(st, first.state, if tail.Ok? then tail.value.state else tail.error.state, env);
        match tail
        case Err(e) => Err(e)
        case Ok(rest) =>
          var out := [first.text] + rest.lines;
          assert forall k :: 0 <= k < |lines| && IsComment(lines[k]) ==> out[k] == lines[k] by {
            forall k | 1 <= k < |lines| && IsComment(lines[k])
              ensures out[k] == lines[k]
            {
              assert out[k] == rest.lines[k - 1] && lines[1..][k - 1] == lines[k];
            }
          }
          Ok(Rewritten(out, rest.state))
  }

  /** A run of comment lines is copied unchanged and leaves the cache as it
      was. */
  lemma {:induction false} CommentLinesUnchanged(st: HashState, env: Env, musicRoot: string, lines: seq<string>)
    requires forall k :: 0 <= k < |lines| ==> IsComment(lines[k])
    ensures TransformLines(st, env, musicRoot, lines) == Ok(Rewritten(lines, st))
    decreases |lines|
  {
    if lines != [] {
      assert IsComment(lines[0]);
      CommentLinesUnchanged(st, env, musicRoot, lines[1..]);
      assert lines == [lines[0]] + lines[1..];
    }
  }

  /** The reference rewriting of a line sequence: the first error, or every
      line's reference rewriting. */
  function ReferenceLines(env: Env, musicRoot: string, lines: seq<string>): Result<seq<string>, Error>
    decreases |lines|
  {
    if lines == [] then Ok([])
    else match ReferenceLine(env, musicRoot, lines[0])
      case Err(e) => Err(e)
      case Ok(first) =>
        match ReferenceLines(env, musicRoot, lines[1..])
        case Err(e) => Err(e)
        case Ok(rest) => Ok([first] + rest)
  }

  function LinesOf(r: Result<Rewritten, Failure>): Result<seq<string>, Error>
  {
    match r
    case Ok(out) => Ok(out.lines)
    case Err(f) => Err(f.error)
  }

  /** With a valid cache, the line loop produces exactly the reference
      rewriting (or the same error): the cache saves work and changes nothing
      else. */
  lemma {:induction false} TransformLinesMatchesReference(st: HashState, env: Env, musicRoot: string, lines: seq<string>)
    requires Valid(st, env)
    ensures LinesOf(TransformLines(st, env, musicRoot, lines)) == ReferenceLines(env, musicRoot, lines)
    decreases |lines|
  {
    if lines != [] {
      var first := TransformLine(st, env, musicRoot, lines[0]);
      if first.Ok? {
        TransformLinesMatchesReference(first.value.state, env, musicRoot, lines[1..]);
      }
    }
  }

  /** A failing loop stops at its first failing line `k`: the lines before
      it are rewritten, and the failure carries the cache as they left it,
      with every hash computed for them. */
  lemma {:induction false} FailingLine(st: HashState, env: Env, musicRoot: string, lines: seq<string>) returns (k: nat)
    requires TransformLines(st, env, musicRoot, lines).Err?
    ensures var f := TransformLines(st, env, musicRoot, lines).error;
      && k < |lines|
      && TransformLines(st, env, musicRoot, lines[..k]).Ok?
      && TransformLines(st, env, musicRoot, lines[..k]).value.state == f.state
      && TransformLine(f.state, env, musicRoot, lines[k]) == Err(f.error)
    decreases |lines|
  {
    var first := TransformLine(st, env, musicRoot, lines[0]);
    if first.Err? {
      k := 0;
      assert lines[..0] == [];
    } else {
      var j := FailingLine(first.value.state, env, musicRoot, lines[1..]);
      k := j + 1;
      assert lines[..k][0] == lines[0];
      assert lines[..k][1..] == lines[1..][..j];
      assert lines[k] == lines[1..][j];
    }
  }

  /** The rewritten playlist text, the lines it consists of, and the cache
      after it. */
  datatype Transcoded = Transcoded(text: string, lines: seq<string>, state: HashState)

  /** `generate_transformed_playlist` after the file has been read: every
      input line of `str::lines` gives one output line, each followed by one
      `\n`; any failure aborts with no output. */
  function TranscodeText(st: HashState, env: Env, musicRoot: string, text: string): (r: Result<Transcoded, Failure>)
    ensures r.Ok? ==> r.value.text == Terminated(r.value.lines) && |r.value.lines| == |Lines(text)|
    ensures r.Ok? ==> forall k :: 0 <= k < |Lines(text)| && IsComment(Lines(text)[k]) ==> r.value.lines[k] == Lines(text)[k]
    ensures Grows(st, if r.Ok? then r.value.state else r.error.state, env)
    ensures text == "" ==> r == Ok(Transcoded("", [], st))
  {
    match TransformLines(st, env, musicRoot, Lines(text))
    case Err(f) => Err(f)
    case Ok(out) => Ok(Transcoded(Terminated(out.lines), out.lines, out.state))
  }

  /** The playlist text as it must be rewritten, computed without a cache. */
  function ReferenceText(env: Env, musicRoot: string, text: string): Result<string, Error>
  {
    match ReferenceLines(env, musicRoot, Lines(text))
    case Err(e) => Err(e)
    case Ok(lines) => Ok(Terminated(lines))
  }

  function PlaylistTextOf(r: Result<Transcoded, Failure>): Result<string, Error>
  {
    match r
    case Ok(out) => Ok(out.text)
    case Err(f) => Err(f.error)
  }

  /** With a valid cache the rewritten playlist, or the error, is the
      reference one. */
  lemma TranscodeMatchesReference(st: HashState, env: Env, musicRoot: string, text: string)
    requires Valid(st, env)
    ensures PlaylistTextOf(TranscodeText(st, env, musicRoot, text)) == ReferenceText(env, musicRoot, text)
  {
    TransformLinesMatchesReference(st, env, musicRoot, Lines(text));
  }

  /** Rewriting does not depend on what the cache already holds, as long as
      it is valid: a second run over an unchanged library, or a run in
      another order, writes the same playlist. */
  lemma TranscodeIndependentOfCache(st1: HashState, st2: HashState, env: Env, musicRoot: string, text: string)
    requires Valid(st1, env) && Valid(st2, env)
    ensures PlaylistTextOf(TranscodeText(st1, env, musicRoot, text)) == PlaylistTextOf(TranscodeText(st2, env, musicRoot, text))
  {
    TranscodeMatchesReference(st1, env, musicRoot, text);
    TranscodeMatchesReference(st2, env, musicRoot, text);
  }

  /** A playlist holding only comments, with `\n` line ends, is copied
      unchanged and reads no file; a `\r` inside a comment is kept. */
  lemma CommentOnlyPlaylistUnchanged(st: HashState, env: Env, musicRoot: string, text: string)
    requires NoCrBeforeNewline(text)
    requires text == "" || text[|text| - 1] == '\n'
    requires forall k :: 0 <= k < |Lines(text)| ==> IsComment(Lines(text)[k])
    ensures TranscodeText(st, env, musicRoot, text) == Ok(Transcoded(text, Lines(text), st))
  {
    CommentLinesUnchanged(st, env, musicRoot, Lines(text));
    TerminatedOfLines(text);
  }

  /** A track whose relative name has no `/` lies directly under the music
      root and becomes `../<hash>.mp3`, with no doubled separator. */
  lemma TrackUnderRoot(st: HashState, env: Env, musicRoot: string, line: string, decoded: string)
    requires Valid(st, env)
    requires !IsComment(line) && env.percentDecode(line) == Some(decoded)
    requires CacheKey(decoded) in env.files
    requires '/' !in RelativeName(CacheKey(decoded), musicRoot)
    ensures TextOf(TransformLine(st, env, musicRoot, line)) == Ok("../" + HashFileName(ContentHash(env, CacheKey(decoded))))
  {
  }

  /** A track at `<genre>/<name>` below the music root becomes
      `../<genre>/<hash>.mp3`. */
  lemma TrackInGenre(st: HashState, env: Env, musicRoot: string, line: string, decoded: string, genre: string, name: string)
    requires Valid(st, env)
    requires !IsComment(line) && env.percentDecode(line) == Some(decoded)
    requires CacheKey(decoded) in env.files
    requires RelativeName(CacheKey(decoded), musicRoot) == genre + "/" + name
    requires genre != "" && !IsAbsolute(genre) && genre[|genre| - 1] != '/' && name != "" && '/' !in name
    ensures TextOf(TransformLine(st, env, musicRoot, line)) == Ok("../" + genre + "/" + HashFileName(ContentHash(env, CacheKey(decoded))))
  {
    var key := CacheKey(decoded);
    var h := ContentHash(env, key);
    assert RelativeParent(RelativeName(key, musicRoot)) == genre by {
      ParentOfJoin(genre, name);
    }
    assert ReferenceLine(env, musicRoot, line) == Ok(RewritePath(genre, HashFileName(h)));
    assert RewritePath(genre, HashFileName(h)) == "../" + genre + "/" + HashFileName(h) by {
      assert HashFileName(h)[0] == h[0];
    }
  }

  /** Example: with music root `/lib/`, a line that decodes to
      `file:///lib/Rock/Song A.mp3` becomes `../Rock/<hash>.mp3`. */
  lemma RockSongExample(st: HashState, env: Env, line: string)
    requires Valid(st, env)
    requires !IsComment(line) && env.percentDecode(line) == Some("file:///lib/Rock/Song A.mp3")
    requires "/lib/Rock/Song A.mp3" in env.files
    ensures TextOf(TransformLine(st, env, "/lib/", line)) == Ok("../Rock/" + HashFileName(ContentHash(env, "/lib/Rock/Song A.mp3")))
  {
    RockSongNames();
    var genre := "Rock";
    assert genre != "" && !IsAbsolute(genre) && genre[|genre| - 1] != '/';
    TrackInGenre(st, env, "/lib/", line, "file:///lib/Rock/Song A.mp3", genre, "Song A.mp3");
    var n := HashFileName(ContentHash(env, "/lib/Rock/Song A.mp3"));
    RockPrefix();
    assert "../" + genre + "/" + n == "../Rock/" + n;
  }

  lemma RockPrefix()
    ensures "../" + "Rock" + "/" == "../Rock/"
  {
  }

  lemma RockSongNames()
    ensures CacheKey("file:///lib/Rock/Song A.mp3") == "/lib/Rock/Song A.mp3"
    ensures RelativeName("/lib/Rock/Song A.mp3", "/lib/") == "Rock" + "/" + "Song A.mp3"
    ensures '/' !in "Song A.mp3"
  {
    var name := "Song A.mp3";
    var rel := "Rock" + "/" + name;
    var key := "/lib/" + rel;
    forall i | 0 <= i < |name| ensures name[i] != '/' { }
    forall i | 0 <= i < |rel| ensures rel[i] != 'l' { }
    forall i | 0 <= i < |key| ensures key[i] != 'f' { }
    assert key == "/lib/Rock/Song A.mp3";
    assert "file:///lib/Rock/Song A.mp3" == "file://" + key;
    ReplaceAllLeading("file://", key);
    ReplaceAllMissingChar(key, "file://", 0);
    ReplaceAllLeading("/lib/", rel);
    ReplaceAllMissingChar(rel, "/lib/", 1);
  }

  /** When the music root is configured without a trailing `/`, the relative
      name keeps a leading `/`, `PathBuf::push` treats the parent as absolute
      and discards the `..`: the line becomes `/<genre>/<hash>.mp3`. */
  lemma RootWithoutTrailingSlash(st: HashState, env: Env, musicRoot: string, line: string, decoded: string, genre: string, name: string)
    requires Valid(st, env)
    requires !IsComment(line) && env.percentDecode(line) == Some(decoded)
    requires CacheKey(decoded) in env.files
    requires RelativeName(CacheKey(decoded), musicRoot) == "/" + genre + "/" + name
    requires genre != "" && genre[|genre| - 1] != '/' && name != "" && '/' !in name
    ensures TextOf(TransformLine(st, env, musicRoot, line)) == Ok("/" + genre + "/" + HashFileName(ContentHash(env, CacheKey(decoded))))
  {
    var key := CacheKey(decoded);
    var parent := "/" + genre;
    assert "/" + genre + "/" + name == parent + "/" + name;
    ParentOfJoin(parent, name);
    assert RelativeParent(RelativeName(key, musicRoot)) == parent;
    assert IsAbsolute(parent) && parent[|parent| - 1] == genre[|genre| - 1];
    var h := ContentHash(env, key);
    assert !IsAbsolute(HashFileName(h)) by {
      assert HashFileName(h)[0] == h[0];
    }
    assert RewritePath(parent, HashFileName(h)) == parent + "/" + HashFileName(h);
    assert ReferenceLine(env, musicRoot, line) == Ok(parent + "/" + HashFileName(h));
  }

  /** An empty line is not a comment, so it is taken as a track reference to
      the empty path, which cannot be read: the playlist is aborted. */
  lemma BlankLineAborts(st: HashState, env: Env, musicRoot: string)
    requires env.percentDecode("") == Some("")
    requires "" !in st.cache && "" !in env.files
    ensures TransformLine(st, env, musicRoot, "") == Err(UnreadableFile(""))
  {
  }
}
