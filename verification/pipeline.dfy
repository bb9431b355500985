/** `main` after configuration: export the genres, then rewrite every `.m3u8`
    playlist of the playlists folder into the same folder under the tmp root,
    with one hash cache shared by both phases. */
module Pipeline {
  import opened Wrappers
  import opened Text
  import opened Paths
  import opened World
  import opened HashCache
  import opened Playlist
  import opened Effects
  import opened GenreExport

  /** `MUSIC_ROOT`, `TMP_ROOT` and `PLAYLISTS_FOLDER`. */
  datatype Config = Config(musicRoot: string, tmpRoot: string, playlistsFolder: string)

  /** The entries the playlist loop rewrites. */
  predicate IsPlaylist(e: DirEntry)
  {
    Extension(e.name) == Some("m3u8")
  }

  /** Where the rewritten playlists go. */
  function PlaylistTargets(outDir: string, entries: seq<DirEntry>): set<string>
    decreases |entries|
  {
    if entries == [] then {}
    else (if IsPlaylist(entries[0]) then {Push(outDir, entries[0].name)} else {}) + PlaylistTargets(outDir, entries[1..])
  }

  /** The paths an effect sequence writes or copies to. */
  function Targets(actions: seq<Action>): set<string>
    decreases |actions|
  {
    if actions == [] then {} else {actions[0].to} + Targets(actions[1..])
  }

  /** One playlist: `fs::read_to_string`, then the line loop. An unreadable
      playlist fails with the cache untouched; a failing line fails with the
      cache its earlier lines left. */
  function TranscodePlaylist(st: HashState, env: Env, musicRoot: string, path: string): (r: Result<Transcoded, Failure>)
    ensures ReadText(env, path).None? <==> r == Err(Failure(UnreadablePlaylist(path), st))
    ensures Grows(st, if r.Ok? then r.value.state else r.error.state, env)
    ensures Valid(st, env) ==> PlaylistTextOf(r) == ReferencePlaylist(env, musicRoot, path)
    ensures r.Err? ==> r.error.error.UnreadablePlaylist? || r.error.error.UnreadableFile? || r.error.error.InvalidUriComponent?
  {
    match ReadText(env, path)
    case None => Err(Failure(UnreadablePlaylist(path), st))
    case Some(text) =>
      var r := TranscodeText(st, env, musicRoot, text);
      assert r.Err? ==> r.error.error.UnreadableFile? || r.error.error.InvalidUriComponent? by {
        TranscodeErrorReasons(st, env, musicRoot, Lines(text));
      }
      assert Valid(st, env) ==> PlaylistTextOf(r) == ReferenceText(env, musicRoot, text) by {
        if Valid(st, env) {
          TranscodeMatchesReference(st, env, musicRoot, text);
        }
      }
      r
  }

  /** The playlist loop over a listing of the playlists folder: other
      entries are skipped; an unreadable playlist or a failing line aborts
      before that playlist is written. */
  function TranscodeEntries(st: HashState, env: Env, musicRoot: string, inDir: string, outDir: string, entries: seq<DirEntry>): (r: Run)
    ensures Grows(st, r.state, env)
    ensures forall a :: a in r.actions ==> a.Write?
    decreases |entries|
  {
    if entries == [] then Run([], st, None)
    else if !IsPlaylist(entries[0]) then TranscodeEntries(st, env, musicRoot, inDir, outDir, entries[1..])
    else
      var name := entries[0].name;
      match TranscodePlaylist(st, env, musicRoot, Push(inDir, name))
      case Err(f) => Run([], f.state, Some(f.error))
      case Ok(out) =>
        var rest := TranscodeEntries(out.state, env, musicRoot, inDir, outDir, entries[1..]);
        GrowsTransitive(st, out.state, rest.state, env);
        var write := Write(Push(outDir, name), out.text);
        InCons(write, rest.actions);
        Run([write] + rest.actions, rest.state, rest.aborted)
  }

  /** One playlist as it must be rewritten: read it, then rewrite it without
      a cache. */
  function ReferencePlaylist(env: Env, musicRoot: string, path: string): Result<string, Error>
  {
    match ReadText(env, path)
    case None => Err(UnreadablePlaylist(path))
    case Some(text) => ReferenceText(env, musicRoot, text)
  }

  /** The playlist loop as it must behave, computed without a cache. */
  function TranscodePlan(env: Env, musicRoot: string, inDir: string, outDir: string, entries: seq<DirEntry>): Plan
    decreases |entries|
  {
    if entries == [] then Plan([], None)
    else if !IsPlaylist(entries[0]) then TranscodePlan(env, musicRoot, inDir, outDir, entries[1..])
    else
      var name := entries[0].name;
      match ReferencePlaylist(env, musicRoot, Push(inDir, name))
      case Err(e) => Plan([], Some(e))
      case Ok(written) =>
        var rest := TranscodePlan(env, musicRoot, inDir, outDir, entries[1..]);
        Plan([Write(Push(outDir, name), written)] + rest.actions, rest.aborted)
  }

  /** Unfolds one step of the playlist loop's plan. */
  lemma TranscodePlanStep(env: Env, musicRoot: string, inDir: string, outDir: string, entries: seq<DirEntry>)
    requires entries != []
    ensures var plan := TranscodePlan(env, musicRoot, inDir, outDir, entries);
      var rest := TranscodePlan(env, musicRoot, inDir, outDir, entries[1..]);
      var written := ReferencePlaylist(env, musicRoot, Push(inDir, entries[0].name));
      && (!IsPlaylist(entries[0]) ==> plan == rest)
      && (IsPlaylist(entries[0]) && written.Err? ==> plan == Plan([], Some(written.error)))
      && (IsPlaylist(entries[0]) && written.Ok? ==>
            plan == Plan([Write(Push(outDir, entries[0].name), written.value)] + rest.actions, rest.aborted))
  {
  }

  /** The loop writes only `.m3u8` targets, and when it completes it has
      written every one of them. */
  lemma {:induction false} TranscodePlanTargets(env: Env, musicRoot: string, inDir: string, outDir: string, entries: seq<DirEntry>)
    ensures var plan := TranscodePlan(env, musicRoot, inDir, outDir, entries);
      && (forall a :: a in plan.actions ==> a.Write?)
      && Targets(plan.actions) <= PlaylistTargets(outDir, entries)
      && (plan.aborted.None? ==> Targets(plan.actions) == PlaylistTargets(outDir, entries))
    decreases |entries|
  {
    if entries != [] {
      TranscodePlanStep(env, musicRoot, inDir, outDir, entries);
      TranscodePlanTargets(env, musicRoot, inDir, outDir, entries[1..]);
      var restPlan := TranscodePlan(env, musicRoot, inDir, outDir, entries[1..]);
      var written := ReferencePlaylist(env, musicRoot, Push(inDir, entries[0].name));
      if IsPlaylist(entries[0]) && written.Ok? {
        var w := Write(Push(outDir, entries[0].name), written.value);
        assert ([w] + restPlan.actions)[1..] == restPlan.actions;
        InCons(w, restPlan.actions);
      }
    }
  }

  /** With a valid cache the playlist loop performs exactly the planned
      writes: every written playlist is the reference rewriting. */
  lemma {:induction false} TranscodeMatchesPlan(st: HashState, env: Env, musicRoot: string, inDir: string, outDir: string, entries: seq<DirEntry>)
    requires Valid(st, env)
    ensures PlanOf(TranscodeEntries(st, env, musicRoot, inDir, outDir, entries)) == TranscodePlan(env, musicRoot, inDir, outDir, entries)
    decreases |entries|
  {
    if entries != [] {
      var rest := entries[1..];
      if !IsPlaylist(entries[0]) {
        TranscodeMatchesPlan(st, env, musicRoot, inDir, outDir, rest);
      } else {
        var out := TranscodePlaylist(st, env, musicRoot, Push(inDir, entries[0].name));
        if out.Ok? {
          TranscodeMatchesPlan(out.value.state, env, musicRoot, inDir, outDir, rest);
        }
      }
    }
  }

  /** The playlists folder: listed under the music root (an unlistable
      folder aborts), rewritten into the same name under the tmp root. */
  function TranscodeFolder(st: HashState, env: Env, cfg: Config): (r: Run)
    ensures Extends(st.cache, r.state.cache)
    ensures Valid(st, env) ==> Valid(r.state, env)
    ensures ComputedOnce(st) ==> ComputedOnce(r.state)
    ensures forall a :: a in r.actions ==> a.Write?
    ensures env.listDir(Push(cfg.musicRoot, cfg.playlistsFolder)).None? <==>
      r.aborted == Some(MissingPlaylistsFolder(Push(cfg.musicRoot, cfg.playlistsFolder)))
  {
    var inDir := Push(cfg.musicRoot, cfg.playlistsFolder);
    match env.listDir(inDir)
    case None => Run([], st, Some(MissingPlaylistsFolder(inDir)))
    case Some(entries) =>
      var r := TranscodeEntries(st, env, cfg.musicRoot, inDir, Push(cfg.tmpRoot, cfg.playlistsFolder), entries);
      assert r.aborted != Some(MissingPlaylistsFolder(inDir)) by {
        TranscodeAbortReasons(st, env, cfg.musicRoot, inDir, Push(cfg.tmpRoot, cfg.playlistsFolder), entries);
      }
      r
  }

  /** The playlist loop aborts only on a playlist or a track it cannot read
      or decode. */
  lemma {:induction false} TranscodeAbortReasons(st: HashState, env: Env, musicRoot: string, inDir: string, outDir: string, entries: seq<DirEntry>)
    ensures var r := TranscodeEntries(st, env, musicRoot, inDir, outDir, entries);
      r.aborted.Some? ==> r.aborted.value.UnreadablePlaylist? || r.aborted.value.UnreadableFile? || r.aborted.value.InvalidUriComponent?
    decreases |entries|
  {
    if entries != [] {
      var rest := entries[1..];
      if !IsPlaylist(entries[0]) {
        TranscodeAbortReasons(st, env, musicRoot, inDir, outDir, rest);
      } else {
        var out := TranscodePlaylist(st, env, musicRoot, Push(inDir, entries[0].name));
        if out.Ok? {
          TranscodeAbortReasons(out.value.state, env, musicRoot, inDir, outDir, rest);
        }
      }
    }
  }

  /** A failing line is an undecodable line or an unreadable track. */
  lemma {:induction false} TranscodeErrorReasons(st: HashState, env: Env, musicRoot: string, lines: seq<string>)
    ensures var r := TransformLines(st, env, musicRoot, lines);
      r.Err? ==> r.error.error.UnreadableFile? || r.error.error.InvalidUriComponent?
    decreases |lines|
  {
    if lines != [] {
      var first := TransformLine(st, env, musicRoot, lines[0]);
      if first.Ok? {
        TranscodeErrorReasons(first.value.state, env, musicRoot, lines[1..]);
      } else {
        TrackLineRewrite(st, env, musicRoot, lines[0]);
      }
    }
  }

  /** The whole program: genres first, then playlists, starting from an
      empty cache. On return the cache holds only true content hashes and no
      file was hashed twice. */
  function RunProgram(env: Env, cfg: Config, genres: seq<string>): (r: Run)
    ensures Valid(r.state, env) && ComputedOnce(r.state)
    ensures forall a :: a in r.actions && a.Copy? ==>
      a.from in env.files && EndsWith(a.to, HashFileName(ContentHash(env, a.from)))
  {
    EmptyIsValid(env);
    var exported := ExportGenres(Empty, env, cfg.musicRoot, cfg.tmpRoot, genres);
    if exported.aborted.Some? then exported
    else
      var transcoded := TranscodeFolder(exported.state, env, cfg);
      Run(exported.actions + transcoded.actions, transcoded.state, transcoded.aborted)
  }

  /** An exported copy and a playlist line that refers to the same path carry
      the same `<hash>.mp3` name, whatever the cache held before either. */
  lemma RoundTripNaming(st1: HashState, st2: HashState, env: Env, srcPath: string, outPath: string,
                        entries: seq<DirEntry>, copy: Action, musicRoot: string, line: string, decoded: string)
    requires Valid(st1, env) && Valid(st2, env)
    requires copy in ExportEntries(st1, env, srcPath, outPath, entries).actions
    requires !IsComment(line) && env.percentDecode(line) == Some(decoded) && CacheKey(decoded) == copy.from
    ensures copy.from in env.files
    ensures var name := HashFileName(ContentHash(env, copy.from));
      && copy.to == Push(outPath, name)
      && TextOf(TransformLine(st2, env, musicRoot, line)) == Ok(RewritePath(RelativeParent(RelativeName(copy.from, musicRoot)), name))
  {
  }

  /** The effects of the whole program as they must be, computed without a
      cache. */
  function ReferenceRun(env: Env, cfg: Config, genres: seq<string>): Plan
  {
    var exported := ExportGenresPlan(env, cfg.musicRoot, cfg.tmpRoot, genres);
    if exported.aborted.Some? then exported
    else
      var inDir := Push(cfg.musicRoot, cfg.playlistsFolder);
      match env.listDir(inDir)
      case None => Plan(exported.actions, Some(MissingPlaylistsFolder(inDir)))
      case Some(entries) =>
        var transcoded := TranscodePlan(env, cfg.musicRoot, inDir, Push(cfg.tmpRoot, cfg.playlistsFolder), entries);
        Plan(exported.actions + transcoded.actions, transcoded.aborted)
  }

  /** The program's effects depend only on the library, not on the order in
      which the cache was filled: a second run over an unchanged library
      copies to the same names and writes the same playlists. */
  lemma RunMatchesReference(env: Env, cfg: Config, genres: seq<string>)
    ensures PlanOf(RunProgram(env, cfg, genres)) == ReferenceRun(env, cfg, genres)
  {
    EmptyIsValid(env);
    ExportGenresMatchesPlan(Empty, env, cfg.musicRoot, cfg.tmpRoot, genres);
    var exported := ExportGenres(Empty, env, cfg.musicRoot, cfg.tmpRoot, genres);
    var inDir := Push(cfg.musicRoot, cfg.playlistsFolder);
    if exported.aborted.None? && env.listDir(inDir).Some? {
      TranscodeMatchesPlan(exported.state, env, cfg.musicRoot, inDir, Push(cfg.tmpRoot, cfg.playlistsFolder), env.listDir(inDir).value);
    }
  }
}
