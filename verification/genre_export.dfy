/** The genre loop of `main`: every regular file of `<music root>/<genre>` is
    copied to `<tmp root>/<genre>/<hash>.mp3`, its hash taken from the cache. */
module GenreExport {
  import opened Wrappers
  import opened Text
  import opened Paths
  import opened World
  import opened HashCache
  import opened Effects

  /** The paths of the entries that are not directories. */
  function FilePaths(srcPath: string, entries: seq<DirEntry>): set<string>
    decreases |entries|
  {
    if entries == [] then {}
    else (if entries[0].isDir then {} else {Push(srcPath, entries[0].name)}) + FilePaths(srcPath, entries[1..])
  }

  /** The source paths of the copies among `actions`. */
  function CopySources(actions: seq<Action>): set<string>
    decreases |actions|
  {
    if actions == [] then {}
    else (if actions[0].Copy? then {actions[0].from} else {}) + CopySources(actions[1..])
  }

  /** Copies the listed entries in order, skipping directories; the first
      unreadable file aborts. */
  function ExportEntries(st: HashState, env: Env, srcPath: string, outPath: string, entries: seq<DirEntry>): (r: Run)
    ensures Extends(st.cache, r.state.cache)
    ensures Valid(st, env) ==> Valid(r.state, env)
    ensures ComputedOnce(st) ==> ComputedOnce(r.state)
    ensures forall a :: a in r.actions ==>
      && a.Copy?
      && a.from in r.state.cache
      && a.to == Push(outPath, HashFileName(r.state.cache[a.from]))
    ensures r.aborted.Some? ==> r.aborted.value.UnreadableFile?
    decreases |entries|
  {
    if entries == [] then Run([], st, None)
    else
      var rest := entries[1..];
      if entries[0].isDir then
        ExportEntries(st, env, srcPath, outPath, rest)
      else
        var p := Push(srcPath, entries[0].name);
        match GetOrCompute(st, env, p)
        case Err(e) => Run([], st, Some(e))
        case Ok(found) =>
          var tail := ExportEntries(found.state, env, srcPath, outPath, rest);
          var copy := Copy(p, Push(outPath, HashFileName(found.hash)));
          assert p in tail.state.cache && tail.state.cache[p] == found.hash;
          InCons(copy, tail.actions);
          Run([copy] + tail.actions, tail.state, tail.aborted)
  }

  /** An export that completes has every file of the folder in the cache. */
  lemma {:induction false} ExportCachesEveryFile(st: HashState, env: Env, srcPath: string, outPath: string, entries: seq<DirEntry>)
    requires ExportEntries(st, env, srcPath, outPath, entries).aborted.None?
    ensures FilePaths(srcPath, entries) <= ExportEntries(st, env, srcPath, outPath, entries).state.cache.Keys
    decreases |entries|
  {
    if entries != [] {
      var rest := entries[1..];
      if entries[0].isDir {
        ExportCachesEveryFile(st, env, srcPath, outPath, rest);
      } else {
        var found := GetOrCompute(st, env, Push(srcPath, entries[0].name));
        ExportCachesEveryFile(found.value.state, env, srcPath, outPath, rest);
      }
    }
  }

  /** The export as it must happen, computed without a cache: each readable
      file is copied under the hash of its content. */
  function ExportPlan(env: Env, srcPath: string, outPath: string, entries: seq<DirEntry>): (r: Plan)
    decreases |entries|
  {
    if entries == [] then Plan([], None)
    else if entries[0].isDir then ExportPlan(env, srcPath, outPath, entries[1..])
    else
      var p := Push(srcPath, entries[0].name);
      if p !in env.files then Plan([], Some(UnreadableFile(p)))
      else
        var tail := ExportPlan(env, srcPath, outPath, entries[1..]);
        Plan([Copy(p, Push(outPath, HashFileName(ContentHash(env, p))))] + tail.actions, tail.aborted)
  }

  /** Every copy is of a listed non-directory entry, to the name given by its
      content's hash, also when the export aborts; a completed export copies
      every such entry. */
  lemma {:induction false} ExportPlanCopiesFiles(env: Env, srcPath: string, outPath: string, entries: seq<DirEntry>)
    ensures var plan := ExportPlan(env, srcPath, outPath, entries);
      && (forall a :: a in plan.actions ==> a.Copy? && a.from in env.files && a.to == Push(outPath, HashFileName(ContentHash(env, a.from))))
      && CopySources(plan.actions) <= FilePaths(srcPath, entries)
      && (plan.aborted.None? ==> CopySources(plan.actions) == FilePaths(srcPath, entries))
      && |plan.actions| <= |entries|
    decreases |entries|
  {
    if entries != [] {
      ExportPlanCopiesFiles(env, srcPath, outPath, entries[1..]);
      var p := Push(srcPath, entries[0].name);
      if !entries[0].isDir && p in env.files {
        var tail := ExportPlan(env, srcPath, outPath, entries[1..]);
        var copy := Copy(p, Push(outPath, HashFileName(ContentHash(env, p))));
        assert ([copy] + tail.actions)[1..] == tail.actions;
        InCons(copy, tail.actions);
      }
    }
  }

  /** With a valid cache the export performs exactly the planned effects: the
      cache saves work and changes no name. */
  lemma {:induction false} ExportMatchesPlan(st: HashState, env: Env, srcPath: string, outPath: string, entries: seq<DirEntry>)
    requires Valid(st, env)
    ensures PlanOf(ExportEntries(st, env, srcPath, outPath, entries)) == ExportPlan(env, srcPath, outPath, entries)
    decreases |entries|
  {
    if entries != [] {
      if entries[0].isDir {
        ExportMatchesPlan(st, env, srcPath, outPath, entries[1..]);
      } else {
        var p := Push(srcPath, entries[0].name);
        var found := GetOrCompute(st, env, p);
        if found.Ok? {
          ExportMatchesPlan(found.value.state, env, srcPath, outPath, entries[1..]);
        }
      }
    }
  }

  /** A genre folder holding only directories exports nothing and succeeds. */
  lemma {:induction false} OnlyDirectoriesExportNothing(st: HashState, env: Env, srcPath: string, outPath: string, entries: seq<DirEntry>)
    requires forall k :: 0 <= k < |entries| ==> entries[k].isDir
    ensures ExportEntries(st, env, srcPath, outPath, entries) == Run([], st, None)
    decreases |entries|
  {
    if entries != [] {
      OnlyDirectoriesExportNothing(st, env, srcPath, outPath, entries[1..]);
    }
  }

  /** One genre argument: `<music root>/<genre>` is listed (an unlistable
      folder aborts) and its files are copied into `<tmp root>/<genre>`. */
  function ExportGenre(st: HashState, env: Env, musicRoot: string, tmpRoot: string, genre: string): (r: Run)
    ensures Extends(st.cache, r.state.cache)
    ensures Valid(st, env) ==> Valid(r.state, env)
    ensures ComputedOnce(st) ==> ComputedOnce(r.state)
    ensures env.listDir(Push(musicRoot, genre)).None? <==> r.aborted == Some(UnknownGenre(Push(musicRoot, genre)))
    ensures forall a :: a in r.actions ==>
      && a.Copy?
      && a.from in r.state.cache
      && a.to == Push(Push(tmpRoot, genre), HashFileName(r.state.cache[a.from]))
  {
    var srcPath := Push(musicRoot, genre);
    match env.listDir(srcPath)
    case None => Run([], st, Some(UnknownGenre(srcPath)))
    case Some(entries) => ExportEntries(st, env, srcPath, Push(tmpRoot, genre), entries)
  }

  /** The genres in argument order; the first abort ends the loop. */
  function ExportGenres(st: HashState, env: Env, musicRoot: string, tmpRoot: string, genres: seq<string>): (r: Run)
    ensures Extends(st.cache, r.state.cache)
    ensures Valid(st, env) ==> Valid(r.state, env)
    ensures ComputedOnce(st) ==> ComputedOnce(r.state)
    ensures forall a :: a in r.actions ==>
      && a.Copy?
      && a.from in r.state.cache
      && EndsWith(a.to, HashFileName(r.state.cache[a.from]))
    ensures genres == [] ==> r == Run([], st, None)
    decreases |genres|
  {
    if genres == [] then Run([], st, None)
    else
      var first := ExportGenre(st, env, musicRoot, tmpRoot, genres[0]);
      if first.aborted.Some? then first
      else
        var rest := ExportGenres(first.state, env, musicRoot, tmpRoot, genres[1..]);
        Run(first.actions + rest.actions, rest.state, rest.aborted)
  }

  /** One genre as it must be exported, computed without a cache. */
  function ExportGenrePlan(env: Env, musicRoot: string, tmpRoot: string, genre: string): Plan
  {
    var srcPath := Push(musicRoot, genre);
    match env.listDir(srcPath)
    case None => Plan([], Some(UnknownGenre(srcPath)))
    case Some(entries) => ExportPlan(env, srcPath, Push(tmpRoot, genre), entries)
  }

  /** The genre loop as it must behave, computed without a cache. */
  function ExportGenresPlan(env: Env, musicRoot: string, tmpRoot: string, genres: seq<string>): Plan
    decreases |genres|
  {
    if genres == [] then Plan([], None)
    else
      var first := ExportGenrePlan(env, musicRoot, tmpRoot, genres[0]);
      if first.aborted.Some? then first
      else
        var rest := ExportGenresPlan(env, musicRoot, tmpRoot, genres[1..]);
        Plan(first.actions + rest.actions, rest.aborted)
  }

  /** With a valid cache the genre loop performs exactly the planned copies. */
  lemma {:induction false} ExportGenresMatchesPlan(st: HashState, env: Env, musicRoot: string, tmpRoot: string, genres: seq<string>)
    requires Valid(st, env)
    ensures PlanOf(ExportGenres(st, env, musicRoot, tmpRoot, genres)) == ExportGenresPlan(env, musicRoot, tmpRoot, genres)
    decreases |genres|
  {
    if genres != [] {
      var srcPath := Push(musicRoot, genres[0]);
      if env.listDir(srcPath).Some? {
        ExportMatchesPlan(st, env, srcPath, Push(tmpRoot, genres[0]), env.listDir(srcPath).value);
      }
      var first := ExportGenre(st, env, musicRoot, tmpRoot, genres[0]);
      if first.aborted.None? {
        ExportGenresMatchesPlan(first.state, env, musicRoot, tmpRoot, genres[1..]);
      }
    }
  }
}
