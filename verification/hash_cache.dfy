/** The hash cache shared by the genre export and the playlist rewriter: a
    map from absolute path to hex digest, consulted before any file is read
    and filled on a miss. */
module HashCache {
  import opened Wrappers
  import opened World

  /** The cache, and the paths read and hashed so far in the order they were
      hashed. The program keeps no such list; it is how the model counts
      file reads. */
  datatype HashState = HashState(cache: map<string, string>, hashed: seq<string>)

  /** The cache at process start. */
  const Empty := HashState(map[], [])

  /** Every cached hash is the hash of the file's current content. */
  ghost predicate Valid(st: HashState, env: Env)
  {
    forall p :: p in st.cache ==> p in env.files && st.cache[p] == ContentHash(env, p)
  }

  /** Each path has been hashed at most once, and exactly the hashed paths
      are cached. */
  ghost predicate ComputedOnce(st: HashState)
  {
    && (forall i, j :: 0 <= i < j < |st.hashed| ==> st.hashed[i] != st.hashed[j])
    && st.cache.Keys == set p | p in st.hashed
  }

  /** `b` keeps every entry of `a`: the cache only grows. */
  ghost predicate Extends(a: map<string, string>, b: map<string, string>)
  {
    a.Keys <= b.Keys && forall p :: p in a ==> b[p] == a[p]
  }

  /** `after` is reachable from `st` by lookups: the cache only grew, and
      validity and single computation carried over. */
  ghost predicate Grows(st: HashState, after: HashState, env: Env)
  {
    && Extends(st.cache, after.cache)
    && (Valid(st, env) ==> Valid(after, env))
    && (ComputedOnce(st) ==> ComputedOnce(after))
  }

  lemma GrowsTransitive(a: HashState, b: HashState, c: HashState, env: Env)
    requires Grows(a, b, env) && Grows(b, c, env)
    ensures Grows(a, c, env)
  {
  }

  lemma EmptyIsValid(env: Env)
    ensures Valid(Empty, env) && ComputedOnce(Empty)
  {
  }

  datatype Lookup = Lookup(hash: string, state: HashState)

  /** The cache lookup of the genre loop and of the playlist rewriter: a hit
      returns the stored hash and reads nothing; a miss reads the file,
      hashes it and inserts it; an unreadable file aborts. */
  function GetOrCompute(st: HashState, env: Env, p: string): (r: Result<Lookup, Error>)
    ensures r.Ok? <==> p in st.cache || p in env.files
    ensures r.Err? ==> r.error == UnreadableFile(p)
    ensures p in st.cache ==> r == Ok(Lookup(st.cache[p], st))
    ensures r.Ok? && p !in st.cache ==>
      && r.value.state.cache.Keys == st.cache.Keys + {p}
      && r.value.state.cache[p] == r.value.hash
      && r.value.state.hashed == st.hashed + [p]
    ensures r.Ok? ==> p in r.value.state.cache && r.value.state.cache[p] == r.value.hash
    ensures r.Ok? ==> Extends(st.cache, r.value.state.cache)
    ensures r.Ok? && Valid(st, env) ==> Valid(r.value.state, env) && r.value.hash == ContentHash(env, p)
    ensures r.Ok? && ComputedOnce(st) ==> ComputedOnce(r.value.state)
  {
    if p in st.cache then Ok(Lookup(st.cache[p], st))
    else if p !in env.files then Err(UnreadableFile(p))
    else
      var h := ContentHash(env, p);
      Ok(Lookup(h, HashState(st.cache[p := h], st.hashed + [p])))
  }
}
