/** What the program sees of its surroundings. The file system is a map from
    path to content plus a directory listing; MD5, UTF-8 decoding and
    percent-decoding are opaque functions supplied with it. */
module World {
  import opened Wrappers
  import opened Hex

  /** One entry of `fs::read_dir`: its file name and whether `is_dir` holds. */
  datatype DirEntry = DirEntry(name: string, isDir: bool)

  datatype Env = Env(
    /** Regular files that `fs::read` can open, with their bytes. */
    files: map<string, seq<byte>>,
    /** `fs::read_dir` of a directory path; `None` when it cannot be listed. */
    listDir: string -> Option<seq<DirEntry>>,
    /** The MD5 digest of a byte string (RFC 1321). */
    md5: seq<byte> -> Digest,
    /** UTF-8 decoding as `fs::read_to_string` performs it. */
    utf8: seq<byte> -> Option<string>,
    /** `urlencoding::decode` (section 2.1 of RFC 3986); `None` when the
        decoded bytes are not valid UTF-8. */
    percentDecode: string -> Option<string>)

  /** Why a run stops. Each is a panic in the program. */
  datatype Error =
    | UnknownGenre(path: string)
    | UnreadableFile(path: string)
    | InvalidUriComponent(text: string)
    | UnreadablePlaylist(path: string)
    | MissingPlaylistsFolder(path: string)

  /** The hash `get_md5_of_file` returns for a readable file. */
  function ContentHash(env: Env, p: string): (h: string)
    requires p in env.files
    ensures |h| == 32
    ensures forall i :: 0 <= i < |h| ==> IsLowerHexDigit(h[i])
  {
    DigestHex(env.md5(env.files[p]))
  }

  /** The exported file name for a hash; the extension is always `.mp3`. */
  function HashFileName(hash: string): string
  {
    hash + ".mp3"
  }

  /** `fs::read_to_string`. */
  function ReadText(env: Env, p: string): Option<string>
  {
    if p in env.files then env.utf8(env.files[p]) else None
  }
}
