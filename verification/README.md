# VLC-iOS-Generator: content addressing and playlist rewriting, in Dafny

The program prepares a copy of a music library for a phone. It copies the
files of selected genre folders to `<tmp root>/<genre>/<hash>.mp3`, where
`<hash>` is the lowercase hex MD5 of the file's bytes. It then rewrites every
`.m3u8` playlist of the playlists folder so that each track line points at
`../<genre>/<hash>.mp3`. One hash cache, a map from absolute path to hex
digest, is shared by both phases. It is consulted before any file is read,
and it is filled on a miss.

This project models that core as pure functions:

- `Wrappers`: the `Option` and `Result` types. A `Result` error is one of the program's panics.
- `Text`: `str::replace(pat, "")`, `str::lines`, and the `\n`-terminated join the rewriter emits.
- `Paths`: `PathBuf::push` (and `Path::join`), `Path::parent` and `Path::extension`, for Unix paths held as strings.
- `Hex`: the `{:x}` rendering of a 16-byte digest.
- `World`: the file system and the opaque functions.
  - The file system is a map from path to bytes, plus a `read_dir` listing of `(name, isDir)` entries.
  - MD5, UTF-8 decoding and `urlencoding::decode` are opaque function fields of `Env`.
- `HashCache`: the cache and its lookup. `HashState.hashed` records every file read for hashing. The program keeps no such list; the model uses it to state that no path is hashed twice.
- `Effects`: the copies and writes a run performs, and the error it stops on.
- `Playlist`: `generate_transformed_playlist`, line by line.
- `GenreExport`: the genre loop of `main`.
- `Pipeline`: `main` after configuration, meaning the genre loop and then the playlist loop.

Copies and writes are recorded as `Action`s. A run that panics is a `Run` whose `aborted` field holds the error. Effects performed before the abort stay in the record, because the program does not roll them back.

Every loop that uses the cache has a cache-free reference: `ReferenceLine`,
`ReferenceLines`, `ReferenceText`, `ExportPlan`, `TranscodePlan` and
`ReferenceRun`. In each reference the hash is simply the digest of the
file's content. The lemmas prove that with a valid cache the real loop
produces exactly the reference effects. A valid cache is one whose every entry
is the hash of the file's current content. It follows that the cache changes
only how much work is done, never a name. The two phases therefore agree on
every file name, and a second run over an unchanged library gives the same
output.

## Behaviour worth knowing

- `file://` and the music root are removed wherever they occur in a line, not only as a leading prefix (`src/main.rs:113-114`). The comments on those lines show only the leading case.
- An empty playlist line does not start with `#`, so it is taken as a track (`src/main.rs:107-113`).
  - Its key is the empty path, which cannot be read, so the playlist aborts (`Playlist.BlankLineAborts`).
- The program's own comment (`src/main.rs:11-12`) promises `../<genre>/<hash>.mp3`.
  - With a music root lacking a trailing `/`, the relative name keeps a leading `/`.
  - `PathBuf::push` then discards the `..`, so the code produces `/<genre>/<hash>.mp3` (`Playlist.RootWithoutTrailingSlash`).
- A playlist that fails partway has already hashed the tracks of its earlier lines, and those hashes stay in the cache (`Playlist.FailingLine`). The panic ends the process, so only the model can observe this.

## Model

| member | source | states |
|---|---|---|
| Text.ReplaceAll | src/main.rs:113-114 | removing a pattern never makes the text longer |
| Text.ReplaceAllIdentityIff | src/main.rs:113-114 | for a non-empty pattern, the text is unchanged exactly when the pattern does not occur in it |
| Text.ReplaceAllLeading | src/main.rs:113 | a leading occurrence is removed and the scan continues after it |
| Text.ReplaceAllMissingChar | src/main.rs:114 | a text lacking any character of the pattern is left unchanged |
| Text.ReplaceAllIsSinglePass | src/main.rs:113 | removal is one left-to-right pass, so `ffile://ile://` becomes `file://`, which still contains the pattern |
| Text.FirstNewline | src/main.rs:105 | the index found is the first `\n`, or the length of the text when there is none |
| Text.Lines | src/main.rs:105 | only the empty text has no lines |
| Text.LinesHaveNoNewline | src/main.rs:105 | no line contains a `\n` |
| Text.LinesOfCrlfTerminated | src/main.rs:105 | splitting `\r\n`-terminated lines gives back the lines: the `\r` of a `\r\n` ending is dropped, and any other `\r` is kept |
| Text.LineCount | src/main.rs:105 | there is one line per `\n`, plus one for an unterminated last line |
| Text.LinesOfTerminated | src/main.rs:144-145 | splitting the emitted text gives back the emitted lines when none holds a `\n` or ends in `\r` |
| Text.TerminatedOfLines | src/main.rs:105-109 | re-terminating the lines of a `\n`-ended text with no `\r` directly before a `\n` gives back the text |
| Text.LastIndexOf | src/main.rs:115-116 | the index found holds the character and no later index does; no index is found exactly when the character is absent |
| Text.LastIndexOfSplit | src/main.rs:115-116 | the last occurrence is the one with no occurrence after it |
| Paths.Push | src/main.rs:140-142 | an absolute path replaces the buffer; a relative one is appended to it, after a `/` that is added exactly when the buffer is non-empty and does not end in `/` |
| Paths.ParentOfPush | src/main.rs:115-123 | taking the parent after pushing a file name onto a directory gives the directory back |
| Paths.Parent | src/main.rs:115-123 | there is no parent exactly for `""` and `/`; the parent is empty exactly for a bare name; otherwise it is a shorter prefix of the path |
| Paths.ParentOfJoin | src/main.rs:115-123 | the parent of `dir/name` is `dir` when `name` is non-empty and holds no `/` |
| Paths.ParentOfRootChild | src/main.rs:115-123 | the parent of `/name` is `/` |
| Paths.Extension | src/main.rs:79-84 | an extension holds no `.`, and the name ends in `.` plus the extension after a non-empty stem |
| Paths.ExtensionIff | src/main.rs:79-84 | a name has extension `e` exactly when it is not `..` and is a non-empty stem followed by `.e` |
| Paths.M3u8Filter | src/main.rs:81-84 | a playlist is processed exactly when its name ends in `.m3u8` after a non-empty stem (case-sensitive) |
| Hex.HexDigit | src/main.rs:157 | every digit produced is a lowercase hex digit |
| Hex.DigitValue | src/main.rs:157 | a value is found exactly for lowercase hex digits, and rendering that value gives the digit back |
| Hex.LowerHex | src/main.rs:157 | the output has two characters per byte, all lowercase hex |
| Hex.DigestHex | src/main.rs:152-158 | an MD5 digest renders as exactly 32 lowercase hex digits |
| Hex.LowerHexDigits | src/main.rs:157 | byte `k` is rendered as digits `2k` and `2k+1`, high nibble first |
| Hex.HexRoundTrip | src/main.rs:157 | parsing the rendering gives back the bytes |
| Hex.LowerHexInjective | src/main.rs:152-158 | different digests give different names |
| World.ContentHash | src/main.rs:152-158 | the hash of a readable file is 32 lowercase hex digits of its MD5 |
| HashCache.EmptyIsValid | src/main.rs:28 | the cache at start is valid and nothing has been hashed |
| HashCache.GetOrCompute | src/main.rs:126-138 | a hit returns the stored hash and reads nothing; a miss hashes once and adds exactly one key without overwriting; only an unreadable uncached path fails; validity and single computation are preserved |
| Playlist.RewritePath | src/main.rs:140-144 | `..` + parent + name for every case of the parent: an empty parent gives `../<name>` with no doubled `/`, and an absolute parent discards `..` |
| Playlist.TransformLine | src/main.rs:105-146 | a comment comes back unchanged with the cache untouched; with a valid cache the line equals its reference rewriting or fails in the same way; the cache only grows and stays valid |
| Playlist.TrackLineRewrite | src/main.rs:112-138 | the key is the decoded line with every `file://` removed; the name is the hash the cache holds for the key plus `.mp3`; failure is an undecodable line or an uncached unreadable key; a hit leaves the cache unchanged |
| Playlist.TransformLines | src/main.rs:105-147 | one output line per input line, with every comment at its position; whether the loop completes or fails, the cache only grows and stays valid, with no path hashed twice |
| Playlist.FailingLine | src/main.rs:105-147 | a failing loop stops at its first failing line: the lines before it were rewritten, and the failure carries the cache they left, with every hash computed for them |
| Playlist.CommentLinesUnchanged | src/main.rs:106-110 | comment lines pass through unchanged and leave the cache as it was |
| Playlist.TransformLinesMatchesReference | src/main.rs:103-149 | with a valid cache the line loop equals the cache-free rewriting, including its first error |
| Playlist.TranscodeText | src/main.rs:97-150 | the output is the rewritten lines, each followed by one `\n`, one per input line, with comments kept in place; empty input gives empty output |
| Playlist.TranscodeMatchesReference | src/main.rs:103-149 | with a valid cache the rewritten playlist, or the error, is the reference one |
| Playlist.TranscodeIndependentOfCache | src/main.rs:126-138 | any two valid caches give the same rewritten playlist |
| Playlist.CommentOnlyPlaylistUnchanged | src/main.rs:105-110 | a comment-only playlist that ends in `\n` and has no `\r` directly before a `\n` is copied unchanged, including any other `\r` in its comments |
| Playlist.TrackUnderRoot | src/main.rs:115-144 | a file directly under the music root becomes `../<hash>.mp3` |
| Playlist.TrackInGenre | src/main.rs:113-144 | a file at `<genre>/<name>` below the root becomes `../<genre>/<hash>.mp3` |
| Playlist.RockSongExample | src/main.rs:113-144 | with root `/lib/`, `file:///lib/Rock/Song A.mp3` becomes `../Rock/<hash>.mp3` |
| Playlist.RootWithoutTrailingSlash | src/main.rs:114-142 | a root without a trailing `/` turns the line into the absolute `/<genre>/<hash>.mp3` |
| Playlist.BlankLineAborts | src/main.rs:107-131 | an empty line is treated as a track reference to the empty path and aborts the playlist |
| GenreExport.ExportEntries | src/main.rs:41-66 | every effect is a copy of a cached path to `<out>/<its cached hash>.mp3`; the cache only grows, stays valid and hashes nothing twice; only an unreadable file aborts |
| GenreExport.ExportCachesEveryFile | src/main.rs:49-62 | after a completed export every non-directory entry is cached |
| GenreExport.ExportPlanCopiesFiles | src/main.rs:49-65 | the reference export copies only readable non-directory entries of the listing, each to the name from its content hash, also when it aborts; a completed one copies exactly the non-directory entries |
| GenreExport.ExportMatchesPlan | src/main.rs:53-65 | with a valid cache the export performs exactly the reference copies and aborts in the same way |
| GenreExport.OnlyDirectoriesExportNothing | src/main.rs:49-51 | a folder of only directories copies nothing, succeeds and leaves the cache unchanged |
| GenreExport.ExportGenre | src/main.rs:35-43 | an unlistable genre folder aborts with that folder's path, and only then; copies go to `<tmp root>/<genre>/<cached hash>.mp3` |
| GenreExport.ExportGenres | src/main.rs:35-67 | every copy is named by its source's cached hash plus `.mp3`; the cache only grows, stays valid and hashes nothing twice; no genres means no effects |
| GenreExport.ExportGenresMatchesPlan | src/main.rs:35-67 | with a valid cache the genre loop performs exactly the reference copies |
| Pipeline.TranscodePlaylist | src/main.rs:86-102 | an unreadable playlist fails with the cache untouched; with a valid cache the result is the reference rewriting of the file; a failure is an unreadable playlist, an unreadable track or an undecodable line |
| Pipeline.TranscodeEntries | src/main.rs:74-94 | the playlist loop only writes; the cache only grows, stays valid and hashes nothing twice, also when the loop aborts |
| Pipeline.TranscodePlanTargets | src/main.rs:79-92 | only `.m3u8` entries are written, each under its own name in the output folder; a completed loop writes all of them |
| Pipeline.TranscodeMatchesPlan | src/main.rs:86-92 | with a valid cache every written playlist is the reference rewriting |
| Pipeline.TranscodeFolder | src/main.rs:70-74 | a missing playlists folder aborts the run, and only then |
| Pipeline.TranscodeAbortReasons | src/main.rs:86-90 | the playlist loop aborts only for an unreadable playlist, an unreadable track or an undecodable line |
| Pipeline.TranscodeErrorReasons | src/main.rs:152-165 | a failing line is an unreadable track or an undecodable line |
| Pipeline.RunProgram | src/main.rs:14-95 | at the end of a run every cached hash is the true content hash and no file was hashed twice; every copy is named by its source's content hash |
| Pipeline.RoundTripNaming | src/main.rs:53-138 | an exported copy and a playlist line that name the same path use the same `<hash>.mp3`, whatever either cache held before |
| Pipeline.RunMatchesReference | src/main.rs:28-94 | the program's effects depend only on the library, so an unchanged library gives identical copies and playlists |

## Left out

- Command-line arguments, `.env` loading and the environment variables (`src/main.rs:16-25`): they are inputs, here `Config` and the genre list.
- `fs::create_dir_all` (`src/main.rs:38`, `72`): it is OS plumbing, and its failures are ignored.
- `fs::copy` and `fs::write` (`src/main.rs:56`, `64`, `92`): they are recorded as `Copy` and `Write` actions. Their failures are swallowed by `.ok()` and affect neither the cache nor the output.
- `read_dir` iteration order and `entry.unwrap()` on individual entries: a listing is a given sequence, in the order `read_dir` yields it.
- `Path::is_dir` is the entry's `isDir` flag.
- The internals of MD5 (RFC 1321): it is an opaque function from bytes to a 16-byte digest.
- The internals of `urlencoding::decode` (section 2.1 of RFC 3986) and of UTF-8 decoding: they are opaque partial functions, where `None` means the program panics.
- Panic messages: every error records the offending path or line, not the message. The program's own message names it only for `UnknownGenre` (`src/main.rs:42`), `UnreadablePlaylist` (`src/main.rs:102`) and `InvalidUriComponent` (`src/main.rs:162`). The message for a missing playlists folder (`src/main.rs:74`) and the `unwrap` on an unreadable track (`src/main.rs:154`) do not name the path.
- `to_string_lossy`, `display` and non-UTF-8 paths: all paths are strings.
- Windows separators and prefixes are not modelled.
- Paths.Parent: models `Path::parent` for normalised paths only. A trailing `/`, `.` components or `//` are not collapsed first, as `Path::components` would do, so for such paths it can differ from the library.
- Text.Lines: follows the current `str::lines`, which strips a `\r` only before a `\n`. Older Rust releases also stripped a lone trailing `\r`.
- The file system never changes during a run. The run's own copies and writes are not fed back into `files` or into the `read_dir` listings. `Valid`, the true-content-hash clause of `Pipeline.RunProgram` and `Pipeline.RunMatchesReference` are therefore exact only when the tmp root does not overlap the music root. With `TMP_ROOT` equal to `MUSIC_ROOT`, the copies land in the genre folder that `read_dir` is listing.
- Time, exit status and the process's own termination: a panic is the `aborted` field of a `Run`.
