# tg-mp3-downloader, modelled in Dafny

A Telegram bot takes a YouTube or SoundCloud link from a user, asks which platform to
download from, and answers with the audio file: converted to MP3 by ffmpeg for YouTube,
saved as served under an `.mp3` name for SoundCloud. Almost all of `main.go` is calls into the
Telegram API, HTTP and ffmpeg. This project models the parts that decide things, as pure
functions over immutable values:

- the link tests `isYouTubeLink` and `isSoundCloudLink` (module `Links`, on top of a
  model of `strings.Contains` in `Strings`);
- `sanitizeFileName` and the `tmp/<title>.mp3` path built from it (`FileNames`);
- the best-audio format scan in `downloadYouTube` (`Formats`);
- the page scrape in `getSoundCloudDownloadURL`: two leftmost regular-expression matches
  and the `\u0026` to `&` rewrite (`Scrape`, `Strings`);
- the two 50 MiB size guards (`Limits`);
- `downloadYouTube`, `getSoundCloudDownloadURL` and `downloadSoundCloud`, with each
  network, process and filesystem step given as a parameter holding its outcome
  (`Adapters`);
- one iteration of the update loop in `main`, as a transition
  `Step(store, event) -> (store, action)` over the table of pending links (`Dispatch`);
- the goroutine each platform choice starts: the platform switch, `sendAudioFile`, and
  the final removal of the file (`Task`).

Behaviour of the code worth knowing:

- The scraped download URL only has `\u0026` rewritten to `&`. An escaped slash `\/` stays
  as it is: the page's `https:\/\/x` comes out as `https:\/\/x`, not `https://x`
  (`Strings.UnescapeKeepsEscapedSlash`, `Strings.EscapedUrlExample`).
- The link tests are only OR-ed to decide whether to store a link. The adapter is chosen
  by the button the user presses, so a YouTube link can be sent to the SoundCloud adapter
  (`Task.SpawnHasAdapter`).
- The download size guard trusts the declared `ContentLength`. An unknown length (-1)
  passes, and then the body is copied without any bound (`Limits.UnknownLengthNotBounded`).
  The status code of the download response is never checked.
- A size refusal happens after `os.Create` has made the output file, and the task only
  removes files from successful downloads. A refused download therefore leaves its empty
  file behind (`Task.RefusedDownloadKeepsFile`). ffmpeg (main.go:223) gets no `-y` and no
  input to answer its overwrite prompt, so it declines to replace such a file, and a later
  YouTube conversion with the same sanitized title fails.
- The output file is named after the sanitized title alone. Titles that differ only in
  reserved characters, or the same track chosen twice, share one path, and concurrent
  tasks can truncate or remove each other's file (`FileNames.SharedOutputPath`).
- `filepath.Join("tmp", name + ".mp3")` is modelled as plain concatenation. The sanitized
  name holds no `/`, and `name + ".mp3"` is never `.` or `..`, so cleaning the path changes
  nothing.
- The format scan is modelled with one loop variable per iteration (Go 1.22 and later).
  The module file that fixes the Go version is not part of this model. Under earlier Go
  the scan behaves differently; see Findings.

## Model

| member | source | states |
|---|---|---|
| Strings.ContainsIff | main.go:158-159 | `Contains`, the model of `strings.Contains`: `Contains(s, sub)` holds exactly when `sub` occurs at some index of `s` |
| Links.YouTubeLinkIff | main.go:157-160 | `IsYouTubeLink`, the model of `isYouTubeLink`: a text is a YouTube link iff `youtube.com/` or `youtu.be/` occurs somewhere in it |
| Links.SoundCloudLinkIff | main.go:163-165 | `IsSoundCloudLink`, the model of `isSoundCloudLink`: a text is a SoundCloud link iff `soundcloud.com/` occurs somewhere in it |
| Links.MarkerAnywhere | main.go:157-165 | any text with a host marker anywhere inside it is a link of that marker's platform |
| Links.NoDotNoLink | main.go:157-165 | a text without a `.` is never a link, because every host marker holds one |
| Links.NotLinks | main.go:157-165 | `IsLink`, the model of the OR of both tests at main.go:81: the empty text, `YouTube` and `SoundCloud` are not links, so the link branch never takes a platform choice |
| FileNames.Sanitize | main.go:331-334 | the output has the input's length, each of the nine reserved characters (`<`, `>`, `:`, `"`, `/`, backslash, vertical bar, `?`, `*`) becomes `_`, every other character stays at its position, and no reserved character is left |
| FileNames.SanitizeIdempotent | main.go:331-334 | sanitizing twice gives the same result as sanitizing once |
| FileNames.SanitizeKeepsClean | main.go:331-334 | a name without reserved characters is returned unchanged |
| FileNames.OutputPathInTempDir | main.go:188 | `OutputPath`: the path (also built at main.go:240) is `tmp/` + sanitized title + `.mp3`, and its only `/` is the one after `tmp` |
| FileNames.SharedOutputPath | main.go:188 | two titles get the same output path (also at main.go:240) iff they sanitize to the same name |
| FileNames.DistinctTitlesSharePath | main.go:331-334 | sanitizing is not injective: `a/b` and `a:b` differ but share `tmp/a_b.mp3` |
| Formats.SelectBestAudio | main.go:176-185 | no result iff no format has an audio channel; otherwise the first audio-bearing format with a bitrate at least every other audio-bearing one's |
| Formats.BestAudioUnique | main.go:178 | at most one index satisfies that description: the strict `>` gives ties to the earliest |
| Formats.ExampleChoice | main.go:176-181 | among (0 ch, 320), (2 ch, 128), (1 ch, 256) the third is chosen; the silent 320 kbit/s format never competes |
| Formats.SelectBestAudioAliased | main.go:177-181 | under pre-1.22 loop variables: a result iff some format has audio, and then it is the last format |
| Formats.AliasedScanPicksSilentFormat | main.go:179 | for (2 ch, 128), (0 ch, 320) the intended choice is the first format, while the last one has no audio |
| Strings.EscapeUnescape | main.go:296 | `UnescapeAmp`, the model of the `strings.ReplaceAll` call: for every input, writing `&` back as the escape gives the input with its bare `&` escaped, so each escape becomes `&` and nothing else changes; for an input without a bare `&` this is the input itself |
| Strings.UnescapeNoEscape | main.go:296 | an input containing no `\u0026` is returned unchanged |
| Strings.UnescapeLeavesNoEscape | main.go:296 | the rewritten string contains no `\u0026` at all |
| Strings.UnescapePlain | main.go:296 | a stretch without a backslash is copied unchanged and the rest is rewritten after it |
| Strings.UnescapeKeepsEscapedSlash | main.go:296 | `\/` is kept as it is |
| Strings.EscapedUrlShape | main.go:296 | for any backslash-free host part, path part, query and tail, a URL of the page's shape (three escaped slashes, then the escaped ampersand) keeps every `\/` and only turns the escape into `&` |
| Strings.EscapedUrlExample | main.go:296 | the page's `https:\/\/x\/y?a=1`, then the escaped ampersand, then `b=2`, becomes `https:\/\/x\/y?a=1&b=2`: the three `\/` are kept and only the escape is rewritten |
| Scrape.CaptureAtCorrect | main.go:291-292 | trying the pattern at one position finds exactly the match that starts there, if any |
| Scrape.FindSubmatchCorrect | main.go:291-293 | `FindSubmatch`, the model of `regexp.FindStringSubmatch`: no submatch iff the pattern `key([^"]+)"` matches nowhere; otherwise the capture of the leftmost match |
| Scrape.LeftmostUnique | main.go:291-292 | the leftmost match and its capture are unique |
| Scrape.MatchAtStart | main.go:291-292 | a page opening with the key, a quote-free value and a quote yields that value |
| Scrape.ScrapeCorrect | main.go:288-305 | `ScrapeTrackPage`, the model of the page scan in `getSoundCloudDownloadURL`: scraping fails iff no non-empty quote-free `"download_url":"X"` occurs; else the URL is the leftmost `X` rewritten, holding no escape; the title is the leftmost `"title":"T"` capture or `soundcloud_track` when none occurs |
| Limits.ContentLengthGuard | main.go:255-257 | `CheckContentLength`, the model of the guard at main.go:255: a download is refused iff its declared length exceeds 52428800 bytes, and then at least 50 MB is reported; exactly 50 MiB and -1 pass |
| Limits.UploadGuard | main.go:317 | `FitsUpload`, the model of the check at main.go:317: a file may be uploaded iff its size is at most 52428800 bytes |
| Limits.AcceptedDownloadFitsUpload | main.go:23 | a declared length accepted by the download guard also passes the upload guard |
| Limits.UnknownLengthNotBounded | main.go:255-260 | an unknown length passes the download guard while a 60 MiB file still fails the upload guard |
| Adapters.DownloadYouTube | main.go:168-196 | metadata failure, no audio stream, stream failure and conversion failure each give their error; success iff metadata, an audio format and a clean conversion, and then the job uses the best audio format and the sanitized-title path |
| Adapters.PageResolution | main.go:268-306 | `GetSoundCloudDownloadUrl`, the model of `getSoundCloudDownloadURL`: a non-200 page is reported with its status; a 200 page whose body was read fails iff it holds no download URL, so a missing title never causes a failure |
| Adapters.SoundCloudSizeGuard | main.go:232-265 | `DownloadSoundCloud`, the model of `downloadSoundCloud`: too-large iff the page resolved, the file was created, the request succeeded and the declared length exceeds 50 MiB; on success the file is the title's MP3 and the length was within the limit |
| Dispatch.StepAction | main.go:56-91 | `Step`, the model of one pass of the update loop: an update without a message and an empty text that is not the `start` command are ignored, the `start` command (whatever suffix or payload `Command()` drops) is greeted, and a non-empty text draws the platform prompt iff it passes the link test `IsLink` |
| Dispatch.StepOtherText | main.go:93-142 | a platform name starts a task iff the user has a pending link and otherwise asks for a link first; the hint is drawn iff the text is non-empty, not the `start` command, and neither a link nor a platform name |
| Dispatch.StepStore | main.go:80-112 | only a prompt writes the user's entry (overwriting an earlier link), only a spawn removes it and carries its link and the pressed platform name, every other action leaves the table alone |
| Dispatch.StepFrame | main.go:88-109 | the entries of every other user are untouched by one update |
| Dispatch.StepKeepsLinks | main.go:81-91 | if the table holds only links it still does after a step, and a spawned task carries a link and a platform name |
| Dispatch.RunKeepsLinks | main.go:56-142 | `Run`, the loop over a sequence of updates: throughout any such sequence the table holds only links and every spawned task carries a link and a platform name |
| Dispatch.RunFrame | main.go:56-142 | updates from other users never change a user's pending entry |
| Dispatch.ChoiceWithoutLink | main.go:95-104 | a platform name with nothing pending is answered with a hint to send a link first and starts nothing |
| Dispatch.ChoiceTakesLink | main.go:95-112 | with a link pending, a platform name starts a task with that link and removes it, so the same name again finds nothing |
| Dispatch.LinkThenChoice | main.go:80-112 | link, platform, platform: a prompt, a task with that link, then the request for a link; the user's entry ends up removed |
| Dispatch.LaterLinkWins | main.go:88-90 | after two links, the task started by a platform choice uses the later link |
| Task.UploadCeiling | main.go:309-327 | `SendAudioFile`, the model of `sendAudioFile`: a file larger than 50 MiB is refused before any upload; delivery succeeds iff the size is within the limit and Telegram accepts the upload |
| Task.TaskCleanup | main.go:112-138 | `RunTask`, the model of the goroutine each platform choice starts: the file is removed iff the selected adapter produced one, whatever delivery does; otherwise that adapter's error is reported; an unknown platform reports an unsupported-platform error |
| Task.RefusedDownloadKeepsFile | main.go:240-257 | a SoundCloud download refused for size ends as a reported error, so the file already created is not removed |
| Task.SpawnHasAdapter | main.go:116-123 | every task the loop starts goes to the adapter named on the pressed button and never reports an unsupported platform |

## Left out

- Telegram API calls, keyboard construction and message sending: foreign library calls.
  Replies are the abstract `Action` values, not their Russian wording.
- Process start-up: the token check, the creation of `tmp` and bot authorization. These
  are environment and filesystem I/O.
- HTTP requests, the 30 s client timeout and the 10 min context: network I/O and
  wall-clock time. Their outcomes are parameters of the adapters (`PageResponse`,
  `FileResponse`, `TransferOutcome`).
- `client.GetVideo`: an opaque library call. The adapter takes its title and format list,
  or `None` for a failure.
- The ffmpeg run, the temporary `.m4a` file, `os.Create`, `os.Open`, `io.Copy` and
  `os.Remove`: process and filesystem I/O. Each enters only as a success flag, and
  removal as `Task.Removed`.
- `file.Stat()` with its error ignored: the model assumes an opened file has a size.
- Updates whose message has no sender (`From` is nil): the model's `Message` always
  carries a user id.
- Goroutines and `sync.Mutex`: only the sequential loop touches the table, so `Step`
  needs no lock. Tasks share no in-memory state, but two tasks whose titles sanitize to
  the same name write, and remove, the same `tmp/<title>.mp3`
  (`FileNames.SharedOutputPath`, `FileNames.DistinctTitlesSharePath`). The filesystem is
  not modelled, so what one task does to the other's file is not stated.
- The floating-point megabyte figure in the upload error: floating point. The error
  carries the byte size instead.
- Adapters.DownloadYouTube: returns the chosen format together with the path, where Go
  returns only the path, so that the choice can be stated.
- Go strings are UTF-8 bytes and the regular expressions work on runes. The model works
  on `seq<char>`, one `char` per rune.

## Findings

| source | as written | input that shows it | evidently intended | confidence | as-written member | corrected member |
|---|---|---|---|---|---|---|
| main.go:177-181 | `format = &f` takes the address of the loop variable. Before Go 1.22 that is one variable for the whole loop, so the kept pointer ends up reading the last format | formats (2 ch, 128), (0 ch, 320): the scan yields (0 ch, 320), a stream without audio | the first highest-bitrate format with audio, here (2 ch, 128) | low; not executed; applies only when built with a Go version before 1.22 | Formats.SelectBestAudioAliased | Formats.SelectBestAudio |
