# YT-Downloader download core, modelled in Dafny

This project models the download core of the YT-Downloader desktop application:

- the `DownloadManager` that runs one audio or video download;
- the progress hook the download engine (yt-dlp) calls, and the user's cancel button;
- the post-processing: the file name, the ID3 tags, and the download history;
- the helpers all of this relies on: URL validation, file-name sanitising, the title split and tag writing, the settings file, and the update check against the latest GitHub release.

## How the model is laid out

One module per source file:

| Module | Source |
|---|---|
| `Utils` | `utils.py` |
| `Metadata` | `metadata.py` |
| `History` | `history.py` |
| `Config` | `config.py` |
| `Updater` | `updater.py` |
| `ProgressReport` | the pure half of `hook` |
| `Downloader` | the rest of `downloader.py` |

`Text` (text.dfy) holds the few pieces of Python's `str` behaviour the others use (`strip`, `find`, `in`, `lower`, `replace`), plus `Option` and `Result`.

The parts of the source that change state step by step are classes whose fields the methods update:

- `DownloadManager` has the `shouldCancel` flag, the signals emitted so far, and a ghost log of the requests made to the outside world.
- `HistoryFile` and `ConfigFile` each hold the document their file contains.
- `AutoUpdater` holds its constants.

Each method is proved against a specification function, and the properties are lemmas about those functions.

The world outside the program is a parameter: the engine, the network, the file system, the clock and the user. An `Env` value says how each outside step turns out for one job:

- whether the folder exists, and what `os.makedirs` raises;
- what `extract_info` returns or raises;
- the thumbnail bytes;
- whether a cancel arrives while the engine extracts, before the checkpoint (the flag then stays set, whether or not the extraction succeeds);
- the engine's transfer, as a sequence of user cancels and hook calls with their raw reports;
- what the engine raises after the transfer;
- the MP3 file as the tag writer finds it;
- the date string;
- whether saving the history succeeds.

The job specification `Run` takes two of its inputs already computed: the outcome of `validar_url_youtube` on the URL (a `Utils.Validation`), and the transfer's outcome (`TransferRun`). The methods fix them to `Utils.ValidateUrl(url)` and to `Transferred(env)`, the outcome of the engine's steps under the hook. The job lemmas hold for every outcome whose events are all progress reports, and `CancelTransferred` ties a concrete cancel to the outcome it produces.

`os.path.join` is modelled with the POSIX rules.

### Behaviour worth knowing

- No job emits an `Info` event (`JobShape`). Only `extract_info` does.
- A cancel seen at the check after the extraction (downloader.py:116, 193) ends the job with no signal at all (`CheckpointCancelIsSilent`).
- A cancel seen by the hook raises. There is no separate cancelled outcome: the raise surfaces as an ordinary error event, "Erro ao baixar …: Download cancelado pelo usuário" (`CancelDuringTransfer`).
- A percentage that `float` cannot parse raises inside the hook, which also ends the job with an error event (`ProgressReport.Translate`).
- The percentage is not clamped to 0..100.
- A history file without a `downloads` entry makes `add_to_history` raise `KeyError` after a complete download, and the job ends with an error (`FinishedEvent`). A failing `apply_metadata` is silent.
- `extract_info` queries the engine with the URL as typed, while the downloads use the normalised URL (`ExtractInfo`, `EngineSeesNormalisedUrl`).

## Model

| member | source | states |
|---|---|---|
| Utils.Sanitize | utils.py:73-76 | `re.sub` of the class `<>:"/\|?*` by `_`, defined character by character; its properties are the four lemmas below |
| Utils.SanitizeReplacesInvalid | utils.py:73-76 | same length as the input; each character of the class `<>:"/\|?*` becomes `_`, every other character is kept |
| Utils.SanitizeIsClean | utils.py:75-76 | the result holds none of the invalid characters |
| Utils.SanitizeIdempotent | utils.py:73-76 | sanitising a sanitised name changes nothing |
| Utils.SanitizeAppend | utils.py:73-76 | sanitising distributes over concatenation (title and extension are sanitised together) |
| Utils.SplitScheme | utils.py:57-58 | a non-empty scheme is the lower-cased text before a `:`, with the rest after it; an empty scheme leaves the whole text (which `:` and when: `SchemeBeforeFirstColon`) |
| Utils.SchemeBeforeFirstColon | utils.py:57-58 | urlparse finds a scheme exactly when the text before some `:` is an ASCII letter followed by scheme characters; that `:` is then the first one, the scheme is the lower-cased text before it and the rest is the text after it |
| Utils.UrlScheme | utils.py:57-62 | the scheme of the cleaned URL, or urlparse's ValueError when the network location after `//` holds one bracket of an IPv6 literal but not the other; `ValidateUrl` states its effect on validation |
| Utils.MatchesYoutube | utils.py:65-66 | `re.match` of the whole YouTube pattern, spelt out alternative by alternative: an optional `http:`/`https:` and `//`, an optional `www.`/`m.`, one of the three hosts (the dot in `youtu.be` matching any character but a newline), `/`, then a run of non-whitespace starting with a word character or `-`, with `$` also matching before a final newline |
| Utils.ValidateUrl | utils.py:50-71 | empty URL gives "URL não pode estar vazia"; urlparse's ValueError on either the URL or its `https://` form gives "URL mal formatada"; no match of the YouTube pattern gives "URL não parece ser do YouTube"; otherwise Valid with the URL, prefixed by `https://` exactly when it had no scheme, and it matches the pattern |
| Utils.HttpsPrefixHasScheme | utils.py:58-60 | a URL that starts with `https://` parses with the scheme `https`, so the prefix is never added twice |
| Utils.ValidateNormalizedIsStable | utils.py:50-71 | validating the URL that validation returned gives back the same result |
| Metadata.SplitTitle | metadata.py:79-84 | no artist exactly when the title lacks `" - "`, and then the song is the whole title |
| Metadata.SplitAtFirstSeparator | metadata.py:81-83 | with the first `" - "` at position i, the artist is the stripped text before i and the song the stripped text after the separator |
| Metadata.NoneBeforeFirst | metadata.py:81-82 | the text before the first `" - "` holds no `" - "` |
| Metadata.ArtistHasNoSeparator | metadata.py:82-83 | the artist never contains `" - "` |
| Metadata.SplitAfterSpacelessArtist | metadata.py:81-83 | an artist without spaces followed by `" - "` and any rest splits exactly there |
| Metadata.SplitCleanParts | metadata.py:81-83 | an artist without spaces and a song without surrounding whitespace come back verbatim |
| Metadata.SplitArtistSong | metadata.py:79-84 | "Artist - Song" splits into `Some("Artist")` and "Song" |
| Metadata.SplitOnFirstOnly | metadata.py:82 | "A - B - C" splits into `Some("A")` and "B - C" |
| Metadata.SplitWithoutSeparator | metadata.py:84 | "JustATitle" has no artist and keeps the whole title |
| Metadata.ApplyMetadata | metadata.py:22-77 | returns true exactly when the file opens and saves; then title, artist and album frames are replaced when their value is truthy and kept otherwise, the `APIC:Cover` JPEG frame is replaced when the thumbnail is truthy and converts (a failed conversion is swallowed), and every other frame is kept; failures return false instead of raising |
| History.Downloads | history.py:8-17 | a missing or unreadable file loads as an empty list; a stored document yields its `downloads` list, or the KeyError when it has none |
| History.Pushed | history.py:42-47 | the new record comes first, followed by the old list, cut to at most 100 records |
| History.AfterSave | history.py:19-27 | the file after a save: the new document when it is written whole, the old file when `open` fails, and a file that loads as the empty history when the dump fails after `open(…, "w")` has truncated it |
| History.Appended | history.py:29-50 | a document without `downloads` raises KeyError and stays as it was; otherwise the result is whether the save succeeded; a completed save stores the pushed list, a failed `open` leaves the file, and a dump failing after the truncation leaves a file that loads as the empty history |
| History.DumpFailureLosesHistory | history.py:19-50 | after an addition whose dump fails, the next successful addition leaves only its own record: every earlier record is lost |
| History.PrefixSlice | history.py:59 | Python's `list[:n]`, including negative `n` |
| History.HistoryFile.Add | history.py:29-50 | the returned value and the new document are those of `Appended` |
| History.HistoryFile.Clear | history.py:52-54 | returns whether the save succeeded; the new file is `AfterSave` of an empty list, so the history loads as empty unless `open` itself fails, which leaves the file |
| History.HistoryFile.Recent | history.py:56-59 | the first `limit` records (default 10) of the loaded list, the KeyError when there is none; the file is not changed |
| History.ReverseAt | history.py:45 | position `i` of the reversed additions holds the `i`-th from the end, so the newest record comes first |
| History.AddAllNewestFirst | history.py:42-47 | after any sequence of additions the list is the newest records first, followed by the old list, cut to 100 |
| History.HundredAndOne | history.py:45-47 | 101 additions to an empty history leave 100 records, and the most recent one is first |
| Config.Effective | config.py:25-41 | every default key is present; every stored key keeps its stored value; any other key has its default value |
| Config.ConfigFile.Load | config.py:25-41 | the stored object, with each missing default key filled in; the defaults when the file is missing or unreadable |
| Config.ConfigFile.Get | config.py:53-56 | the effective value of the key, or `default` when the key is not there; a default key not stored gives its default value |
| Config.AfterSave | config.py:43-51 | the file after a save: the new object when it is written whole, the old file when `open` fails, and a file that loads as the bare defaults when the dump fails after `open(…, "w")` has truncated it |
| Config.ConfigFile.Update | config.py:58-62 | returns whether the save succeeded; the new file is `AfterSave` of the effective settings with the one key set |
| Config.ConfigFile.Reset | config.py:64-66 | returns whether the save succeeded; the new file is `AfterSave` of the defaults, so the defaults are in force unless `open` itself fails, which leaves the file |
| Config.DumpFailureResetsSettings | config.py:43-62 | an update whose dump fails after the truncation loses every stored setting: the defaults are in force, and the new value is not seen |
| Config.UpdateIsSeen | config.py:58-62 | after an update the next load sees the new value, and every other key as before |
| Config.ResetRestoresDefaults | config.py:64-66 | after a reset the settings in force are exactly the defaults |
| Updater.Chosen | updater.py:126-161 | the URL of the first of the installer, executable and archive tiers whose first fitting asset has a non-empty URL, else `html_url`; a fitting asset without `browser_download_url` met on the way gives its KeyError; the lemmas below state each tier's win |
| Updater.ScanFrom | updater.py:130-135 | reports no fit exactly when no asset from the start position fits the tier |
| Updater.ScanFindsFirstFit | updater.py:130-135 | when asset j is the first fit (every asset before it named and unfitting), the scan returns its URL, or the KeyError when it has no `browser_download_url` |
| Updater.FoundIsFirstFit | updater.py:130-135 | a found URL belongs to the first fitting asset |
| Updater.FindInTier | updater.py:130-153 | one asset loop with its `break` computes the scan of its tier |
| Updater.SelectDownloadUrl | updater.py:126-161 | the three loops in order, then the fallback to `html_url`, compute `Chosen` |
| Updater.InstallerWins | updater.py:130-135 | the earliest `.exe` with "setup" in any case wins |
| Updater.ExecutableWins | updater.py:138-144 | with no installer, the earliest `.exe` wins |
| Updater.ArchiveWins | updater.py:147-153 | with no `.exe` at all, the earliest `.zip` wins |
| Updater.FallbackToReleasePage | updater.py:156-161 | with neither `.exe` nor `.zip`, the release page URL is used |
| Updater.ChosenComesFromFirstFit | updater.py:126-161 | any URL chosen from the assets is the first fit of some tier |
| Updater.NormalizeTag | updater.py:119 | no `v` is left, and the result is `strip` of the tag with every `v` removed |
| Text.RemoveCharAppend | updater.py:119 | `replace(c, '')` distributes over concatenation, so the other characters keep their order |
| Text.RemoveCharOne | updater.py:119 | on one character, `replace(c, '')` drops it exactly when it is `c` |
| Text.RemoveCharCounts | updater.py:119 | `replace(c, '')` removes every `c` and keeps every other character as often as it occurs |
| Updater.NormalizeLeadingV | updater.py:119 | `" v1.2.3 "` normalises to `1.2.3` |
| Updater.NormalizeInnerV | updater.py:119 | every `v` goes, not only a leading one: `1.0-dev` normalises to `1.0-de` |
| Updater.VerdictAfterFailure | updater.py:114-188 | after a 200 reply, a body without a release, a release without `tag_name`, or a KeyError while choosing the asset gives no update |
| Updater.ParsedComparison | updater.py:163-172 | when both versions parse, an update is reported exactly when the latest is newer, and it carries the chosen download URL |
| Updater.FallbackComparison | updater.py:173-179 | when the versions cannot be parsed, an update is reported exactly when the normalised strings differ, and it carries the chosen download URL |
| Updater.AutoUpdater.constructor | updater.py:82-93 | the repository constants, the application version, debug on, and the given test mode |
| Updater.Verdict | updater.py:95-188 | the verdict of a real check: no update without a 200 reply carrying a release with a tag, or when choosing the URL raises; otherwise an update (with the chosen URL) exactly when the normalised tag is newer than the stripped current version by `version.parse` or, when that raises, differs from it; its properties are `VerdictNeedsReply`, `VerdictAfterFailure`, `ParsedComparison` and `FallbackComparison` |
| Updater.VerdictNeedsReply | updater.py:95-188 | an unreachable server or a status other than 200 gives no update, and an update carries the release the server sent |
| Updater.AutoUpdater.CheckForUpdate | updater.py:95-188 | test mode reports the fixed `v9.9.9` release without looking at the reply; otherwise the verdict is `Verdict` of the reply, so no update on any failure (`VerdictNeedsReply`, `VerdictAfterFailure`) and otherwise the version comparison (`ParsedComparison`, `FallbackComparison`) |
| Updater.AutoUpdater.CheckAndNotify | updater.py:195-209 | returns true exactly when the check found an update |
| ProgressReport.StripAnsi | downloader.py:48 | removing colour sequences never lengthens the text |
| ProgressReport.StripAnsiDropsSgr | downloader.py:48 | a colour sequence `ESC[…m` at the front is dropped whole |
| ProgressReport.StripAnsiKeepsPlain | downloader.py:48 | text without an escape character passes through untouched |
| ProgressReport.StripAnsiColoured | downloader.py:48 | plain text wrapped in colour sequences comes out alone |
| ProgressReport.TruncatedDecimal | downloader.py:49 | a value exactly when the text is digits with at most one point and at least one digit; the value is that of the digits before the point, or of all of them when there is none (truncation toward zero) |
| ProgressReport.PercentText | downloader.py:48-49 | the text `float` is given: the colour sequences removed, then every `%`, then the surrounding whitespace; the lemmas below state what it gives for coloured and for default percentages |
| ProgressReport.DecimalTruncates | downloader.py:49 | `whole.fraction` gives the value of `whole` |
| ProgressReport.RemoveTrailingChar | downloader.py:49 | removing the `%` after a number leaves the number |
| ProgressReport.Translate | downloader.py:47-59 | a report whose status is not `downloading` does nothing; a downloading report emits the truncated percentage of the cleaned `_percent_str` (default "0.0") with speed, ETA and file name defaulting to "N/A" and total bytes to 0, or raises exactly when the cleaned text is not a number |
| ProgressReport.Hook | downloader.py:42-59 | a pending cancel raises "Download cancelado pelo usuário" before the report is read; otherwise the report is translated |
| ProgressReport.ColouredText | downloader.py:48-49 | removing the colour sequences and the `%` from a coloured `whole.fraction%` leaves `whole.fraction` |
| ProgressReport.DecimalIsStripped | downloader.py:49 | `strip` leaves a `whole.fraction` of digits unchanged |
| ProgressReport.ColouredDecimal | downloader.py:48-49 | a coloured `whole.fraction%` is cleaned to `whole.fraction` and read as the value of `whole` |
| ProgressReport.ColouredPercent | downloader.py:48-49 | the engine's green `45.0%` gives 45 |
| ProgressReport.DefaultPercentIsZero | downloader.py:48-49 | the default text "0.0" reads as 0 |
| ProgressReport.MissingPercentIsZero | downloader.py:48 | a downloading report without `_percent_str` emits 0 |
| Downloader.Capped | downloader.py:164-169 | the height-capped selector is the fixed text plus the height twice |
| Downloader.FormatSelector | downloader.py:164-171 | "best" exactly for a quality outside 360p/480p/720p/1080p; otherwise the selector capped at the quality's number without the `p` |
| Downloader.JoinPosix | downloader.py:120-121 | an absolute name replaces the folder; otherwise the result starts with the folder and ends with the name, with one `/` between them unless the folder is empty or already ends in `/` |
| Downloader.OutputPathInFolder | downloader.py:119-121 | the reported path is the folder followed by the sanitised `title.ext`, which has no `/` in it; the same holds for video (downloader.py:196-198) |
| Downloader.HookEffect | downloader.py:44-59 | a hook call emits one progress event exactly when the report translates to one, and raises exactly when it translates to a raise, in which case nothing is emitted |
| Downloader.Transfer | downloader.py:117 | the transfer emits only progress events; a flag set at its start stays set, and then whatever it raises is the cancel message |
| Downloader.Transferred | downloader.py:117 | the transfer of a job emits only progress events |
| Downloader.TransferAppend | downloader.py:117 | a transfer split in two runs as the first part, followed (if nothing was raised) by the second part from the flag the first left |
| Downloader.CancelStopsTransfer | downloader.py:44-45 | a cancel followed by a hook call ends the transfer there, with the cancel message and the flag set |
| Downloader.TransferCancelOnlyByUser | downloader.py:61-64 | the flag is set after a transfer only if it was set before or a cancel happened during it |
| Downloader.Finished | downloader.py:119-137 | after a clean transfer: the tags (audio only), the history entry and the success, or the error when adding to the history raises; `FinishedEvent` and `FinishedCalls` state its properties |
| Downloader.Attempted | downloader.py:103-141 | the `try` block: extraction, the thumbnail, the checkpoint, the transfer, then `Finished`; the `Attempted…` lemmas state its properties |
| Downloader.Run | downloader.py:66-141 | a whole job: the flag cleared, validation and the folder, then `Attempted`; the job lemmas below state its properties |
| Downloader.Prepared | downloader.py:70-84 | the job stops exactly on a rejected URL or a folder that cannot be created, with the validation message or "Não foi possível criar a pasta: " and the error; `makedirs` is called exactly when the URL is valid and the folder is missing; going on means the URL validated to the normalised one |
| Downloader.FinishedEvent | downloader.py:119-137 | post-processing emits exactly one signal and leaves the flag alone: success exactly when the history can be read, with the folder and the path, and then the history is `Appended`; otherwise an error with the history unchanged |
| Downloader.FinishedCalls | downloader.py:119-137 | post-processing's last outside call adds the record for the URL, title, kind and path to the history, and it never downloads or extracts |
| Downloader.AttemptedEvents | downloader.py:103-141 | inside the `try`, every signal but the last is a progress event and the last is an error or a success; no signal at all exactly when extraction succeeded and the checkpoint saw the flag |
| Downloader.AttemptedCalls | downloader.py:105-117 | inside the `try`, the first outside call is the extraction, and every extraction and download uses the normalised URL |
| Downloader.AttemptedSuccess | downloader.py:103-141 | inside the `try`, success exactly when extraction works, the checkpoint sees no cancel, the transfer raises nothing, the engine raises nothing, and the history can be read; any other outcome leaves the history unchanged |
| Downloader.AttemptedSucceeds | downloader.py:119-137 | a successful `try` reports the folder and the file's path, and its last call adds the matching record to the history |
| Downloader.JobShape | downloader.py:66-141 | a whole job: every signal but the last is a progress event (so there is never an `Info`), the last is an error or a success, and the job is silent exactly when the checkpoint cancel fires |
| Downloader.EngineSeesNormalisedUrl | downloader.py:70-75 | the engine is reached exactly when the URL is valid and the folder usable, and it always gets the normalised URL |
| Downloader.CheckpointCancelIsSilent | downloader.py:116 | a cancel seen at the checkpoint: no signal, no download, no tagging, no history entry, and the flag stays set |
| Downloader.StoppedJob | downloader.py:70-84 | a job stopped by a rejected URL or a folder that cannot be created emits exactly that one error, makes no call but `makedirs`, leaves the history alone and the flag clear |
| Downloader.CancelTransferred | downloader.py:44-45 | a user cancel between two hook calls makes the transfer end with the cancel message and the flag set, after the progress made before it |
| Downloader.TransferRaises | downloader.py:138-141 | a transfer that raises ends the job with the progress, then one error with the prefix and the message; no history entry |
| Downloader.CancelDuringTransfer | downloader.py:44-45 | a cancel during the transfer ends the job with the earlier progress, then "Erro ao baixar …: Download cancelado pelo usuário"; no history entry, and the flag stays set |
| Downloader.SuccessWhen | downloader.py:103-141 | a whole job succeeds exactly when the URL is valid, the folder is usable, extraction works, there is no cancel, the transfer and the engine raise nothing, and the history can be read; any other outcome leaves the history unchanged |
| Downloader.SuccessReport | downloader.py:119-137 | a successful job reports the folder and the sanitised path under it, and its last outside call records the normalised URL, title, kind and path in the history |
| Downloader.RunCancel | downloader.py:68-141 | the flag is set after a job only if the checkpoint saw a cancel or the transfer left it set |
| Downloader.JobCancelOnlyByUser | downloader.py:68 | the flag is cleared on entry, so it is set after a job only if the user cancelled during it |
| Downloader.DownloadManager.constructor | downloader.py:15-18 | a new manager has the flag clear and nothing emitted |
| Downloader.DownloadManager.CancelDownload | downloader.py:61-64 | sets the flag and emits nothing |
| Downloader.DownloadManager.Hook | downloader.py:42-59 | the signals emitted and the raise are those of `ProgressReport.Hook` on the current flag; the flag is unchanged |
| Downloader.DownloadManager.Deliver | downloader.py:44-59 | one hook call on a translated report: the cancel check first, then the emission or the raise |
| Downloader.DownloadManager.RunTransfer | downloader.py:117 | running the engine's steps one by one emits, sets the flag and raises exactly as `Transfer` says |
| Downloader.DownloadManager.ExtractInfo | downloader.py:20-40 | a rejected URL gives its error and no engine call; otherwise the engine gets the URL as typed, and the result is an `Info` event and the details, or the "Erro ao obter informações do vídeo: " error and nothing |
| Downloader.DownloadManager.Prepare | downloader.py:70-84 | URL validation and folder creation, as `Prepared` says |
| Downloader.DownloadManager.Attempt | downloader.py:103-141 | the `try` block, as `Attempted` says, with the transfer that `Transferred` gives |
| Downloader.DownloadManager.Finish | downloader.py:119-137 | the path, tags, history entry and final signal, as `Finished` says |
| Downloader.DownloadManager.Tag | downloader.py:123-125 | an audio job records the tagging of its file and returns the tags `apply_metadata` saves: the song and the artist split from the title, the fixed album "YouTube Download" and the cover, every other frame kept; nothing is saved when the file cannot be opened or saved; a video job tags nothing |
| Downloader.DownloadManager.RunJob | downloader.py:66-141 | the signals, the outside calls, the flag and the history after a job are those of `Run` |
| Downloader.DownloadManager.DownloadAudio | downloader.py:66-141 | `download_audio` with the default quality "320": `Run` for an audio request |
| Downloader.DownloadManager.DownloadVideo | downloader.py:143-214 | `download_video` with the defaults "mp4" and "720p": `Run` for a video request |

## Left out

- The Qt interface, the signals' delivery across threads, and the logger. Signals are recorded in emission order; nothing runs concurrently. A cancel from the interface thread is a step placed between hook calls.
- The engine (yt-dlp), `requests`, PIL and mutagen are not modelled. Their results are parameters:
  - `baixar_thumbnail` returns the `Env` thumbnail bytes;
  - image conversion is present or absent in `Mp3File`;
  - the GitHub reply and `version.parse` are arguments of the update check.
- `ProgressReport.TruncatedDecimal`: accepts only digits with at most one point. Python's `float` also accepts signs, exponents, underscores, `inf` and `nan`; the model treats those texts as a raise. The model also works with exact decimals, not doubles: a value with more than about 15 significant digits rounds in Python (`int(float("0.99999999999999999999"))` is 1, the model gives 0), and a value beyond the double range becomes `inf`, on which `int` raises OverflowError, where the model gives the number. `FloatError` always quotes the text with `'…'`, while Python's message shows its `repr` (double quotes around a text holding `'`, escaped control characters).
- `Downloader.Transfer`: assumes the engine lets the hook's exception end the transfer and re-raises it unchanged, as yt-dlp does. Any wrapping of the message by the engine is not modelled.
- `Downloader.JoinPosix`: follows POSIX `os.path.join`. The Windows rules (drive letters, `\` separators) are not modelled.
- `Utils.ValidateUrl`: `\w` and `\S` are taken over ASCII word characters and Python's whitespace set. Non-ASCII word characters are not modelled. urlparse is modelled only as far as the scheme and the ValueError for a network location with one bracket but not the other. The check of a balanced bracketed host that is not an IP address (Python 3.11.4 and later) is left out: for `https://[youtube.com]/x` the source answers "URL mal formatada", the model "URL não parece ser do YouTube". The port-number checks of other Python versions are left out, and so is the NFKC check of the network location: `https://youtu＠be/abc` (a full-width `@`) is valid in the model, while urlsplit raises ValueError and the source answers "URL mal formatada".
- `Text.Lower`: lower-cases ASCII letters only.
- `History.AfterSave`, `Config.AfterSave`: a save whose failure comes after every byte was written (the final close failing) is treated like any other dump failure, as a file that cannot be parsed. The file might in fact hold the whole document.
- History and settings files that hold JSON other than an object (a list, a number) are not modelled. A `title` key present with a null value is treated as missing.
- `History.Downloads`: a `downloads` entry that is not a list is not modelled; the document holds a list or no entry. For `{"downloads": "x"}` the source's `add_to_history` raises AttributeError (`'str' object has no attribute 'insert'`), so the job's error text differs from the model's `'downloads'`, and `get_recent_downloads` returns a slice of the string where the model reports the KeyError.
- `baixar_audio` (the compatibility wrapper), `obter_tamanho_arquivo_str`, `verificar_dependencias`, `get_app_version` and `get_repo_info` are not part of this model. They are formatting and environment checks outside the download core. `DownloadManager.current_download` is never read, so it is omitted.
- `Updater.AutoUpdater.CheckAndNotify`: the dialog and the message box it shows are not modelled, only its return value.
