/** `DownloadManager` (downloader.py): one download job as a fixed sequence of
    steps (validate the URL, create the folder, extract the video's details,
    the cancel checkpoint, the engine transfer, tagging, the history entry)
    that ends in at most one error or success event. The engine, the
    thumbnail fetch, the tag writer and the folder creation are outside the
    model: an `Env` value says how each of them turns out. */
module Downloader {
  import opened Text
  import Utils
  import ProgressReport
  import Metadata
  import History

  const AudioError := "Erro ao baixar áudio: "
  const VideoError := "Erro ao baixar vídeo: "
  const FolderError := "Não foi possível criar a pasta: "
  const InfoError := "Erro ao obter informações do vídeo: "
  const UnknownTitle := "Unknown Title"
  const OutputTemplate := "%(title)s.%(ext)s"
  const AudioSelector := "bestaudio/best"
  const AudioCodec := "mp3"
  const Album := "YouTube Download"

  // ---------------------------------------------------------------------------
  // Engine options
  // ---------------------------------------------------------------------------

  /** The selector that caps both the video stream and the single-file fallback at height `h`. */
  function Capped(h: string): (r: string)
    ensures |r| == 2 * |h| + 44
  {
    "bestvideo[height<=" + h + "]+bestaudio/best[height<=" + h + "]"
  }

  /** `format_map.get(quality, "best")`. */
  function FormatSelector(quality: string): (r: string)
    ensures r == "best" || (|quality| > 1 && quality[|quality| - 1] == 'p' && r == Capped(quality[..|quality| - 1]))
    ensures r == "best" <==> quality !in {"360p", "480p", "720p", "1080p"}
  {
    if quality == "360p" then Capped("360")
    else if quality == "480p" then Capped("480")
    else if quality == "720p" then Capped("720")
    else if quality == "1080p" then Capped("1080")
    else "best"
  }

  /** `os.path.join(folder, name)` with the POSIX rules. */
  function Join(folder: string, name: string): string {
    if StartsWith(name, "/") then name
    else if folder == [] || EndsWith(folder, "/") then folder + name
    else folder + "/" + name
  }

  /** An absolute name replaces the folder; otherwise one `/` separates
      them unless the folder is empty or already ends in one. */
  lemma JoinPosix(folder: string, name: string)
    ensures StartsWith(name, "/") ==> Join(folder, name) == name
    ensures !StartsWith(name, "/") ==> StartsWith(Join(folder, name), folder) && EndsWith(Join(folder, name), name)
    ensures !StartsWith(name, "/") ==>
              |Join(folder, name)| - |folder| - |name| == (if folder == [] || EndsWith(folder, "/") then 0 else 1)
  {
    if !StartsWith(name, "/") {
      var r := Join(folder, name);
      var sep := if folder == [] || EndsWith(folder, "/") then "" else "/";
      assert r == folder + sep + name;
      assert r[..|folder|] == folder;
      assert r[|r| - |name|..] == name;
    }
  }

  // ---------------------------------------------------------------------------
  // What the job emits and what it asks of the outside world
  // ---------------------------------------------------------------------------

  /** The fields of the engine's info dictionary the manager reads; `None` is a missing key. */
  datatype MediaInfo = MediaInfo(title: Option<string>, thumbnail: Option<string>)

  /** The dictionary sent with the success signal. */
  datatype SuccessInfo =
    | AudioDone(title: string, format: string, path: string, hasMetadata: bool)
    | VideoDone(title: string, format: string, path: string, quality: string)

  /** The four signals of the manager. */
  datatype Event =
    | Info(info: MediaInfo)
    | Progress(percent: nat, details: ProgressReport.ProgressInfo)
    | Error(message: string)
    | Success(folder: string, result: SuccessInfo)

  /** The option dictionary handed to the engine, as far as it shapes the result. */
  datatype Options =
    | AudioOptions(format: string, codec: string, quality: string, template: string)
    | VideoOptions(format: string, merge: string, template: string)

  /** One request to something outside the manager. */
  datatype Call =
    | MakeDirs(path: string)
    | Extract(url: string)
    | FetchThumbnail(url: string)
    | Download(url: string, options: Options)
    /** `apply_metadata` on the audio file at `path`, with the artist and the
        song `extract_artist_from_title` takes from `title`. */
    | WriteTags(path: string, title: string, album: string, cover: Option<seq<byte>>)
    | AppendHistory(record: History.Record)

  /** One thing that happens while the engine transfers: the user presses
      cancel (from the interface thread), or the engine calls the hook. */
  datatype EngineStep = UserCancel | Callback(report: ProgressReport.RawEvent)

  /** How the outside world turns out for one job. */
  datatype Env = Env(
    folderExists: bool,
    makeDirsError: Option<string>,        // what `os.makedirs` raises, if it does
    extracted: Result<MediaInfo>,         // `extract_info(url, download=False)`
    thumbnailData: Option<seq<byte>>,     // what `baixar_thumbnail` returns
    cancelBeforeCheckpoint: bool,         // a cancel arrives while the engine extracts, before the checkpoint
    transfer: seq<EngineStep>,            // the engine's transfer, step by step
    transferError: Option<string>,        // what the engine raises once its steps are done
    mp3: Metadata.Mp3File,                // the downloaded MP3, as the tag writer finds it
    now: string,                          // the formatted `datetime.now()`
    historySave: Save)                    // how saving the history turns out

  /** What `download_audio(url, folder, quality)` or `download_video(url, folder, format, quality)` was asked for. */
  datatype Request = AudioRequest(quality: string) | VideoRequest(format: string, quality: string)

  function ErrorPrefix(req: Request): string {
    if req.AudioRequest? then AudioError else VideoError
  }

  /** The `format` recorded in the history entry. */
  function Kind(req: Request): string {
    if req.AudioRequest? then "audio" else "video"
  }

  /** The extension the engine's output ends up with. */
  function Extension(req: Request): string {
    if req.AudioRequest? then AudioCodec else Lower(req.format)
  }

  function EngineOptions(req: Request, folder: string): Options {
    match req
    case AudioRequest(quality) => AudioOptions(AudioSelector, AudioCodec, quality, Join(folder, OutputTemplate))
    case VideoRequest(format, quality) => VideoOptions(FormatSelector(quality), Lower(format), Join(folder, OutputTemplate))
  }

  /** The path reported for the finished file. */
  function OutputPath(req: Request, folder: string, title: string): string {
    Join(folder, Utils.Sanitize(title + "." + Extension(req)))
  }

  function Done(req: Request, title: string, path: string): SuccessInfo {
    match req
    case AudioRequest(_) => AudioDone(title, AudioCodec, path, true)
    case VideoRequest(format, quality) => VideoDone(title, Lower(format), path, quality)
  }

  // ---------------------------------------------------------------------------
  // The transfer
  // ---------------------------------------------------------------------------

  /** What one hook call emits, and what it raises. */
  function HookEffect(t: ProgressReport.Translation): (r: (seq<Event>, Option<string>))
    ensures t.Raised? <==> r.1.Some?
    ensures r.1.Some? ==> r.0 == [] && r.1.value == t.message
    ensures t.Emitted? <==> r.0 != []
    ensures t.Emitted? ==> r.0 == [Progress(t.percent, t.info)]
  {
    match t
    case Ignored => ([], None)
    case Emitted(p, info) => ([Progress(p, info)], None)
    case Raised(m) => ([], Some(m))
  }

  /** The progress events of a transfer, the cancel flag after it, and what a hook raised. */
  datatype TransferRun = TransferRun(progress: seq<Event>, cancel: bool, raised: Option<string>)

  predicate AllProgress(events: seq<Event>) {
    forall i | 0 <= i < |events| :: events[i].Progress?
  }

  function Continued(before: seq<Event>, t: TransferRun): (r: TransferRun)
    ensures r.progress == before + t.progress && r.cancel == t.cancel && r.raised == t.raised
  {
    TransferRun(before + t.progress, t.cancel, t.raised)
  }

  /** A transfer step as the manager sees it: a cancel, or a hook call with
      what the report translates to. */
  datatype Step = CancelPressed | Reported(translation: ProgressReport.Translation)

  function Lift(s: EngineStep): Step {
    match s
    case UserCancel => CancelPressed
    case Callback(d) => Reported(ProgressReport.Translate(d))
  }

  function Translated(steps: seq<EngineStep>): (r: seq<Step>)
    ensures |r| == |steps| && forall i | 0 <= i < |steps| :: r[i] == Lift(steps[i])
  {
    seq(|steps|, i requires 0 <= i < |steps| => Lift(steps[i]))
  }

  /** The transfer, from the flag's value at its start: a cancel sets the flag;
      each hook call emits or not, and the first one that raises ends the transfer. */
  function Transfer(steps: seq<Step>, cancel: bool): (r: TransferRun)
    ensures AllProgress(r.progress)
    ensures cancel ==> r.cancel
    ensures cancel && r.raised.Some? ==> r.raised.value == ProgressReport.CancelMessage
    decreases |steps|
  {
    if steps == [] then TransferRun([], cancel, None)
    else
      match steps[0]
      case CancelPressed => Transfer(steps[1..], true)
      case Reported(t) =>
        var effect := HookEffect(ProgressReport.Screened(cancel, t));
        if effect.1.Some? then TransferRun(effect.0, cancel, effect.1)
        else Continued(effect.0, Transfer(steps[1..], cancel))
  }

  /** The first step of a transfer, taken on its own. */
  lemma TransferHead(steps: seq<Step>, cancel: bool)
    requires |steps| > 0
    ensures steps[0].CancelPressed? ==> Transfer(steps, cancel) == Transfer(steps[1..], true)
    ensures steps[0].Reported? ==>
              var effect := HookEffect(ProgressReport.Screened(cancel, steps[0].translation));
              Transfer(steps, cancel) ==
                if effect.1.Some? then TransferRun(effect.0, cancel, effect.1)
                else Continued(effect.0, Transfer(steps[1..], cancel))
  {
  }

  /** A transfer split in two runs as the first part followed, if that part
      raised nothing, by the second part from the flag the first left. */
  lemma {:induction false} TransferAppend(a: seq<Step>, b: seq<Step>, cancel: bool)
    ensures Transfer(a + b, cancel) ==
              if Transfer(a, cancel).raised.Some? then Transfer(a, cancel)
              else Continued(Transfer(a, cancel).progress, Transfer(b, Transfer(a, cancel).cancel))
    decreases |a|
  {
    if a == [] {
      assert a + b == b;
    } else {
      assert (a + b)[0] == a[0];
      assert (a + b)[1..] == a[1..] + b;
      match a[0]
      case CancelPressed =>
        TransferAppend(a[1..], b, true);
      case Reported(t) =>
        TransferAppend(a[1..], b, cancel);
    }
  }

  /** A cancel during the transfer is reported by the next hook call: the
      transfer ends there, raising the cancel message. */
  lemma CancelStopsTransfer(before: seq<Step>, t: ProgressReport.Translation, after: seq<Step>, cancel: bool)
    requires Transfer(before, cancel).raised.None?
    ensures Transfer(before + [CancelPressed, Reported(t)] + after, cancel) ==
              TransferRun(Transfer(before, cancel).progress, true, Some(ProgressReport.CancelMessage))
  {
    var rest: seq<Step> := [CancelPressed, Reported(t)] + after;
    assert before + [CancelPressed, Reported(t)] + after == before + rest;
    TransferAppend(before, rest, cancel);
    assert rest[1..][1..] == after;
    assert rest[1..][0] == Reported(t);
    assert Transfer(rest, Transfer(before, cancel).cancel) == TransferRun([], true, Some(ProgressReport.CancelMessage));
    assert Transfer(before, cancel).progress + [] == Transfer(before, cancel).progress;
  }

  /** Only the user sets the flag: it is set after a transfer only if it was
      set before or a cancel happened during it. */
  lemma {:induction false} TransferCancelOnlyByUser(steps: seq<Step>, cancel: bool)
    ensures Transfer(steps, cancel).cancel ==> cancel || exists i | 0 <= i < |steps| :: steps[i].CancelPressed?
    decreases |steps|
  {
    if steps != [] && !cancel {
      TransferHead(steps, cancel);
      TransferCancelOnlyByUser(steps[1..], cancel);
      if Transfer(steps[1..], cancel).cancel {
        var i :| 0 <= i < |steps[1..]| && steps[1..][i].CancelPressed?;
        assert steps[i + 1].CancelPressed?;
      }
    }
  }

  // ---------------------------------------------------------------------------
  // One job
  // ---------------------------------------------------------------------------

  /** The outcome of one job: the events emitted, the outside calls made, the
      cancel flag afterwards and the history document afterwards. */
  datatype Job = Job(events: seq<Event>, calls: seq<Call>, cancel: bool, history: History.Document)

  /** The steps before the engine: a rejected URL or a folder that cannot be
      created stops the job with one error; otherwise the job goes on with the
      normalised URL. */
  datatype Setup = Stop(message: string, made: seq<Call>) | Go(url: string, made: seq<Call>)

  function Prepared(v: Utils.Validation, folder: string, env: Env): (r: Setup)
    ensures r.Go? ==> v == Utils.Valid(r.url)
    ensures r.made == if v.Invalid? || env.folderExists then [] else [MakeDirs(folder)]
    ensures r.Stop? <==> v.Invalid? || (!env.folderExists && env.makeDirsError.Some?)
    ensures r.Stop? ==> r.message == if v.Invalid? then v.message else FolderError + env.makeDirsError.value
  {
    match v
    case Invalid(m) => Stop(m, [])
    case Valid(u) =>
      if env.folderExists then Go(u, [])
      else if env.makeDirsError.Some? then Stop(FolderError + env.makeDirsError.value, [MakeDirs(folder)])
      else Go(u, [MakeDirs(folder)])
  }

  /** Appending in two steps is appending the two parts at once. */
  lemma Concat<T>(a: seq<T>, b: seq<T>, c: seq<T>)
    ensures (a + b) + c == a + (b + c)
  {
  }

  /** `events` and `calls` happen first, then the rest of the job `j`. */
  function Then(events: seq<Event>, calls: seq<Call>, j: Job): Job {
    Job(events + j.events, calls + j.calls, j.cancel, j.history)
  }

  /** The thumbnail is fetched for audio only, and only when the info names a non-empty one. */
  function FetchesThumbnail(req: Request, info: MediaInfo): bool {
    req.AudioRequest? && Truthy(info.thumbnail)
  }

  /** The cover art handed to the tagger: the fetched thumbnail, audio only. */
  function Cover(req: Request, info: MediaInfo, env: Env): Option<seq<byte>> {
    if FetchesThumbnail(req, info) then env.thumbnailData else None
  }

  /** The tagging call an audio job makes on its file: the video title (the
      tagger splits it into artist and song), the fixed album, the cover. */
  function Tagging(req: Request, path: string, title: string, cover: Option<seq<byte>>): seq<Call> {
    if req.AudioRequest? then
      [WriteTags(path, title, Album, cover)]
    else []
  }

  /** After a clean transfer: the tags (audio only), the history entry, and
      the success event, or the error when adding to the history raises. */
  function Finished(req: Request, u: string, folder: string, env: Env, info: MediaInfo,
                    cancel: bool, history: History.Document): Job
  {
    var title := info.title.GetOr(UnknownTitle);
    var path := OutputPath(req, folder, title);
    var rec := History.Record(u, title, Kind(req), path, env.now);
    var added := History.Appended(history, rec, env.historySave);
    var last := if added.0.Err? then Error(ErrorPrefix(req) + added.0.message) else Success(folder, Done(req, title, path));
    Job([last], Tagging(req, path, title, Cover(req, info, env)) + [AppendHistory(rec)], cancel, added.1)
  }

  /** The `try` block: from the extraction with the normalised URL `u` to the
      end, where `run` is how the engine's transfer goes once it starts. */
  function Attempted(req: Request, u: string, folder: string, env: Env, run: TransferRun,
                     history: History.Document): Job
  {
    match env.extracted
    case Err(e) => Job([Error(ErrorPrefix(req) + e)], [Extract(u)], env.cancelBeforeCheckpoint, history)
    case Ok(info) =>
      var fetched := [Extract(u)] + if FetchesThumbnail(req, info) then [FetchThumbnail(info.thumbnail.value)] else [];
      if env.cancelBeforeCheckpoint then Job([], fetched, true, history)
      else
        var downloading := fetched + [Download(u, EngineOptions(req, folder))];
        var failure := if run.raised.Some? then run.raised else env.transferError;
        if failure.Some? then Job(run.progress + [Error(ErrorPrefix(req) + failure.value)], downloading, run.cancel, history)
        else Then(run.progress, downloading, Finished(req, u, folder, env, info, run.cancel, history))
  }

  /** How the engine's transfer goes for `env`, the flag being clear when it starts. */
  function Transferred(env: Env): (r: TransferRun)
    ensures AllProgress(r.progress)
  {
    Transfer(Translated(env.transfer), false)
  }

  /** `download_audio` or `download_video` from entry, where the flag is
      cleared, to the end; `run` is how the transfer goes if it starts. */
  function Run(req: Request, v: Utils.Validation, folder: string, env: Env, run: TransferRun, history: History.Document): Job {
    match Prepared(v, folder, env)
    case Stop(m, made) => Job([Error(m)], made, false, history)
    case Go(u, made) => Then([], made, Attempted(req, u, folder, env, run, history))
  }

  predicate Terminal(e: Event) {
    e.Error? || e.Success?
  }

  // ---------------------------------------------------------------------------
  // What a job promises
  // ---------------------------------------------------------------------------

  /** The last stage ends in exactly one signal: the success, when the
      history can be read and gains the entry, or the error, when it cannot
      and stays as it was. */
  lemma FinishedEvent(req: Request, u: string, folder: string, env: Env, info: MediaInfo,
                      cancel: bool, history: History.Document)
    ensures var f := Finished(req, u, folder, env, info, cancel, history);
              var title := info.title.GetOr(UnknownTitle);
              var rec := History.Record(u, title, Kind(req), OutputPath(req, folder, title), env.now);
              |f.events| == 1 && Terminal(f.events[0]) && f.cancel == cancel &&
              (f.events[0].Success? <==> History.Downloads(history).Ok?) &&
              (f.events[0].Success? ==>
                 f.events[0] == Success(folder, Done(req, title, OutputPath(req, folder, title))) &&
                 f.history == History.Appended(history, rec, env.historySave).1) &&
              (!f.events[0].Success? ==> f.history == history)
  {
  }

  /** The last stage's outside calls end with the history entry and never
      reach the engine. */
  lemma FinishedCalls(req: Request, u: string, folder: string, env: Env, info: MediaInfo,
                      cancel: bool, history: History.Document)
    ensures var f := Finished(req, u, folder, env, info, cancel, history);
              var title := info.title.GetOr(UnknownTitle);
              var rec := History.Record(u, title, Kind(req), OutputPath(req, folder, title), env.now);
              |f.calls| > 0 && f.calls[|f.calls| - 1] == AppendHistory(rec) &&
              forall i | 0 <= i < |f.calls| :: !f.calls[i].Download? && !f.calls[i].Extract?
  {
  }

  /** The `try` block's signals: progress reports followed by one error or
      success, or nothing at all when the checkpoint sees the flag. */
  lemma AttemptedEvents(req: Request, u: string, folder: string, env: Env, run: TransferRun, history: History.Document)
    requires AllProgress(run.progress)
    ensures var a := Attempted(req, u, folder, env, run, history);
              (forall i | 0 <= i < |a.events| - 1 :: a.events[i].Progress?) &&
              (a.events != [] ==> Terminal(a.events[|a.events| - 1])) &&
              (a.events == [] <==> env.extracted.Ok? && env.cancelBeforeCheckpoint)
  {
    if env.extracted.Ok? && !env.cancelBeforeCheckpoint {
      var failure := if run.raised.Some? then run.raised else env.transferError;
      if failure.None? {
        FinishedEvent(req, u, folder, env, env.extracted.value, run.cancel, history);
      }
    }
  }

  /** The `try` block starts with the extraction and hands the engine the URL it was given. */
  lemma AttemptedCalls(req: Request, u: string, folder: string, env: Env, run: TransferRun, history: History.Document)
    ensures var a := Attempted(req, u, folder, env, run, history);
              |a.calls| > 0 && a.calls[0] == Extract(u) &&
              forall i | 0 <= i < |a.calls| && (a.calls[i].Extract? || a.calls[i].Download?) :: a.calls[i].url == u
  {
    if env.extracted.Ok? && !env.cancelBeforeCheckpoint {
      var failure := if run.raised.Some? then run.raised else env.transferError;
      if failure.None? {
        FinishedCalls(req, u, folder, env, env.extracted.value, run.cancel, history);
      }
    }
  }

  /** The `try` block succeeds exactly when the extraction, the checkpoint,
      the transfer and the history all let it, and only a success changes
      the history. */
  lemma AttemptedSuccess(req: Request, u: string, folder: string, env: Env, run: TransferRun, history: History.Document)
    ensures var a := Attempted(req, u, folder, env, run, history);
              (a.events != [] && a.events[|a.events| - 1].Success?) <==>
                env.extracted.Ok? && !env.cancelBeforeCheckpoint && run.raised.None? &&
                env.transferError.None? && History.Downloads(history).Ok?
    ensures var a := Attempted(req, u, folder, env, run, history);
              !(a.events != [] && a.events[|a.events| - 1].Success?) ==> a.history == history
  {
    if env.extracted.Ok? && !env.cancelBeforeCheckpoint {
      var failure := if run.raised.Some? then run.raised else env.transferError;
      if failure.None? {
        FinishedEvent(req, u, folder, env, env.extracted.value, run.cancel, history);
      }
    }
  }

  /** A successful `try` block reports the folder and the file's path, and
      its last outside call adds the entry for that file to the history. */
  lemma AttemptedSucceeds(req: Request, u: string, folder: string, env: Env, run: TransferRun, history: History.Document)
    requires env.extracted.Ok? && !env.cancelBeforeCheckpoint && run.raised.None?
    requires env.transferError.None? && History.Downloads(history).Ok?
    ensures var a := Attempted(req, u, folder, env, run, history);
              var title := env.extracted.value.title.GetOr(UnknownTitle);
              var path := OutputPath(req, folder, title);
              var rec := History.Record(u, title, Kind(req), path, env.now);
              a.events != [] && a.events[|a.events| - 1] == Success(folder, Done(req, title, path)) &&
              a.calls != [] && a.calls[|a.calls| - 1] == AppendHistory(rec) &&
              a.history == History.Appended(history, rec, env.historySave).1
  {
    FinishedEvent(req, u, folder, env, env.extracted.value, run.cancel, history);
    FinishedCalls(req, u, folder, env, env.extracted.value, run.cancel, history);
  }

  /** Every event but the last is a progress report, the last one is the
      error or the success that ends the job, and a job ends silently exactly
      when the cancel checkpoint after the extraction sees the flag. */
  lemma JobShape(req: Request, v: Utils.Validation, folder: string, env: Env, run: TransferRun, history: History.Document)
    requires AllProgress(run.progress)
    ensures var j := Run(req, v, folder, env, run, history);
              (forall i | 0 <= i < |j.events| - 1 :: j.events[i].Progress?) &&
              (j.events != [] ==> Terminal(j.events[|j.events| - 1])) &&
              (j.events == [] <==> Prepared(v, folder, env).Go? && env.extracted.Ok? && env.cancelBeforeCheckpoint)
  {
    match Prepared(v, folder, env)
    case Stop(m, made) =>
    case Go(u, made) =>
      AttemptedEvents(req, u, folder, env, run, history);
  }

  /** Only a valid URL and a usable folder reach the engine, and the engine
      is always handed the normalised URL, never the one typed in. */
  lemma EngineSeesNormalisedUrl(req: Request, v: Utils.Validation, folder: string, env: Env, run: TransferRun, history: History.Document)
    ensures var j := Run(req, v, folder, env, run, history);
              (exists i | 0 <= i < |j.calls| :: j.calls[i].Extract?) <==> Prepared(v, folder, env).Go?
    ensures var j := Run(req, v, folder, env, run, history);
              forall i | 0 <= i < |j.calls| && (j.calls[i].Extract? || j.calls[i].Download?) ::
                v.Valid? && j.calls[i].url == v.url
  {
    var j := Run(req, v, folder, env, run, history);
    match Prepared(v, folder, env)
    case Stop(m, made) =>
      assert forall i | 0 <= i < |j.calls| :: j.calls[i] == MakeDirs(folder);
    case Go(u, made) =>
      AttemptedCalls(req, u, folder, env, run, history);
      assert j.calls[|made|] == Extract(u);
  }

  /** A cancel seen at the checkpoint ends the job with no signal at all: the
      engine never downloads and the history is untouched. */
  lemma CheckpointCancelIsSilent(req: Request, v: Utils.Validation, folder: string, env: Env, run: TransferRun, history: History.Document)
    requires Prepared(v, folder, env).Go? && env.extracted.Ok? && env.cancelBeforeCheckpoint
    ensures var j := Run(req, v, folder, env, run, history);
              j.events == [] && j.cancel && j.history == history &&
              forall i | 0 <= i < |j.calls| :: !j.calls[i].Download? && !j.calls[i].WriteTags? && !j.calls[i].AppendHistory?
  {
  }

  /** A rejected URL or a folder that cannot be created ends the job at once
      with that one error: no engine call, no history entry, the flag clear. */
  lemma StoppedJob(req: Request, v: Utils.Validation, folder: string, env: Env, run: TransferRun, history: History.Document)
    requires Prepared(v, folder, env).Stop?
    ensures var j := Run(req, v, folder, env, run, history);
              j.events == [Error(if v.Invalid? then v.message else FolderError + env.makeDirsError.value)] &&
              j.calls == Prepared(v, folder, env).made && j.history == history && !j.cancel
  {
  }

  /** The transfer of a job whose user cancels between two hook calls. */
  lemma CancelTransferred(env: Env, before: seq<EngineStep>, d: ProgressReport.RawEvent, after: seq<EngineStep>)
    requires env.transfer == before + [UserCancel, Callback(d)] + after
    requires Transfer(Translated(before), false).raised.None?
    ensures Transferred(env) == TransferRun(Transfer(Translated(before), false).progress, true, Some(ProgressReport.CancelMessage))
  {
    var t := Lift(Callback(d)).translation;
    assert Translated(env.transfer) == Translated(before) + [CancelPressed, Reported(t)] + Translated(after);
    CancelStopsTransfer(Translated(before), t, Translated(after), false);
  }

  /** A transfer that raises ends the job with that message after the error
      prefix: no success, no history entry. */
  lemma TransferRaises(req: Request, v: Utils.Validation, folder: string, env: Env, run: TransferRun, history: History.Document)
    requires Prepared(v, folder, env).Go? && env.extracted.Ok? && !env.cancelBeforeCheckpoint
    requires run.raised.Some?
    ensures var j := Run(req, v, folder, env, run, history);
              j.events == run.progress + [Error(ErrorPrefix(req) + run.raised.value)] &&
              j.cancel == run.cancel && j.history == history &&
              forall i | 0 <= i < |j.calls| :: !j.calls[i].AppendHistory?
  {
  }

  /** A cancel pressed during the transfer is raised by the next hook call,
      and the job ends with the error prefix followed by the cancel message:
      no success, no history entry, the flag left set. */
  lemma CancelDuringTransfer(req: Request, v: Utils.Validation, folder: string, env: Env, history: History.Document,
                             before: seq<EngineStep>, d: ProgressReport.RawEvent, after: seq<EngineStep>)
    requires Prepared(v, folder, env).Go? && env.extracted.Ok? && !env.cancelBeforeCheckpoint
    requires env.transfer == before + [UserCancel, Callback(d)] + after
    requires Transfer(Translated(before), false).raised.None?
    ensures var j := Run(req, v, folder, env, Transferred(env), history);
              j.events == Transfer(Translated(before), false).progress + [Error(ErrorPrefix(req) + ProgressReport.CancelMessage)] &&
              j.cancel && j.history == history &&
              forall i | 0 <= i < |j.calls| :: !j.calls[i].AppendHistory?
  {
    CancelTransferred(env, before, d, after);
    TransferRaises(req, v, folder, env, Transferred(env), history);
  }

  /** The job succeeds exactly when every outside step does: a valid URL, a
      usable folder, an extraction, no cancel, a clean transfer and a
      readable history; any other outcome leaves the history as it was. */
  lemma SuccessWhen(req: Request, v: Utils.Validation, folder: string, env: Env, run: TransferRun, history: History.Document)
    ensures var j := Run(req, v, folder, env, run, history);
              (j.events != [] && j.events[|j.events| - 1].Success?) <==>
                Prepared(v, folder, env).Go? && env.extracted.Ok? && !env.cancelBeforeCheckpoint &&
                run.raised.None? && env.transferError.None? && History.Downloads(history).Ok?
    ensures var j := Run(req, v, folder, env, run, history);
              !(j.events != [] && j.events[|j.events| - 1].Success?) ==> j.history == history
  {
    match Prepared(v, folder, env)
    case Stop(m, made) =>
    case Go(u, made) =>
      AttemptedSuccess(req, u, folder, env, run, history);
  }

  /** A successful job names the folder and the sanitised path under it, and
      its last outside call adds the entry for the normalised URL and that
      path to the history. */
  lemma SuccessReport(req: Request, v: Utils.Validation, folder: string, env: Env, run: TransferRun, history: History.Document)
    requires Prepared(v, folder, env).Go? && env.extracted.Ok? && !env.cancelBeforeCheckpoint
    requires run.raised.None? && env.transferError.None? && History.Downloads(history).Ok?
    ensures var j := Run(req, v, folder, env, run, history);
              var title := env.extracted.value.title.GetOr(UnknownTitle);
              var path := OutputPath(req, folder, title);
              var rec := History.Record(v.url, title, Kind(req), path, env.now);
              j.events != [] && j.events[|j.events| - 1] == Success(folder, Done(req, title, path)) &&
              j.calls != [] && j.calls[|j.calls| - 1] == AppendHistory(rec) &&
              j.history == History.Appended(history, rec, env.historySave).1
  {
    AttemptedSucceeds(req, Prepared(v, folder, env).url, folder, env, run, history);
  }

  /** After the flag is cleared on entry, only the checkpoint cancel and the
      transfer can leave it set. */
  lemma RunCancel(req: Request, v: Utils.Validation, folder: string, env: Env, run: TransferRun, history: History.Document)
    ensures Run(req, v, folder, env, run, history).cancel ==> env.cancelBeforeCheckpoint || run.cancel
  {
    match Prepared(v, folder, env)
    case Stop(m, made) =>
    case Go(u, made) =>
      if env.extracted.Ok? && !env.cancelBeforeCheckpoint {
        var failure := if run.raised.Some? then run.raised else env.transferError;
        if failure.None? {
          FinishedEvent(req, u, folder, env, env.extracted.value, run.cancel, history);
        }
      }
  }

  /** Every job clears the flag on entry, so the flag is set after a job
      only if the user cancelled during it. */
  lemma JobCancelOnlyByUser(req: Request, v: Utils.Validation, folder: string, env: Env, history: History.Document)
    ensures Run(req, v, folder, env, Transferred(env), history).cancel ==>
              env.cancelBeforeCheckpoint || exists i | 0 <= i < |env.transfer| :: env.transfer[i].UserCancel?
  {
    RunCancel(req, v, folder, env, Transferred(env), history);
    var steps := Translated(env.transfer);
    TransferCancelOnlyByUser(steps, false);
    if Transferred(env).cancel {
      var i :| 0 <= i < |steps| && steps[i].CancelPressed?;
      assert env.transfer[i].UserCancel?;
    }
  }

  /** The reported file sits directly in the folder, under the sanitised
      title with the extension, and holds no path separator. */
  lemma OutputPathInFolder(req: Request, folder: string, title: string)
    ensures var name := Utils.Sanitize(title + "." + Extension(req));
              |name| == |title| + 1 + |Extension(req)| &&
              (forall i | 0 <= i < |name| :: name[i] != '/') &&
              OutputPath(req, folder, title) == (if folder == [] || EndsWith(folder, "/") then folder else folder + "/") + name
  {
    var name := Utils.Sanitize(title + "." + Extension(req));
    assert Utils.IsInvalid('/');
    Utils.SanitizeIsClean(title + "." + Extension(req));
    assert name[0] != '/';
    assert !StartsWith(name, "/");
  }

  // ---------------------------------------------------------------------------
  // The manager
  // ---------------------------------------------------------------------------

  class DownloadManager {
    /** `should_cancel`. */
    var shouldCancel: bool
    /** The signals emitted so far, in order. */
    var events: seq<Event>
    /** The requests made to the outside world so far, in order. */
    ghost var calls: seq<Call>

    constructor ()
      ensures !shouldCancel && events == [] && calls == []
    {
      shouldCancel := false;
      events := [];
      calls := [];
    }

    /** `cancel_download()`: sets the flag; the running job sees it at its next checkpoint. */
    method CancelDownload()
      modifies this
      ensures shouldCancel && events == old(events) && calls == old(calls)
    {
      shouldCancel := true;
    }

    /** `hook(d)`: a raise is returned as its message. */
    method Hook(d: ProgressReport.RawEvent) returns (raised: Option<string>)
      modifies this
      ensures events == old(events) + HookEffect(ProgressReport.Hook(old(shouldCancel), d)).0
      ensures raised == HookEffect(ProgressReport.Hook(old(shouldCancel), d)).1
      ensures shouldCancel == old(shouldCancel) && calls == old(calls)
    {
      raised := Deliver(ProgressReport.Translate(d));
    }

    /** The hook on a report that translates to `t`: the cancel check first,
        then the progress signal or the raise the report calls for. */
    method Deliver(t: ProgressReport.Translation) returns (raised: Option<string>)
      modifies this
      ensures events == old(events) + HookEffect(ProgressReport.Screened(old(shouldCancel), t)).0
      ensures raised == HookEffect(ProgressReport.Screened(old(shouldCancel), t)).1
      ensures shouldCancel == old(shouldCancel) && calls == old(calls)
    {
      if shouldCancel {
        return Some(ProgressReport.CancelMessage);
      }
      match t
      case Ignored =>
        raised := None;
      case Raised(m) =>
        raised := Some(m);
      case Emitted(p, info) =>
        events := events + [Progress(p, info)];
        raised := None;
    }

    /** The engine's transfer: cancels and hook calls in the order they happen,
        up to the first hook call that raises. */
    method RunTransfer(steps: seq<Step>) returns (raised: Option<string>)
      modifies this
      ensures events == old(events) + Transfer(steps, old(shouldCancel)).progress
      ensures shouldCancel == Transfer(steps, old(shouldCancel)).cancel
      ensures raised == Transfer(steps, old(shouldCancel)).raised
      ensures calls == old(calls)
    {
      var i := 0;
      ghost var emitted: seq<Event> := [];
      while i < |steps|
        invariant 0 <= i <= |steps|
        invariant events == old(events) + emitted && calls == old(calls)
        invariant Transfer(steps, old(shouldCancel)) == Continued(emitted, Transfer(steps[i..], shouldCancel))
      {
        assert steps[i..][0] == steps[i] && steps[i..][1..] == steps[i + 1..];
        TransferHead(steps[i..], shouldCancel);
        match steps[i] {
          case CancelPressed =>
            CancelDownload();
          case Reported(t) =>
            ghost var effect := HookEffect(ProgressReport.Screened(shouldCancel, t));
            var r := Deliver(t);
            if r.Some? {
              assert emitted + [] == emitted;
              return r;
            }
            Concat(old(events), emitted, effect.0);
            Concat(emitted, effect.0, Transfer(steps[i + 1..], shouldCancel).progress);
            emitted := emitted + effect.0;
        }
        i := i + 1;
      }
      assert emitted + [] == emitted;
      return None;
    }

    /** `extract_info(url)`: the details of the video, with the original URL,
        not the normalised one; an error event instead on a rejected URL or a
        failed extraction. The flag is neither read nor cleared. */
    method ExtractInfo(url: string, extracted: Result<MediaInfo>) returns (info: Option<MediaInfo>)
      modifies this
      ensures Utils.ValidateUrl(url).Invalid? ==>
                info == None && events == old(events) + [Error(Utils.ValidateUrl(url).message)] && calls == old(calls)
      ensures Utils.ValidateUrl(url).Valid? ==> calls == old(calls) + [Extract(url)]
      ensures Utils.ValidateUrl(url).Valid? && extracted.Ok? ==>
                info == Some(extracted.value) && events == old(events) + [Info(extracted.value)]
      ensures Utils.ValidateUrl(url).Valid? && extracted.Err? ==>
                info == None && events == old(events) + [Error(InfoError + extracted.message)]
      ensures shouldCancel == old(shouldCancel)
    {
      var v := Utils.ValidateUrl(url);
      if v.Invalid? {
        events := events + [Error(v.message)];
        return None;
      }
      calls := calls + [Extract(url)];
      match extracted
      case Ok(i) =>
        events := events + [Info(i)];
        return Some(i);
      case Err(e) =>
        events := events + [Error(InfoError + e)];
        return None;
    }

    /** What follows the URL check `v`: the error on a rejected URL, else
        the folder creation when the folder is missing. */
    method Prepare(v: Utils.Validation, folder: string, env: Env) returns (s: Setup)
      modifies this
      ensures s == Prepared(v, folder, env)
      ensures events == old(events) + if s.Stop? then [Error(s.message)] else []
      ensures calls == old(calls) + s.made
      ensures shouldCancel == old(shouldCancel)
    {
      if v.Invalid? {
        events := events + [Error(v.message)];
        return Stop(v.message, []);
      }
      if !env.folderExists {
        calls := calls + [MakeDirs(folder)];
        if env.makeDirsError.Some? {
          var message := FolderError + env.makeDirsError.value;
          events := events + [Error(message)];
          return Stop(message, [MakeDirs(folder)]);
        }
        return Go(v.url, [MakeDirs(folder)]);
      }
      return Go(v.url, []);
    }

    /** The `try` block, entered with the flag cleared. */
    method Attempt(req: Request, u: string, folder: string, env: Env, history: History.HistoryFile)
      requires !shouldCancel
      modifies this, history
      ensures events == old(events) + Attempted(req, u, folder, env, Transferred(env), old(history.doc)).events
      ensures calls == old(calls) + Attempted(req, u, folder, env, Transferred(env), old(history.doc)).calls
      ensures shouldCancel == Attempted(req, u, folder, env, Transferred(env), old(history.doc)).cancel
      ensures history.doc == Attempted(req, u, folder, env, Transferred(env), old(history.doc)).history
    {
      var options := EngineOptions(req, folder);
      calls := calls + [Extract(u)];
      if env.cancelBeforeCheckpoint {
        CancelDownload();
      }
      if env.extracted.Err? {
        events := events + [Error(ErrorPrefix(req) + env.extracted.message)];
        return;
      }
      var info := env.extracted.value;
      ghost var fetched := [Extract(u)] + if FetchesThumbnail(req, info) then [FetchThumbnail(info.thumbnail.value)] else [];
      if FetchesThumbnail(req, info) {
        Concat(old(calls), [Extract(u)], [FetchThumbnail(info.thumbnail.value)]);
        calls := calls + [FetchThumbnail(info.thumbnail.value)];
      } else {
        assert fetched == [Extract(u)];
      }
      if shouldCancel {
        assert events == old(events) + [];
        return;
      }
      Concat(old(calls), fetched, [Download(u, options)]);
      calls := calls + [Download(u, options)];
      var failure := RunTransfer(Translated(env.transfer));
      if failure.None? {
        failure := env.transferError;
      }
      if failure.Some? {
        Concat(old(events), Transfer(Translated(env.transfer), false).progress, [Error(ErrorPrefix(req) + failure.value)]);
        events := events + [Error(ErrorPrefix(req) + failure.value)];
        return;
      }
      Finish(req, u, folder, env, info, history);
      ghost var finished := Finished(req, u, folder, env, info, shouldCancel, old(history.doc));
      Concat(old(events), Transfer(Translated(env.transfer), false).progress, finished.events);
      Concat(old(calls), fetched + [Download(u, options)], finished.calls);
    }

    /** Everything after a clean transfer: file path, tags, history, final signal. */
    method Finish(req: Request, u: string, folder: string, env: Env, info: MediaInfo, history: History.HistoryFile)
      modifies this, history
      ensures events == old(events) + Finished(req, u, folder, env, info, old(shouldCancel), old(history.doc)).events
      ensures calls == old(calls) + Finished(req, u, folder, env, info, old(shouldCancel), old(history.doc)).calls
      ensures shouldCancel == old(shouldCancel)
      ensures history.doc == Finished(req, u, folder, env, info, old(shouldCancel), old(history.doc)).history
    {
      var title := info.title.GetOr(UnknownTitle);
      var path := OutputPath(req, folder, title);
      var _ := Tag(req, path, title, Cover(req, info, env), env.mp3);
      var record := History.Record(u, title, Kind(req), path, env.now);
      Concat(old(calls), Tagging(req, path, title, Cover(req, info, env)), [AppendHistory(record)]);
      calls := calls + [AppendHistory(record)];
      var added := history.Add(u, title, Kind(req), path, env.now, env.historySave);
      if added.Err? {
        events := events + [Error(ErrorPrefix(req) + added.message)];
        return;
      }
      events := events + [Success(folder, Done(req, title, path))];
    }

    /** `extract_artist_from_title` and `apply_metadata` on the finished audio file. */
    method Tag(req: Request, path: string, title: string, cover: Option<seq<byte>>, mp3: Metadata.Mp3File)
      returns (saved: Option<Metadata.Tags>)
      modifies this
      ensures calls == old(calls) + Tagging(req, path, title, cover)
      ensures events == old(events) && shouldCancel == old(shouldCancel)
      ensures req.VideoRequest? ==> saved.None?
      ensures req.AudioRequest? ==> (saved.Some? <==> mp3.tags.Some? && mp3.saves)
      ensures req.AudioRequest? && saved.Some? ==>
                Metadata.Written(mp3, saved.value, Metadata.SplitTitle(title).1, Metadata.SplitTitle(title).0, Some(Album), cover)
    {
      saved := None;
      if req.AudioRequest? {
        var split := Metadata.SplitTitle(title);
        var artist, song := split.0, split.1;
        calls := calls + [WriteTags(path, title, Album, cover)];
        var _, written := Metadata.ApplyMetadata(mp3, song, artist, Some(Album), cover);
        saved := written;
      }
    }

    /** The body both downloads share: the flag is cleared on entry. */
    method RunJob(req: Request, url: string, folder: string, env: Env, history: History.HistoryFile)
      modifies this, history
      ensures events == old(events) + Run(req, Utils.ValidateUrl(url), folder, env, Transferred(env), old(history.doc)).events
      ensures calls == old(calls) + Run(req, Utils.ValidateUrl(url), folder, env, Transferred(env), old(history.doc)).calls
      ensures shouldCancel == Run(req, Utils.ValidateUrl(url), folder, env, Transferred(env), old(history.doc)).cancel
      ensures history.doc == Run(req, Utils.ValidateUrl(url), folder, env, Transferred(env), old(history.doc)).history
    {
      shouldCancel := false;
      var setup := Prepare(Utils.ValidateUrl(url), folder, env);
      if setup.Go? {
        assert old(events) + [] == old(events);
        Attempt(req, setup.url, folder, env, history);
        ghost var attempted := Attempted(req, setup.url, folder, env, Transferred(env), old(history.doc));
        Concat(old(calls), setup.made, attempted.calls);
        assert [] + attempted.events == attempted.events;
      }
    }

    /** `download_audio(url, folder, quality="320")`. */
    method DownloadAudio(url: string, folder: string, env: Env, history: History.HistoryFile, quality: string := "320")
      modifies this, history
      ensures events == old(events) + Run(AudioRequest(quality), Utils.ValidateUrl(url), folder, env, Transferred(env), old(history.doc)).events
      ensures calls == old(calls) + Run(AudioRequest(quality), Utils.ValidateUrl(url), folder, env, Transferred(env), old(history.doc)).calls
      ensures shouldCancel == Run(AudioRequest(quality), Utils.ValidateUrl(url), folder, env, Transferred(env), old(history.doc)).cancel
      ensures history.doc == Run(AudioRequest(quality), Utils.ValidateUrl(url), folder, env, Transferred(env), old(history.doc)).history
    {
      RunJob(AudioRequest(quality), url, folder, env, history);
    }

    /** `download_video(url, folder, format="mp4", quality="720p")`. */
    method DownloadVideo(url: string, folder: string, env: Env, history: History.HistoryFile,
                         format: string := "mp4", quality: string := "720p")
      modifies this, history
      ensures events == old(events) + Run(VideoRequest(format, quality), Utils.ValidateUrl(url), folder, env, Transferred(env), old(history.doc)).events
      ensures calls == old(calls) + Run(VideoRequest(format, quality), Utils.ValidateUrl(url), folder, env, Transferred(env), old(history.doc)).calls
      ensures shouldCancel == Run(VideoRequest(format, quality), Utils.ValidateUrl(url), folder, env, Transferred(env), old(history.doc)).cancel
      ensures history.doc == Run(VideoRequest(format, quality), Utils.ValidateUrl(url), folder, env, Transferred(env), old(history.doc)).history
    {
      RunJob(VideoRequest(format, quality), url, folder, env, history);
    }
  }
}
