/** The goroutine started for each chosen platform: route the link to an adapter,
    report an adapter error to the chat, otherwise deliver the file and remove it. */
module Task {
  import opened Wrappers
  import opened Limits
  import opened Adapters
  import opened Dispatch

  /** The branch of the platform switch. */
  datatype Adapter = YouTubeAdapter | SoundCloudAdapter | NoAdapter

  /** The platform switch of the task. */
  function AdapterFor(platform: string): Adapter {
    if platform == YouTubeChoice then YouTubeAdapter
    else if platform == SoundCloudChoice then SoundCloudAdapter
    else NoAdapter
  }

  /** The finished file as `sendAudioFile` sees it: `os.Open` failed, or its size and
      whether Telegram accepted the upload. */
  datatype OpenedFile = OpenError | Opened(size: Int64, uploaded: bool)

  /** Why a produced file did not reach the chat. */
  datatype DeliveryError = OpenFailed | TooLargeForTelegram(size: Int64) | UploadFailed

  /** `sendAudioFile`: `None` when the file was uploaded. */
  function SendAudioFile(file: OpenedFile): Option<DeliveryError> {
    match file
    case OpenError => Some(OpenFailed)
    case Opened(size, uploaded) =>
      if !FitsUpload(size) then Some(TooLargeForTelegram(size))
      else if uploaded then None
      else Some(UploadFailed)
  }

  /** An upload is attempted, and so can succeed, only for a file of at most 50 MiB; a
      larger one is refused before the upload whatever Telegram would have said. */
  lemma UploadCeiling(size: Int64, uploaded: bool)
    ensures SendAudioFile(Opened(size, uploaded)) == Some(TooLargeForTelegram(size)) <==> size > 52428800
    ensures SendAudioFile(Opened(size, uploaded)).None? <==> size <= 52428800 && uploaded
  {
    UploadGuard(size);
  }

  /** How a task ends. `Reported`: the error was sent to the chat and no file is removed.
      `Finished`: a file was produced, handed to delivery and then removed; a delivery
      failure is only logged. */
  datatype TaskOutcome =
    | Reported(error: DownloadError)
    | Finished(path: string, deliveryError: Option<DeliveryError>)

  /** The file the task removes at its end, if any. */
  function Removed(outcome: TaskOutcome): Option<string> {
    if outcome.Finished? then Some(outcome.path) else None
  }

  /** The path produced by the adapter the platform selects; the other adapter's result
      is never looked at. */
  function Produced(platform: string, youtube: Result<AudioJob, DownloadError>,
                    soundcloud: Result<string, DownloadError>): Result<string, DownloadError> {
    match AdapterFor(platform)
    case YouTubeAdapter =>
      (match youtube
       case Success(job) => Success(job.filePath)
       case Failure(e) => Failure(e))
    case SoundCloudAdapter => soundcloud
    case NoAdapter => Failure(UnsupportedPlatform)
  }

  /** The body of the goroutine. */
  function RunTask(platform: string, youtube: Result<AudioJob, DownloadError>,
                   soundcloud: Result<string, DownloadError>, file: OpenedFile): TaskOutcome {
    match Produced(platform, youtube, soundcloud)
    case Failure(e) => Reported(e)
    case Success(path) => Finished(path, SendAudioFile(file))
  }

  /** A file is removed exactly when the selected adapter produced one, and it is that
      file, whether or not delivery succeeded; otherwise the adapter's error is what the
      user is told. */
  lemma TaskCleanup(platform: string, youtube: Result<AudioJob, DownloadError>,
                    soundcloud: Result<string, DownloadError>, file: OpenedFile)
    ensures var outcome := RunTask(platform, youtube, soundcloud, file);
      && (platform == YouTubeChoice ==>
            && (youtube.Success? ==> Removed(outcome) == Some(youtube.value.filePath))
            && (youtube.Failure? ==> outcome == Reported(youtube.error) && Removed(outcome).None?))
      && (platform == SoundCloudChoice ==>
            && (soundcloud.Success? ==> Removed(outcome) == Some(soundcloud.value))
            && (soundcloud.Failure? ==> outcome == Reported(soundcloud.error) && Removed(outcome).None?))
      && (!IsPlatformChoice(platform) ==> outcome == Reported(UnsupportedPlatform))
      && (outcome.Finished? ==> outcome.deliveryError == SendAudioFile(file))
  {
  }

  /** A SoundCloud download refused for its size ends as a reported error, so the file
      `os.Create` already made for it is not removed. */
  lemma RefusedDownloadKeepsFile(page: PageResponse, created: bool, response: FileResponse,
                                 youtube: Result<AudioJob, DownloadError>, file: OpenedFile)
    requires created && response.Download? && response.contentLength > 52428800
    requires GetSoundCloudDownloadUrl(page).Success?
    ensures var outcome := RunTask(SoundCloudChoice, youtube, DownloadSoundCloud(page, created, response), file);
      outcome.Reported? && outcome.error.FileTooLarge? && Removed(outcome).None?
  {
    SoundCloudSizeGuard(page, created, response);
  }

  /** Every task the loop starts selects a real adapter, the one named on the button the
      user pressed, so `UnsupportedPlatform` is never reported for it unless an adapter
      itself returned it. */
  lemma SpawnHasAdapter(store: Store, ev: Event, youtube: Result<AudioJob, DownloadError>,
                        soundcloud: Result<string, DownloadError>, file: OpenedFile)
    requires Step(store, ev).1.Spawn?
    ensures var platform := Step(store, ev).1.platform;
      && AdapterFor(platform) == (if ev.text == YouTubeChoice then YouTubeAdapter else SoundCloudAdapter)
      && (youtube != Failure(UnsupportedPlatform) && soundcloud != Failure(UnsupportedPlatform) ==>
            RunTask(platform, youtube, soundcloud, file) != Reported(UnsupportedPlatform))
  {
    StepOtherText(store, ev);
    StepStore(store, ev);
  }
}
