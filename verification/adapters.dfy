/** `downloadYouTube`, `getSoundCloudDownloadURL` and `downloadSoundCloud`, with every
    network, process and filesystem step replaced by its outcome, given as a parameter. */
module Adapters {
  import opened Wrappers
  import opened Formats
  import opened FileNames
  import opened Scrape
  import opened Limits

  /** Why a download task ends without a file. */
  datatype DownloadError =
    | VideoUnavailable          // `client.GetVideo` failed
    | NoAudioStream             // no format with an audio channel
    | StreamFailed              // opening the stream, the temporary file, or copying into it
    | ConversionFailed          // ffmpeg exited with an error
    | PageRequestFailed         // the page request or the read of its body failed
    | PageNotFound(status: int) // the page answered with a status other than 200
    | DownloadUnavailable       // no download URL on the page
    | FileCreateFailed          // `os.Create` of the output file failed
    | DownloadRequestFailed     // the request for the download URL failed
    | FileTooLarge(megabytes: int)
    | CopyFailed                // copying the response body into the file failed
    | UnsupportedPlatform       // the task was started with an unknown platform

  /** What `client.GetVideo` yields that the adapter uses. */
  datatype VideoInfo = VideoInfo(title: string, formats: seq<Format>)

  /** The outcome of `downloadAndConvertYouTube` for the chosen format. */
  datatype TransferOutcome = Converted | StreamError | ConvertError

  /** The chosen stream and the MP3 path it is converted to. */
  datatype AudioJob = AudioJob(format: Format, filePath: string)

  ghost predicate AnyAudio(fs: seq<Format>) {
    exists j :: 0 <= j < |fs| && HasAudio(fs[j])
  }

  /** `downloadYouTube`. `video` is `None` when the metadata fetch failed. */
  method DownloadYouTube(video: Option<VideoInfo>, transfer: TransferOutcome)
    returns (r: Result<AudioJob, DownloadError>)
    ensures video.None? ==> r == Failure(VideoUnavailable)
    ensures video.Some? && !AnyAudio(video.value.formats) ==> r == Failure(NoAudioStream)
    ensures video.Some? && AnyAudio(video.value.formats) && transfer == StreamError ==> r == Failure(StreamFailed)
    ensures video.Some? && AnyAudio(video.value.formats) && transfer == ConvertError ==> r == Failure(ConversionFailed)
    ensures r.Success? <==> video.Some? && AnyAudio(video.value.formats) && transfer == Converted
    ensures r.Success? ==>
      exists k :: IsBestAudio(video.value.formats, k)
        && r.value == AudioJob(video.value.formats[k], OutputPath(video.value.title))
  {
    if video.None? {
      return Failure(VideoUnavailable);
    }
    var v := video.value;
    var best := SelectBestAudio(v.formats);
    if best.None? {
      return Failure(NoAudioStream);
    }
    var path := OutputPath(v.title);
    match transfer
    case StreamError => r := Failure(StreamFailed);
    case ConvertError => r := Failure(ConversionFailed);
    case Converted => r := Success(AudioJob(v.formats[best.value], path));
  }

  /** The page request of `getSoundCloudDownloadURL`: a transport failure, or a status
      and, for status 200, the body or `None` when reading it failed. */
  datatype PageResponse = PageRequestError | Page(status: int, body: Option<string>)

  /** `getSoundCloudDownloadURL`. */
  function GetSoundCloudDownloadUrl(page: PageResponse): Result<Track, DownloadError> {
    match page
    case PageRequestError => Failure(PageRequestFailed)
    case Page(status, body) =>
      if status != 200 then Failure(PageNotFound(status))
      else if body.None? then Failure(PageRequestFailed)
      else
        match ScrapeTrackPage(body.value)
        case None => Failure(DownloadUnavailable)
        case Some(track) => Success(track)
  }

  /** A 200 page fails to resolve exactly when it holds no download URL; a missing title
      never makes it fail. */
  lemma PageResolution(status: int, body: string)
    ensures var r := GetSoundCloudDownloadUrl(Page(status, Some(body)));
      && (status != 200 ==> r == Failure(PageNotFound(status)))
      && (status == 200 ==>
            (r == Failure(DownloadUnavailable) <==> forall i, v :: !MatchAt(body, DownloadUrlKey, i, v)))
      && (status == 200 ==> (r.Success? <==> exists i, v :: MatchAt(body, DownloadUrlKey, i, v)))
  {
    ScrapeCorrect(body);
  }

  /** The response to the request for the download URL: a transport failure, or the
      declared `ContentLength` and whether copying the body succeeded. */
  datatype FileResponse = FileRequestError | Download(contentLength: Int64, copied: bool)

  /** `downloadSoundCloud`. `created` is the outcome of `os.Create` for the output path. */
  function DownloadSoundCloud(page: PageResponse, created: bool, file: FileResponse)
    : Result<string, DownloadError>
  {
    match GetSoundCloudDownloadUrl(page)
    case Failure(e) => Failure(e)
    case Success(track) =>
      var path := OutputPath(track.title);
      if !created then Failure(FileCreateFailed)
      else
        match file
        case FileRequestError => Failure(DownloadRequestFailed)
        case Download(contentLength, copied) =>
          match CheckContentLength(contentLength)
          case Some(mb) => Failure(FileTooLarge(mb))
          case None => if copied then Success(path) else Failure(CopyFailed)
  }

  /** The size refusal happens exactly when the page resolved, the file was created, the
      request succeeded and the declared length exceeds 50 MiB; it reports at least 50 MB.
      On success the file is the sanitized title's MP3 in the working directory and the
      declared length was within the limit. */
  lemma SoundCloudSizeGuard(page: PageResponse, created: bool, file: FileResponse)
    ensures var r := DownloadSoundCloud(page, created, file);
      && ((r.Failure? && r.error.FileTooLarge?) <==>
            && GetSoundCloudDownloadUrl(page).Success? && created
            && file.Download? && file.contentLength > 52428800)
      && (r.Failure? && r.error.FileTooLarge? ==> r.error.megabytes >= 50)
      && (r.Success? ==>
            && GetSoundCloudDownloadUrl(page).Success?
            && r.value == OutputPath(GetSoundCloudDownloadUrl(page).value.title)
            && file.Download? && file.contentLength <= 52428800 && file.copied)
  {
    if file.Download? {
      ContentLengthGuard(file.contentLength);
    }
  }
}
