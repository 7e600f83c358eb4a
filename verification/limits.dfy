/** The two 50 MiB ceilings: the declared length of a SoundCloud download and the size
    of the file handed to Telegram. */
module Limits {
  import opened Wrappers

  /** Go's `int64`, the type of `ContentLength` and of `FileInfo.Size()`. */
  type Int64 = x: int | -0x8000_0000_0000_0000 <= x < 0x8000_0000_0000_0000

  /** `maxDownloadSize`. */
  const MaxDownloadSize: int := 50 * 1024 * 1024
  /** The literal ceiling `sendAudioFile` compares the file size with. */
  const MaxUploadSize: int := 50 * 1024 * 1024

  /** The guard on `resp.ContentLength`: `Some(mb)` rejects the download and carries the
      whole megabytes `ContentLength/1024/1024` the error message reports. An unknown
      length is reported by Go as -1. */
  function CheckContentLength(contentLength: Int64): (r: Option<int>)
  {
    if contentLength > MaxDownloadSize then Some(contentLength / 1024 / 1024) else None
  }

  /** The guard on the finished file; `true` means it may be uploaded. */
  predicate FitsUpload(size: Int64) {
    !(size > MaxUploadSize)
  }

  /** A download is refused exactly when it declares more than 52428800 bytes; then the
      reported size is at least 50 MB. Exactly 50 MiB passes, and so does an unknown
      length. */
  lemma ContentLengthGuard(contentLength: Int64)
    ensures CheckContentLength(contentLength).Some? <==> contentLength > 52428800
    ensures CheckContentLength(contentLength).Some? ==> CheckContentLength(contentLength).value >= 50
    ensures CheckContentLength(52428800).None? && CheckContentLength(-1).None?
  {
  }

  /** Delivery is refused exactly for files larger than 52428800 bytes. */
  lemma UploadGuard(size: Int64)
    ensures FitsUpload(size) <==> size <= 52428800
  {
  }

  /** A download whose declared length was accepted, and which delivered that many bytes,
      also passes the upload ceiling: the two limits agree. */
  lemma AcceptedDownloadFitsUpload(contentLength: Int64)
    requires contentLength >= 0 && CheckContentLength(contentLength).None?
    ensures FitsUpload(contentLength)
  {
  }

  /** An unknown length is no guarantee: it passes the download guard while a 60 MiB
      body still fails at upload. */
  lemma UnknownLengthNotBounded()
    ensures CheckContentLength(-1).None? && !FitsUpload(60 * 1024 * 1024)
  {
  }
}
