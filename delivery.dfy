/**
 * `download_handler` and `youtube_video_downloader` (main.py): decode the
 * pressed button's callback data, re-resolve the stream, enforce the upload
 * ceiling, download, upload by media type and remove the file.
 */
module Delivery {
  import opened Bot
  import Selector

  /** The ceiling `50 * 1024 * 1024` bytes; a stream of exactly this size is still sent. */
  const MaxUploadBytes: int := 50 * 1024 * 1024

  predicate WithinLimit(filesize: int) { filesize <= MaxUploadBytes }

  lemma LimitBoundary()
    ensures MaxUploadBytes == 52428800
    ensures WithinLimit(52428800) && !WithinLimit(52428801)
  {
  }

  /** What re-resolving the url and `get_by_itag(itag)` yield. */
  datatype Lookup = Found(stream: Stream) | NoSuchItag | ResolveFailed(reason: string)

  /** Whether `stream.download` and the upload call both return normally. */
  datatype Transfer = Transferred | TransferFailed(reason: string)

  /** The upload call chosen by `stream.type`; a stream of any other type is not sent. */
  function Upload(s: Stream): (r: seq<Effect>)
    ensures s.kind.Video? ==> r == [SendVideo(s.itag)]
    ensures s.kind.Audio? ==> r == [SendAudio(s.itag)]
    ensures s.kind.OtherType? ==> r == []
    ensures !Fetches(r) && !RemovesArtifact(r)
  {
    match s.kind
    case Video => [SendVideo(s.itag)]
    case Audio => [SendAudio(s.itag)]
    case OtherType(_) => []
  }

  /**
   * `youtube_video_downloader`: a stream over the ceiling gets the limit
   * message and nothing is downloaded; a failed lookup is reported; otherwise
   * the stream is downloaded, uploaded and its file removed. An exception from
   * the download or the upload skips the removal and is reported.
   */
  function Download(lookup: Lookup, transfer: Transfer): (r: seq<Effect>)
    ensures Fetches(r) <==> lookup.Found? && WithinLimit(lookup.stream.filesize)
    ensures Fetches(r) ==> r[0] == Fetch(lookup.stream.itag)
    ensures lookup.Found? && !WithinLimit(lookup.stream.filesize) ==> r == [Answer(LimitText)]
    ensures lookup.NoSuchItag? ==> r == [ReportError(AtDownloader, MissingStream)]
    ensures lookup.ResolveFailed? ==> r == [ReportError(AtDownloader, Upstream(lookup.reason))]
    ensures RemovesArtifact(r) <==> Fetches(r) && transfer.Transferred?
    ensures RemovesArtifact(r) ==> r[|r| - 1] == RemoveArtifact(lookup.stream.itag)
    ensures lookup.Found? && WithinLimit(lookup.stream.filesize) && transfer.Transferred? ==>
      |r| >= 2 && r[1..|r| - 1] == Upload(lookup.stream)
    ensures lookup.Found? && WithinLimit(lookup.stream.filesize) && transfer.TransferFailed? ==>
      r == [Fetch(lookup.stream.itag), ReportError(AtDownloader, Upstream(transfer.reason))]
  {
    match lookup
    case ResolveFailed(reason) => [ReportError(AtDownloader, Upstream(reason))]
    case NoSuchItag => [ReportError(AtDownloader, MissingStream)]
    case Found(s) =>
      if s.filesize > MaxUploadBytes then [Answer(LimitText)]
      else
        match transfer
        case TransferFailed(reason) =>
          var r := [Fetch(s.itag), ReportError(AtDownloader, Upstream(reason))];
          assert r[0].Fetch?;
          r
        case Transferred =>
          var r := [Fetch(s.itag)] + Upload(s) + [RemoveArtifact(s.itag)];
          assert r[0].Fetch? && r[|r| - 1].RemoveArtifact?;
          assert forall i :: 1 <= i < |r| - 1 ==> r[i] == Upload(s)[i - 1];
          r
  }

  /**
   * `download_handler`: data without '|' is rejected before anything else;
   * otherwise the "Downloading" toast is sent first and only then is the
   * itag converted, so a non-numeric itag is reported after the toast.
   * `resolve` stands for the extraction library on the decoded url and itag.
   */
  function DownloadHandler(data: string, resolve: (string, int) -> Lookup, transfer: Transfer): (r: seq<Effect>)
    ensures Selector.Delimiter !in data ==> r == [ReportError(AtDownloadHandler, InvalidCallbackFormat)]
    ensures Selector.Decode(data).BadItag? ==>
      r == [Toast(DownloadingText), ReportError(AtDownloadHandler, InvalidIntLiteral(Selector.Decode(data).literal))]
    ensures Selector.Decode(data).Choice? ==>
      r == [Toast(DownloadingText)] + Download(resolve(Selector.Decode(data).url, Selector.Decode(data).itag), transfer)
    ensures Fetches(r) <==>
      && Selector.Decode(data).Choice?
      && resolve(Selector.Decode(data).url, Selector.Decode(data).itag).Found?
      && WithinLimit(resolve(Selector.Decode(data).url, Selector.Decode(data).itag).stream.filesize)
  {
    match Selector.Decode(data)
    case Malformed => [ReportError(AtDownloadHandler, InvalidCallbackFormat)]
    case BadItag(literal) => [Toast(DownloadingText), ReportError(AtDownloadHandler, InvalidIntLiteral(literal))]
    case Choice(url, itag) =>
      var d := Download(resolve(url, itag), transfer);
      AfterToast(d);
      [Toast(DownloadingText)] + d
  }

  lemma AfterToast(d: seq<Effect>)
    ensures Fetches([Toast(DownloadingText)] + d) <==> Fetches(d)
  {
    var r := [Toast(DownloadingText)] + d;
    if Fetches(r) {
      var i :| 0 <= i < |r| && r[i].Fetch?;
      assert d[i - 1].Fetch?;
    }
    if Fetches(d) {
      var i :| 0 <= i < |d| && d[i].Fetch?;
      assert r[i + 1].Fetch?;
    }
  }

  /** Pressing an offered button asks the library for exactly the url and itag it was built from. */
  lemma HandlerOnEncodedChoice(url: string, itag: nat, resolve: (string, int) -> Lookup, transfer: Transfer)
    ensures DownloadHandler(Selector.Encode(url, itag), resolve, transfer)
      == [Toast(DownloadingText)] + Download(resolve(url, itag), transfer)
  {
    Selector.DecodeEncode(url, itag);
  }
}
