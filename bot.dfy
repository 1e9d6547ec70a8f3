/**
 * The vocabulary shared by the handlers of main.py: the streams the
 * extraction library reports, the offer buttons, and the observable
 * effects of a handler (replies, downloads, uploads, clean-up), in order.
 */
module Bot {
  datatype MediaType = Video | Audio | OtherType(name: string)

  /** A stream as the extraction library reports it, reduced to what the handlers read. */
  datatype Stream = Stream(itag: nat, filesize: int, kind: MediaType, resolution: string)

  /** The caption of an offer button; the size is rendered by `format_size`, which is not modelled. */
  datatype Label = VideoLabel(resolution: string, filesize: int) | AudioLabel(filesize: int)

  /** An inline button: its caption and its callback data. */
  datatype Button = Button(caption: Label, selector: string)

  /** The handler whose catch-all reported an error; each prefixes its own wording. */
  datatype Site = AtUrlHandler | AtDownloadHandler | AtDownloader

  /** What the reported exception was. */
  datatype Cause =
    | InvalidCallbackFormat           // ValueError('Invalid callback data format.')
    | InvalidIntLiteral(literal: string)  // ValueError raised by int()
    | MissingStream                   // AttributeError: a stream lookup returned None
    | Upstream(reason: string)        // any exception raised by the extraction library or the transport

  datatype Effect =
    | Answer(text: string)            // a text message to the chat
    | Toast(text: string)             // callback_query.answer
    | OfferPhoto(buttons: seq<Button>)  // the thumbnail with one button per row
    | ReportError(site: Site, cause: Cause)
    | Fetch(itag: nat)                // stream.download into the chat's directory
    | SendVideo(itag: nat)
    | SendAudio(itag: nat)
    | RemoveArtifact(itag: nat)       // os.remove of the file, then a best-effort rmdir

  const NoLinkText: string := "\U{1F47B} I can't find the link in your message.\n\nGive me a link \U{1F44C}"
  const LimitText: string := "The file size exceeds the limit allowed by Telegram."
  const DownloadingText: string := "Downloading file... Please wait."

  predicate Fetches(effects: seq<Effect>) {
    exists i :: 0 <= i < |effects| && effects[i].Fetch?
  }

  predicate RemovesArtifact(effects: seq<Effect>) {
    exists i :: 0 <= i < |effects| && effects[i].RemoveArtifact?
  }
}
