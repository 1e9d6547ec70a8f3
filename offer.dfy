/**
 * `video_url_handler` (main.py): the link-prefix gate and the offer list of
 * download choices, one button per video stream followed by one audio button.
 */
module Offer {
  import opened Wrappers
  import opened Bot
  import Selector
  import Strings

  const ShortLinkPrefix: string := "https://youtu.be/"
  const LongLinkPrefix: string := "https://www.youtube.com/"

  /** `msg.text.startswith(('https://youtu.be/', 'https://www.youtube.com/'))`. */
  predicate IsLink(text: string) {
    Strings.StartsWith(text, ShortLinkPrefix) || Strings.StartsWith(text, LongLinkPrefix)
  }

  function VideoButton(text: string, s: Stream): Button {
    Button(VideoLabel(s.resolution, s.filesize), Selector.Encode(text, s.itag))
  }

  function AudioButton(text: string, s: Stream): Button {
    Button(AudioLabel(s.filesize), Selector.Encode(text, s.itag))
  }

  /** The offer for message `text`: the video buttons in stream order, then the audio button. */
  ghost predicate IsOffer(text: string, videos: seq<Stream>, audio: Stream, buttons: seq<Button>) {
    && |buttons| == |videos| + 1
    && (forall i :: 0 <= i < |videos| ==> buttons[i] == VideoButton(text, videos[i]))
    && buttons[|videos|] == AudioButton(text, audio)
  }

  /**
   * The list comprehension over the video streams and the `extend` with the
   * audio button. Reading `audio_stream.filesize` when no audio stream was
   * found raises, after the video buttons were built; that is the None result.
   */
  method BuildOffer(text: string, videos: seq<Stream>, audio: Option<Stream>) returns (r: Option<seq<Button>>)
    ensures r.Some? <==> audio.Some?
    ensures r.Some? ==> IsOffer(text, videos, audio.value, r.value)
  {
    var rows: seq<Button> := [];
    var i := 0;
    while i < |videos|
      invariant 0 <= i <= |videos|
      invariant |rows| == i
      invariant forall k :: 0 <= k < i ==> rows[k] == VideoButton(text, videos[k])
    {
      rows := rows + [VideoButton(text, videos[i])];
      i := i + 1;
    }
    if audio.None? {
      return None;
    }
    rows := rows + [AudioButton(text, audio.value)];
    r := Some(rows);
  }

  /** The itag the i-th button of an offer stands for. */
  function OfferedItag(videos: seq<Stream>, audio: Stream, i: nat): nat {
    if i < |videos| then videos[i].itag else audio.itag
  }

  /**
   * Every button of an offer carries the message text followed by '|', is
   * routed to the download handler, and decodes to the message text and the
   * itag of its own stream.
   */
  lemma OfferSelectorsDecode(text: string, videos: seq<Stream>, audio: Stream, buttons: seq<Button>)
    requires IsOffer(text, videos, audio, buttons)
    ensures forall i :: 0 <= i < |buttons| ==>
      && Strings.StartsWith(buttons[i].selector, text + [Selector.Delimiter])
      && Selector.RouteOf(buttons[i].selector) == Selector.ToDownload
      && Selector.Decode(buttons[i].selector) == Selector.Choice(text, OfferedItag(videos, audio, i))
  {
    forall i | 0 <= i < |buttons|
      ensures Strings.StartsWith(buttons[i].selector, text + [Selector.Delimiter])
      ensures Selector.RouteOf(buttons[i].selector) == Selector.ToDownload
      ensures Selector.Decode(buttons[i].selector) == Selector.Choice(text, OfferedItag(videos, audio, i))
    {
      var itag := OfferedItag(videos, audio, i);
      assert buttons[i].selector == Selector.Encode(text, itag);
      Selector.DecodeEncode(text, itag);
      Selector.EncodedChoiceRoutesToDownload(text, itag);
    }
  }

  /** What the extraction library yields for a link: the mp4 video streams and the first mp4 audio stream, or an exception. */
  datatype Extraction = Extracted(videos: seq<Stream>, audio: Option<Stream>) | ExtractionFailed(reason: string)

  /**
   * `video_url_handler`: a message that is not a link gets the fixed reply and
   * nothing is extracted; otherwise the offer is sent, or the exception is
   * reported. No branch downloads anything.
   */
  method HandleText(text: string, extraction: Extraction) returns (effects: seq<Effect>)
    ensures !IsLink(text) ==> effects == [Answer(NoLinkText)]
    ensures IsLink(text) && extraction.ExtractionFailed? ==>
      effects == [ReportError(AtUrlHandler, Upstream(extraction.reason))]
    ensures IsLink(text) && extraction.Extracted? && extraction.audio.None? ==>
      effects == [ReportError(AtUrlHandler, MissingStream)]
    ensures IsLink(text) && extraction.Extracted? && extraction.audio.Some? ==>
      |effects| == 1 && effects[0].OfferPhoto? &&
      IsOffer(text, extraction.videos, extraction.audio.value, effects[0].buttons)
    ensures !Fetches(effects)
  {
    if !IsLink(text) {
      return [Answer(NoLinkText)];
    }
    match extraction
    case ExtractionFailed(reason) =>
      effects := [ReportError(AtUrlHandler, Upstream(reason))];
    case Extracted(videos, audio) =>
      var offer := BuildOffer(text, videos, audio);
      if offer.None? {
        effects := [ReportError(AtUrlHandler, MissingStream)];
      } else {
        effects := [OfferPhoto(offer.value)];
      }
  }
}
