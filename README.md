# youtube_video_bot — a Dafny model of its core

youtube_video_bot is a Telegram bot. A user sends it a YouTube link and gets
back the video's thumbnail with one inline button per mp4 video stream and one
for the first mp4 audio stream. Pressing a button makes the bot:

- check the stream's declared size against Telegram's 50 MiB upload ceiling,
- download that stream,
- upload it as a video or an audio file,
- remove the file.

A first `/start` asks for a language (UZB, ENG or RUS) through three more
inline buttons. The choice is stored in a `bot_users` table.

This project models that core:

- the display helpers `format_duration` and `format_view`;
- the callback-data selector `url|itag`, as the offer buttons encode it and
  `download_handler` decodes it with `rsplit('|', 1)` and Python's `int()`;
- the link-prefix gate and the offer list of `video_url_handler`;
- the ceiling check, the upload choice and the clean-up of
  `youtube_video_downloader`;
- how the dispatcher routes a callback to the language handler or the
  download handler;
- the find-or-insert of `language_handler` on the user table.

Modules:

- `Wrappers`: `Option`.
- `Decimal`: `str(n)`, `{n:02}`, and Python's `int()` on a string.
- `Strings`: `startswith`, `split` and `rsplit`.
- `Formatting`: `utils.py`.
- `Bot`: streams, buttons and the ordered effects a handler produces.
- `Selector`: callback data and routing.
- `Offer`: `video_url_handler`.
- `Delivery`: `download_handler` and `youtube_video_downloader`.
- `Users`: the user table.

The handlers are modelled as functions or methods from their inputs to the
sequence of effects they produce, in order: replies, toasts, the offer,
downloads, uploads, file removal and error reports. The extraction library
and the transport come in as parameters:

- the `Extraction` of a link;
- the `resolve` function from a url and an itag to a `Lookup`;
- the `Transfer` outcome of download plus upload.

Three behaviours of the code that the model keeps:

- **File removal.** The downloaded file is removed only when the download
  and the upload both return normally. `os.remove` is not in a `finally`
  block, so an exception skips it (`Delivery.Download`).
- **A url containing '|'.** This needs no exclusion: `rsplit` splits at the
  last '|', and the itag's digits never contain one
  (`Selector.DecodeEncode`).
- **Negative seconds.** A negative duration lands in the "MM:SS" branch,
  because Python's `divmod` floors, and it shows `seconds mod 3600`
  (`Formatting.DurationRoundTrip`).

## Model

| member | source | states |
|---|---|---|
| `Decimal.Pad2` | utils.py:25 | `{n:02}` gives decimal digits whose value is `n`: exactly two of them when `n < 100`, and the plain decimal form when `n >= 10` |
| `Decimal.ParseIntOfDigits` | main.py:143 | `int(str(n)) == n` for every natural `n` within the digit limit `int()` enforces (see `ParseInt` under Left out) |
| `Decimal.ParseIntIgnoresSpaces` | main.py:143 | `int()` strips whitespace on both sides: `int(a + t + b) == int(t)` when `a` and `b` consist of the characters `int()` strips (ASCII tab to carriage return and space, NEL, no-break space, the Unicode space separators, and the line and paragraph separators U+2028 and U+2029) |
| `Decimal.ParseIntRejectsSeparator` | main.py:143 | `int()` raises on a literal led by U+001C, an information separator it does not strip, whatever digits follow |
| `Decimal.ParseIntNegative` | main.py:143 | `int('-' + str(n)) == -n` |
| `Decimal.ParseIntPlus` | main.py:143 | `int('+' + str(n)) == n` |
| `Decimal.ParseIntUnderscore` | main.py:143 | `int("1_8") == 18`: one underscore between digits is accepted |
| `Decimal.ParseIntRejectsEmpty` | main.py:143 | `int("")` raises |
| `Decimal.ParseIntRejectsDoubleUnderscore` | main.py:143 | `int("1__8")` raises |
| `Decimal.ParseIntRejectsSpacedSign` | main.py:143 | `int("- " + str(n))` raises for every `n` |
| `Strings.SplitLast` | main.py:138-141 | there is no split exactly when '|' is absent; otherwise the data is `head + '|' + tail` and `tail` has no '|' |
| `Strings.SplitLastOfJoin` | main.py:141 | `rsplit` at the last delimiter inverts the join `a + '|' + b` whenever `b` has no delimiter, whatever `a` contains |
| `Formatting.FormatDuration` | utils.py:21-27 | under an hour the text is "MM:SS" (five characters, a colon third); from one hour up it ends in ":MM:SS" after a hour field of at least two digits |
| `Formatting.DurationRoundTrip` | utils.py:21-27 | reading the colon-separated fields of `format_duration(s)` gives back hours (zero when omitted), minutes and seconds, the last two below 60, adding up to `s` for `s >= 0` and to `s mod 3600` for negative `s` |
| `Formatting.ShortDurationExample` | utils.py:26-27 | `format_duration(125) == "02:05"` |
| `Formatting.HourDurationExample` | utils.py:24-25 | `format_duration(3725) == "01:02:05"` |
| `Formatting.LongDurationExample` | utils.py:22-25 | `format_duration(360000) == "100:00:00"`: the hour field is not truncated |
| `Formatting.FormatView` | utils.py:6-18 | no label (None) exactly for counts `<= 0`; counts below 1000 are returned as themselves; a scaled count is at least its band's unit and, in K and M, below a thousand units |
| `Formatting.ViewBandsByDigits` | utils.py:8-18 | the four range tests pick the band by digit count: 1-3 digits plain, 4-6 K, 7-9 M, 10 or more B, so the bands are disjoint and cover every positive count |
| `Formatting.ViewExamples` | utils.py:8-15 | 1500 is rendered "1.5K", 2300000 "2.3M"; 999 stays 999; 0 gives None |
| `Formatting.RolloverAsWritten` | utils.py:10-15 | 999999 is put in the K band yet rounds to "1000.0K"; 999999999 rounds to "1000.0M" |
| `Formatting.RoundTenths` | utils.py:12 | rounding `views / unit` half up to tenths prints within half a tenth of the exact quotient |
| `Formatting.FormatViewCorrected` | utils.py:6-18 | the band chosen after rounding: as accurate as `.1f`, and a K or M label always shows 1.0 to 999.9 |
| `Formatting.CorrectedKeepsBand` | utils.py:10-18 | away from the two rollovers, the corrected helper keeps the band `format_view` chooses, with the same rounded value |
| `Formatting.CorrectedRollover` | utils.py:10-15 | the corrected helper shows 999999 as "1.0M" and 999999999 as "1.0B" |
| `Selector.Encode` | main.py:118 | a choice's callback data is the message text, then '\|', then decimal digits whose value is the itag |
| `Selector.Decode` | main.py:137-143 | the data is malformed exactly when it has no '\|'; a choice's url is the data before the last '\|' and its itag is `int()` of what follows; a bad itag is the rejected literal after the last '\|' |
| `Selector.DecodeRejectsSeparator` | main.py:141-143 | data whose itag part is led by U+001C decodes to a rejected literal, not to a choice |
| `Selector.DecodeEncode` | main.py:141-143 | decoding an encoded choice gives back exactly its url and itag, even for a url containing '\|' |
| `Selector.RouteOf` | main.py:63 | the language handler runs exactly for the data "ENG", "UZB" or "RUS"; all other data goes to the catch-all at main.py:134 |
| `Selector.EncodedChoiceRoutesToDownload` | main.py:63 | no encoded download choice can reach the language handler |
| `Selector.LanguageButtonsRouteToLanguage` | buttons.py:5-7 | each language button reaches the language handler, and would be rejected as malformed by the download decoder |
| `Offer.BuildOffer` | main.py:113-123 | with an audio stream, the offer is one button per video stream in order, each labelled by resolution and size and carrying its own selector, then the audio button; without an audio stream the build raises |
| `Offer.OfferSelectorsDecode` | main.py:115-123 | every offer button's data starts with the message text and '\|', goes to the download handler, and decodes to the message text and the itag of that same stream |
| `Offer.HandleText` | main.py:99-131 | text without either link prefix gets only the "can't find the link" reply; otherwise the offer is sent, or the extraction error or missing audio stream is reported; nothing is downloaded |
| `Delivery.LimitBoundary` | main.py:153 | the ceiling is 52428800 bytes, and a stream of exactly that size is still sent |
| `Delivery.Upload` | main.py:164-167 | a video stream is sent with `answer_video`, an audio stream with `answer_audio`, a stream of any other type not at all; no download and no removal |
| `Delivery.Download` | main.py:148-175 | a download starts exactly when the stream was found and is within the ceiling, and it is the first effect; over the ceiling only the limit message is sent; lookup failures are reported; after a successful transfer the upload of `Upload` sits between the download and the removal, and the file is removed, as the last effect, exactly when download and upload succeeded; a failed transfer is the download followed by the report of its error |
| `Delivery.DownloadHandler` | main.py:134-145 | data without '\|' is rejected before any toast; an itag `int()` rejects is reported after the "Downloading" toast; any decoded choice gives the toast followed by the downloader on exactly the decoded url and itag; a download happens exactly for a decoded choice whose stream exists and is within the ceiling |
| `Delivery.HandlerOnEncodedChoice` | main.py:141-143 | pressing an offered button toasts and then resolves exactly the url and itag the button was built from |
| `Users.Upserted` | main.py:71-87 | afterwards the table holds one row for the calling user, and no other row changes |
| `Users.UpsertExisting` | main.py:75-78 | for a known user, of the modelled columns only `lang` changes, and no row is added |
| `Users.UpsertNew` | main.py:79-87 | for a new user exactly one row is added: the chosen language, the user's full name, role "user" and the next id |
| `Users.UpsertKeepsWellFormed` | db/model.py:9-13 | ids stay unique and below the next id, and every stored language is one of the three codes |
| `Users.UpsertTwice` | main.py:71-87 | choosing twice is one choice of the last language, keeping the name recorded at insertion |
| `Users.UserTable.constructor` | db/model.py:6-13 | an empty table whose first id is 1 |
| `Users.UserTable.Find` | main.py:71-73 | finds the row exactly when the telegram id is in the table, and returns that row |
| `Users.UserTable.SetLanguage` | main.py:71-87 | the table becomes `Upserted` of the old one, the id counter advances only on insertion, the invariant is kept, and the user's row carries the chosen language |

## Left out

- Telegram transport (aiogram): messages, callback answers and photos are abstract `Effect` values, and delivery failures of these calls are not modelled.
- pytube: the streams of a link, `get_by_itag` and the download come in as the `Extraction`, `resolve` and `Transfer` parameters. The `streams.filter(...).desc()` ordering is whatever order the caller passes.
- The `_default_clients` patch and the unused moviepy imports: they have no effect on the logic modelled.
- Filesystem: `makedirs`, the file path, `os.remove` and the best-effort `rmdir` are reduced to `Fetch` and `RemoveArtifact` effects.
- SQLAlchemy sessions, commits and closing are not modelled. The table is a map from `telegram_id` to the row, and a counter stands for the autoincrement id.
- The timestamp columns `create_at` and `updated_at` (db/config.py:25-26) are not modelled, because their values come from the clock. An insert sets both, and `updated_at` changes on every language update of a known user.
- FSM state calls (`state.get_data`, `set_data`, `clear`) and the localisation table `language.py` are not modelled. The greeting toast `callback_query.answer(text)` of `language_handler` is left out too: `SetLanguage` models only the table.
- `start_handler`, `help_command_handler` and the bot command menu: fixed replies, outside the core.
- `format_size` and the button caption text are left out: a label keeps the resolution and the byte size, not their rendering.
- The caption of the offer (title, views, publish date, author with VEVO trimming, length) is not assembled. Its two computed parts are `format_view` and `format_duration`.
- Formatting.FormatView: the `.1f` digits are not produced. The printed number is related to the count by `Renders`: within half a tenth of `views / unit`. For counts below 2^53, where `float(views)` is exact, Python's correctly rounded division and `.1f` stay within that relation. Above 2^53 the conversion to float can move the printed tenth further (10000000350000001 prints "10000000.3B"), and the model does not capture that.
- Decimal.ParseInt: digits outside ASCII, which Python's `int()` also accepts, are treated as invalid.
- Decimal.ParseInt: Python 3.11 and later (and the 3.8.14, 3.9.14 and 3.10.7 security releases) raise ValueError on a decimal literal longer than 4300 digits, and `str(n)` raises for such an `n`. The model accepts literals of any length. The bot cannot reach this case, because Telegram limits callback data to 64 bytes.
- `msg.text` or `callback_query.data` being None, which raises in the source, is not modelled.
- Keyboard rows: each offer row holds one button, so the offer is a flat sequence of buttons.
- Concurrency between handlers is not modelled.

## Findings

| source | as written | input that shows it | evidently intended | confidence | as-written member | corrected member |
|---|---|---|---|---|---|---|
| utils.py:10-15 | the K band is chosen by `views <= 999999` before rounding to one decimal, and likewise the M band by `views <= 999999999` | 999999 is shown as "1000.0K"; 999999999 as "1000.0M" | "1.0M" and "1.0B": a K or M label never reads 1000.0 | medium, not executed | `Formatting.RolloverAsWritten` | `Formatting.FormatViewCorrected` |
