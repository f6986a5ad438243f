# BarcodeScanner: the scan-and-lookup state machine in Dafny

BarcodeScanner is a Qt dialog. It shows a webcam stream through a GStreamer
pipeline. The pipeline's zbar element decodes barcodes and posts them on the
bus as "barcode" element messages. The dialog polls the bus, filters the
decoded codes, and looks EAN-13 and UPC-A codes up at the ean-search.org API.
It then shows a line of rich text ("productInfo") for each scan.

This project models that logic from `BarcodeScanner.cpp`:

- `strings.dfy`, module `Strings`: the case-sensitive substring test the reply
  handler uses (QString::contains), proved equal to "occurs at some index".
  It also holds prefix/suffix stripping and first-occurrence search, which the
  lemmas use to take the built strings apart again.
- `lookup.dfy`, module `Lookup`: the lookup URL and its inverse, and the
  request that is sent. It also holds the three outcome lines (no token,
  invalid token, found product) and how a reply body is classified.
- `scan_filter.dfy`, module `ScanFilter`: how a symbology string is
  classified, and the two notices shown for codes that are not looked up.
  It also lifts the duplicate suppression to whole streams of bus messages
  (`Lookups`, `LastAccepted`). Lemmas cover the suppression: no back-to-back
  repeats, A A A looks A up once, A B A looks up three times, a rescan after
  a reset is looked up again.
- `barcode_scanner.dfy`, module `BarcodeScannerDialog`: the class
  `BarcodeScanner`. Its fields are the button and camera-selector enable
  flags, whether the bus is being polled, `lastSymbol` (`last_symbol` in
  `BarcodeScanner.h:56`), the productInfo, errorMsg and token texts, and two
  ghost logs. One log records every code handed to `EANLookup`, the other
  every request `EANLookup` issues, in the corrected form described under
  "## Findings". Each handler is a method with
  field-level `modifies` frames, so every field it does not name stays the
  same. Its postconditions are stated with the pure functions above.
  `PollMessages` runs `CheckGstBus` over a stream of messages and proves the
  outcome equals the stream functions `Lookups` and `LastAccepted`.
  `RescanAfterStop` proves that Stop, Start and a rescan of the last code look
  that code up again.

Two behaviours of the code that a reader might not expect:

- The code has no separate not-found or transport-error outcome. Any reply
  without both "error" and "Invalid token" is shown as a product link. The
  link text is whatever name the JSON parse yields, which may be empty.
  For an empty array, a failed connection or a malformed body, the code
  indexes `[0]` of an empty or null array (`BarcodeScanner.cpp:365`), which
  Qt requires to be a valid index; the empty-name link is what results only
  where that precondition goes unchecked. The model does not fix what the
  parse yields: `extractName` is left open.
- `last_symbol` uses the empty string for "none". As a result, an empty
  symbol is never looked up while `lastSymbol` is empty.

## Model

| member | source | states |
|---|---|---|
| BarcodeScannerDialog.BarcodeScanner.constructor | BarcodeScanner.cpp:80-169 | token restored from settings, errorMsg empty, productInfo " \n ", stop disabled, no last symbol; start button and camera selector enabled exactly when at least one camera was found; the control invariant Valid() holds |
| BarcodeScannerDialog.BarcodeScanner.StartClicked | BarcodeScanner.cpp:184-194 | start and camera selector disabled, stop enabled, productInfo cleared, polling begins; nothing else changes (last symbol, token and error text are kept) |
| BarcodeScannerDialog.BarcodeScanner.StopClicked | BarcodeScanner.cpp:249-261 | start and camera selector enabled, stop disabled, error text and last symbol cleared, polling ends; productInfo and token are kept |
| BarcodeScannerDialog.BarcodeScanner.EanLookup | BarcodeScanner.cpp:346-356 | the code is logged as looked up; with an empty token productInfo becomes "EAN <ean><br>No API token for name lookup" and no request is issued; otherwise exactly one request for the lookup URL is issued and productInfo is untouched |
| BarcodeScannerDialog.BarcodeScanner.CheckGstBus | BarcodeScanner.cpp:285-313 | not polling: nothing changes; EAN-13/UPC-A with a new symbol: last symbol becomes it and exactly one lookup of it is made; a repeat of the last symbol or a message not named "barcode": no state changes; EAN-8/UPC-E: productInfo "Barcode <type> is not globally unique"; other types: "<type> is not an EAN/UPC product barcode"; only accepted scans change the last symbol or issue lookups |
| BarcodeScannerDialog.BarcodeScanner.LookupFinished | BarcodeScanner.cpp:356-368 | productInfo becomes the line for the reply's outcome (ReplyOutcome) for the captured code; the token is cleared exactly when that outcome is the invalid-token one, and kept otherwise |
| BarcodeScannerDialog.PollMessages | BarcodeScanner.cpp:285-313 | consecutive timer ticks while scanning, one element message each, log exactly the lookups `Lookups` gives for the stream and leave `LastAccepted` as the last symbol |
| BarcodeScannerDialog.RescanAfterStop | BarcodeScanner.cpp:249-256 | Stop, Start and a rescan of the non-empty last accepted code look that code up once more and make it the last symbol again |
| Strings.Contains | BarcodeScanner.cpp:359 | the case-sensitive substring test; ContainsIffOccurs proves it equal to "occurs at some index" |
| Strings.ContainsIffOccurs | BarcodeScanner.cpp:359 | the substring test is true exactly when the pattern occurs at some index of the body |
| Lookup.LookupUrlRoundTrip | BarcodeScanner.cpp:352 | the token and code can be parsed back out of the lookup URL whenever the token has no '&' |
| Lookup.LookupRequest | BarcodeScanner.cpp:352-354 | the request for a code has the lookup URL and the single raw header User-Agent: BarcodeScanner (Qt) |
| Lookup.NewRequest | BarcodeScanner.cpp:352 | `QNetworkRequest(QUrl(...))` as a value: the URL with no raw headers; LookupRequestAsWritten proves the copy taken right after it has no User-Agent |
| Lookup.SetRawHeader | BarcodeScanner.cpp:354 | `setRawHeader` on a request value: a new value with that one header set or replaced and the URL kept; LookupRequest's contract states the header it yields, and LookupRequestAsWritten shows it leaves an earlier copy unchanged |
| Lookup.LookupRequestAsWritten | BarcodeScanner.cpp:352-354 | in the written statement order the request handed to the network manager has the lookup URL but no User-Agent; only the local copy gets the header |
| Lookup.FoundMessageShowsName | BarcodeScanner.cpp:367 | the found line is the code heading plus a link to the code's product page whose text is exactly the name |
| Lookup.OutcomeMessageInjective | BarcodeScanner.cpp:350-367 | for one code, equal productInfo lines mean equal outcomes: no-token, invalid-token and found lines never coincide, and found lines differ when names differ |
| Lookup.InvalidTokenReplyIff | BarcodeScanner.cpp:359 | a reply counts as an invalid-token error exactly when "error" and "Invalid token" both occur in it, at any positions |
| Lookup.ReplyOutcome | BarcodeScanner.cpp:359-367 | the outcome is invalid-token exactly when "error" and "Invalid token" both occur at some index of the body; otherwise it is a found product named by the extracted name |
| Lookup.IsInvalidTokenReply | BarcodeScanner.cpp:359 | the two-marker test of the reply body; its meaning is proved by InvalidTokenReplyIff |
| Lookup.LookupUrl | BarcodeScanner.cpp:352 | the lookup URL for a token and a code; LookupUrlRoundTrip proves both can be read back out of it |
| Lookup.OutcomeMessage | BarcodeScanner.cpp:350-367 | the productInfo line for the no-token (350), invalid-token (360) and found (367) outcomes; OutcomeMessageInjective and FoundMessageShowsName state what it shows |
| Lookup.ProductReplyIsFound | BarcodeScanner.cpp:359-367 | the product reply [{"name":"Example Product"}] is not taken for an authentication error and produces a found outcome |
| Lookup.ErrorReplyIsInvalidToken | BarcodeScanner.cpp:359-362 | the reply {"error":"Invalid token"} produces the invalid-token outcome |
| ScanFilter.Classify | BarcodeScanner.cpp:301-311 | EAN-13 and UPC-A are product codes, EAN-8 and UPC-E short codes, every other type string something else; CheckGstBus's contract states what each class does |
| ScanFilter.NotUniqueMessage | BarcodeScanner.cpp:309 | the notice "Barcode <type> is not globally unique"; NoticesNameType reads the type back from it |
| ScanFilter.NotProductMessage | BarcodeScanner.cpp:311 | the notice "<type> is not an EAN/UPC product barcode"; NoticesNameType reads the type back from it |
| ScanFilter.IsProductScan | BarcodeScanner.cpp:298-301 | a message of the "barcode" structure whose type is EAN-13 or UPC-A; CheckGstBus, LookupsComeFromProductScans and NonProductScansIgnored are stated with it |
| ScanFilter.Accepts | BarcodeScanner.cpp:298-304 | a "barcode" message of an EAN-13/UPC-A code whose symbol differs from the last symbol; CheckGstBus and Lookups are stated with it, and LookupsNoStutter shows no accepted code repeats the one before |
| ScanFilter.NextLast | BarcodeScanner.cpp:304-305 | the last symbol after one message: the message's symbol when it is accepted, the old one otherwise; LastAccepted folds it over a stream and LastAcceptedIsLatestLookup ties it to the lookups |
| ScanFilter.Lookups | BarcodeScanner.cpp:304-306 | the codes looked up over a stream of element messages from a given last symbol; the stream lemmas below state its properties |
| ScanFilter.LastAccepted | BarcodeScanner.cpp:304-305 | the last symbol after a stream of element messages; LastAcceptedIsLatestLookup ties it to Lookups |
| ScanFilter.NoticesNameType | BarcodeScanner.cpp:308-311 | each notice is its fixed opening and closing around the symbology string, which can be read back from it |
| ScanFilter.LookupsAppend | BarcodeScanner.cpp:304-307 | handling two message streams in turn gives the lookups and last symbol of handling their concatenation |
| ScanFilter.LookupsNoStutter | BarcodeScanner.cpp:304-306 | the lookups never repeat a code back to back, and the first differs from the last symbol before the stream |
| ScanFilter.LastAcceptedIsLatestLookup | BarcodeScanner.cpp:304-305 | the last symbol after a stream is the latest code looked up, or the previous one when nothing was looked up |
| ScanFilter.LookupsComeFromProductScans | BarcodeScanner.cpp:298-307 | there are no more lookups than messages, and each lookup is the symbol of some EAN-13/UPC-A "barcode" message of the stream |
| ScanFilter.NonProductScansIgnored | BarcodeScanner.cpp:298-311 | a stream with no EAN-13/UPC-A barcode message looks nothing up and leaves the last symbol unchanged |
| ScanFilter.RepeatLookups | BarcodeScanner.cpp:304 | any number of consecutive copies of one message cause at most one lookup, made only when the first copy is accepted |
| ScanFilter.ScanAfterRepeats | BarcodeScanner.cpp:304-307 | after any history, one or more scans of an EAN-13/UPC-A code other than the last symbol add exactly one lookup, of that code |
| ScanFilter.ScanSameThrice | BarcodeScanner.cpp:304 | scanning a new code A three times in a row looks A up once |
| ScanFilter.ScanAlternating | BarcodeScanner.cpp:304 | scanning A, B, A with A new and B different from A looks up A, B and A |
| ScanFilter.RescanAfterReset | BarcodeScanner.cpp:256 | rescanning the last accepted code is suppressed, but after the reset of the last symbol to "" it is looked up again |

## Left out

- BarcodeScannerDialog.BarcodeScanner.EanLookup: its `requests` log holds the corrected request `LookupRequest`, which has the User-Agent header. The code as written hands `get` a copy without that header; `Lookup.LookupRequestAsWritten` models that copy (see "## Findings").
- BarcodeScannerDialog.BarcodeScanner.CheckGstBus: states the same corrected request for the lookup it triggers, for the same reason.
- Lookup.LookupUrl: plain string concatenation. `QUrl` (`BarcodeScanner.cpp:352`) parses the string and may percent-encode or reinterpret characters such as spaces or '#' in the token or code; that is not modelled.

- Camera detection (`BarcodeScanner.cpp:44-72`): a walk over GStreamer devices. The model takes only its result, the number of cameras, as a constructor parameter.
- Building, starting and tearing down the pipeline (`BarcodeScanner.cpp:191-246`, `259-266`): media-framework calls. Not modelled: the selected camera's handle, the pipeline string, and the exit on a pipeline error. The model keeps only the flag that the bus is being polled.
- Bus polling (`BarcodeScanner.cpp:287-292`, `343`): the model takes the popped element message as a parameter. The end-of-stream, clock-lost and element-error branches (`316-338`) are GStreamer event glue and are not modelled.
- Widget construction, layout, fonts, focus changes, the About box, Quit and `dispayErrorAndExit` (`BarcodeScanner.cpp:37-163`, `178-182`, `269-283`): user interface only.
- Network I/O (`BarcodeScanner.cpp:353-357`): the model logs the request issued. The reply handler is a separate, later call that takes the reply body (`readAll`) as a parameter. Several replies outstanding at once, and their order, are not modelled.
- JSON parsing (`BarcodeScanner.cpp:364-366`): a library call. The reply handler takes it as the parameter `extractName`.
- Token persistence through QSettings (`BarcodeScanner.cpp:36`, `80`, `174-175`): storage I/O. The restored token is a constructor parameter, and the save on destruction is not modelled.
- Editing the token line edit by hand: done by the Qt widget, not by the dialog's code. No method models it.
- `main.cpp`: application start-up only.

## Findings

| source | as written | input that shows it | evidently intended | confidence | as-written member | corrected member |
|---|---|---|---|---|---|---|
| BarcodeScanner.cpp:352-354 | `network_manager.get(request)` is called before `request.setRawHeader("User-Agent", ...)`. `get` takes its own copy of the request, so the header is only set on the local variable. | Any lookup with a non-empty token, e.g. token "t" and code "4006381333931": the request sent carries no "BarcodeScanner (Qt)" User-Agent (Qt's HTTP backend puts in its own default value instead). | The request carries `User-Agent: BarcodeScanner (Qt)`, i.e. the header is set before `get`. | not executed; rests on QNetworkRequest being a value type that `get` copies | Lookup.LookupRequestAsWritten | Lookup.LookupRequest |

The class's `EanLookup` logs the corrected request, `LookupRequest`.
