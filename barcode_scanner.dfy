/** The BarcodeScanner dialog's scan-and-lookup state: the enable flags of
    the start and stop buttons and the camera selector, the last accepted
    symbol, the texts of the productInfo and errorMsg labels and of the token
    line edit. The handlers run one at a time on the UI thread; each is a
    method that updates these fields in place. */
module BarcodeScannerDialog {
  import opened Strings
  import opened Lookup
  import opened ScanFilter

  /** The productInfo label's text before anything has been scanned. */
  const InitialProductInfo := " \n "

  class BarcodeScanner {
    /** Number of video sources found when the dialog was built. */
    const cameraCount: nat

    var startEnabled: bool
    var stopEnabled: bool
    var cameraEnabled: bool
    /** The bus-polling timer and the pipeline's bus exist: set by start,
        cleared by stop. */
    var polling: bool

    var lastSymbol: string
    var productInfo: string
    var errorMsg: string
    /** The text of the API token line edit. */
    var token: string

    /** Every code handed to EANLookup, in order. */
    ghost var lookups: seq<string>
    /** Every request EANLookup issues, in order, as LookupRequest builds
        it: with the User-Agent header the code evidently means to send. */
    ghost var requests: seq<Request>

    /** Start and stop are never enabled together, stop is enabled exactly
        while the pipeline is polled, and without a camera nothing can start. */
    ghost predicate Valid()
      reads this
    {
      && stopEnabled == polling
      && (cameraCount > 0 ==> startEnabled == !polling && cameraEnabled == !polling)
      && (cameraCount == 0 ==> !startEnabled && !cameraEnabled && !polling)
    }

    /** The dialog as built with `cameraCount` cameras detected and the token
        `savedToken` restored from the settings. */
    constructor (cameraCount: nat, savedToken: string)
      ensures Valid()
      ensures this.cameraCount == cameraCount && token == savedToken
      ensures startEnabled == cameraEnabled == (cameraCount > 0)
      ensures !stopEnabled && !polling
      ensures lastSymbol == "" && productInfo == InitialProductInfo && errorMsg == ""
      ensures lookups == [] && requests == []
    {
      this.cameraCount := cameraCount;
      token := savedToken;
      errorMsg := "";
      startEnabled := true;
      stopEnabled := false;
      productInfo := InitialProductInfo;
      lastSymbol := "";
      polling := false;
      lookups, requests := [], [];
      cameraEnabled := true;
      // no camera found: the controls that start scanning stay disabled
      if cameraCount == 0 {
        cameraEnabled := false;
        startEnabled := false;
      }
    }

    /** The start button's handler (reachable only while it is enabled):
        lock the controls, clear the product line and start polling. */
    method StartClicked()
      requires Valid() && startEnabled
      modifies this`startEnabled, this`stopEnabled, this`cameraEnabled, this`productInfo, this`polling
      ensures Valid()
      ensures !startEnabled && stopEnabled && !cameraEnabled && polling
      ensures productInfo == ""
    {
      startEnabled := false;
      stopEnabled := true;
      cameraEnabled := false;
      productInfo := "";
      polling := true;
    }

    /** The stop button's handler (reachable only while it is enabled):
        unlock the controls, clear the error line and forget the last symbol
        so that the next session looks the same code up again. */
    method StopClicked()
      requires Valid() && stopEnabled
      modifies this`startEnabled, this`stopEnabled, this`cameraEnabled, this`errorMsg, this`lastSymbol, this`polling
      ensures Valid()
      ensures startEnabled && !stopEnabled && cameraEnabled && !polling
      ensures errorMsg == "" && lastSymbol == ""
    {
      startEnabled := true;
      stopEnabled := false;
      cameraEnabled := true;
      errorMsg := "";
      lastSymbol := "";
      polling := false;
    }

    /** Looks up code `ean`: without a token, say so; otherwise issue one
        request (its reply is handled later by LookupFinished). */
    method EanLookup(ean: string)
      modifies this`productInfo, this`lookups, this`requests
      ensures lookups == old(lookups) + [ean]
      ensures token == "" ==> productInfo == OutcomeMessage(ean, NoToken) && requests == old(requests)
      ensures token != "" ==> productInfo == old(productInfo) && requests == old(requests) + [LookupRequest(token, ean)]
    {
      lookups := lookups + [ean];
      if token == "" {
        productInfo := OutcomeMessage(ean, NoToken);
      } else {
        requests := requests + [LookupRequest(token, ean)];
      }
    }

    /** The bus timer's handler for an element message `m`: nothing unless the
        pipeline is polled; a "barcode" message of an EAN-13 or UPC-A code is
        looked up unless it repeats the last accepted symbol; EAN-8 and UPC-E
        codes and other symbologies get a notice instead. */
    method CheckGstBus(m: ElementMessage)
      requires Valid()
      modifies this`lastSymbol, this`productInfo, this`lookups, this`requests
      ensures Valid()
      ensures polling ==> lastSymbol == LastAccepted(old(lastSymbol), [m])
      ensures polling ==> lookups == old(lookups) + Lookups(old(lastSymbol), [m])
      ensures polling && Accepts(old(lastSymbol), m) ==>
        && lastSymbol == m.symbol && lookups == old(lookups) + [m.symbol]
        && (token == "" ==> productInfo == OutcomeMessage(m.symbol, NoToken) && requests == old(requests))
        && (token != "" ==> productInfo == old(productInfo) && requests == old(requests) + [LookupRequest(token, m.symbol)])
      ensures polling && m.name == "barcode" && Classify(m.barcodeType) == ShortCode ==>
        productInfo == NotUniqueMessage(m.barcodeType)
      ensures polling && m.name == "barcode" && Classify(m.barcodeType) == OtherCode ==>
        productInfo == NotProductMessage(m.barcodeType)
      ensures !(polling && Accepts(old(lastSymbol), m)) ==>
        lastSymbol == old(lastSymbol) && lookups == old(lookups) && requests == old(requests)
      ensures !polling || m.name != "barcode" || (IsProductScan(m) && m.symbol == old(lastSymbol)) ==>
        productInfo == old(productInfo)
    {
      if !polling {
        return;
      }
      assert [m][1..] == [];
      if m.name == "barcode" {
        match Classify(m.barcodeType)
        case ProductCode =>
          if lastSymbol != m.symbol {
            lastSymbol := m.symbol;
            EanLookup(m.symbol);
          }
        case ShortCode =>
          productInfo := NotUniqueMessage(m.barcodeType);
        case OtherCode =>
          productInfo := NotProductMessage(m.barcodeType);
      }
    }

    /** The continuation run when the request for `ean` has finished with
        reply `body`; `extractName` stands for reading the first record's
        "name" from the JSON body. An invalid-token reply clears the token. */
    method LookupFinished(ean: string, body: string, extractName: string -> string)
      modifies this`productInfo, this`token
      ensures productInfo == OutcomeMessage(ean, ReplyOutcome(body, extractName))
      ensures token == if ReplyOutcome(body, extractName) == InvalidToken then "" else old(token)
    {
      if Contains(body, "error") && Contains(body, "Invalid token") {
        productInfo := OutcomeMessage(ean, InvalidToken);
        token := "";
        return;
      }
      var name := extractName(body);
      productInfo := OutcomeMessage(ean, Found(name));
    }
  }

  /** Consecutive ticks of the bus timer while scanning, one element message
      per tick: the lookups and the last symbol are those the stream
      functions give for the whole run. */
  method PollMessages(d: BarcodeScanner, ms: seq<ElementMessage>)
    requires d.Valid() && d.polling
    modifies d`lastSymbol, d`productInfo, d`lookups, d`requests
    ensures d.Valid()
    ensures d.lookups == old(d.lookups) + Lookups(old(d.lastSymbol), ms)
    ensures d.lastSymbol == LastAccepted(old(d.lastSymbol), ms)
  {
    var i := 0;
    while i < |ms|
      invariant 0 <= i <= |ms|
      invariant d.Valid() && d.polling
      invariant d.lookups == old(d.lookups) + Lookups(old(d.lastSymbol), ms[..i])
      invariant d.lastSymbol == LastAccepted(old(d.lastSymbol), ms[..i])
    {
      LookupsAppend(old(d.lastSymbol), ms[..i], [ms[i]]);
      assert ms[..i + 1] == ms[..i] + [ms[i]];
      d.CheckGstBus(ms[i]);
      i := i + 1;
    }
    assert ms[..|ms|] == ms;
  }

  /** Stopping, starting again and rescanning the code accepted last looks
      that code up again. */
  method RescanAfterStop(d: BarcodeScanner, m: ElementMessage)
    requires d.Valid() && d.stopEnabled
    requires IsProductScan(m) && m.symbol == d.lastSymbol && m.symbol != ""
    modifies d
    ensures d.Valid() && d.polling
    ensures d.lookups == old(d.lookups) + [m.symbol] && d.lastSymbol == m.symbol
  {
    d.StopClicked();
    d.StartClicked();
    d.CheckGstBus(m);
  }
}
