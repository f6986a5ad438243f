/** The barcode branch of the bus handler as a function of its inputs: how the
    decoder's symbology string is classified, the notices shown for codes that
    are not looked up, and, over a whole stream of element messages, which
    symbols are handed to the lookup and what the last accepted symbol is. */
module ScanFilter {
  import opened Strings

  /** The three ways the handler treats a decoded symbology. */
  datatype Symbology =
    | ProductCode  // EAN-13, UPC-A: globally unique, looked up
    | ShortCode    // EAN-8, UPC-E: not globally unique
    | OtherCode    // anything else the decoder reports

  function Classify(barcodeType: string): Symbology
  {
    if barcodeType == "EAN-13" || barcodeType == "UPC-A" then ProductCode
    else if barcodeType == "EAN-8" || barcodeType == "UPC-E" then ShortCode
    else OtherCode
  }

  const NotUniqueOpening := "Barcode "
  const NotUniqueClosing := " is not globally unique"
  const NotProductClosing := " is not an EAN/UPC product barcode"

  function NotUniqueMessage(barcodeType: string): string
  {
    NotUniqueOpening + barcodeType + NotUniqueClosing
  }

  function NotProductMessage(barcodeType: string): string
  {
    barcodeType + NotProductClosing
  }

  /** Each notice names the symbology it was shown for. */
  lemma NoticesNameType(barcodeType: string)
    ensures Unwrap(NotUniqueMessage(barcodeType), NotUniqueOpening, NotUniqueClosing) == Some(barcodeType)
    ensures Unwrap(NotProductMessage(barcodeType), "", NotProductClosing) == Some(barcodeType)
  {
    UnwrapWrapped(NotUniqueOpening, barcodeType, NotUniqueClosing);
    assert NotProductMessage(barcodeType) == "" + barcodeType + NotProductClosing;
    UnwrapWrapped("", barcodeType, NotProductClosing);
  }

  /** An element message popped from the pipeline's bus: the name of its
      structure and, for the decoder's "barcode" structure, its "type" and
      "symbol" values. */
  datatype ElementMessage = ElementMessage(name: string, barcodeType: string, symbol: string)

  /** A decoded EAN-13 or UPC-A code. */
  predicate IsProductScan(m: ElementMessage)
  {
    m.name == "barcode" && Classify(m.barcodeType) == ProductCode
  }

  /** The handler calls the lookup for `m` when `last` is the last accepted symbol. */
  predicate Accepts(last: string, m: ElementMessage)
  {
    IsProductScan(m) && m.symbol != last
  }

  /** The last accepted symbol after handling `m`. */
  function NextLast(last: string, m: ElementMessage): string
  {
    if Accepts(last, m) then m.symbol else last
  }

  /** The symbols handed to the lookup while the messages `ms` are handled in
      order, starting from last accepted symbol `last`. */
  function Lookups(last: string, ms: seq<ElementMessage>): seq<string>
    decreases |ms|
  {
    if ms == [] then []
    else (if Accepts(last, ms[0]) then [ms[0].symbol] else []) + Lookups(NextLast(last, ms[0]), ms[1..])
  }

  /** The last accepted symbol after the messages `ms`. */
  function LastAccepted(last: string, ms: seq<ElementMessage>): string
    decreases |ms|
  {
    if ms == [] then last else LastAccepted(NextLast(last, ms[0]), ms[1..])
  }

  function Repeat(m: ElementMessage, n: nat): seq<ElementMessage>
  {
    if n == 0 then [] else [m] + Repeat(m, n - 1)
  }

  /** Handling two streams one after the other is handling their concatenation. */
  lemma {:induction false} LookupsAppend(last: string, ms1: seq<ElementMessage>, ms2: seq<ElementMessage>)
    ensures Lookups(last, ms1 + ms2) == Lookups(last, ms1) + Lookups(LastAccepted(last, ms1), ms2)
    ensures LastAccepted(last, ms1 + ms2) == LastAccepted(LastAccepted(last, ms1), ms2)
    decreases |ms1|
  {
    if ms1 == [] {
      assert ms1 + ms2 == ms2;
    } else {
      assert (ms1 + ms2)[0] == ms1[0];
      assert (ms1 + ms2)[1..] == ms1[1..] + ms2;
      LookupsAppend(NextLast(last, ms1[0]), ms1[1..], ms2);
    }
  }

  /** The lookups never repeat a symbol back to back, and the first differs
      from the symbol accepted before the stream. */
  lemma {:induction false} LookupsNoStutter(last: string, ms: seq<ElementMessage>)
    ensures Lookups(last, ms) != [] ==> Lookups(last, ms)[0] != last
    ensures forall i :: 0 < i < |Lookups(last, ms)| ==> Lookups(last, ms)[i] != Lookups(last, ms)[i - 1]
    decreases |ms|
  {
    if ms != [] {
      LookupsNoStutter(NextLast(last, ms[0]), ms[1..]);
    }
  }

  /** The last accepted symbol is the symbol of the latest lookup, or the
      initial one when nothing was looked up. */
  lemma {:induction false} LastAcceptedIsLatestLookup(last: string, ms: seq<ElementMessage>)
    ensures Lookups(last, ms) == [] ==> LastAccepted(last, ms) == last
    ensures Lookups(last, ms) != [] ==> LastAccepted(last, ms) == Lookups(last, ms)[|Lookups(last, ms)| - 1]
    decreases |ms|
  {
    if ms != [] {
      LastAcceptedIsLatestLookup(NextLast(last, ms[0]), ms[1..]);
    }
  }

  /** `symbol` is decoded by some EAN-13 or UPC-A message of `ms`. */
  ghost predicate ScannedIn(ms: seq<ElementMessage>, symbol: string)
  {
    exists j :: 0 <= j < |ms| && IsProductScan(ms[j]) && ms[j].symbol == symbol
  }

  /** Every lookup is the symbol of some EAN-13 or UPC-A message of the stream. */
  lemma {:induction false} LookupsComeFromProductScans(last: string, ms: seq<ElementMessage>)
    ensures |Lookups(last, ms)| <= |ms|
    ensures forall k :: 0 <= k < |Lookups(last, ms)| ==> ScannedIn(ms, Lookups(last, ms)[k])
    decreases |ms|
  {
    if ms != [] {
      var all := Lookups(last, ms);
      var rest := Lookups(NextLast(last, ms[0]), ms[1..]);
      LookupsComeFromProductScans(NextLast(last, ms[0]), ms[1..]);
      var head := if Accepts(last, ms[0]) then [ms[0].symbol] else [];
      assert all == head + rest;
      forall k | 0 <= k < |all|
        ensures ScannedIn(ms, all[k])
      {
        if k < |head| {
          assert all[k] == ms[0].symbol && IsProductScan(ms[0]);
        } else {
          assert all[k] == rest[k - |head|];
          assert ScannedIn(ms[1..], rest[k - |head|]);
          var j :| 0 <= j < |ms[1..]| && IsProductScan(ms[1..][j]) && ms[1..][j].symbol == rest[k - |head|];
          assert ms[1..][j] == ms[j + 1];
        }
      }
    }
  }

  /** A stream with no EAN-13 or UPC-A message (only EAN-8, UPC-E, other
      symbologies or other elements' messages) looks nothing up and keeps the
      last accepted symbol. */
  lemma {:induction false} NonProductScansIgnored(last: string, ms: seq<ElementMessage>)
    requires forall j :: 0 <= j < |ms| ==> !IsProductScan(ms[j])
    ensures Lookups(last, ms) == [] && LastAccepted(last, ms) == last
    decreases |ms|
  {
    if ms != [] {
      assert !IsProductScan(ms[0]);
      NonProductScansIgnored(last, ms[1..]);
    }
  }

  /** The same message any number of times in a row is looked up at most once. */
  lemma {:induction false} RepeatLookups(last: string, m: ElementMessage, n: nat)
    ensures Lookups(last, Repeat(m, n)) == if n > 0 && Accepts(last, m) then [m.symbol] else []
    ensures LastAccepted(last, Repeat(m, n)) == if n > 0 then NextLast(last, m) else last
    decreases n
  {
    if n > 0 {
      assert Repeat(m, n)[0] == m && Repeat(m, n)[1..] == Repeat(m, n - 1);
      var next := NextLast(last, m);
      RepeatLookups(next, m, n - 1);
      assert !Accepts(next, m);
      assert n - 1 > 0 ==> NextLast(next, m) == next;
    }
  }

  /** After any history, a run of one or more scans of a product code other
      than the last accepted one adds exactly one lookup, of that code. */
  lemma ScanAfterRepeats(last: string, ms: seq<ElementMessage>, m: ElementMessage, n: nat)
    requires IsProductScan(m) && m.symbol != LastAccepted(last, ms) && n > 0
    ensures Lookups(last, ms + Repeat(m, n)) == Lookups(last, ms) + [m.symbol]
    ensures LastAccepted(last, ms + Repeat(m, n)) == m.symbol
  {
    LookupsAppend(last, ms, Repeat(m, n));
    RepeatLookups(LastAccepted(last, ms), m, n);
  }

  /** Scanning A, A, A looks A up once. */
  lemma ScanSameThrice(last: string, a: ElementMessage)
    requires Accepts(last, a)
    ensures Lookups(last, [a, a, a]) == [a.symbol]
  {
    assert Repeat(a, 1) == [a] + [];
    assert Repeat(a, 2) == [a] + [a];
    assert [a, a, a] == [a] + [a, a] == Repeat(a, 3);
    RepeatLookups(last, a, 3);
  }

  /** Scanning A, B, A looks up A, B and A again: only the immediately
      preceding accepted symbol is suppressed. */
  lemma ScanAlternating(last: string, a: ElementMessage, b: ElementMessage)
    requires Accepts(last, a) && IsProductScan(b) && a.symbol != b.symbol
    ensures Lookups(last, [a, b, a]) == [a.symbol, b.symbol, a.symbol]
  {
    assert [a, b, a][1..] == [b, a] && [b, a][1..] == [a] && [a][1..] == [];
    assert Lookups(b.symbol, [a]) == [a.symbol];
    assert Lookups(a.symbol, [b, a]) == [b.symbol] + [a.symbol];
  }

  /** Without a reset a rescan of the last accepted code is suppressed; after
      the reset to "" that stopping performs, it is looked up again. */
  lemma RescanAfterReset(last: string, ms: seq<ElementMessage>, m: ElementMessage)
    requires IsProductScan(m) && m.symbol == LastAccepted(last, ms) && m.symbol != ""
    ensures Lookups(last, ms + [m]) == Lookups(last, ms)
    ensures Lookups("", [m]) == [m.symbol]
  {
    LookupsAppend(last, ms, [m]);
  }
}
