/** The product-name lookup against the ean-search.org API: the request the
    dialog issues for a scanned code, the classification of the reply body,
    and the rich-text lines it shows for each outcome. */
module Lookup {
  import opened Strings

  const ApiUrl := "https://api.ean-search.org/api?token="
  const QueryTail := "&format=json&op=barcode-lookup&ean="
  const ProductPageUrl := "https://www.ean-search.org/ean/"
  const ApiDocsUrl := "https://www.ean-search.org/ean-database-api.html"
  const UserAgent := "BarcodeScanner (Qt)"

  /** The URL of the lookup request for code `ean`, authenticated by `token`. */
  function LookupUrl(token: string, ean: string): string
  {
    ApiUrl + token + QueryTail + ean
  }

  /** Reads token and code back out of a lookup URL: the token runs up to the
      first '&', the code is everything after the fixed query parameters. */
  function ParseLookupUrl(url: string): Option<(string, string)>
  {
    match StripPrefix(url, ApiUrl)
    case None => None
    case Some(rest) =>
      match IndexOf(rest, '&')
      case None => None
      case Some(k) =>
        match StripPrefix(rest[k..], QueryTail)
        case None => None
        case Some(ean) => Some((rest[..k], ean))
  }

  lemma {:induction false} FirstAmpersandEndsToken(token: string, tail: string)
    requires '&' !in token && tail != [] && tail[0] == '&'
    ensures IndexOf(token + tail, '&') == Some(|token|)
    decreases |token|
  {
    if token == [] {
      assert token + tail == tail;
    } else {
      assert (token + tail)[1..] == token[1..] + tail;
      FirstAmpersandEndsToken(token[1..], tail);
    }
  }

  /** The URL determines the token and the code it was built from, provided
      the token has no '&' (the code is not URL-encoded either way). */
  lemma {:induction false} LookupUrlRoundTrip(token: string, ean: string)
    requires '&' !in token
    ensures ParseLookupUrl(LookupUrl(token, ean)) == Some((token, ean))
  {
    var rest := token + QueryTail + ean;
    assert LookupUrl(token, ean) == ApiUrl + rest;
    StripPrefixOfJoin(ApiUrl, rest);
    FirstAmpersandEndsToken(token, QueryTail + ean);
    assert token + (QueryTail + ean) == rest;
    assert rest[..|token|] == token;
    assert rest[|token|..] == QueryTail + ean;
    StripPrefixOfJoin(QueryTail, ean);
  }

  /** An HTTP GET request: its URL and the raw headers set on it. */
  datatype Request = Request(url: string, headers: map<string, string>)

  /** QNetworkRequest(QUrl(url)): no raw headers yet. */
  function NewRequest(url: string): Request
  {
    Request(url, map[])
  }

  /** QNetworkRequest::setRawHeader: sets or replaces one header. */
  function SetRawHeader(r: Request, name: string, value: string): (r': Request)
    ensures r'.url == r.url
    ensures r'.headers.Keys == r.headers.Keys + {name} && r'.headers[name] == value
    ensures forall h :: h in r.headers && h != name ==> r'.headers[h] == r.headers[h]
  {
    r.(headers := r.headers[name := value])
  }

  /** The request EANLookup evidently means to send: the lookup URL with the
      dialog's User-Agent header. */
  function LookupRequest(token: string, ean: string): (r: Request)
    ensures r.url == LookupUrl(token, ean)
    ensures r.headers.Keys == {"User-Agent"} && r.headers["User-Agent"] == UserAgent
  {
    SetRawHeader(NewRequest(LookupUrl(token, ean)), "User-Agent", UserAgent)
  }

  /** EANLookup's statements in their written order: `get` receives a copy of
      the request before the header is set on the local variable, so the copy
      that goes out carries no User-Agent. Returns the request handed to the
      network manager and the local variable as it ends up. */
  method LookupRequestAsWritten(token: string, ean: string) returns (sent: Request, local: Request)
    ensures sent.url == local.url == LookupUrl(token, ean)
    ensures "User-Agent" !in sent.headers
    ensures local == LookupRequest(token, ean)
  {
    var request := NewRequest(LookupUrl(token, ean));
    sent := request;
    request := SetRawHeader(request, "User-Agent", UserAgent);
    local := request;
  }

  /** What productInfo shows once a code has gone through EANLookup. */
  datatype Outcome = NoToken | InvalidToken | Found(name: string)

  /** The first line of every outcome message: the code itself. */
  function Heading(ean: string): string
  {
    "EAN " + ean + "<br>"
  }

  /** The opening tag of the link to the code's product page. */
  function ProductLink(ean: string): string
  {
    "<a href='" + ProductPageUrl + ean + "'>"
  }

  function OutcomeText(ean: string, o: Outcome): string
  {
    match o
    case NoToken => "No API token for name lookup"
    case InvalidToken => "Invalid <a href='" + ApiDocsUrl + "'>API</a> token"
    case Found(name) => ProductLink(ean) + name + "</a>"
  }

  /** The rich text set on productInfo for outcome `o` of looking up `ean`. */
  function OutcomeMessage(ean: string, o: Outcome): string
  {
    Heading(ean) + OutcomeText(ean, o)
  }

  /** The line shown for a found product links the code's product page and
      carries the name as the link text. */
  lemma FoundMessageShowsName(ean: string, name: string)
    ensures Unwrap(OutcomeMessage(ean, Found(name)), Heading(ean) + ProductLink(ean), "</a>") == Some(name)
  {
    var h, l := Heading(ean), ProductLink(ean);
    assert OutcomeMessage(ean, Found(name)) == (h + l) + name + "</a>";
    UnwrapWrapped(h + l, name, "</a>");
  }

  /** For a given code, the text shown determines the outcome: the three kinds
      of line differ, and two found-lines differ when their names differ. */
  lemma {:induction false} OutcomeMessageInjective(ean: string, o1: Outcome, o2: Outcome)
    requires OutcomeMessage(ean, o1) == OutcomeMessage(ean, o2)
    ensures o1 == o2
  {
    var h := Heading(ean);
    var t1, t2 := OutcomeText(ean, o1), OutcomeText(ean, o2);
    assert (h + t1)[|h|..] == t1;
    assert (h + t2)[|h|..] == t2;
    assert t1 == t2;
    assert t1[0] == t2[0];
    if o1.Found? && o2.Found? {
      UnwrapWrapped(ProductLink(ean), o1.name, "</a>");
      UnwrapWrapped(ProductLink(ean), o2.name, "</a>");
    }
  }

  /** The reply is the service's authentication error: the body contains both
      "error" and "Invalid token". */
  predicate IsInvalidTokenReply(body: string)
  {
    Contains(body, "error") && Contains(body, "Invalid token")
  }

  /** Both markers must occur somewhere in the body, in any order. */
  lemma InvalidTokenReplyIff(body: string)
    ensures IsInvalidTokenReply(body) <==>
      (exists i :: OccursAt(body, "error", i)) && (exists j :: OccursAt(body, "Invalid token", j))
  {
    ContainsIffOccurs(body, "error");
    ContainsIffOccurs(body, "Invalid token");
  }

  /** The outcome of a completed request: an invalid-token reply, or else a
      found product named by whatever the JSON name extraction returns. */
  function ReplyOutcome(body: string, extractName: string -> string): (o: Outcome)
    ensures o == InvalidToken <==>
      (exists i :: OccursAt(body, "error", i)) && (exists j :: OccursAt(body, "Invalid token", j))
    ensures o != InvalidToken ==> o == Found(extractName(body))
  {
    InvalidTokenReplyIff(body);
    if IsInvalidTokenReply(body) then InvalidToken else Found(extractName(body))
  }

  /** The service's reply for a known product is not mistaken for an
      authentication error. */
  lemma ProductReplyIsFound(extractName: string -> string)
    ensures ReplyOutcome("[{\"name\":\"Example Product\"}]", extractName)
         == Found(extractName("[{\"name\":\"Example Product\"}]"))
  {
    var body := "[{\"name\":\"Example Product\"}]";
    assert "Invalid token"[0] == 'I';
    MissingCharNotContained(body, "Invalid token", 'I');
  }

  /** The service's authentication error is recognised as such. */
  lemma ErrorReplyIsInvalidToken(extractName: string -> string)
    ensures ReplyOutcome("{\"error\":\"Invalid token\"}", extractName) == InvalidToken
  {
    var body := "{\"error\":\"Invalid token\"}";
    assert body == "{\"" + "error" + "\":\"Invalid token\"}";
    assert body == "{\"error\":\"" + "Invalid token" + "\"}";
    OccursInJoin("{\"", "error", "\":\"Invalid token\"}");
    OccursInJoin("{\"error\":\"", "Invalid token", "\"}");
    InvalidTokenReplyIff(body);
  }
}
