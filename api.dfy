/** The gallery client: request shapes, the classification of responses into
    results and `WallhavenAPIError`s, and the download that replaces a file on
    disk. The network, the JSON decoder and `URL(string:)` are oracles. */
module WallhavenApi {
  import opened Wrappers
  import opened Text
  import opened WallpaperModels
  import opened FileSystem

  // ---------------------------------------------------------------------------
  // Errors

  /** `WallhavenAPIError`; the wrapped `Error`s are kept as their descriptions. */
  datatype ApiError =
    | InvalidUrl
    | NetworkError(cause: string)
    | DecodingError(cause: string)
    | HttpError(code: int)
    | Unauthorized
    | RateLimited

  /** Anything the client throws: one of its own errors, or an error raised by
      Foundation (`URLSession`, `FileManager`) and passed on unchanged. */
  datatype Failure = Api(error: ApiError) | Thrown(description: string)

  /** `errorDescription`. */
  function ErrorDescription(e: ApiError): string {
    match e
    case InvalidUrl => "Invalid URL"
    case NetworkError(cause) => "Network error: " + cause
    case DecodingError(cause) => "Decoding error: " + cause
    case HttpError(code) => "HTTP error: " + IntToDecimal(code)
    case Unauthorized => "Unauthorized - check your API key"
    case RateLimited => "Rate limited - too many requests"
  }

  /** `localizedDescription` of a thrown error, as the views display it. */
  function Describe(f: Failure): string {
    match f
    case Api(e) => ErrorDescription(e)
    case Thrown(description) => description
  }

  /** The status code can be read back from an HTTP error's message. */
  lemma {:induction false} HttpErrorDescription(code: int)
    ensures |ErrorDescription(HttpError(code))| > 12
    ensures ErrorDescription(HttpError(code))[..12] == "HTTP error: "
    ensures ParseInt(ErrorDescription(HttpError(code))[12..]) == Some(code)
  {
    var d := ErrorDescription(HttpError(code));
    assert d[12..] == IntToDecimal(code);
    DecimalRoundTrip(code);
  }

  /** Two HTTP errors read the same exactly when their codes are equal. */
  lemma HttpErrorDescriptionInjective(a: int, b: int)
    ensures ErrorDescription(HttpError(a)) == ErrorDescription(HttpError(b)) <==> a == b
  {
    if ErrorDescription(HttpError(a)) == ErrorDescription(HttpError(b)) {
      HttpErrorDescription(a);
      HttpErrorDescription(b);
    }
  }

  /** The fixed messages of the cases without a payload differ from each other
      and from every message with a payload. */
  lemma FixedDescriptionsDistinct(e: ApiError)
    ensures e != InvalidUrl ==> ErrorDescription(e) != "Invalid URL"
    ensures e != Unauthorized ==> ErrorDescription(e) != "Unauthorized - check your API key"
    ensures e != RateLimited ==> ErrorDescription(e) != "Rate limited - too many requests"
  {
    var d := ErrorDescription(e);
    match e
    case NetworkError(_) => assert d[0] == 'N';
    case DecodingError(_) => assert d[0] == 'D';
    case HttpError(_) => assert d[0] == 'H';
    case InvalidUrl => assert d[0] == 'I';
    case Unauthorized => assert d[0] == 'U';
    case RateLimited => assert d[0] == 'R';
  }

  // ---------------------------------------------------------------------------
  // Responses

  /** What `URLSession` hands back besides the body: an `HTTPURLResponse`
      with its status code, or a response of another kind. */
  datatype Response = NotHttp | Http(statusCode: int)

  /** `data(from:)` completing with a body and a response. */
  datatype Exchange = Exchange(data: Bytes, response: Response)

  /** The cause wrapped in `networkError` when the response is not HTTP:
      an `NSError` of domain "Invalid response" and code 0. */
  const InvalidResponse: string := "Invalid response"

  predicate IsSuccessStatus(code: int) {
    200 <= code <= 299
  }

  /** The error a status outside 200...299 maps to. */
  function StatusError(code: int): (e: ApiError)
    requires !IsSuccessStatus(code)
    ensures e.Unauthorized? <==> code == 401
    ensures e.RateLimited? <==> code == 429
    ensures e.HttpError? <==> code != 401 && code != 429
    ensures e.HttpError? ==> e.code == code
  {
    if code == 401 then Unauthorized
    else if code == 429 then RateLimited
    else HttpError(code)
  }

  /** `fetch(url:type:)`: the exchange (or the transport error it threw) and
      the decoder's verdict on a body decide the result. */
  function Fetch<T>(outcome: Result<Exchange, string>, decode: Bytes -> Result<T, string>): Result<T, Failure> {
    match outcome
    case Failure(description) => Failure(Thrown(description))
    case Success(exchange) =>
      match exchange.response
      case NotHttp => Failure(Api(NetworkError(InvalidResponse)))
      case Http(code) =>
        if IsSuccessStatus(code) then
          match decode(exchange.data)
          case Success(value) => Success(value)
          case Failure(cause) => Failure(Api(DecodingError(cause)))
        else Failure(Api(StatusError(code)))
  }

  /** A fetch succeeds exactly on a 2xx response whose body decodes, and then
      yields the decoded value. */
  lemma FetchSucceeds<T>(outcome: Result<Exchange, string>, decode: Bytes -> Result<T, string>)
    ensures Fetch(outcome, decode).Success? <==>
      outcome.Success? && outcome.value.response.Http? && IsSuccessStatus(outcome.value.response.statusCode)
      && decode(outcome.value.data).Success?
    ensures Fetch(outcome, decode).Success? ==> Fetch(outcome, decode).value == decode(outcome.value.data).value
  {
  }

  /** Which error a failed fetch reports: a transport error passes through
      unchanged; a non-HTTP response is a network error whatever else holds;
      an undecodable 2xx body is a decoding error carrying the decoder's
      cause; any other status maps through `StatusError`. Conversely a
      decoding error arises only on 2xx and a status error only outside it,
      carrying that very status. */
  lemma FetchFailures<T>(outcome: Result<Exchange, string>, decode: Bytes -> Result<T, string>)
    ensures outcome.Failure? ==> Fetch(outcome, decode) == Failure(Thrown(outcome.error))
    ensures outcome.Success? && outcome.value.response.NotHttp? ==>
      Fetch(outcome, decode) == Failure(Api(NetworkError(InvalidResponse)))
    ensures (outcome.Success? && outcome.value.response.Http? && IsSuccessStatus(outcome.value.response.statusCode)
             && decode(outcome.value.data).Failure?) ==>
      Fetch(outcome, decode) == Failure(Api(DecodingError(decode(outcome.value.data).error)))
    ensures outcome.Success? && outcome.value.response.Http? && !IsSuccessStatus(outcome.value.response.statusCode) ==>
      Fetch(outcome, decode) == Failure(Api(StatusError(outcome.value.response.statusCode)))
    ensures (forall cause :: Fetch(outcome, decode) == Failure(Api(DecodingError(cause))) ==>
      outcome.Success? && outcome.value.response.Http? && IsSuccessStatus(outcome.value.response.statusCode))
    ensures (forall code :: Fetch(outcome, decode) == Failure(Api(HttpError(code))) ==>
      outcome.Success? && outcome.value.response == Http(code) && !IsSuccessStatus(code) && code != 401 && code != 429)
    ensures Fetch(outcome, decode) == Failure(Api(Unauthorized)) <==> outcome.Success? && outcome.value.response == Http(401)
    ensures Fetch(outcome, decode) == Failure(Api(RateLimited)) <==> outcome.Success? && outcome.value.response == Http(429)
  {
  }

  // ---------------------------------------------------------------------------
  // Requests

  const BaseUrl: string := "https://wallhaven.cc/api/v1"

  /** What `URLComponents` is given: a URL string and, when set, query items. */
  datatype Request = Request(url: string, queryItems: Option<seq<QueryItem>>)

  function SearchRequest(p: SearchParams): Request {
    Request(BaseUrl + "/search", Some(QueryItems(p)))
  }

  function DetailRequest(id: string, apiKey: Option<string>): Request {
    Request(BaseUrl + "/w/" + id, if apiKey.Some? then Some([QueryItem("apikey", apiKey.value)]) else None)
  }

  /** `search(params:)`; `buildsUrl` is whether `components.url` is non-nil. */
  function Search(p: SearchParams, buildsUrl: bool, network: Request -> Result<Exchange, string>,
                  decode: Bytes -> Result<SearchResponse, string>): Result<SearchResponse, Failure>
  {
    if !buildsUrl then Failure(Api(InvalidUrl)) else Fetch(network(SearchRequest(p)), decode)
  }

  /** `getWallpaper(id:apiKey:)`, unwrapping `WallpaperDetailResponse.data`. */
  function GetWallpaper(id: string, apiKey: Option<string>, buildsUrl: bool,
                        network: Request -> Result<Exchange, string>,
                        decode: Bytes -> Result<WallpaperDetail, string>): Result<WallpaperDetail, Failure>
  {
    if !buildsUrl then Failure(Api(InvalidUrl)) else Fetch(network(DetailRequest(id, apiKey)), decode)
  }

  /** A search asks for `base/search` with exactly the serialised parameters;
      it fails with `invalidURL` only when the URL cannot be built. */
  lemma SearchSendsQueryItems(p: SearchParams, buildsUrl: bool, network: Request -> Result<Exchange, string>,
                              decode: Bytes -> Result<SearchResponse, string>)
    ensures buildsUrl ==>
      (Search(p, buildsUrl, network, decode) ==
        Fetch(network(Request("https://wallhaven.cc/api/v1/search", Some(QueryItems(p)))), decode))
    ensures Search(p, buildsUrl, network, decode) == Failure(Api(InvalidUrl)) <==> !buildsUrl
  {
    assert BaseUrl + "/search" == "https://wallhaven.cc/api/v1/search";
    if buildsUrl {
      FetchFailures(network(SearchRequest(p)), decode);
    }
  }

  /** A detail request names the wallpaper after `base/w/` and carries a
      single `apikey` item exactly when a key is given. */
  lemma DetailRequestShape(id: string, apiKey: Option<string>)
    ensures DetailRequest(id, apiKey).url == "https://wallhaven.cc/api/v1/w/" + id
    ensures DetailRequest(id, apiKey).url[|"https://wallhaven.cc/api/v1/w/"|..] == id
    ensures DetailRequest(id, apiKey).queryItems.Some? <==> apiKey.Some?
    ensures apiKey.Some? ==>
      (|DetailRequest(id, apiKey).queryItems.value| == 1 &&
       Lookup(DetailRequest(id, apiKey).queryItems.value, "apikey") == apiKey)
  {
    var u := DetailRequest(id, apiKey).url;
    assert u == "https://wallhaven.cc/api/v1/w/" + id;
  }

  // ---------------------------------------------------------------------------
  // Download

  /** `download(from:)` completing: the downloaded body (in a temporary file)
      and the response. */
  datatype Delivery = Delivery(body: Bytes, response: Response)

  /** `downloadWallpaper(from:to:)`. `parsesUrl` is whether `URL(string:)`
      accepts the address; `transfer` is what `download(from:)` delivered or
      the transport error it threw; `removeFault` and `moveFault` are
      refusals of `FileManager` beyond the ones the model decides. */
  method DownloadWallpaper(disk: Disk, urlString: string, parsesUrl: bool, transfer: Result<Delivery, string>,
                           destination: string, removeFault: Option<string>, moveFault: Option<string>)
    returns (err: Option<Failure>)
    modifies disk
    ensures !parsesUrl ==> err == Some(Api(InvalidUrl)) && disk.files == old(disk.files)
    ensures parsesUrl && transfer.Failure? ==> err == Some(Thrown(transfer.error)) && disk.files == old(disk.files)
    ensures parsesUrl && transfer.Success? && transfer.value.response.NotHttp? ==>
      err == Some(Api(NetworkError(InvalidResponse))) && disk.files == old(disk.files)
    ensures parsesUrl && transfer.Success? && transfer.value.response.Http? ==>
      var code := transfer.value.response.statusCode;
      if !IsSuccessStatus(code) then
        err == Some(Api(StatusError(code))) && disk.files == old(disk.files)
      else if destination in old(disk.files) && removeFault.Some? then
        err == Some(Thrown(removeFault.value)) && disk.files == old(disk.files)
      else if moveFault.Some? then
        err == Some(Thrown(moveFault.value)) && disk.files == old(disk.files) - {destination}
      else
        err.None? && disk.files == old(disk.files)[destination := transfer.value.body]
    ensures err.None? || disk.files.Keys <= old(disk.files.Keys)
    ensures forall path :: path != destination ==>
      (path in disk.files <==> path in old(disk.files)) &&
      (path in disk.files ==> disk.files[path] == old(disk.files)[path])
  {
    if !parsesUrl {
      return Some(Api(InvalidUrl));
    }
    if transfer.Failure? {
      return Some(Thrown(transfer.error));
    }
    var delivery := transfer.value;
    if delivery.response.NotHttp? {
      return Some(Api(NetworkError(InvalidResponse)));
    }
    var code := delivery.response.statusCode;
    if IsSuccessStatus(code) {
      if disk.Exists(destination) {
        var removed := disk.RemoveItem(destination, removeFault);
        if removed.Some? {
          return Some(Thrown(removed.value));
        }
      }
      var moved := disk.MoveItem(delivery.body, destination, moveFault);
      if moved.Some? {
        return Some(Thrown(moved.value));
      }
      err := None;
    } else {
      err := Some(Api(StatusError(code)));
    }
  }
}
