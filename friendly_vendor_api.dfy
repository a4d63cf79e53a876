/**
 * The Friendly Vendor API client: the `/users` URL for a page, and the
 * mapping of an HTTP outcome to a page of users or a
 * `FriendlyVendorApiError`. The HTTP exchange itself is a function from
 * request to response; a request stands for the URL `UserUrl` builds.
 */
module FriendlyVendorApi {
  import opened Text
  import opened Wrappers
  import opened Records

  /** A page number so high that the API answers it with no users. */
  const EmptyPageNumber: int := 100000

  /** `api_url.strip("/") + "/users?page=" + str(page_number)` */
  function UserUrl(apiUrl: string, pageNumber: int): string {
    StripChar(apiUrl, '/') + "/users?page=" + IntToString(pageNumber)
  }

  /** What `response.json()` gives: the three members the client reads
      (`None` when a member is absent), or a body that is not JSON. */
  datatype Body =
    | Json(currentPage: Option<int>, totalPages: Option<int>, users: Option<seq<ApiUser>>)
    | NotJson(reason: string)

  /** What `requests.get(url)` does: answer, or raise. */
  datatype Response =
    | Reply(statusCode: int, text: string, body: Body)
    | ConnectionRefused(reason: string)
    | RequestRaised(reason: string)

  /** A `GET` of the users page `pageNumber` under the base `apiUrl`; the URL
      sent is `UserUrl(apiUrl, pageNumber)`, which determines the page number
      (`UserUrlDeterminesPage`). */
  datatype Request = UsersPage(apiUrl: string, pageNumber: int)

  /** The HTTP exchange: the response the service gives for a request. */
  type Http = Request -> Response

  /** Why a request ended in an unexpected exception. */
  datatype Cause =
    | BadStatus(statusCode: int, text: string)
    | Raised(reason: string)
    | MissingMember(name: string)

  /** The two ways `get_user_page` raises `FriendlyVendorApiError`. */
  datatype ApiError =
    | ConnectionFault(reason: string)
    | Unexpected(cause: Cause)

  /** `str()` of the error. */
  function Message(e: ApiError): string {
    match e
    case ConnectionFault(reason) => reason
    case Unexpected(BadStatus(code, text)) =>
      "Unexpected Exception: Error hitting Friendly Vendor API (status_code "
        + IntToString(code) + "): " + text
    case Unexpected(Raised(reason)) => "Unexpected Exception: " + reason
    case Unexpected(MissingMember(name)) => "Unexpected Exception: " + name
  }

  /** `(current_page, total_pages, users)` */
  datatype UserPage = UserPage(currentPage: int, totalPages: int, users: seq<ApiUser>)

  /** The body of `get_user_page` after `requests.get`. A non-200 status
      raises inside the `try`, so the catch-all handler wraps it again as an
      unexpected exception. */
  function Decode(response: Response): (r: Result<UserPage, ApiError>)
    ensures r.Success? <==>
      response.Reply? && response.statusCode == 200 && response.body.Json?
      && response.body.currentPage.Some? && response.body.totalPages.Some?
      && response.body.users.Some?
    ensures r.Success? ==>
      r.value == UserPage(response.body.currentPage.value, response.body.totalPages.value,
                          response.body.users.value)
    ensures response.Reply? && response.statusCode != 200 ==>
      r == Failure(Unexpected(BadStatus(response.statusCode, response.text)))
    ensures response.ConnectionRefused? ==> r == Failure(ConnectionFault(response.reason))
  {
    match response
    case ConnectionRefused(reason) => Failure(ConnectionFault(reason))
    case RequestRaised(reason) => Failure(Unexpected(Raised(reason)))
    case Reply(code, text, body) =>
      if code != 200 then Failure(Unexpected(BadStatus(code, text)))
      else match body
        case NotJson(reason) => Failure(Unexpected(Raised(reason)))
        case Json(current, total, users) =>
          if current.None? then Failure(Unexpected(MissingMember("current_page")))
          else if total.None? then Failure(Unexpected(MissingMember("total_pages")))
          else if users.None? then Failure(Unexpected(MissingMember("users")))
          else Success(UserPage(current.value, total.value, users.value))
  }

  /** `get_user_page(page_number)`: one request to the page's URL. */
  function GetUserPage(apiUrl: string, pageNumber: int, http: Http): Result<UserPage, ApiError> {
    Decode(http(UsersPage(apiUrl, pageNumber)))
  }

  /** `get_user_page_count()`: the `total_pages` reported for page 100000. */
  function GetUserPageCount(apiUrl: string, http: Http): (r: Result<int, ApiError>)
    ensures var page := Decode(http(UsersPage(apiUrl, 100000)));
      (r.Success? <==> page.Success?)
      && (r.Success? ==> r.value == page.value.totalPages)
      && (r.Failure? ==> r.error == page.error)
  {
    var page :- GetUserPage(apiUrl, EmptyPageNumber, http);
    Success(page.totalPages)
  }

  /** The URL ends in the decimal page number, after the stripped base. */
  lemma UserUrlEndsWithPage(apiUrl: string, pageNumber: nat)
    ensures var url := UserUrl(apiUrl, pageNumber);
      var n := |NatToString(pageNumber)|;
      n < |url|
      && url[..|url| - n] == StripChar(apiUrl, '/') + "/users?page="
      && AllDigits(url[|url| - n..])
      && DigitsValue(url[|url| - n..]) == pageNumber
  {
    var url := UserUrl(apiUrl, pageNumber);
    var digits := NatToString(pageNumber);
    assert url == (StripChar(apiUrl, '/') + "/users?page=") + digits;
    assert url[|url| - |digits|..] == digits;
    NatToStringRoundTrip(pageNumber);
  }

  /** Two page numbers give the same URL only if they are the same page. */
  lemma UserUrlDeterminesPage(apiUrl: string, p: nat, q: nat)
    requires UserUrl(apiUrl, p) == UserUrl(apiUrl, q)
    ensures p == q
  {
    UserUrlEndsWithPage(apiUrl, p);
    UserUrlEndsWithPage(apiUrl, q);
    var base := StripChar(apiUrl, '/') + "/users?page=";
    var url := UserUrl(apiUrl, p);
    assert url == base + NatToString(p) && url == base + NatToString(q);
    assert url[|base|..] == NatToString(p) == NatToString(q);
    NatToStringRoundTrip(p);
    NatToStringRoundTrip(q);
  }

  predicate AllDigits(s: string) {
    forall k :: 0 <= k < |s| ==> IsDigit(s[k])
  }

  /** Leading and trailing slashes of the base never reach the URL: the base
      as written and the base already stripped give the same URL, and the
      part before `/users` does not end with a slash. */
  lemma UserUrlNormalisesBase(apiUrl: string, pageNumber: int)
    ensures UserUrl(StripChar(apiUrl, '/'), pageNumber) == UserUrl(apiUrl, pageNumber)
    ensures var base := StripChar(apiUrl, '/'); base != [] ==> base[0] != '/' && base[|base| - 1] != '/'
  {
    StripCharShape(apiUrl, '/');
  }

  /** The URL used by the client's tests. */
  lemma UserUrlExample()
    ensures UserUrl("https://cute.sm/vi/", 3) == "https://cute.sm/vi/users?page=3"
  {
    var slash := (x: char) => x == '/';
    var base := "https://cute.sm/vi";
    assert "https://cute.sm/vi/"[..|"https://cute.sm/vi/"| - 1] == base;
    assert TrimEnd(base, slash) == base;
    assert TrimEnd("https://cute.sm/vi/", slash) == base;
    assert TrimStart(base, slash) == base;
    assert IntToString(3) == "3";
  }

  /** A 404 answer surfaces as an error naming the status and the body. */
  lemma NotFoundExample()
    ensures Message(Decode(Reply(404, "who cares", NotJson(""))).error) ==
      "Unexpected Exception: Error hitting Friendly Vendor API (status_code 404): who cares"
  {
  }
}
