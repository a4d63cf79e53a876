/**
 * The Friendly Vendor producer: walks the API's pages from a configurable
 * first page, tags every user with the page the API reported and its 1-based
 * row, and pushes the users in order. The queue it fills is the sequence
 * `Run` returns; the concurrent `stop()` request is the iteration at which it
 * is seen.
 */
module FrivenLoading {
  import opened Wrappers
  import opened Records
  import opened FriendlyVendorApi

  /** Why the fetch loop ended. */
  datatype Ending =
    | QueueMissing              // `assert self._user_queue is not None` failed
    | StopRequested             // the plug was pulled before the next fetch
    | FetchFailed(error: ApiError)
    | EmptyPage
    | EndOfRange

  /** The loader's `FriendlyVendorApi` client, seen through the one call it
      makes: `get_user_page(page_number)`. */
  type Client = int -> Result<UserPage, ApiError>

  /** `users` of one page, each tagged with the reported page and its row. */
  function TagPage(page: UserPage): (r: seq<FrivenUser>)
    ensures |r| == |page.users|
    ensures forall k :: 0 <= k < |r| ==>
      r[k] == Tag(page.users[k], page.currentPage, k + 1)
  {
    seq(|page.users|, k requires 0 <= k < |page.users| =>
      Tag(page.users[k], page.currentPage, k + 1))
  }

  /** The page at `pageNumber` answers with at least one user. */
  predicate Yields(client: Client, pageNumber: int) {
    var r := client(pageNumber);
    r.Success? && |r.value.users| > 0
  }

  function PageRecords(r: Result<UserPage, ApiError>): seq<FrivenUser> {
    if r.Success? then TagPage(r.value) else []
  }

  /** Everything pushed for the `count` pages starting at `first`, in page order. */
  function Pushed(client: Client, first: int, count: nat): seq<FrivenUser>
  {
    if count == 0 then []
    else Pushed(client, first, count - 1)
         + PageRecords(client(first + count - 1))
  }

  /** `x` is one of the users of page `pageNumber`, tagged with the page
      number the API reported and its 1-based position on that page. */
  predicate FromPage(client: Client, pageNumber: int, x: FrivenUser) {
    var r := client(pageNumber);
    r.Success? &&
      exists k :: 0 <= k < |r.value.users| && x == Tag(r.value.users[k], r.value.currentPage, k + 1)
  }

  lemma PushedSplit(client: Client, first: int, count: nat, x: FrivenUser)
    requires count > 0 && x in Pushed(client, first, count)
    ensures x in Pushed(client, first, count - 1)
         || x in PageRecords(client(first + count - 1))
  {
  }

  lemma InPageRecords(client: Client, pageNumber: int, x: FrivenUser)
    requires x in PageRecords(client(pageNumber))
    ensures FromPage(client, pageNumber, x)
  {
    var records := PageRecords(client(pageNumber));
    var k :| 0 <= k < |records| && records[k] == x;
  }

  /** Every pushed user comes from one of the fetched pages. */
  lemma {:induction false} PushedProvenance(client: Client, first: int, count: nat, x: FrivenUser)
    requires x in Pushed(client, first, count)
    ensures exists p :: first <= p < first + count && FromPage(client, p, x)
  {
    PushedSplit(client, first, count, x);
    if x in Pushed(client, first, count - 1) {
      PushedProvenance(client, first, count - 1, x);
    } else {
      InPageRecords(client, first + count - 1, x);
    }
  }

  /** One more fetched page appends its tagged users. */
  lemma PushedStep(client: Client, first: int, count: nat)
    requires client(first + count).Success?
    ensures Pushed(client, first, count + 1)
         == Pushed(client, first, count) + TagPage(client(first + count).value)
  {
  }

  /** One more non-empty page extends both loop invariants of `Produce`. */
  lemma ProduceStep(client: Client, first: int, pages: nat)
    requires forall p :: first <= p < first + pages ==> Yields(client, p)
    requires Yields(client, first + pages)
    ensures forall p :: first <= p < first + pages + 1 ==> Yields(client, p)
    ensures Pushed(client, first, pages + 1)
         == Pushed(client, first, pages) + TagPage(client(first + pages).value)
  {
    PushedStep(client, first, pages);
  }

  /** The `for index, user in enumerate(users)` loop of `run`: each user of
      the page is pushed after those already in the queue. */
  method PushPage(queue: seq<FrivenUser>, page: UserPage) returns (r: seq<FrivenUser>)
    ensures r == queue + TagPage(page)
  {
    r := queue;
    var index := 0;
    while index < |page.users|
      invariant 0 <= index <= |page.users|
      invariant r == queue + TagPage(page)[..index]
    {
      r := r + [Tag(page.users[index], page.currentPage, index + 1)];
      index := index + 1;
    }
    assert TagPage(page)[..index] == TagPage(page);
  }

  /** The fetch loop of `run()`, from page `first` with the configured last
      page `last` (`None` when unset or 0): fetches `first`, `first + 1`,
      ..., pushing the tagged users of each non-empty page, until a page is
      empty, a fetch fails, page `last` has been pushed, or a stop request
      (seen at the top of iteration `stopAt`) arrives. `horizon` is a page
      at which production must end, because it is empty or fails, because
      it lies past the last page, or because the stop request comes before
      it is reached; the loop itself does not know it. */
  method Produce(client: Client, first: int, last: Option<int>, stopAt: Option<nat>, ghost horizon: int)
    returns (pushed: seq<FrivenUser>, pages: nat, ending: Ending)
    requires horizon >= first
    requires !Yields(client, horizon) || (last.Some? && horizon >= last.value)
             || (stopAt.Some? && horizon >= first + stopAt.value)
    ensures ending != QueueMissing
    ensures pushed == Pushed(client, first, pages)
    ensures forall p :: first <= p < first + pages ==> Yields(client, p)
    ensures stopAt.Some? ==> pages <= stopAt.value
    ensures ending == StopRequested ==> stopAt == Some(pages)
    ensures stopAt == Some(pages) ==> ending == StopRequested || ending == EndOfRange
    ensures ending.FetchFailed? ==> client(first + pages) == Failure(ending.error)
    ensures ending == EmptyPage ==>
      var r := client(first + pages);
      r.Success? && r.value.users == []
    ensures ending == EndOfRange ==> last.Some? && pages > 0 && first + pages > last.value
    ensures last.Some? && pages > 1 ==> first + pages - 1 <= last.value
    ensures last.Some? && pages > 0 && ending != EndOfRange ==> first + pages <= last.value
    // From a start at most the end page, no page above the end page is
    // fetched: neither a pushed one nor the one that ended the loop.
    ensures last.Some? && first <= last.value ==>
      first + pages - 1 <= last.value
      && (ending.FetchFailed? || ending == EmptyPage ==> first + pages <= last.value)
  {
    pushed, pages := [], 0;
    var current := first;
    while true
      invariant current == first + pages <= horizon
      invariant pushed == Pushed(client, first, pages)
      invariant forall p :: first <= p < first + pages ==> Yields(client, p)
      invariant stopAt.Some? ==> pages <= stopAt.value
      invariant last.Some? && pages > 0 ==> first + pages <= last.value
      decreases horizon - current
    {
      if stopAt == Some(pages) {
        return pushed, pages, StopRequested;
      }
      var response := client(current);
      if response.Failure? {
        return pushed, pages, FetchFailed(response.error);
      }
      var page := response.value;
      if |page.users| == 0 {
        return pushed, pages, EmptyPage;
      }
      ProduceStep(client, first, pages);
      pushed := PushPage(pushed, page);
      current := current + 1;
      pages := pages + 1;
      if last.Some? && current > last.value {
        return pushed, pages, EndOfRange;
      }
    }
  }

  /** A stop request alone ends a run on an API whose every page has a
      user: with no end page, the loop sees the request at the top of
      iteration `n` and returns with the users of `n` pages pushed. */
  method StopEndsEndlessRun(client: Client, first: int, n: nat)
    returns (pushed: seq<FrivenUser>, pages: nat, ending: Ending)
    requires forall p :: Yields(client, p)
    ensures pages == n && ending == StopRequested
    ensures pushed == Pushed(client, first, n)
  {
    pushed, pages, ending := Produce(client, first, None, Some(n), first + n);
    assert Yields(client, first + pages);
  }

  class FrivenLoader {
    /** `self._friven_api`, built from the URL by the constructor. */
    const client: Client
    /** `None` until `init_queue`; then the queue's `maxsize`. */
    var queueSize: Option<int>
    var pageRangeStart: int
    var pageRangeEnd: Option<int>

    /** `FrivenLoader(friven_api_url)` talking to the service `http`. */
    constructor (apiUrl: string, http: Http)
      ensures forall p :: client(p) == GetUserPage(apiUrl, p, http)
      ensures queueSize == None && pageRangeStart == 1 && pageRangeEnd == None
    {
      client := p => GetUserPage(apiUrl, p, http);
      queueSize := None;
      pageRangeStart := 1;
      pageRangeEnd := None;
    }

    /** `init_queue(maxsize)` */
    method InitQueue(maxsize: int)
      modifies this
      ensures queueSize == Some(maxsize)
      ensures pageRangeStart == old(pageRangeStart) && pageRangeEnd == old(pageRangeEnd)
    {
      queueSize := Some(maxsize);
    }

    /** Python truthiness of the configured last page: set and not 0. */
    predicate EndSet()
      reads this
    {
      pageRangeEnd.Some? && pageRangeEnd.value != 0
    }

    /** `set_page_range(first, last)`: `ok` is false when the assertion
        `first <= last` fails, which happens after the start is assigned. */
    method SetPageRange(first: int, last: Option<int>) returns (ok: bool)
      modifies this
      ensures pageRangeStart == first
      ensures ok <==> !(last.Some? && last.value != 0 && first > last.value)
      ensures ok && last.Some? && last.value != 0 ==> pageRangeEnd == last
      ensures ok && !(last.Some? && last.value != 0) ==> pageRangeEnd == None
      ensures !ok ==> pageRangeEnd == old(pageRangeEnd)
      ensures ok ==> (EndSet() ==> pageRangeStart <= pageRangeEnd.value)
      ensures queueSize == old(queueSize)
    {
      pageRangeStart := first;
      if last.Some? && last.value != 0 {
        if first > last.value {
          return false;
        }
        pageRangeEnd := last;
      } else {
        pageRangeEnd := None;
      }
      return true;
    }

    /** `run()`: `None` from the failed `assert self._user_queue is not
        None`, otherwise the fetch loop from the configured page range. */
    method Run(stopAt: Option<nat>, ghost horizon: int)
      returns (pushed: seq<FrivenUser>, pages: nat, ending: Ending)
      requires horizon >= pageRangeStart
      requires !Yields(client, horizon) || (EndSet() && horizon >= pageRangeEnd.value)
               || (stopAt.Some? && horizon >= pageRangeStart + stopAt.value)
      ensures ending == QueueMissing <==> queueSize.None?
      ensures ending == QueueMissing ==> pushed == [] && pages == 0
      ensures pushed == Pushed(client, pageRangeStart, pages)
      ensures forall p :: pageRangeStart <= p < pageRangeStart + pages ==> Yields(client, p)
      ensures stopAt.Some? ==> pages <= stopAt.value
      ensures ending == StopRequested ==> stopAt == Some(pages)
      ensures stopAt == Some(pages) && queueSize.Some? ==> ending == StopRequested || ending == EndOfRange
      ensures ending.FetchFailed? ==>
        client(pageRangeStart + pages) == Failure(ending.error)
      ensures ending == EmptyPage ==>
        var r := client(pageRangeStart + pages);
        r.Success? && r.value.users == []
      ensures ending == EndOfRange ==> EndSet() && pages > 0 && pageRangeStart + pages > pageRangeEnd.value
      ensures EndSet() && pages > 1 ==> pageRangeStart + pages - 1 <= pageRangeEnd.value
      ensures EndSet() && pages > 0 && (ending.FetchFailed? || ending == EmptyPage || ending == StopRequested) ==>
        pageRangeStart + pages <= pageRangeEnd.value
      ensures EndSet() && pageRangeStart <= pageRangeEnd.value ==>
        pageRangeStart + pages - 1 <= pageRangeEnd.value
        && (ending.FetchFailed? || ending == EmptyPage ==> pageRangeStart + pages <= pageRangeEnd.value)
    {
      if queueSize.None? {
        return [], 0, QueueMissing;
      }
      var last := if EndSet() then Some(pageRangeEnd.value) else None;
      pushed, pages, ending := Produce(client, pageRangeStart, last, stopAt, horizon);
    }
  }
}
