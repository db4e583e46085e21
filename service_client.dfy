/**
 * The location service client and the start-up authentication branch: the
 * three remote calls (`listNames`, `getLocation`, `authenticate`) as maps
 * from a given response to the script's result and the events it causes,
 * and the decision at the top of `main` to authenticate when the list is
 * `null`. The network itself is not modelled: each call's response is an
 * input.
 */
module ServiceClient {
  import opened Wrappers
  import opened NameSelect

  /** A response as the script sees it: whether `response.ok` holds, and its decoded JSON body. */
  datatype Response<T> = Response(ok: bool, body: T)

  /** The body of a location lookup: degrees and metres. */
  datatype LocationRecord = LocationRecord(latitude: real, longitude: real, accuracy: real)

  /** The body of the auth-URL lookup. */
  datatype AuthBody = AuthBody(url: string)

  /** The three requests the script sends to the service. */
  datatype Request = ListRequest | LocationRequest(id: int) | AuthUrlRequest

  /** What the script does to the outside world: send a request, or replace the page's location. */
  datatype Event = Fetch(request: Request) | Redirect(url: string)

  /** One call: the events it caused and the value it returned (`None` for `null`). */
  datatype Call<T> = Call(events: seq<Event>, result: Option<T>)

  /** What `listNames` and `getLocation` return for a response: `null` unless it is OK, else the body. */
  function BodyIfOk<T>(r: Response<T>): Option<T> {
    if r.ok then Some(r.body) else None
  }

  /** `listNames`: one list request; the result is absent exactly when the response is not OK. */
  function ListNames(r: Response<seq<NamePair>>): (c: Call<seq<NamePair>>)
    ensures c.events == [Fetch(ListRequest)]
    ensures c.result.None? <==> !r.ok
    ensures c.result.Some? ==> c.result.value == r.body
  {
    Call([Fetch(ListRequest)], BodyIfOk(r))
  }

  /** `getLocation(id)`: one lookup of that id; the result is absent exactly when the response is not OK. */
  function GetLocation(id: int, r: Response<LocationRecord>): (c: Call<LocationRecord>)
    ensures c.events == [Fetch(LocationRequest(id))]
    ensures c.result.None? <==> !r.ok
    ensures c.result.Some? ==> c.result.value == r.body
  {
    Call([Fetch(LocationRequest(id))], BodyIfOk(r))
  }

  /** The targets of the redirects among the events, in order. */
  function Redirects(events: seq<Event>): seq<string> {
    if events == [] then []
    else (if events[0].Redirect? then [events[0].url] else []) + Redirects(events[1..])
  }

  lemma {:induction false} RedirectsConcat(a: seq<Event>, b: seq<Event>)
    ensures Redirects(a + b) == Redirects(a) + Redirects(b)
  {
    if a == [] {
      assert a + b == b;
    } else {
      assert (a + b)[1..] == a[1..] + b;
      RedirectsConcat(a[1..], b);
    }
  }

  /** How many times the events send the given request. */
  function FetchCount(events: seq<Event>, req: Request): nat {
    if events == [] then 0
    else (if events[0] == Fetch(req) then 1 else 0) + FetchCount(events[1..], req)
  }

  lemma {:induction false} FetchCountConcat(a: seq<Event>, b: seq<Event>, req: Request)
    ensures FetchCount(a + b, req) == FetchCount(a, req) + FetchCount(b, req)
  {
    if a == [] {
      assert a + b == b;
    } else {
      assert (a + b)[1..] == a[1..] + b;
      FetchCountConcat(a[1..], b, req);
    }
  }

  /** Once the page is redirected it does nothing more: a redirect can only be the last event. */
  predicate NothingAfterRedirect(events: seq<Event>) {
    forall i :: 0 <= i < |events| && events[i].Redirect? ==> i == |events| - 1
  }

  /** Sending a request before a sequence that ends its activity at a redirect keeps it so. */
  lemma FetchBefore(e: Event, events: seq<Event>)
    requires e.Fetch? && NothingAfterRedirect(events)
    ensures NothingAfterRedirect([e] + events)
  {
    var all := [e] + events;
    forall i | 0 <= i < |all| && all[i].Redirect? ensures i == |all| - 1 {
      assert i > 0 && all[i] == events[i - 1];
    }
  }

  /**
   * `authenticate`: exactly one auth-URL request, and nothing else unless
   * that response is OK, in which case the page is redirected to the body's
   * `url` as the last thing it does. No request is retried.
   */
  function Authenticate(r: Response<AuthBody>): (events: seq<Event>)
    ensures |events| == if r.ok then 2 else 1
    ensures events[0] == Fetch(AuthUrlRequest)
    ensures FetchCount(events, AuthUrlRequest) == 1
    ensures forall e :: e in events && e.Fetch? ==> e.request == AuthUrlRequest
    ensures Redirects(events) == if r.ok then [r.body.url] else []
    ensures NothingAfterRedirect(events)
  {
    var fetch := [Fetch(AuthUrlRequest)];
    if r.ok then
      RedirectsConcat(fetch, [Redirect(r.body.url)]);
      FetchCountConcat(fetch, [Redirect(r.body.url)], AuthUrlRequest);
      fetch + [Redirect(r.body.url)]
    else
      fetch
  }

  /**
   * The start of `main`: list the names and, when the list is `null`,
   * authenticate. An OK list, even an empty one, sends the list request
   * and nothing else. A `null` list adds exactly one auth-URL request and,
   * when that answer is OK, one redirect to its `url` as the last event.
   * Nothing is requested twice.
   */
  function StartupAuth(list: Response<seq<NamePair>>, auth: Response<AuthBody>): (c: Call<seq<NamePair>>)
    ensures c.result.None? <==> !list.ok
    ensures c.result.Some? ==> c.result.value == list.body
    ensures list.ok ==> c.events == [Fetch(ListRequest)]
    ensures |c.events| == if list.ok then 1 else if auth.ok then 3 else 2
    ensures c.events[0] == Fetch(ListRequest)
    ensures FetchCount(c.events, ListRequest) == 1
    ensures FetchCount(c.events, AuthUrlRequest) == if list.ok then 0 else 1
    ensures Fetch(AuthUrlRequest) in c.events <==> c.result.None?
    ensures Redirects(c.events) == if !list.ok && auth.ok then [auth.body.url] else []
    ensures NothingAfterRedirect(c.events)
  {
    var names := ListNames(list);
    if names.result.None? then
      var auths := Authenticate(auth);
      RedirectsConcat(names.events, auths);
      FetchCountConcat(names.events, auths, ListRequest);
      FetchCountConcat(names.events, auths, AuthUrlRequest);
      assert FetchCount(auths, ListRequest) == 0 by {
        NoOtherFetch(auths, AuthUrlRequest, ListRequest);
      }
      FetchBefore(Fetch(ListRequest), auths);
      Call(names.events + auths, names.result)
    else
      names
  }

  /** Events that send no request but `req` send no other request. */
  lemma {:induction false} NoOtherFetch(events: seq<Event>, req: Request, other: Request)
    requires forall e :: e in events && e.Fetch? ==> e.request == req
    requires other != req
    ensures FetchCount(events, other) == 0
  {
    if events != [] {
      assert events[0] in events;
      forall e | e in events[1..] && e.Fetch? ensures e.request == req {
        assert e in events;
      }
      NoOtherFetch(events[1..], req, other);
    }
  }

  /**
   * A failed list followed by an OK auth answer: the list request, the
   * auth-URL request and the redirect, in that order and nothing more.
   */
  lemma FailedListRedirects(body: seq<NamePair>, url: string)
    ensures StartupAuth(Response(false, body), Response(true, AuthBody(url))).events
            == [Fetch(ListRequest), Fetch(AuthUrlRequest), Redirect(url)]
  {
  }

  /** An empty but successful list leaves authentication out: only the list request is sent. */
  lemma EmptyListSkipsAuthentication(auth: Response<AuthBody>)
    ensures StartupAuth(Response(true, []), auth) == Call([Fetch(ListRequest)], Some([]))
  {
  }
}
