/**
 * The HTTP facade (gnomix-website/server/routes.ts): eight handlers, each
 * bound to one (method, path) pair and calling exactly one store operation.
 *
 * `Dispatch` is the whole of request handling as a function of the request,
 * the store's state and whether the store call faults; `HandleRequest` runs
 * the same handlers against a `MemStorage` object and is proved to agree
 * with `Dispatch`.
 */
module Routes {
  import opened Wrappers
  import opened Schema
  import opened Storage

  datatype Request = Request(verb: string, path: string)

  /** The JSON bodies the handlers send. */
  datatype Body =
    | StatsJson(stats: Stats)
    | DownloadListJson(downloads: seq<Download>)
    | DownloadJson(download: Download)
    | FaqListJson(faqs: seq<FAQ>)
    | FeatureListJson(features: seq<Feature>)
    | TestimonialListJson(testimonials: seq<Testimonial>)
    | RequirementListJson(requirements: seq<SystemRequirement>)
    | ErrorJson(error: string)

  datatype Response = Response(status: nat, body: Body)

  /** A handled request: the response sent and the store's state afterwards. */
  datatype Exchange = Exchange(response: Response, next: StoreState)

  /** The routing table: which store operation a request is bound to, if any. */
  function RouteOf(req: Request): (r: Option<StoreOp>)
    ensures r.Some? ==> RequestFor(r.value) == req
    ensures r.Some? ==> "/api/" <= req.path
    ensures req.verb != "GET" && req.verb != "POST" ==> r.None?
  {
    if req == Request("GET", "/api/stats") then Some(GetStats)
    else if req == Request("POST", "/api/stats/download") then Some(IncrementDownloads)
    else if req == Request("GET", "/api/downloads") then Some(GetDownloads)
    else if req == Request("GET", "/api/downloads/latest") then Some(GetLatestDownload)
    else if req == Request("GET", "/api/faqs") then Some(GetFAQs)
    else if req == Request("GET", "/api/features") then Some(GetFeatures)
    else if req == Request("GET", "/api/testimonials") then Some(GetTestimonials)
    else if req == Request("GET", "/api/system-requirements") then Some(GetSystemRequirements)
    else None
  }

  /** The request each store operation is registered under. */
  function RequestFor(op: StoreOp): Request
  {
    match op
    case GetStats => Request("GET", "/api/stats")
    case IncrementDownloads => Request("POST", "/api/stats/download")
    case GetDownloads => Request("GET", "/api/downloads")
    case GetLatestDownload => Request("GET", "/api/downloads/latest")
    case GetFAQs => Request("GET", "/api/faqs")
    case GetFeatures => Request("GET", "/api/features")
    case GetTestimonials => Request("GET", "/api/testimonials")
    case GetSystemRequirements => Request("GET", "/api/system-requirements")
  }

  /**
   * The routing table is a bijection between the eight registered requests
   * and the eight store operations: each route calls exactly one operation,
   * and each operation is reachable by exactly one route.
   */
  lemma RouteTableBijective(req: Request, op: StoreOp)
    ensures RouteOf(RequestFor(op)) == Some(op)
    ensures RouteOf(req) == Some(op) <==> req == RequestFor(op)
  {
  }

  /** Only the download-tracking route is a POST; the other seven are GETs. */
  lemma RouteMethods(op: StoreOp)
    ensures RequestFor(op).verb == (if op == IncrementDownloads then "POST" else "GET")
  {
  }

  /** The route-specific message of the 500 response. */
  function FailureMessage(op: StoreOp): (r: string)
    ensures "Failed to " <= r
    ensures op != IncrementDownloads ==> "Failed to fetch " <= r
  {
    match op
    case GetStats => "Failed to fetch stats"
    case IncrementDownloads => "Failed to track download"
    case GetDownloads => "Failed to fetch downloads"
    case GetLatestDownload => "Failed to fetch latest download"
    case GetFAQs => "Failed to fetch FAQs"
    case GetFeatures => "Failed to fetch features"
    case GetTestimonials => "Failed to fetch testimonials"
    case GetSystemRequirements => "Failed to fetch system requirements"
  }

  const NotFoundMessage := "No downloads available"

  /** How a handler turns the store's reply into a response. */
  function ToResponse(reply: Reply): (r: Response)
    ensures r.status == 200 || r.status == 404
    ensures r.status == 404 <==> reply == LatestReply(None)
    ensures r.status == 404 ==> r.body == ErrorJson(NotFoundMessage)
  {
    match reply
    case StatsReply(st) => Response(200, StatsJson(st))
    case DownloadsReply(ds) => Response(200, DownloadListJson(ds))
    case LatestReply(None) => Response(404, ErrorJson(NotFoundMessage))
    case LatestReply(Some(d)) => Response(200, DownloadJson(d))
    case FaqsReply(fs) => Response(200, FaqListJson(fs))
    case FeaturesReply(fs) => Response(200, FeatureListJson(fs))
    case TestimonialsReply(ts) => Response(200, TestimonialListJson(ts))
    case RequirementsReply(rs) => Response(200, RequirementListJson(rs))
  }

  /**
   * Handling a request. `None` when no route matches (the request falls
   * through to the rest of the server). A faulting store call leaves the
   * state as it was and yields 500 with the route's message.
   */
  function Dispatch(req: Request, s: StoreState, fault: bool): (r: Option<Exchange>)
    ensures r.Some? <==> RouteOf(req).Some?
  {
    match RouteOf(req)
    case None => None
    case Some(op) =>
      if fault then Some(Exchange(Response(500, ErrorJson(FailureMessage(op))), s))
      else
        var c := Call(op, s);
        Some(Exchange(ToResponse(c.reply), c.next))
  }

  const LatestRequest := Request("GET", "/api/downloads/latest")
  const TrackRequest := Request("POST", "/api/stats/download")

  /**
   * In every state, the six stats and list routes answer 200 with the
   * store's current value, verbatim, and leave the store as it was.
   */
  lemma ReadRoutes(s: StoreState)
    ensures Dispatch(Request("GET", "/api/stats"), s, false)
      == Some(Exchange(Response(200, StatsJson(s.stats)), s))
    ensures Dispatch(Request("GET", "/api/downloads"), s, false)
      == Some(Exchange(Response(200, DownloadListJson(s.downloads)), s))
    ensures Dispatch(Request("GET", "/api/faqs"), s, false)
      == Some(Exchange(Response(200, FaqListJson(s.faqs)), s))
    ensures Dispatch(Request("GET", "/api/features"), s, false)
      == Some(Exchange(Response(200, FeatureListJson(s.features)), s))
    ensures Dispatch(Request("GET", "/api/testimonials"), s, false)
      == Some(Exchange(Response(200, TestimonialListJson(s.testimonials)), s))
    ensures Dispatch(Request("GET", "/api/system-requirements"), s, false)
      == Some(Exchange(Response(200, RequirementListJson(s.systemRequirements)), s))
  {
  }

  /** GET /api/downloads/latest is 404 exactly when the store has no download, and otherwise returns the first one. */
  lemma LatestDownloadRoute(s: StoreState)
    ensures Dispatch(LatestRequest, s, false).Some?
    ensures Dispatch(LatestRequest, s, false).value.next == s
    ensures Dispatch(LatestRequest, s, false).value.response.status == 404 <==> |s.downloads| == 0
    ensures |s.downloads| == 0 ==>
      Dispatch(LatestRequest, s, false).value.response == Response(404, ErrorJson("No downloads available"))
    ensures |s.downloads| > 0 ==>
      Dispatch(LatestRequest, s, false).value.response == Response(200, DownloadJson(s.downloads[0]))
  {
  }

  /** POST /api/stats/download increments the counter and returns the updated stats. */
  lemma TrackDownloadRoute(s: StoreState)
    ensures Dispatch(TrackRequest, s, false)
      == Some(Exchange(Response(200, StatsJson(Increment(s).stats)), Increment(s)))
    ensures Dispatch(TrackRequest, s, false).value.response.body.stats.downloads == s.stats.downloads + 1
  {
  }

  /** Only a POST /api/stats/download without a fault changes the store. */
  lemma OnlyTrackingWrites(req: Request, s: StoreState, fault: bool)
    requires Dispatch(req, s, fault).Some?
    ensures Dispatch(req, s, fault).value.next != s <==> req == TrackRequest && !fault
  {
    if req == TrackRequest && !fault {
      assert Dispatch(req, s, fault).value.next.stats.downloads == s.stats.downloads + 1;
    }
  }

  /** A fault in the store call yields 500 with that route's message, no success body, and no change. */
  lemma FaultIsServerError(op: StoreOp, s: StoreState)
    ensures Dispatch(RequestFor(op), s, true)
      == Some(Exchange(Response(500, ErrorJson(FailureMessage(op))), s))
  {
    RouteTableBijective(RequestFor(op), op);
  }

  /** The eight failure messages are pairwise different, so a 500 body names the operation that failed. */
  lemma FailureMessagesDistinct(a: StoreOp, b: StoreOp)
    ensures FailureMessage(a) == FailureMessage(b) ==> a == b
  {
  }

  /** Faults on two different routes answer with different bodies. */
  lemma FaultsIdentifyRoute(a: StoreOp, b: StoreOp, s: StoreState)
    ensures a != b ==> Dispatch(RequestFor(a), s, true) != Dispatch(RequestFor(b), s, true)
  {
    FaultIsServerError(a, s);
    FaultIsServerError(b, s);
    FailureMessagesDistinct(a, b);
  }

  /** Every response is 200, 404 or 500; 404 only from the latest-download route, 500 only on a fault. */
  lemma StatusCodes(req: Request, s: StoreState, fault: bool)
    requires Dispatch(req, s, fault).Some?
    ensures Dispatch(req, s, fault).value.response.status in {200, 404, 500}
    ensures Dispatch(req, s, fault).value.response.status == 500 <==> fault
    ensures Dispatch(req, s, fault).value.response.status == 404 <==>
      !fault && req == LatestRequest && |s.downloads| == 0
    ensures Dispatch(req, s, fault).value.response.body.ErrorJson? <==>
      Dispatch(req, s, fault).value.response.status != 200
  {
  }

  // ---------------------------------------------------------------- a server's lifetime

  /** A request as it arrives, with whether its store call faults. */
  datatype Arrival = Arrival(req: Request, fault: bool)

  /** The store's state after serving `arrivals` in order. */
  function Serve(s: StoreState, arrivals: seq<Arrival>): StoreState
    decreases |arrivals|
  {
    if arrivals == [] then s
    else
      var d := Dispatch(arrivals[0].req, s, arrivals[0].fault);
      Serve(if d.Some? then d.value.next else s, arrivals[1..])
  }

  /** How many of `arrivals` are successful POSTs to /api/stats/download. */
  function TrackedDownloads(arrivals: seq<Arrival>): nat
    decreases |arrivals|
  {
    if arrivals == [] then 0
    else (if arrivals[0] == Arrival(TrackRequest, false) then 1 else 0) + TrackedDownloads(arrivals[1..])
  }

  /**
   * Serving any sequence of requests raises `downloads` by exactly the
   * number of successful tracking POSTs, and changes nothing else.
   */
  lemma {:induction false} ServeEffect(s: StoreState, arrivals: seq<Arrival>)
    ensures Serve(s, arrivals) == WithMoreDownloads(s, TrackedDownloads(arrivals))
    decreases |arrivals|
  {
    if arrivals != [] {
      var a := arrivals[0];
      var d := Dispatch(a.req, s, a.fault);
      var s' := if d.Some? then d.value.next else s;
      if a == Arrival(TrackRequest, false) {
        assert s' == WithMoreDownloads(s, 1);
      } else if d.Some? {
        OnlyTrackingWrites(a.req, s, a.fault);
      }
      ServeEffect(s', arrivals[1..]);
    }
  }

  /**
   * Repeating a GET with no successful POST in between returns the same
   * response both times.
   */
  lemma RepeatedGet(req: Request, s: StoreState, between: seq<Arrival>)
    requires RouteOf(req).Some? && req.verb == "GET"
    requires TrackedDownloads(between) == 0
    ensures Dispatch(req, Serve(Dispatch(req, s, false).value.next, between), false)
         == Dispatch(req, s, false)
  {
    assert req != TrackRequest;
    OnlyTrackingWrites(req, s, false);
    ServeEffect(Dispatch(req, s, false).value.next, between);
  }

  /** The startup scenarios: seeded stats, one tracked download, the latest release, the FAQs. */
  lemma SeedScenarios()
    ensures Dispatch(Request("GET", "/api/stats"), Seed(), false).value.response
      == Response(200, StatsJson(Stats(8547, 50, 463, 2)))
    ensures Dispatch(Request("GET", "/api/stats"), Serve(Seed(), [Arrival(TrackRequest, false)]), false).value.response
      == Response(200, StatsJson(Stats(8548, 50, 463, 2)))
    ensures Dispatch(LatestRequest, Seed(), false).value.response.body.download.version == "v1.0.0"
    ensures Dispatch(LatestRequest, Seed(), false).value.response.body.download.isBeta
    ensures Dispatch(Request("GET", "/api/faqs"), Seed(), false).value.response == Response(200, FaqListJson(SeedFaqs))
  {
    ServeEffect(Seed(), [Arrival(TrackRequest, false)]);
    assert TrackedDownloads([Arrival(TrackRequest, false)]) == 1;
  }

  // ---------------------------------------------------------------- the handlers

  /**
   * The registered handlers run against the store object. A fault replaces
   * the store call (the call throws before it has any effect).
   */
  method HandleRequest(store: MemStorage, req: Request, fault: bool) returns (r: Option<Response>)
    modifies store`stats
    ensures var d := Dispatch(req, old(store.State()), fault);
      && r == (if d.Some? then Some(d.value.response) else None)
      && store.State() == (if d.Some? then d.value.next else old(store.State()))
  {
    var route := RouteOf(req);
    if route.None? {
      return None;
    }
    var op := route.value;
    if fault {
      return Some(Response(500, ErrorJson(FailureMessage(op))));
    }
    match op {
      case GetStats =>
        var st := store.GetStats();
        r := Some(Response(200, StatsJson(st)));
      case IncrementDownloads =>
        var st := store.IncrementDownloads();
        r := Some(Response(200, StatsJson(st)));
      case GetDownloads =>
        var ds := store.GetDownloads();
        r := Some(Response(200, DownloadListJson(ds)));
      case GetLatestDownload =>
        var latest := store.GetLatestDownload();
        if latest.None? {
          r := Some(Response(404, ErrorJson(NotFoundMessage)));
        } else {
          r := Some(Response(200, DownloadJson(latest.value)));
        }
      case GetFAQs =>
        var fs := store.GetFAQs();
        r := Some(Response(200, FaqListJson(fs)));
      case GetFeatures =>
        var fs := store.GetFeatures();
        r := Some(Response(200, FeatureListJson(fs)));
      case GetTestimonials =>
        var ts := store.GetTestimonials();
        r := Some(Response(200, TestimonialListJson(ts)));
      case GetSystemRequirements =>
        var rs := store.GetSystemRequirements();
        r := Some(Response(200, RequirementListJson(rs)));
    }
  }
}
