/**
 The HTTP readback adapter: pacing, retries with backoff, the readback deadline, and pagination.
 The client is a server that answers anything within the request's timeout, or one that answers
 instantly by a fixed rule.
 */
module HttpReadback {
  import opened Wrappers
  import opened Clocks
  import opened Reals

  type Tag = string
  type Url = string

  /** A stored record: the parts of `repr` and `ticket_id` that the settling signature reads. */
  datatype Readback = Readback(ticketId: string, repr: string)

  datatype NextLink = NoLink | SameHost(url: Url) | OtherHost

  /** What `_decode` and `_records` make of a 2xx body. */
  datatype Payload = Malformed | Records(records: seq<Readback>, next: NextLink)

  datatype Response = Failed | Response(status: int, retryAfter: Option<real>, payload: Payload)

  datatype Request = Request(url: Url, page: Option<nat>, sized: bool)

  /** What the other side answers: to each request as it likes at that moment (its number tells when),
      in its own time; or at once and always by one rule. */
  datatype Server = Anything(reply: (nat, Request) -> Response) | Instant(answer: Request -> Response) {
    function Reply(number: nat, request: Request): Response {
      match this
      case Anything(reply) => reply(number, request)
      case Instant(answer) => answer(request)
    }
  }

  datatype Failure = BudgetExhausted | AdapterError

  datatype FetchResult = FetchResult(records: seq<Readback>, partial: bool, status: Option<int>)

  /** How a listing is continued: not at all, by page number (with or without a page size
      parameter), or by the link the response carries. */
  datatype Paging = SinglePage | ByNumber(sized: bool) | ByLink

  /** How a lookup or a listing of all records is paged. */
  datatype Listing = Listing(paging: Paging, maxPages: nat, lookup: bool)

  /** One request and what came back. */
  datatype Exchange = Exchange(request: Request, response: Response)

  /** One lookup: what it answered, from when to when, and which of the exchanges it made. */
  datatype Entry = Entry(tag: Tag, answer: Result<FetchResult, Failure>, began: real, ended: real, first: nat, past: nat)

  const MAX_BACKOFF := 30.0
  const MAX_RETRY_AFTER := 300.0
  const PAGE_SIZE := 100
  const SHORTEST_TIMEOUT := 0.05

  function Pow2(n: nat): (r: real)
    ensures r >= 1.0
  {
    if n == 0 then 1.0 else 2.0 * Pow2(n - 1)
  }

  predicate Retryable(r: Response) {
    r.Failed? || r.status == 429 || 500 <= r.status <= 599
  }

  /** A reply that asks for a longer wait than this tool is willing to make. */
  predicate AsksTooLong(r: Response) {
    r.Response? && r.retryAfter.Some? && r.retryAfter.value > MAX_RETRY_AFTER
  }

  function LookupUrl(tag: Tag): Url {
    "?tag=" + tag
  }

  /** Seconds between request starts: none when lookups are not paced. */
  function GapOf(rate: Option<real>): (gap: real)
    requires rate.Some? ==> rate.value > 0.0
    ensures gap >= 0.0
  {
    if rate.Some? then 1.0 / rate.value else 0.0
  }

  class Client {
    const server: Server

    constructor (server: Server)
      ensures this.server == server
    {
      this.server := server;
    }

    /** One request: the answer arrives, or the attempt fails, within the timeout. */
    method Send(number: nat, request: Request, timeout: real, clock: Clock) returns (response: Response)
      requires timeout >= 0.0
      modifies clock
      ensures old(clock.now) <= clock.now <= old(clock.now) + timeout
      ensures response == server.Reply(number, request)
      ensures server.Instant? ==> clock.now == old(clock.now)
    {
      if !server.Instant? {
        clock.Spend(timeout);
      }
      response := server.Reply(number, request);
    }
  }

  function PageRequest(paging: Paging, url: Url, page: nat): Request {
    match paging
    case ByNumber(sized) => Request(url, Some(page), sized)
    case _ => Request(url, None, false)
  }

  /** Where the next page is, if the page just read says there is one. A numbered page is full when
      it holds the page size asked for, or, if none was asked for, as many as the biggest so far. */
  function NextPage(paging: Paging, current: Url, records: seq<Readback>, next: NextLink, biggest: nat)
    : Result<Option<Url>, Failure>
  {
    match paging
    case SinglePage => Ok(None)
    case ByLink => (match next
      case NoLink => Ok(None)
      case SameHost(url) => Ok(Some(url))
      case OtherHost => Err(AdapterError))
    case ByNumber(sized) =>
      if records != [] && |records| >= (if sized then PAGE_SIZE else biggest) then Ok(Some(current)) else Ok(None)
  }

  /** What reading one page leads to: the end of the listing, or the next page. */
  datatype PageStep =
    | Done(result: Result<FetchResult, Failure>)
    | More(url: Url, biggest: nat, raw: seq<Readback>, status: Option<int>)

  function FirstPage(url: Url): (step: PageStep)
    ensures step.More?
  {
    More(url, 0, [], None)
  }

  function ReadPage(l: Listing, step: PageStep, page: nat, reply: Response): (next: PageStep)
    requires step.More? && !Retryable(reply)
    ensures next.More? ==> page < l.maxPages
    ensures next != Done(Err(BudgetExhausted))
  {
    var first := if step.status.None? then Some(reply.status) else step.status;
    // A lookup that found nothing is an empty answer, and a page past the end is the end.
    if reply.status == 404 && (l.lookup || page > 1) then Done(Ok(FetchResult(step.raw, false, first)))
    else if !(200 <= reply.status < 300) || reply.payload.Malformed? then Done(Err(AdapterError))
    else
      var records := reply.payload.records;
      match NextPage(l.paging, step.url, records, reply.payload.next, step.biggest)
      case Err(e) => Done(Err(e))
      case Ok(None) => Done(Ok(FetchResult(step.raw + records, false, first)))
      case Ok(Some(url)) =>
        if page >= l.maxPages then Done(Ok(FetchResult(step.raw + records, true, first)))
        else More(url, if |records| > step.biggest then |records| else step.biggest, step.raw + records, first)
  }

  // What the exchanges of a lookup add up to

  /** Replies that are not retried: one a page. */
  function PagesRead(exchanges: seq<Exchange>): (pages: nat)
    ensures pages <= |exchanges|
  {
    if exchanges == [] then 0
    else
      var n := |exchanges| - 1;
      PagesRead(exchanges[..n]) + if Retryable(exchanges[n].response) then 0 else 1
  }

  /** Where a listing stands after these exchanges: replies to be retried count for nothing, and each
      other reply is one page. */
  function StepAfter(l: Listing, url: Url, exchanges: seq<Exchange>): PageStep {
    if exchanges == [] then FirstPage(url)
    else
      var n := |exchanges| - 1;
      var step := StepAfter(l, url, exchanges[..n]);
      if step.Done? || Retryable(exchanges[n].response) then step
      else ReadPage(l, step, PagesRead(exchanges[..n]) + 1, exchanges[n].response)
  }

  /** Every request asks for the page the replies before it lead to. */
  ghost predicate Asks(l: Listing, url: Url, exchanges: seq<Exchange>) {
    exchanges == [] || (
      var n := |exchanges| - 1;
      var step := StepAfter(l, url, exchanges[..n]);
      && Asks(l, url, exchanges[..n]) && step.More?
      && exchanges[n].request == PageRequest(l.paging, step.url, PagesRead(exchanges[..n]) + 1))
  }

  /** Attempts of one request: all but the last were retried, and the last too unless it answered. */
  ghost predicate Tried(request: Request, exchanges: seq<Exchange>, r: Result<Response, Failure>) {
    var n := |exchanges|;
    && (forall k :: 0 <= k < n ==> exchanges[k].request == request)
    && (forall k :: 0 <= k < (if r.Ok? then n - 1 else n) ==> Retryable(exchanges[k].response))
    && (r.Ok? ==> exchanges != [] && exchanges[n - 1].response == r.value)
  }

  /** A reply that stands: one with a status that is neither 429 nor of the 5xx. */
  ghost predicate IsFinal(r: Response) {
    r.Response? && r.status != 429 && (r.status < 500 || r.status >= 600)
  }

  /** A request goes on for as long as its replies do not stand, and an answer is one that does. */
  ghost predicate EndsWithFinal(exchanges: seq<Exchange>, r: Result<Response, Failure>) {
    && (r.Ok? ==> exchanges != [] && exchanges[|exchanges| - 1].response == r.value)
    && forall k :: 0 <= k < |exchanges| ==> (IsFinal(exchanges[k].response) <==> r.Ok? && k == |exchanges| - 1)
  }

  lemma TriedEndsWithFinal(request: Request, exchanges: seq<Exchange>, r: Result<Response, Failure>)
    requires Tried(request, exchanges, r) && (r.Ok? ==> !Retryable(r.value))
    ensures EndsWithFinal(exchanges, r)
  {
  }

  lemma EitherFailure(e: Failure)
    ensures e == BudgetExhausted || e == AdapterError
  {
  }

  lemma NoneTried(request: Request)
    ensures Tried(request, [], Err(BudgetExhausted))
  {
  }

  lemma LastTried(request: Request, exchanges: seq<Exchange>, r: Result<Response, Failure>)
    requires Tried(request, exchanges, r) && r.Ok?
    ensures exchanges != [] && exchanges[|exchanges| - 1].response == r.value
  {
  }

  /** The attempts of one page move a listing on by that page, or not at all when they all failed. */
  lemma {:induction false} OnePageOn(l: Listing, url: Url, before: seq<Exchange>, tried: seq<Exchange>,
      r: Result<Response, Failure>)
    requires Asks(l, url, before) && StepAfter(l, url, before).More?
    requires Tried(PageRequest(l.paging, StepAfter(l, url, before).url, PagesRead(before) + 1), tried, r)
    requires r.Ok? ==> !Retryable(r.value)
    ensures Asks(l, url, before + tried)
    ensures PagesRead(before + tried) == PagesRead(before) + if r.Ok? then 1 else 0
    ensures StepAfter(l, url, before + tried)
      == if r.Ok? then ReadPage(l, StepAfter(l, url, before), PagesRead(before) + 1, r.value) else StepAfter(l, url, before)
    decreases |tried|
  {
    hide ReadPage, PageRequest, Retryable;
    if tried == [] {
      assert before + tried == before;
    } else {
      var n := |tried| - 1;
      OnePageOn(l, url, before, tried[..n], Err(BudgetExhausted));
      assert (before + tried)[..|before| + n] == before + tried[..n];
    }
  }

  /** All of these attempts failed, and there was no point in another one. */
  ghost predicate AttemptsFailed(exchanges: seq<Exchange>, retryMax: nat) {
    && exchanges != [] && (forall k :: 0 <= k < |exchanges| ==> Retryable(exchanges[k].response))
    && (|exchanges| == retryMax + 1 || AsksTooLong(exchanges[|exchanges| - 1].response))
  }

  /** Why a listing is an error: a page that is one, or a last page for which all attempts failed. */
  ghost predicate Refused(l: Listing, retryMax: nat, url: Url, exchanges: seq<Exchange>) {
    || StepAfter(l, url, exchanges) == Done(Err(AdapterError))
    || exists n :: 0 <= n < |exchanges| && StepAfter(l, url, exchanges[..n]).More?
         && AttemptsFailed(exchanges[n..], retryMax)
  }

  /** A reply ends a listing with an error only when it is neither a page nor the end: no status of
      success and no missing page, a body that cannot be read, or a next page on another host. */
  lemma ErrorPages(l: Listing, step: PageStep, page: nat, reply: Response)
    requires step.More? && !Retryable(reply)
    ensures var missing := reply.status == 404 && (l.lookup || page > 1);
      var bad := !(200 <= reply.status <= 299) || reply.payload.Malformed?
        || (l.paging.ByLink? && reply.payload.next.OtherHost?);
      var next := ReadPage(l, step, page, reply);
      && (missing ==> next.Done? && next.result.Ok? && next.result.value.records == step.raw && !next.result.value.partial)
      && (next == Done(Err(AdapterError)) <==> !missing && bad)
  {
  }

  // A server that answers by one rule

  /** The same when the server answers by a fixed rule: retrying does not help. */
  function InstantStep(l: Listing, answer: Request -> Response, step: PageStep, page: nat): PageStep
    requires step.More?
  {
    var reply := answer(PageRequest(l.paging, step.url, page));
    if Retryable(reply) then Done(Err(AdapterError)) else ReadPage(l, step, page, reply)
  }

  /** What a lookup or listing collects from page `page` on when the budget never runs out and the
      server answers by a fixed rule. */
  function Collected(l: Listing, answer: Request -> Response, step: PageStep, page: nat): Result<FetchResult, Failure>
    requires step.More? && 1 <= page <= l.maxPages
    decreases l.maxPages - page
  {
    match InstantStep(l, answer, step, page)
    case Done(result) => result
    case More(url, larger, all, first) =>
      if page < l.maxPages then Collected(l, answer, More(url, larger, all, first), page + 1) else Err(AdapterError)
  }

  /** How many pages that takes. */
  function PagesFrom(l: Listing, answer: Request -> Response, step: PageStep, page: nat): (pages: nat)
    requires step.More? && 1 <= page <= l.maxPages
    ensures 1 <= pages <= l.maxPages - page + 1
    decreases l.maxPages - page
  {
    match InstantStep(l, answer, step, page)
    case Done(_) => 1
    case More(url, larger, all, first) =>
      if page < l.maxPages then 1 + PagesFrom(l, answer, More(url, larger, all, first), page + 1) else 1
  }

  /** Consecutive request starts are at least `gap` apart. */
  ghost predicate Spaced(starts: seq<real>, gap: real) {
    forall i :: 0 <= i < |starts| - 1 ==> starts[i + 1] - starts[i] >= gap
  }

  ghost predicate AllBefore(starts: seq<real>, from: nat, deadline: Option<real>) {
    deadline.Some? ==> forall i :: from <= i < |starts| ==> starts[i] < deadline.value
  }

  lemma NoneSent(starts: seq<real>, deadline: Option<real>)
    ensures AllBefore(starts, |starts|, deadline)
  {
  }

  lemma AllBeforeTwice(a: seq<real>, b: seq<real>, from: nat, deadline: Option<real>)
    requires from <= |a| <= |b| && a <= b && AllBefore(a, from, deadline) && AllBefore(b, |a|, deadline)
    ensures AllBefore(b, from, deadline)
  {
  }

  class HttpAdapter {
    const client: Client
    const rate: Option<real>
    const timeout: real
    const retryMax: nat
    const retryBase: real
    const maxPages: nat
    const paging: Paging
    var clock: Clock
    var deadline: Option<real>
    var nextSlot: Option<real>
    var requestsMade: nat
    var retriesMade: nat
    /** When each request so far went out, on the clock now bound. */
    ghost var starts: seq<real>
    /** Every request so far and what came back. */
    ghost var exchanges: seq<Exchange>
    /** Every lookup so far. */
    ghost var log: seq<Entry>

    ghost predicate Configured() {
      && (rate.Some? ==> rate.value > 0.0)
      && timeout >= 0.0 && retryBase >= 0.0 && maxPages >= 1
    }

    /** Seconds between request starts. */
    ghost function Gap(): (gap: real)
      requires Configured()
      ensures gap >= 0.0
    {
      GapOf(rate)
    }

    /** The log of starts respects the rate, and the next slot is at least a gap after the last and
        at most a gap from now. */
    ghost predicate Paced()
      reads `starts, `nextSlot, `clock, clock
      requires Configured()
    {
      rate.Some? ==>
        && Spaced(starts, Gap())
        && (starts != [] ==> nextSlot.Some? && nextSlot.value >= starts[|starts| - 1] + Gap())
        && (nextSlot.Some? ==> nextSlot.value <= clock.now + Gap())
    }

    /** The exchanges are what the server said, request by request. */
    ghost predicate Heard()
      reads `exchanges, `requestsMade
    {
      && |exchanges| == requestsMade
      && forall k :: 0 <= k < |exchanges| ==> exchanges[k].response == client.server.Reply(k, exchanges[k].request)
    }

    ghost predicate Valid()
      reads this, clock
    {
      Configured() && Paced() && Heard()
    }

    /** A lookup's answer is what its own exchanges add up to, and so is its error. */
    ghost predicate Backed(e: Entry, exchanges: seq<Exchange>) {
      && e.first <= e.past <= |exchanges|
      && Asks(Paged(true), LookupUrl(e.tag), exchanges[e.first..e.past])
      && (e.answer.Ok? ==> StepAfter(Paged(true), LookupUrl(e.tag), exchanges[e.first..e.past]) == Done(e.answer))
      && (e.answer == Err(AdapterError) ==>
           Refused(Paged(true), retryMax, LookupUrl(e.tag), exchanges[e.first..e.past]))
    }

    /** So it is for every lookup made, and no exchange counts for two of them. */
    ghost predicate Logged()
      reads `log, `exchanges
    {
      && (forall k :: 0 <= k < |log| ==> Backed(log[k], exchanges))
      && (forall j, k :: 0 <= j < k < |log| ==> log[j].past <= log[k].first)
    }

    constructor (client: Client, clock: Clock, rate: Option<real>, timeout: real, retryMax: nat,
        retryBase: real, maxPages: int, paging: Paging)
      requires timeout >= 0.0 && retryBase >= 0.0
      ensures Valid() && Logged() && this.client == client && this.clock == clock && this.paging == paging
      ensures deadline == None && nextSlot == None && starts == [] && exchanges == [] && log == []
      ensures this.maxPages == (if maxPages >= 1 then maxPages else 1)
      ensures this.rate == (if rate.Some? && rate.value > 0.0 then rate else None)
    {
      this.client, this.clock, this.paging := client, clock, paging;
      this.rate := if rate.Some? && rate.value > 0.0 then rate else None;
      this.timeout, this.retryMax, this.retryBase := timeout, retryMax, retryBase;
      this.maxPages := if maxPages >= 1 then maxPages else 1;
      deadline, nextSlot, requestsMade, retriesMade := None, None, 0, 0;
      starts, exchanges, log := [], [], [];
    }

    /** How this adapter pages a lookup, or a listing of all records. */
    function Paged(lookup: bool): Listing {
      Listing(paging, maxPages, lookup)
    }

    /** Spends the poll's clock and stops at its deadline; a different clock resets the pacing. */
    method BindClock(clock: Clock, deadline: Option<real>)
      requires Valid()
      modifies `clock, `deadline, `nextSlot, `starts
      ensures Valid() && this.clock == clock && this.deadline == deadline
      ensures clock == old(this.clock) ==> nextSlot == old(nextSlot) && starts == old(starts)
      ensures clock != old(this.clock) ==> nextSlot == None && starts == []
    {
      if clock != this.clock {
        nextSlot := None;
        starts := [];
      }
      this.clock := clock;
      this.deadline := deadline;
    }

    /** True when the budget still has time in it, or there is no budget. */
    predicate InBudget()
      reads this, clock
    {
      deadline.Some? ==> clock.now < deadline.value
    }

    /** Waits for the next slot, or refuses to when the slot is past the budget. */
    method Pace() returns (failure: Option<Failure>)
      requires Valid() && InBudget()
      modifies clock, `nextSlot
      ensures clock.now >= old(clock.now)
      ensures failure.None? ==> InBudget() && clock.now == old(EarliestStart())
      ensures failure.None? && rate.Some? ==> nextSlot == Some(clock.now + Gap())
      ensures failure.None? && rate.Some? && starts != [] ==> clock.now >= starts[|starts| - 1] + Gap()
      ensures failure.None? && rate.None? ==> nextSlot == old(nextSlot)
      ensures failure.Some? ==> failure == Some(BudgetExhausted)
      ensures failure.Some? ==> clock.now == old(clock.now) && nextSlot == old(nextSlot)
      ensures failure.Some? <==> old(!SlotInBudget())
    {
      failure := None;
      if rate.None? {
        return;
      }
      var now := clock.now;
      if nextSlot.Some? && nextSlot.value > now {
        var wait := nextSlot.value - now;
        if deadline.Some? && wait >= deadline.value - clock.now {
          return Some(BudgetExhausted);
        }
        clock.Sleep(wait);
        now := clock.now;
      }
      var start := if nextSlot.Some? then Max(now, nextSlot.value) else now;
      nextSlot := Some(start + 1.0 / rate.value);
    }

    /** When the next request may go out. */
    ghost function EarliestStart(): real
      reads this, clock
    {
      if rate.Some? && nextSlot.Some? then Max(clock.now, nextSlot.value) else clock.now
    }

    ghost predicate SlotInBudget()
      reads this, clock
    {
      EarliestStart() > clock.now ==> deadline.None? || EarliestStart() < deadline.value
    }

    function BackoffSpan(attempt: nat): (span: real)
      requires Configured()
      ensures 0.0 <= span <= MAX_BACKOFF
    {
      var raw := retryBase * Pow2(attempt);
      assert raw >= 0.0;
      Min(raw, MAX_BACKOFF)
    }

    method Backoff(attempt: nat, retryAfter: Option<real>) returns (delay: real)
      requires Configured()
      ensures delay >= BackoffSpan(attempt) / 2.0
      ensures retryAfter.Some? ==> delay >= retryAfter.value
      ensures delay <= BackoffSpan(attempt) || retryAfter == Some(delay)
    {
      var span := BackoffSpan(attempt);
      var jitter: real := *;
      if jitter < 0.0 || jitter > span / 2.0 {
        jitter := 0.0;
      }
      delay := span / 2.0 + jitter;
      if retryAfter.Some? {
        delay := Max(delay, retryAfter.value);
      }
    }

    /** No request may go out: the budget is gone or the next slot lies past it. */
    ghost predicate CannotStart()
      reads this, clock
    {
      !InBudget() || !SlotInBudget()
    }

    /** What every step keeps: the clock only moves forward, past the deadline by at most the
        shortest timeout, and requests are only added, before the deadline and at the rate. */
    twostate predicate WithinBudget(attempts: nat)
      reads this, clock
    {
      && clock == old(clock) && deadline == old(deadline)
      && old(clock.now) <= clock.now
      && (deadline.Some? ==> clock.now <= Max(old(clock.now), deadline.value + SHORTEST_TIMEOUT))
      && old(starts) <= starts && |starts| <= |old(starts)| + attempts
      && AllBefore(starts, |old(starts)|, deadline)
      && old(exchanges) <= exchanges
      && |exchanges| - |old(exchanges)| == |starts| - |old(starts)|
    }

    /** Sends one request now, its slot having come. */
    method SendNow(request: Request) returns (response: Response)
      requires Valid() && InBudget()
      requires rate.Some? ==> nextSlot == Some(clock.now + Gap())
      requires rate.Some? && starts != [] ==> clock.now >= starts[|starts| - 1] + Gap()
      modifies clock, `requestsMade, `starts, `exchanges
      ensures Valid() && WithinBudget(1)
      ensures exchanges == old(exchanges) + [Exchange(request, response)]
      ensures client.server.Instant? ==> response == client.server.answer(request) && clock.now == old(clock.now)
    {
      var allowed := timeout;
      if deadline.Some? {
        allowed := Max(SHORTEST_TIMEOUT, Min(timeout, deadline.value - clock.now));
      }
      var number := requestsMade;
      requestsMade := requestsMade + 1;
      starts := starts + [clock.now];
      response := client.Send(number, request, allowed, clock);
      exchanges := exchanges + [Exchange(request, response)];
    }

    /** One attempt: the budget check, the wait for a slot, and the send. */
    method Attempt(request: Request) returns (r: Result<Response, Failure>)
      requires Valid()
      modifies clock, `nextSlot, `requestsMade, `starts, `exchanges
      ensures Valid() && WithinBudget(1)
      ensures r.Err? ==> deadline.Some? && r == Err(BudgetExhausted)
      ensures r.Err? ==> clock.now == old(clock.now) && nextSlot == old(nextSlot)
      ensures r.Err? <==> old(CannotStart())
      ensures r.Err? ==> CannotStart()
      ensures exchanges == old(exchanges) + if r.Ok? then [Exchange(request, r.value)] else []
      ensures r.Ok? && client.server.Instant? ==>
        && r == Ok(client.server.answer(request)) && clock.now == old(EarliestStart())
        && EarliestStart() == clock.now + Gap()
    {
      hide Heard, Spaced;
      if deadline.Some? && deadline.value - clock.now <= 0.0 {
        return Err(BudgetExhausted);
      }
      var refused := Pace();
      if refused.Some? {
        return Err(refused.value);
      }
      var response := SendNow(request);
      r := Ok(response);
    }

    /** The longest that attempt `attempt` may wait for the next one. */
    ghost function LongestPause(attempt: nat, response: Response): real
      requires Configured()
    {
      if response.Response? && response.retryAfter.Some? then Max(BackoffSpan(attempt), response.retryAfter.value)
      else BackoffSpan(attempt)
    }

    /** How long to wait before the next attempt, or why there is none. */
    method PlanRetry(attempt: nat, response: Response) returns (pause: Result<real, Failure>)
      requires Valid()
      ensures pause == Err(AdapterError) <==> attempt >= retryMax || AsksTooLong(response)
      ensures pause == Err(BudgetExhausted) ==>
        deadline.Some? && clock.now + LongestPause(attempt, response) >= deadline.value
      ensures pause.Ok? ==>
        && BackoffSpan(attempt) / 2.0 <= pause.value <= LongestPause(attempt, response)
        && (response.Response? && response.retryAfter.Some? ==> pause.value >= response.retryAfter.value)
        && (deadline.Some? ==> clock.now + pause.value < deadline.value)
    {
      var retryAfter := if response.Failed? then None else response.retryAfter;
      if attempt >= retryMax {
        return Err(AdapterError);
      }
      if retryAfter.Some? && retryAfter.value > MAX_RETRY_AFTER {
        return Err(AdapterError);
      }
      var delay := Backoff(attempt, retryAfter);
      if deadline.Some? && delay >= deadline.value - clock.now {
        return Err(BudgetExhausted);
      }
      return Ok(delay);
    }

    /** The pause before a retry. */
    method Rest(seconds: real)
      requires Valid() && seconds >= 0.0
      modifies clock, `retriesMade
      ensures Valid() && clock.now == old(clock.now) + seconds && retriesMade == old(retriesMade) + 1
    {
      clock.Sleep(seconds);
      retriesMade := retriesMade + 1;
    }

    lemma BackoffDoubles(attempt: nat)
      requires Configured()
      ensures BackoffSpan(0) == Min(retryBase, MAX_BACKOFF)
      ensures BackoffSpan(attempt + 1) == Min(2.0 * BackoffSpan(attempt), MAX_BACKOFF)
    {
      var raw := retryBase * Pow2(attempt);
      assert retryBase * Pow2(attempt + 1) == 2.0 * raw;
    }

    /** None of the replies but the last asked for too long a wait, and an error means that the last one
        did or that no attempt is left. */
    ghost predicate Persisted(exchanges: seq<Exchange>, r: Result<Response, Failure>) {
      && (forall k :: 0 <= k < |exchanges| - 1 ==> !AsksTooLong(exchanges[k].response))
      && (r == Err(AdapterError) ==>
           exchanges != [] && (|exchanges| == retryMax + 1 || AsksTooLong(exchanges[|exchanges| - 1].response)))
    }

    /** A budget that is gone leaves no room for the next request, or for the pause before it. */
    ghost predicate NoRoom(exchanges: seq<Exchange>)
      reads this, clock
      requires Configured()
    {
      && deadline.Some?
      && (CannotStart() || (
           && exchanges != [] && !AsksTooLong(exchanges[|exchanges| - 1].response)
           && clock.now + LongestPause(|exchanges| - 1, exchanges[|exchanges| - 1].response) >= deadline.value))
    }

    /** What that means of any number of requests: less is left of the budget than one gap or one pause
        can take. */
    ghost predicate HardlyAnyLeft()
      reads `deadline, `clock, clock
      requires Configured()
    {
      deadline.Some? && clock.now + Max(Gap(), MAX_RETRY_AFTER) >= deadline.value
    }

    lemma NoRoomLeft(exchanges: seq<Exchange>)
      requires Valid() && NoRoom(exchanges)
      ensures HardlyAnyLeft()
    {
      SlotIsNear();
    }

    /** The server's reply to attempt i of a request that begins with request number `number`. */
    function ReplyTo(number: nat, request: Request, i: nat): Response {
      client.server.Reply(number + i, request)
    }

    /** The server's reply to attempt j, counting from request number `number`, is the first that is final,
        and the attempts before it are made. */
    ghost predicate AnswersAt(number: nat, request: Request, j: nat) {
      && j <= retryMax && !Retryable(ReplyTo(number, request, j))
      && forall i: nat :: i < j ==>
           Retryable(ReplyTo(number, request, i)) && !AsksTooLong(ReplyTo(number, request, i))
    }

    lemma HeardFrom(n: nat)
      requires Heard() && n <= |exchanges|
      ensures forall k :: 0 <= k < |exchanges| - n ==>
        exchanges[n..][k].response == ReplyTo(n, exchanges[n..][k].request, k)
    {
    }

    lemma FinalReply(number: nat, request: Request, exchanges: seq<Exchange>, r: Result<Response, Failure>, j: nat)
      requires Tried(request, exchanges, r) && Persisted(exchanges, r) && AnswersAt(number, request, j)
      requires forall k :: 0 <= k < |exchanges| ==>
        exchanges[k].response == ReplyTo(number, exchanges[k].request, k)
      requires r != Err(BudgetExhausted) && (r.Ok? ==> !Retryable(r.value))
      ensures r == Ok(ReplyTo(number, request, j))
    {
      if r.Err? {
        EitherFailure(r.error);
      }
      var m := if |exchanges| - 1 < j then |exchanges| - 1 else j;
      assert exchanges[m].response == ReplyTo(number, request, m);
    }

    /** One request with retries. */
    method Perform(request: Request) returns (r: Result<Response, Failure>)
      requires Valid()
      modifies clock, `nextSlot, `requestsMade, `retriesMade, `starts, `exchanges
      ensures Valid() && WithinBudget(retryMax + 1)
      ensures r.Ok? ==> !Retryable(r.value)
      ensures Tried(request, exchanges[|old(exchanges)|..], r)
      ensures EndsWithFinal(exchanges[|old(exchanges)|..], r)
      // It is given up only when no attempt is left, the server asks for too much, or the budget is gone;
      // without a budget the first final reply among the attempts is the answer.
      ensures Persisted(exchanges[|old(exchanges)|..], r)
      ensures r == Err(BudgetExhausted) ==> NoRoom(exchanges[|old(exchanges)|..])
      ensures deadline.None? ==>
        forall j :: AnswersAt(|old(exchanges)|, request, j) ==> r == Ok(ReplyTo(|old(exchanges)|, request, j))
      ensures client.server.Instant? && !Retryable(client.server.answer(request)) ==>
        if old(CannotStart()) then r == Err(BudgetExhausted) && clock.now == old(clock.now)
        else r == Ok(client.server.answer(request)) && clock.now == old(EarliestStart())
             && EarliestStart() == clock.now + Gap()
      ensures client.server.Instant? && Retryable(client.server.answer(request)) ==> r.Err?
    {
      hide Heard, Paced, Tried, AllBefore, CannotStart, AnswersAt, Persisted, NoRoom, EarliestStart, EndsWithFinal;
      var attempt := 0;
      ghost var n := |exchanges|;
      NoneTried(request);
      r := Attempt(request);
      FirstAttempt(request, r);
      assert exchanges[n..] == if r.Ok? then [Exchange(request, r.value)] else [];
      while r.Ok? && Retryable(r.value)
        invariant Valid() && WithinBudget(attempt + 1) && attempt <= retryMax
        invariant Tried(request, exchanges[n..], r) && Persisted(exchanges[n..], r)
        invariant r.Ok? ==> |exchanges| == n + attempt + 1
        invariant r == Err(BudgetExhausted) ==> NoRoom(exchanges[n..])
        invariant client.server.Instant? ==> Instantly(request, r, old(CannotStart()), old(EarliestStart()), old(clock.now))
        decreases r.Ok?, retryMax - attempt
      {
        ghost var tried, before, m := exchanges[n..], starts, |exchanges|;
        r := TryAgain(request, attempt, r.value, tried);
        assert exchanges[n..] == tried + exchanges[m..];
        AllBeforeTwice(before, starts, |old(starts)|, deadline);
        attempt := if attempt < retryMax then attempt + 1 else attempt;
      }
      TriedEndsWithFinal(request, exchanges[n..], r);
      if deadline.None? {
        NoBudgetToLose(exchanges[n..], r);
        HeardFrom(n);
        forall j | AnswersAt(n, request, j)
          ensures r == Ok(ReplyTo(n, request, j))
        {
          FinalReply(n, request, exchanges[n..], r, j);
        }
      }
    }

    /** What is known of the attempts at a server with one rule. */
    ghost predicate Instantly(request: Request, r: Result<Response, Failure>, couldNot: bool, slot: real, t0: real)
      reads this, clock
      requires Configured() && client.server.Instant?
    {
      var answer := client.server.answer(request);
      if Retryable(answer) then r.Err? || r == Ok(answer)
      else if couldNot then r == Err(BudgetExhausted) && clock.now == t0
      else r == Ok(answer) && clock.now == slot && EarliestStart() == clock.now + Gap()
    }

    lemma FirstAttempt(request: Request, r: Result<Response, Failure>)
      requires Configured() && (r.Err? ==> r == Err(BudgetExhausted) && deadline.Some? && CannotStart())
      ensures var tried := if r.Ok? then [Exchange(request, r.value)] else [];
        Tried(request, tried, r) && Persisted(tried, r) && (r.Err? ==> NoRoom(tried))
    {
    }

    lemma NoBudgetToLose(exchanges: seq<Exchange>, r: Result<Response, Failure>)
      requires Configured() && deadline.None? && (r == Err(BudgetExhausted) ==> NoRoom(exchanges))
      ensures r != Err(BudgetExhausted)
    {
    }

    /** After an attempt that failed, the pause and the next attempt, or the error that ends it. */
    method TryAgain(request: Request, attempt: nat, failed: Response, ghost tried: seq<Exchange>)
      returns (r: Result<Response, Failure>)
      requires Valid() && attempt <= retryMax && |tried| == attempt + 1 && Retryable(failed)
      requires Tried(request, tried, Ok(failed)) && Persisted(tried, Ok(failed))
      modifies clock, `nextSlot, `requestsMade, `retriesMade, `starts, `exchanges
      ensures Valid() && WithinBudget(if attempt < retryMax then 1 else 0)
      ensures r.Ok? ==> attempt < retryMax && |exchanges| == |old(exchanges)| + 1
      ensures var all := tried + exchanges[|old(exchanges)|..];
        Tried(request, all, r) && Persisted(all, r) && (r == Err(BudgetExhausted) ==> NoRoom(all))
      ensures client.server.Instant? && r.Ok? ==> r.value == client.server.answer(request)
    {
      hide Heard, Paced, Tried, Persisted, CannotStart, AllBefore;
      var pause := PlanRetry(attempt, failed);
      LastTried(request, tried, Ok(failed));
      NoneSent(starts, deadline);
      if pause.Err? {
        r := Err(pause.error);
        NextTried(request, tried, failed, attempt, r);
        assert tried + exchanges[|old(exchanges)|..] == tried;
      } else {
        Rest(pause.value);
        r := Attempt(request);
        NextTried(request, tried, failed, attempt, r);
        assert exchanges[|old(exchanges)|..] == if r.Ok? then [Exchange(request, r.value)] else [];
      }
    }

    lemma NextTried(request: Request, tried: seq<Exchange>, failed: Response, attempt: nat, r: Result<Response, Failure>)
      requires Tried(request, tried, Ok(failed)) && Persisted(tried, Ok(failed)) && Retryable(failed)
      requires |tried| == attempt + 1 && attempt <= retryMax
      requires r == Err(AdapterError) ==> attempt >= retryMax || AsksTooLong(failed)
      ensures r.Err? ==> Tried(request, tried, r) && Persisted(tried, r)
      ensures r.Err? ==> Tried(request, tried + [], r) && Persisted(tried + [], r)
      ensures r.Ok? && !AsksTooLong(failed) ==>
        Tried(request, tried + [Exchange(request, r.value)], r) && Persisted(tried + [Exchange(request, r.value)], r)
    {
      assert tried + [] == tried;
    }

    /** What a lookup or a listing answers on a server with one rule, given time. */
    ghost function Fixed(url: Url, lookup: bool): Result<FetchResult, Failure>
      requires client.server.Instant? && maxPages >= 1
    {
      Collected(Paged(lookup), client.server.answer, FirstPage(url), 1)
    }

    /** How many pages that takes. */
    ghost function Pages(url: Url, lookup: bool): (pages: nat)
      requires client.server.Instant? && maxPages >= 1
      ensures 1 <= pages <= maxPages
    {
      PagesFrom(Paged(lookup), client.server.answer, FirstPage(url), 1)
    }

    /** On a server with one rule: at `t0`, with the next request due at `slot`, the page is read at that
        slot if it lies before the deadline, and given up at once if it does not. */
    ghost predicate PageTurned(step: PageStep, page: nat, lookup: bool, next: PageStep, t0: real, slot: real, t1: real,
        later: real)
      reads `deadline
      requires Configured() && client.server.Instant? && step.More?
    {
      var fixed := InstantStep(Paged(lookup), client.server.answer, step, page);
      && (next == Done(Err(BudgetExhausted)) || next == fixed)
      && (fixed != Done(Err(AdapterError)) ==>
           if deadline.Some? && slot >= deadline.value
           then next == Done(Err(BudgetExhausted)) && t1 == t0
           else next == fixed && t1 == slot && later == t1 + Gap())
    }

    lemma PageRefused(url: Url, lookup: bool, before: seq<Exchange>, tried: seq<Exchange>, step: PageStep, page: nat)
      requires step == StepAfter(Paged(lookup), url, before) && step.More?
      requires Tried(PageRequest(paging, step.url, page), tried, Err(AdapterError)) && Persisted(tried, Err(AdapterError))
      ensures Refused(Paged(lookup), retryMax, url, before + tried)
    {
      var n := |before|;
      assert (before + tried)[..n] == before && (before + tried)[n..] == tried;
      assert AttemptsFailed((before + tried)[n..], retryMax);
    }

    lemma PageIsAnError(url: Url, lookup: bool, exchanges: seq<Exchange>)
      ensures StepAfter(Paged(lookup), url, exchanges) == Done(Err(AdapterError)) ==>
        Refused(Paged(lookup), retryMax, url, exchanges)
    {
    }

    /** Requests and reads the next page. */
    method NextStep(url: Url, step: PageStep, page: nat, lookup: bool, ghost before: seq<Exchange>)
      returns (next: PageStep)
      requires Valid() && step.More? && 1 <= page <= maxPages
      requires Asks(Paged(lookup), url, before) && step == StepAfter(Paged(lookup), url, before)
      requires PagesRead(before) == page - 1
      modifies clock, `nextSlot, `requestsMade, `retriesMade, `starts, `exchanges
      ensures Valid() && WithinBudget(retryMax + 1)
      ensures next.More? ==> page < maxPages
      ensures var all := before + exchanges[|old(exchanges)|..];
        && Asks(Paged(lookup), url, all)
        && (if next.More? || next.result.Ok? then StepAfter(Paged(lookup), url, all) == next && PagesRead(all) == page
            else true)
      ensures next == Done(Err(AdapterError)) ==>
        Refused(Paged(lookup), retryMax, url, before + exchanges[|old(exchanges)|..])
      ensures next == Done(Err(BudgetExhausted)) ==> HardlyAnyLeft()
      ensures client.server.Instant? ==>
        PageTurned(step, page, lookup, next, old(clock.now), old(EarliestStart()), clock.now, EarliestStart())
    {
      hide Heard, Paced, Tried, AllBefore, StepAfter, Asks, PagesRead, ReadPage, Refused, Persisted, NoRoom, HardlyAnyLeft;
      var response := Perform(PageRequest(paging, step.url, page));
      OnePageOn(Paged(lookup), url, before, exchanges[|old(exchanges)|..], response);
      if response.Err? {
        EitherFailure(response.error);
        if response.error.BudgetExhausted? {
          NoRoomLeft(exchanges[|old(exchanges)|..]);
        } else {
          PageRefused(url, lookup, before, exchanges[|old(exchanges)|..], step, page);
        }
      } else {
        PageIsAnError(url, lookup, before + exchanges[|old(exchanges)|..]);
      }
      next := if response.Err? then Done(Err(response.error)) else ReadPage(Paged(lookup), step, page, response.value);
    }

    /** A listing of so many pages, the first of which may go out at `slot`, is read to its end
        exactly when the last page's turn comes before the deadline; otherwise it is given up less
        than a gap before it. */
    ghost predicate Punctual(r: Result<FetchResult, Failure>, pages: nat, slot: real, now: real)
      reads `deadline
      requires Configured() && pages >= 1
    {
      var last := slot + Times(pages - 1, Gap());
      if deadline.None? || last < deadline.value then r.Ok? && now == last
      else r == Err(BudgetExhausted) && now >= deadline.value - Gap()
    }

    /** A lookup or a listing, page after page. */
    method Collect(url: Url, lookup: bool) returns (r: Result<FetchResult, Failure>)
      requires Valid()
      modifies clock, `nextSlot, `requestsMade, `retriesMade, `starts, `exchanges
      ensures Valid() && WithinBudget(Allowed(maxPages))
      // Whatever the server does, the answer is what its replies to these requests add up to.
      ensures Asks(Paged(lookup), url, exchanges[|old(exchanges)|..])
      ensures r.Ok? ==> StepAfter(Paged(lookup), url, exchanges[|old(exchanges)|..]) == Done(r)
      ensures r == Err(AdapterError) ==> Refused(Paged(lookup), retryMax, url, exchanges[|old(exchanges)|..])
      ensures r == Err(BudgetExhausted) ==> HardlyAnyLeft()
      // On a server that answers at once and by one rule, the answer and its time are known.
      ensures client.server.Instant? ==> r == Err(BudgetExhausted) || r == Fixed(url, lookup)
      ensures client.server.Instant? && Fixed(url, lookup).Ok? ==>
        && Punctual(r, Pages(url, lookup), old(EarliestStart()), clock.now)
        && (r.Ok? ==> EarliestStart() == clock.now + Gap())
    {
      hide Heard, Paced, AllBefore, StepAfter, Asks, PagesRead, OnSchedule, PageTurned, EarliestStart, Punctual, Fixed, Pages;
      hide Refused, HardlyAnyLeft;
      var page: nat := 0;
      var step := FirstPage(url);
      ghost var n := |exchanges|;
      ghost var slot := EarliestStart();
      AllowedGrows(0);
      NoneSent(starts, deadline);
      NothingRead(url, lookup, slot, clock.now);
      assert exchanges[n..] == [];
      while step.More?
        invariant Valid() && page <= maxPages && WithinBudget(Allowed(page))
        invariant step.More? ==> page < maxPages
        invariant Asks(Paged(lookup), url, exchanges[n..])
        invariant step.More? || step.result.Ok? ==>
          StepAfter(Paged(lookup), url, exchanges[n..]) == step && PagesRead(exchanges[n..]) == page
        invariant step == Done(Err(AdapterError)) ==> Refused(Paged(lookup), retryMax, url, exchanges[n..])
        invariant step == Done(Err(BudgetExhausted)) ==> HardlyAnyLeft()
        invariant client.server.Instant? ==> OnSchedule(url, lookup, step, page, slot, clock.now, EarliestStart())
        decreases step.More?, maxPages - page
      {
        ghost var was, m, before := exchanges[n..], |exchanges|, step;
        ghost var t0, due, earlier := clock.now, EarliestStart(), starts;
        SlotIsNear();
        page := page + 1;
        step := NextStep(url, step, page, lookup, was);
        assert exchanges[n..] == was + exchanges[m..];
        AllowedGrows(page);
        AllBeforeTwice(earlier, starts, |old(starts)|, deadline);
        if client.server.Instant? {
          StaysOnSchedule(url, lookup, before, page - 1, slot, t0, due, step, clock.now, EarliestStart());
        }
      }
      AllowedGrows(page);
      FinallyOnSchedule(url, lookup, step, page, slot, clock.now, EarliestStart());
      r := step.result;
    }

    lemma SlotIsNear()
      requires Valid()
      ensures clock.now <= EarliestStart() <= clock.now + Gap()
    {
    }

    /** How a listing stands on a server with one rule after `page` pages: it answers as planned, and
        its pages went out one gap after the other from `slot` on. */
    ghost predicate OnSchedule(url: Url, lookup: bool, step: PageStep, page: nat, slot: real, now: real, due: real)
      reads `deadline
      requires Configured() && client.server.Instant? && (step.More? ==> page < maxPages)
    {
      var whole := Fixed(url, lookup);
      match step
      case Done(result) =>
        && (result == Err(BudgetExhausted) || result == whole)
        && (whole.Ok? ==> Punctual(result, Pages(url, lookup), slot, now) && (result.Ok? ==> due == now + Gap()))
      case More(_, _, _, _) =>
        && Collected(Paged(lookup), client.server.answer, step, page + 1) == whole
        && (whole.Ok? ==>
             && page + PagesFrom(Paged(lookup), client.server.answer, step, page + 1) == Pages(url, lookup)
             && due == slot + Times(page, Gap())
             && (page > 0 ==> now == slot + Times(page - 1, Gap())))
    }

    lemma NothingRead(url: Url, lookup: bool, slot: real, now: real)
      requires Configured()
      ensures Asks(Paged(lookup), url, []) && StepAfter(Paged(lookup), url, []) == FirstPage(url) && PagesRead([]) == 0
      ensures client.server.Instant? ==> OnSchedule(url, lookup, FirstPage(url), 0, slot, now, slot)
    {
    }

    lemma StaysOnSchedule(url: Url, lookup: bool, step: PageStep, page: nat, slot: real, t0: real, due: real,
        next: PageStep, t1: real, later: real)
      requires Configured() && client.server.Instant? && step.More? && page < maxPages
      requires t0 <= due <= t0 + Gap()
      requires next.More? ==> page + 1 < maxPages
      requires OnSchedule(url, lookup, step, page, slot, t0, due)
      requires PageTurned(step, page + 1, lookup, next, t0, due, t1, later)
      ensures OnSchedule(url, lookup, next, page + 1, slot, t1, later)
    {
      var whole := Fixed(url, lookup);
      if whole.Ok? {
        var pages := Pages(url, lookup);
        if page < pages - 1 {
          TimesGrows(page, pages - 1, Gap());
        }
      }
    }

    lemma FinallyOnSchedule(url: Url, lookup: bool, step: PageStep, page: nat, slot: real, now: real, due: real)
      requires Configured() && step.Done?
      requires client.server.Instant? ==> OnSchedule(url, lookup, step, page, slot, now, due)
      ensures client.server.Instant? ==> step.result == Err(BudgetExhausted) || step.result == Fixed(url, lookup)
      ensures client.server.Instant? && Fixed(url, lookup).Ok? ==>
        && Punctual(step.result, Pages(url, lookup), slot, now)
        && (step.result.Ok? ==> due == now + Gap())
    {
    }

    /** Asks for one tag. */
    method Fetch(tag: Tag) returns (r: Result<FetchResult, Failure>)
      requires Valid() && Logged()
      modifies clock, `nextSlot, `requestsMade, `retriesMade, `starts, `exchanges, `log
      ensures Valid() && Logged() && WithinBudget(Allowed(maxPages))
      ensures log == old(log) + [Entry(tag, r, old(clock.now), clock.now, |old(exchanges)|, |exchanges|)]
      ensures r == Err(BudgetExhausted) ==> HardlyAnyLeft()
      ensures client.server.Instant? ==> r == Err(BudgetExhausted) || r == Fixed(LookupUrl(tag), true)
      ensures client.server.Instant? && Fixed(LookupUrl(tag), true).Ok? ==>
        && Punctual(r, Pages(LookupUrl(tag), true), old(EarliestStart()), clock.now)
        && (r.Ok? ==> EarliestStart() == clock.now + Gap())
    {
      var began := clock.now;
      ghost var first := |exchanges|;
      r := Collect(LookupUrl(tag), true);
      ghost var entry := Entry(tag, r, began, clock.now, first, |exchanges|);
      assert exchanges[entry.first..entry.past] == exchanges[first..];
      LogGrows(log, old(exchanges), exchanges);
      log := log + [entry];
    }

    /** Further exchanges do not touch the lookups already made. */
    lemma LogGrows(log: seq<Entry>, before: seq<Exchange>, after: seq<Exchange>)
      requires before <= after && forall k :: 0 <= k < |log| ==> Backed(log[k], before)
      ensures forall k :: 0 <= k < |log| ==> Backed(log[k], after) && log[k].past <= |before|
    {
      forall k | 0 <= k < |log|
        ensures Backed(log[k], after) && log[k].past <= |before|
      {
        assert Backed(log[k], before);
        assert before[log[k].first..log[k].past] == after[log[k].first..log[k].past];
      }
    }

    /** The most requests a lookup of so many pages can make. */
    ghost function Allowed(pages: nat): nat {
      if pages == 0 then 0 else Allowed(pages - 1) + retryMax + 1
    }

    lemma {:induction false} AllowedGrows(pages: nat)
      requires pages <= maxPages
      ensures Allowed(pages) <= Allowed(maxPages)
      decreases maxPages - pages
    {
      if pages < maxPages {
        AllowedGrows(pages + 1);
      }
    }

    lemma {:induction false} AllowedIsProduct(pages: nat)
      ensures Allowed(pages) == pages * (retryMax + 1)
    {
      if pages > 0 {
        AllowedIsProduct(pages - 1);
        assert pages * (retryMax + 1) == (pages - 1) * (retryMax + 1) + retryMax + 1;
      }
    }
  }
}
