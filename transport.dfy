/** The rate-gated request executor `Client::get` (src/async_client.rs:145-179).

    Every request of a client and of all its clones goes through one shared
    slot holding the instant of the last request, guarded by a mutex that is
    held for the whole request. Time is an integer clock; the network call is
    an input saying whether a response arrived and what it was. */
module Transport {
  import opened Types

  /** The JSON envelope every API body is wrapped in. */
  datatype ApiResponse<T> = ApiOk(value: T) | ApiErr(errors: seq<string>)

  /** What decoding a body as an envelope gives (`res.json()`). */
  datatype Decoded<T> = Decoded(envelope: ApiResponse<T>) | Undecodable(message: string)

  /** A received response: its status, what reading it as text gives
      (`None` when reading fails), and what decoding it as JSON gives. */
  datatype Response<T> = Response(status: nat, text: Option<string>, body: Decoded<T>)

  /** The outcome of `send()`: no response at all, or a response. */
  datatype SendOutcome<T> = SendFailed(message: string) | Received(response: Response<T>)

  /** `StatusCode::is_success`. */
  predicate IsSuccess(status: nat) {
    200 <= status < 300
  }

  /** The 403 reason: the body text, or the empty string when it cannot be read. */
  function ReasonText(text: Option<string>): string {
    match text
    case Some(t) => t
    case None => ""
  }

  /** `StatusCode::is_client_error() || is_server_error()`: the statuses for
      which `error_for_status` gives an error. */
  predicate IsErrorStatus(status: nat) {
    400 <= status < 600
  }

  /** How a call ends: it returns a value or an error, or it panics. */
  datatype Outcome<T> = Returned(result: Result<T>) | Panicked

  /** The classification the generic branch evidently intends: every
      unsuccessful status other than 404 and 403 is a status error. */
  function ClassifyStatus<T>(url: string, resp: Response<T>): (r: Result<T>)
    // each error kind belongs to exactly one class of response
    ensures (r.Err? && r.error.NotFound?) <==> resp.status == 404
    ensures (r.Err? && r.error.PermissionDenied?) <==> resp.status == 403
    ensures r == Err(Http(Status(resp.status))) <==>
              resp.status != 404 && resp.status != 403 && !IsSuccess(resp.status)
    ensures (r.Err? && r.error.Api?) <==>
              IsSuccess(resp.status) && resp.body.Decoded? && resp.body.envelope.ApiErr?
    ensures r.Ok? <==> IsSuccess(resp.status) && resp.body.Decoded? && resp.body.envelope.ApiOk?
    // and carries what the response said
    ensures r.Err? && r.error.NotFound? ==> r.error.url == url
    ensures r.Err? && r.error.PermissionDenied? ==> r.error.reason == ReasonText(resp.text)
    ensures r.Err? && r.error.Api? ==> r.error.errors == resp.body.envelope.errors
    ensures r.Ok? ==> r.value == resp.body.envelope.value
    ensures IsSuccess(resp.status) && resp.body.Undecodable? ==> r == Err(Http(Decode(resp.body.message)))
  {
    if resp.status == 404 then Err(NotFound(url))
    else if resp.status == 403 then Err(PermissionDenied(ReasonText(resp.text)))
    else if !IsSuccess(resp.status) then Err(Http(Status(resp.status)))
    else
      match resp.body
      case Undecodable(msg) => Err(Http(Decode(msg)))
      case Decoded(ApiErr(errors)) => Err(Api(errors))
      case Decoded(ApiOk(value)) => Ok(value)
  }

  /** The status classification and envelope unwrapping of a received
      response, as written: the generic branch unwraps the error of
      `error_for_status`, which has none for an unsuccessful status outside
      4xx and 5xx, so that status panics. */
  function Classify<T>(url: string, resp: Response<T>): (r: Outcome<T>)
    ensures r.Panicked? <==> !IsSuccess(resp.status) && !IsErrorStatus(resp.status)
    // each error kind belongs to exactly one class of response
    ensures (r.Returned? && r.result.Err? && r.result.error.NotFound?) <==> resp.status == 404
    ensures (r.Returned? && r.result.Err? && r.result.error.PermissionDenied?) <==> resp.status == 403
    ensures r == Returned(Err(Http(Status(resp.status)))) <==>
              resp.status != 404 && resp.status != 403 && IsErrorStatus(resp.status)
    ensures (r.Returned? && r.result.Err? && r.result.error.Api?) <==>
              IsSuccess(resp.status) && resp.body.Decoded? && resp.body.envelope.ApiErr?
    ensures (r.Returned? && r.result.Ok?) <==>
              IsSuccess(resp.status) && resp.body.Decoded? && resp.body.envelope.ApiOk?
    // and carries what the response said
    ensures r.Returned? && r.result.Err? && r.result.error.NotFound? ==> r.result.error.url == url
    ensures r.Returned? && r.result.Err? && r.result.error.PermissionDenied? ==>
              r.result.error.reason == ReasonText(resp.text)
    ensures r.Returned? && r.result.Err? && r.result.error.Api? ==>
              r.result.error.errors == resp.body.envelope.errors
    ensures r.Returned? && r.result.Ok? ==> r.result.value == resp.body.envelope.value
    ensures IsSuccess(resp.status) && resp.body.Undecodable? ==>
              r == Returned(Err(Http(Decode(resp.body.message))))
  {
    if !IsSuccess(resp.status) && !IsErrorStatus(resp.status) then Panicked
    else Returned(ClassifyStatus(url, resp))
  }

  /** A 304 Not Modified, which the HTTP library does not follow, reaches the
      generic branch and panics, where an error was evidently meant. */
  lemma UnexpectedStatusPanics<T>(url: string, resp: Response<T>)
    requires resp.status == 304
    ensures Classify(url, resp) == Panicked
    ensures ClassifyStatus(url, resp) == Err(Http(Status(304)))
  {
  }

  /** Whenever the code as written returns, it returns what the intended
      classification gives. */
  lemma ClassifyAgreesWhenItReturns<T>(url: string, resp: Response<T>)
    ensures Classify(url, resp).Returned? ==> Classify(url, resp).result == ClassifyStatus(url, resp)
  {
  }

  /** `Instant::elapsed`, which saturates at zero. */
  function Elapsed(since: nat, now: nat): nat {
    if since <= now then now - since else 0
  }

  /** How long the gate waits, once it holds the slot at instant `now`. */
  function RateGateDelay(rateLimit: nat, last: Option<nat>, now: nat): (wait: nat)
    // it waits only when the last request is younger than the limit
    ensures wait > 0 <==> last.Some? && Elapsed(last.value, now) < rateLimit
    // and then only up to the instant the limit has passed
    ensures wait > 0 && last.value <= now ==> now + wait == last.value + rateLimit
    ensures last.Some? && last.value <= now ==> now + wait >= last.value + rateLimit
    ensures wait <= rateLimit
  {
    match last
    case None => 0
    case Some(t) => if Elapsed(t, now) < rateLimit then rateLimit - Elapsed(t, now) else 0
  }

  /** One request through the gate: it holds the slot from `acquiredAt`, the
      clock reads `lateness` after the wait ends when the request is sent, and
      `responded` says whether the request got to store its instant: a
      response came back with a status that does not panic. */
  datatype Attempt = Attempt(acquiredAt: nat, lateness: nat, responded: bool)

  function SendInstant(rateLimit: nat, last: Option<nat>, a: Attempt): nat {
    a.acquiredAt + RateGateDelay(rateLimit, last, a.acquiredAt) + a.lateness
  }

  /** What the slot holds after a request: the send instant when it got that
      far, nothing when the send failed or the classification panicked (the
      slot was emptied by `take`). */
  function SlotAfter(sentAt: nat, responded: bool): Option<nat> {
    if responded then Some(sentAt) else None
  }

  /** The send instants of consecutive requests through one slot. */
  function Schedule(rateLimit: nat, last: Option<nat>, attempts: seq<Attempt>): (sends: seq<nat>)
    ensures |sends| == |attempts|
    decreases |attempts|
  {
    if attempts == [] then []
    else
      var sent := SendInstant(rateLimit, last, attempts[0]);
      [sent] + Schedule(rateLimit, SlotAfter(sent, attempts[0].responded), attempts[1..])
  }

  /** The mutex is held for a whole request, so each request takes the slot
      no earlier than the previous one was sent. */
  ghost predicate Serialized(last: Option<nat>, attempts: seq<Attempt>, sends: seq<nat>)
    requires |sends| == |attempts|
  {
    && (last.Some? && |attempts| > 0 ==> last.value <= attempts[0].acquiredAt)
    && (forall i :: 0 <= i < |attempts| - 1 ==> sends[i] <= attempts[i + 1].acquiredAt)
  }

  /** Taking the slot no earlier than the instant it holds, a request is
      sent at least `rateLimit` after that instant. */
  lemma FirstSendSpaced(rateLimit: nat, last: nat, attempts: seq<Attempt>)
    requires |attempts| > 0 && last <= attempts[0].acquiredAt
    ensures Schedule(rateLimit, Some(last), attempts)[0] >= last + rateLimit
  {
  }

  /** The tail of a serialized schedule is serialized from the slot value the
      first request leaves behind. */
  lemma SerializedTail(rateLimit: nat, last: Option<nat>, attempts: seq<Attempt>)
    requires |attempts| > 0
    requires Serialized(last, attempts, Schedule(rateLimit, last, attempts))
    ensures var sends := Schedule(rateLimit, last, attempts);
            var next := SlotAfter(sends[0], attempts[0].responded);
            && Schedule(rateLimit, next, attempts[1..]) == sends[1..]
            && Serialized(next, attempts[1..], sends[1..])
  {
  }

  /** A request that got a response is followed by the next send at least
      `rateLimit` later. */
  lemma {:induction false} ScheduleSpacingAt(rateLimit: nat, last: Option<nat>, attempts: seq<Attempt>, i: nat)
    requires Serialized(last, attempts, Schedule(rateLimit, last, attempts))
    requires i < |attempts| - 1 && attempts[i].responded
    ensures Schedule(rateLimit, last, attempts)[i + 1] >= Schedule(rateLimit, last, attempts)[i] + rateLimit
    decreases i
  {
    var sends := Schedule(rateLimit, last, attempts);
    var next := SlotAfter(sends[0], attempts[0].responded);
    SerializedTail(rateLimit, last, attempts);
    if i == 0 {
      FirstSendSpaced(rateLimit, sends[0], attempts[1..]);
    } else {
      ScheduleSpacingAt(rateLimit, next, attempts[1..], i - 1);
    }
  }

  /** Over a whole run: the first send is at least `rateLimit` after the
      instant the slot held, and every request that got a response is
      followed by the next send at least `rateLimit` later. */
  lemma ScheduleSpacing(rateLimit: nat, last: Option<nat>, attempts: seq<Attempt>)
    requires Serialized(last, attempts, Schedule(rateLimit, last, attempts))
    ensures var sends := Schedule(rateLimit, last, attempts);
            && (last.Some? && |attempts| > 0 ==> sends[0] >= last.value + rateLimit)
            && forall i :: 0 <= i < |attempts| - 1 && attempts[i].responded ==>
                 sends[i + 1] >= sends[i] + rateLimit
  {
    if last.Some? && |attempts| > 0 {
      FirstSendSpaced(rateLimit, last.value, attempts);
    }
    forall i | 0 <= i < |attempts| - 1 && attempts[i].responded
      ensures Schedule(rateLimit, last, attempts)[i + 1] >= Schedule(rateLimit, last, attempts)[i] + rateLimit
    {
      ScheduleSpacingAt(rateLimit, last, attempts, i);
    }
  }

  /** A send that fails empties the slot, so the next request is not held
      back at all: it can go out at the very instant the failed one did. */
  lemma NoSpacingAfterSendFailure(rateLimit: nat, last: nat, failedAt: nat)
    requires rateLimit > 0 && last + rateLimit <= failedAt
    ensures var sends := Schedule(rateLimit, Some(last),
                                  [Attempt(failedAt, 0, false), Attempt(failedAt, 0, true)]);
            sends == [failedAt, failedAt] && sends[1] < sends[0] + rateLimit
  {
  }

  /** The wait as written at src/async_client.rs:149-150: `elapsed()` is read
      twice, and the second reading is subtracted from the limit as a
      `Duration`, which panics when it would be negative. `None` stands for
      that panic. */
  function SleepAsWritten(rateLimit: nat, last: nat, firstRead: nat, secondRead: nat): (r: Option<nat>)
    // it panics exactly when the two readings straddle the limit
    ensures r.None? <==> Elapsed(last, firstRead) < rateLimit < Elapsed(last, secondRead)
    ensures r.Some? ==> r.value <= rateLimit
    // with a single reading it is the gate's wait
    ensures firstRead == secondRead ==> r == Some(RateGateDelay(rateLimit, Some(last), firstRead))
  {
    if Elapsed(last, firstRead) < rateLimit then
      if Elapsed(last, secondRead) <= rateLimit then Some(rateLimit - Elapsed(last, secondRead))
      else None
    else Some(0)
  }

  /** A clock that moves past the limit between the two readings makes the
      subtraction panic. */
  lemma SleepAsWrittenCanPanic()
    ensures SleepAsWritten(1000, 0, 999, 1001) == None
  {
  }

  /** The mutex-guarded `Option<Instant>` shared by a client and its clones. */
  class RateSlot {
    var lastRequestTime: Option<nat>

    constructor ()
      ensures lastRequestTime == None
    {
      lastRequestTime := None;
    }
  }

  class Client {
    const rateLimit: nat
    const slot: RateSlot

    /** `Client::new`: the slot starts empty. */
    constructor (rateLimit: nat)
      ensures this.rateLimit == rateLimit && fresh(slot) && slot.lastRequestTime == None
    {
      this.rateLimit := rateLimit;
      slot := new RateSlot();
    }

    /** `#[derive(Clone)]`: a clone shares the slot. */
    method Clone() returns (c: Client)
      ensures fresh(c) && c.rateLimit == rateLimit && c.slot == slot
    {
      c := new Client.Share(this);
    }

    constructor Share(other: Client)
      ensures rateLimit == other.rateLimit && slot == other.slot
    {
      rateLimit := other.rateLimit;
      slot := other.slot;
    }

    /** `get`, as one critical section on the slot. The clock reads
        `acquiredAt` once the slot is held and `lateness` more after the wait
        when the request is sent; `send` is what the network call gave. */
    method Get<T>(url: string, acquiredAt: nat, lateness: nat, send: SendOutcome<T>)
      returns (r: Outcome<T>, ghost sentAt: nat)
      modifies slot
      ensures sentAt == SendInstant(rateLimit, old(slot.lastRequestTime),
                                    Attempt(acquiredAt, lateness, Completes(send)))
      ensures old(slot.lastRequestTime).Some? && old(slot.lastRequestTime).value <= acquiredAt ==>
                sentAt >= old(slot.lastRequestTime).value + rateLimit
      ensures slot.lastRequestTime == SlotAfter(sentAt, Completes(send))
      ensures send.SendFailed? ==> r == Returned(Err(Http(SendFailure(send.message))))
      ensures send.Received? ==> r == Classify(url, send.response)
    {
      var last := slot.lastRequestTime;
      slot.lastRequestTime := None;
      var now := acquiredAt;
      if last.Some? {
        if Elapsed(last.value, now) < rateLimit {
          now := now + (rateLimit - Elapsed(last.value, now));
        }
      }
      var time := now + lateness;
      sentAt := time;
      match send {
        case SendFailed(message) =>
          r := Returned(Err(Http(SendFailure(message))));
        case Received(response) =>
          var result := Classify(url, response);
          if result.Panicked? {
            r := Panicked;
            return;
          }
          slot.lastRequestTime := Some(time);
          r := result;
      }
    }
  }

  /** A request gets as far as storing its instant: a response came back and
      its status did not panic. */
  predicate Completes<T>(send: SendOutcome<T>) {
    send.Received? && (IsSuccess(send.response.status) || IsErrorStatus(send.response.status))
  }
}
