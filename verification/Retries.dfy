/** Retries around one inference (providers.py, llm_retry.py, retry_policy.py): the provider adapter
    retries calls that fail before any output, and around it a second budget resumes streams that
    time out before their first chunk. A provider is any sequence of replies. */
module Retries {
  import opened Wrappers

  // ---- The backoff schedule --------------------------------------------------------------------

  /** A Retry-After header value as its parsers see it; a date gives the seconds from now. */
  datatype Value = Number(value: real) | NotFinite | Date(seconds: real) | Unreadable

  /** The two headers that are honoured. */
  datatype Headers = Headers(retryAfterMs: Option<Value>, retryAfter: Option<Value>)

  const NO_HEADERS := Headers(None, None)
  const MAX_DELAY := 300.0

  function Pow2(n: nat): (p: nat)
    ensures p >= 1
  {
    if n == 0 then 1 else 2 * Pow2(n - 1)
  }

  lemma {:induction false} Pow2Grows(m: nat, n: nat)
    requires m <= n
    ensures Pow2(m) <= Pow2(n)
  {
    if m < n {
      Pow2Grows(m, n - 1);
    }
  }

  function Least(a: real, b: real): real {
    if a <= b then a else b
  }

  function Greatest(a: real, b: real): real {
    if a >= b then a else b
  }

  /** The seconds that a header asks for, if it can be read; only retry-after may be a date. */
  function Requested(v: Option<Value>, scale: real, dates: bool): Option<real> {
    match v
    case Some(Number(x)) => Some(x * scale)
    case Some(Date(s)) => if dates then Some(s) else None
    case _ => None
  }

  predicate Usable(requested: Option<real>) {
    requested.Some? && requested.value >= 0.0
  }

  function RetryDelay(attempt: nat, headers: Headers): real {
    var delay := Least(MAX_DELAY, Pow2(if attempt < 9 then attempt else 9) as real);
    var ms := Requested(headers.retryAfterMs, 0.001, false);
    var after := Requested(headers.retryAfter, 1.0, true);
    if Usable(ms) then Least(MAX_DELAY, Greatest(delay, ms.value))
    else if Usable(after) then Least(MAX_DELAY, Greatest(delay, after.value))
    else delay
  }

  /** Whatever the headers say, attempt n waits between min(300, 2^n) and 300 seconds, and at least as
      long, up to 300, as the first usable header asks for; without one it waits no longer. */
  lemma DelayBounds(attempt: nat, headers: Headers)
    ensures Least(MAX_DELAY, Pow2(attempt) as real) <= RetryDelay(attempt, headers) <= MAX_DELAY
    ensures var ms := Requested(headers.retryAfterMs, 0.001, false);
            var after := Requested(headers.retryAfter, 1.0, true);
            && (Usable(ms) ==> RetryDelay(attempt, headers) >= Least(MAX_DELAY, ms.value))
            && (!Usable(ms) && Usable(after) ==> RetryDelay(attempt, headers) >= Least(MAX_DELAY, after.value))
            && (!Usable(ms) && !Usable(after) ==>
                   RetryDelay(attempt, headers) == Least(MAX_DELAY, Pow2(attempt) as real))
  {
    if attempt >= 9 {
      Pow2Grows(9, attempt);
      assert Pow2(9) == 512;
    }
  }

  lemma FirstPowers()
    ensures Pow2(0) == 1 && Pow2(1) == 2 && Pow2(2) == 4 && Pow2(3) == 8 && Pow2(4) == 16
    ensures Pow2(5) == 32 && Pow2(6) == 64 && Pow2(7) == 128 && Pow2(8) == 256 && Pow2(9) == 512
  {
  }

  /** Wait as long as asked, but not shorter than the schedule and not longer than five minutes. */
  ghost predicate WaitsFor(wait: real, attempt: nat, asked: real) {
    var base := if attempt <= 8 then Pow2(attempt) as real else 300.0;
    wait == if asked <= base then base else if asked <= 300.0 then asked else 300.0
  }

  /** The wait, header by header: milliseconds come first, then seconds or a date; a negative or
      unreadable value leaves it to the next header, and the last to the schedule 1, 2, 4, ... */
  lemma DelayExact(attempt: nat, headers: Headers)
    ensures var wait, ms, after := RetryDelay(attempt, headers), headers.retryAfterMs, headers.retryAfter;
            if ms.Some? && ms.value.Number? && ms.value.value >= 0.0
            then WaitsFor(wait, attempt, ms.value.value / 1000.0)
            else if after.Some? && after.value.Number? && after.value.value >= 0.0
            then WaitsFor(wait, attempt, after.value.value)
            else if after.Some? && after.value.Date? && after.value.seconds >= 0.0
            then WaitsFor(wait, attempt, after.value.seconds)
            else WaitsFor(wait, attempt, 0.0)
  {
    FirstPowers();
    if attempt <= 8 {
      Pow2Grows(attempt, 8);
    }
  }

  // ---- One inference -----------------------------------------------------------------------------

  datatype Fault =
    | Connection                             // transport and connection errors
    | TimedOut                               // any TimeoutError
    | Status(code: int, headers: Headers)    // an HTTP error response
    | ChunkTimeout(reported: nat)            // an SDK stream timeout with a count of its own, no TimeoutError
    | Other

  /** A provider call: the chunks it delivers and how it ends. */
  datatype End = Complete | Fails(fault: Fault) | Stalls
  datatype Reply<C> = Reply(chunks: seq<C>, end: End)

  /** How a stream ends for the caller. */
  datatype StreamEnd = Answered | StreamTimeout(chunksReceived: nat) | Raised(fault: Fault)

  predicate Transient(f: Fault) {
    match f
    case Connection => true
    case TimedOut => true
    case ChunkTimeout(_) => false
    case Status(code, _) => code in {408, 409, 429} || 500 <= code < 600
    case Other => false
  }

  function HeadersOf(end: End): Headers {
    if end.Fails? && end.fault.Status? then end.fault.headers else NO_HEADERS
  }

  /** What the caller sees of a reply that is not retried. */
  function Seen<C>(reply: Reply<C>): StreamEnd {
    match reply.end
    case Complete => Answered
    case Stalls => StreamTimeout(|reply.chunks|)
    case Fails(TimedOut) => StreamTimeout(|reply.chunks|)
    case Fails(ChunkTimeout(n)) => StreamTimeout(n)
    case Fails(f) => Raised(f)
  }

  /** A transient failure before any output that is not a stream timeout. */
  predicate Retryable<C>(reply: Reply<C>) {
    reply.chunks == [] && Seen(reply).Raised? && Transient(reply.end.fault)
  }

  /** Stream one inference, calling the provider again only before the first chunk. */
  method Stream<C>(provider: nat -> Reply<C>, first: nat, maxRetries: nat)
    returns (delivered: seq<C>, end: StreamEnd, calls: nat, waits: seq<real>)
    ensures 1 <= calls <= maxRetries + 1
    ensures delivered == provider(first + calls - 1).chunks && end == Seen(provider(first + calls - 1))
    ensures forall i :: first <= i < first + calls - 1 ==> Retryable(provider(i))
    ensures calls <= maxRetries ==> !Retryable(provider(first + calls - 1))
    ensures |waits| == calls - 1
    ensures forall i :: 0 <= i < |waits| ==> waits[i] == RetryDelay(i, HeadersOf(provider(first + i).end))
    ensures forall i :: 0 <= i < calls - 1 ==>
              && provider(first + i).chunks == [] && provider(first + i).end.Fails?
              && var fault := provider(first + i).end.fault;
                 (fault.Connection? && waits[i] == RetryDelay(i, NO_HEADERS))
                 || (fault.Status? && waits[i] == RetryDelay(i, fault.headers)
                     && (fault.code in {408, 409, 429} || 500 <= fault.code <= 599))
    ensures calls <= maxRetries && delivered == [] && provider(first + calls - 1).end.Fails? ==>
              var fault := provider(first + calls - 1).end.fault;
              !fault.Connection?
              && (fault.Status? ==> fault.code !in {408, 409, 429} && (fault.code < 500 || fault.code > 599))
  {
    hide RetryDelay;
    delivered, waits, calls := [], [], 0;
    var chunksReceived := 0;
    while true
      invariant calls <= maxRetries && delivered == [] && chunksReceived == 0 && |waits| == calls
      invariant forall i :: first <= i < first + calls ==> Retryable(provider(i))
      invariant forall i :: 0 <= i < |waits| ==> waits[i] == RetryDelay(i, HeadersOf(provider(first + i).end))
      decreases maxRetries - calls
    {
      var reply := provider(first + calls);
      var attempt := calls;
      calls := calls + 1;
      while chunksReceived < |reply.chunks|
        invariant 0 <= chunksReceived <= |reply.chunks| && delivered == reply.chunks[..chunksReceived]
      {
        delivered := delivered + [reply.chunks[chunksReceived]];
        chunksReceived := chunksReceived + 1;
      }
      match reply.end {
        case Complete => return delivered, Answered, calls, waits;
        case Stalls => return delivered, StreamTimeout(chunksReceived), calls, waits;
        case Fails(fault) =>
          if fault.TimedOut? {
            return delivered, StreamTimeout(chunksReceived), calls, waits;
          }
          if fault.ChunkTimeout? {
            return delivered, StreamTimeout(fault.reported), calls, waits;
          }
          if chunksReceived != 0 || !Transient(fault) || attempt >= maxRetries {
            return delivered, Raised(fault), calls, waits;
          }
          waits := waits + [RetryDelay(attempt, HeadersOf(reply.end))];
      }
    }
  }

  /** One inference without streaming: the same schedule, and nothing is delivered before the end. A
      call that exceeds its time limit fails with `TimedOut`. */
  method Generate(provider: nat -> End, first: nat, maxRetries: nat) returns (end: End, calls: nat, waits: seq<real>)
    requires forall n :: !provider(n).Stalls?
    ensures 1 <= calls <= maxRetries + 1 && end == provider(first + calls - 1)
    ensures forall i :: first <= i < first + calls - 1 ==> provider(i).Fails? && Transient(provider(i).fault)
    ensures calls <= maxRetries ==> end.Complete? || !Transient(end.fault)
    ensures |waits| == calls - 1
    ensures forall i :: 0 <= i < |waits| ==> waits[i] == RetryDelay(i, HeadersOf(provider(first + i)))
    ensures forall i :: 0 <= i < calls - 1 ==>
              && provider(first + i).Fails?
              && var fault := provider(first + i).fault;
                 ((fault.Connection? || fault.TimedOut?) && waits[i] == RetryDelay(i, NO_HEADERS))
                 || (fault.Status? && waits[i] == RetryDelay(i, fault.headers)
                     && (fault.code in {408, 409, 429} || 500 <= fault.code <= 599))
    ensures calls <= maxRetries && end.Fails? ==>
              !end.fault.Connection? && !end.fault.TimedOut?
              && (end.fault.Status? ==>
                    end.fault.code !in {408, 409, 429} && (end.fault.code < 500 || end.fault.code > 599))
  {
    hide RetryDelay;
    waits, calls := [], 0;
    while true
      invariant calls <= maxRetries && |waits| == calls
      invariant forall i :: first <= i < first + calls ==> provider(i).Fails? && Transient(provider(i).fault)
      invariant forall i :: 0 <= i < |waits| ==> waits[i] == RetryDelay(i, HeadersOf(provider(first + i)))
      decreases maxRetries - calls
    {
      end := provider(first + calls);
      var attempt := calls;
      calls := calls + 1;
      if end.Complete? || !Transient(end.fault) || attempt >= maxRetries {
        return;
      }
      waits := waits + [RetryDelay(attempt, HeadersOf(end))];
    }
  }

  // ---- The whole model call ------------------------------------------------------------------------

  /** A reply after which the provider may be called again. */
  predicate MayRepeat<C>(reply: Reply<C>) {
    Retryable(reply) || Seen(reply) == StreamTimeout(0)
  }

  /** The calls of one try that has this many retries left. */
  function TryCalls<C>(provider: nat -> Reply<C>, first: nat, retries: nat): (calls: nat)
    ensures 1 <= calls <= retries + 1
    ensures forall i :: first <= i < first + calls - 1 ==> Retryable(provider(i))
    ensures calls <= retries ==> !Retryable(provider(first + calls - 1))
    decreases retries
  {
    if retries > 0 && Retryable(provider(first)) then 1 + TryCalls(provider, first + 1, retries - 1) else 1
  }

  /** Those clauses determine it. */
  lemma {:induction false} TryCallsUnique<C>(provider: nat -> Reply<C>, first: nat, retries: nat, calls: nat)
    requires 1 <= calls <= retries + 1
    requires forall i :: first <= i < first + calls - 1 ==> Retryable(provider(i))
    requires calls <= retries ==> !Retryable(provider(first + calls - 1))
    ensures calls == TryCalls(provider, first, retries)
    decreases retries
  {
    if calls > 1 {
      TryCallsUnique(provider, first + 1, retries - 1, calls - 1);
    }
  }

  /** The calls of a whole model call from here on. */
  function Calls<C>(provider: nat -> Reply<C>, first: nat, maxRetries: nat, streamRetries: nat): (calls: nat)
    ensures calls >= 1
    decreases streamRetries
  {
    var used := TryCalls(provider, first, maxRetries);
    if streamRetries > 0 && Seen(provider(first + used - 1)) == StreamTimeout(0)
    then used + Calls(provider, first + used, maxRetries, streamRetries - 1)
    else used
  }

  /** What the first calls deliver, one after another. */
  function ChunksOf<C>(provider: nat -> Reply<C>, calls: nat): seq<C> {
    if calls == 0 then [] else ChunksOf(provider, calls - 1) + provider(calls - 1).chunks
  }

  lemma {:induction false} SilentCalls<C>(provider: nat -> Reply<C>, from: nat, calls: nat)
    requires from <= calls && forall i :: from <= i < calls ==> provider(i).chunks == []
    ensures ChunksOf(provider, calls) == ChunksOf(provider, from)
  {
    if from == calls {
    } else {
      SilentCalls(provider, from, calls - 1);
    }
  }

  lemma {:induction false} HeardCall<C>(provider: nat -> Reply<C>, i: nat, calls: nat)
    requires i < calls
    ensures |ChunksOf(provider, calls)| >= |provider(i).chunks|
  {
    if i == calls - 1 {
    } else {
      HeardCall(provider, i, calls - 1);
    }
  }

  lemma RetriedSilent<C>(provider: nat -> Reply<C>, from: nat, calls: nat)
    requires from <= calls && forall i :: from <= i < calls ==> Retryable(provider(i))
    ensures ChunksOf(provider, calls) == ChunksOf(provider, from)
  {
    SilentCalls(provider, from, calls);
  }

  /** One more try, and the call is over or goes on after it. */
  lemma NextTry<C>(provider: nat -> Reply<C>, first: nat, maxRetries: nat, streamRetries: nat, used: nat)
    requires used == TryCalls(provider, first, maxRetries)
    ensures Calls(provider, first, maxRetries, streamRetries)
            == if streamRetries > 0 && Seen(provider(first + used - 1)) == StreamTimeout(0)
               then used + Calls(provider, first + used, maxRetries, streamRetries - 1)
               else used
  {
  }

  /** Resume a stream that timed out before its first chunk, within a budget of its own. The last
      reply ends the call: it may not be repeated, or a budget is used up. */
  method RunStreamingModel<C(!new)>(provider: nat -> Reply<C>, maxRetries: nat, streamRetries: nat)
    returns (delivered: seq<C>, end: StreamEnd, calls: nat, tries: nat, pauses: seq<real>)
    ensures calls == Calls(provider, 0, maxRetries, streamRetries)
    ensures delivered == ChunksOf(provider, calls) && end == Seen(provider(calls - 1))
    ensures 1 <= tries <= streamRetries + 1 && tries <= calls <= (maxRetries + 1) * tries
    ensures forall i :: 0 <= i < calls - 1 ==> MayRepeat(provider(i))
    ensures end == StreamTimeout(0) ==> tries == streamRetries + 1
    ensures Retryable(provider(calls - 1)) ==> calls >= maxRetries + 1
    ensures |pauses| == tries - 1 && forall i :: 0 <= i < |pauses| ==> pauses[i] == RetryDelay(i, NO_HEADERS)
  {
    hide Calls, TryCalls, Seen, Retryable, RetryDelay;
    delivered, calls, tries, pauses := [], 0, 0, [];
    while true
      invariant |pauses| == tries && forall i :: 0 <= i < |pauses| ==> pauses[i] == RetryDelay(i, NO_HEADERS)
      invariant tries <= streamRetries && tries <= calls <= (maxRetries + 1) * tries
      invariant forall i :: 0 <= i < calls ==> MayRepeat(provider(i))
      invariant delivered == ChunksOf(provider, calls)
      invariant calls + Calls(provider, calls, maxRetries, streamRetries - tries)
        == Calls(provider, 0, maxRetries, streamRetries)
      decreases streamRetries - tries
    {
      var chunks, used, waits;
      chunks, end, used, waits := Stream(provider, calls, maxRetries);
      assert (maxRetries + 1) * (tries + 1) == (maxRetries + 1) * tries + (maxRetries + 1);
      TryCallsUnique(provider, calls, maxRetries, used);
      NextTry(provider, calls, maxRetries, streamRetries - tries, used);
      RetriedSilent(provider, calls, calls + used - 1);
      delivered, calls := delivered + chunks, calls + used;
      var retries := tries;
      tries := tries + 1;
      if !end.StreamTimeout? || end.chunksReceived != 0 || retries >= streamRetries {
        return;
      }
      pauses := pauses + [RetryDelay(retries, NO_HEADERS)];
    }
  }

  // ---- Replay ----------------------------------------------------------------------------------------

  /** The reply n is the first one that delivers anything or ends the call, and it delivers something
      but reports that it did not. */
  ghost predicate MisreportsAt<C>(provider: nat -> Reply<C>, n: nat) {
    && (forall i :: 0 <= i < n ==> provider(i).chunks == [] && MayRepeat(provider(i)))
    && provider(n).chunks != [] && provider(n).end == Fails(ChunkTimeout(0))
  }

  ghost predicate Misreports<C(!new)>(provider: nat -> Reply<C>) {
    exists n: nat :: MisreportsAt(provider, n)
  }

  /** The consumer of these calls sees the output of the last one and nothing else. */
  ghost predicate OneCallsOutput<C>(provider: nat -> Reply<C>, maxRetries: nat, streamRetries: nat) {
    var calls := Calls(provider, 0, maxRetries, streamRetries);
    ChunksOf(provider, calls) == provider(calls - 1).chunks
  }

  /** No reply but the last one ended the call. */
  lemma {:induction false} EarlierMayRepeat<C>(provider: nat -> Reply<C>, first: nat, maxRetries: nat,
                                               streamRetries: nat, i: nat)
    requires first <= i < first + Calls(provider, first, maxRetries, streamRetries) - 1
    ensures MayRepeat(provider(i))
    decreases streamRetries
  {
    var used := TryCalls(provider, first, maxRetries);
    if i >= first + used {
      EarlierMayRepeat(provider, first + used, maxRetries, streamRetries - 1, i);
    }
  }

  /** Without a misreport no earlier call has delivered anything, whatever the budgets. */
  lemma {:induction false} EarlierSilent<C(!new)>(provider: nat -> Reply<C>, maxRetries: nat, streamRetries: nat,
                                           i: nat)
    requires !Misreports(provider) && i < Calls(provider, 0, maxRetries, streamRetries) - 1
    ensures provider(i).chunks == []
    decreases i
  {
    forall j | 0 <= j < i ensures provider(j).chunks == [] && MayRepeat(provider(j)) {
      EarlierSilent(provider, maxRetries, streamRetries, j);
      EarlierMayRepeat(provider, 0, maxRetries, streamRetries, j);
    }
    EarlierMayRepeat(provider, 0, maxRetries, streamRetries, i);
    assert !MisreportsAt(provider, i);
  }

  /** Large enough budgets go past any reply that may be repeated. */
  lemma {:induction false} GoesOn<C>(provider: nat -> Reply<C>, first: nat, maxRetries: nat, streamRetries: nat, n: nat)
    requires first <= n <= maxRetries && n - first < streamRetries
    requires forall i :: first <= i <= n ==> MayRepeat(provider(i))
    requires !Retryable(provider(n))
    ensures first + Calls(provider, first, maxRetries, streamRetries) > n + 1
    decreases streamRetries
  {
    var used := TryCalls(provider, first, maxRetries);
    var last := first + used - 1;
    assert last <= n;
    if last < n {
      GoesOn(provider, first + used, maxRetries, streamRetries - 1, n);
    }
  }

  lemma MisreportIsRepeated<C>(provider: nat -> Reply<C>, n: nat)
    requires MisreportsAt(provider, n)
    ensures Calls(provider, 0, n, n + 1) > n + 1
  {
    GoesOn(provider, 0, n, n + 1, n);
  }

  /** No replay, exactly: every budget shows the consumer one call's output if and only if the first
      reply that delivers anything or ends the call is not a stream timeout that reports no chunk. */
  lemma NoReplayIff<C(!new)>(provider: nat -> Reply<C>)
    ensures (forall r, s :: OneCallsOutput(provider, r, s)) <==> !Misreports(provider)
  {
    hide Calls;
    if !Misreports(provider) {
      forall r, s ensures OneCallsOutput(provider, r, s) {
        var calls := Calls(provider, 0, r, s);
        forall i | 0 <= i < calls - 1 ensures provider(i).chunks == [] {
          EarlierSilent(provider, r, s, i);
        }
        SilentCalls(provider, 0, calls - 1);
      }
    } else {
      var n: nat :| MisreportsAt(provider, n);
      MisreportIsRepeated(provider, n);
      var calls := Calls(provider, 0, n, n + 1);
      HeardCall(provider, n, calls - 1);
      assert |ChunksOf(provider, calls)| > |provider(calls - 1).chunks|;
      assert !OneCallsOutput(provider, n, n + 1);
    }
  }

  /** A whole model call: at most (r + 1)(s + 1) provider calls, none after a permanent error, an answer
      or a last reply within the budgets; and unless the provider misreports, what is delivered comes
      from the last call alone. */
  method CallModel<C(!new)>(provider: nat -> Reply<C>, maxRetries: nat, streamRetries: nat)
    returns (delivered: seq<C>, end: StreamEnd, calls: nat)
    ensures 1 <= calls <= (maxRetries + 1) * (streamRetries + 1)
    ensures calls == Calls(provider, 0, maxRetries, streamRetries)
    ensures delivered == ChunksOf(provider, calls) && end == Seen(provider(calls - 1))
    ensures forall i :: 0 <= i < calls - 1 ==> MayRepeat(provider(i))
    ensures end == StreamTimeout(0) ==> calls >= streamRetries + 1
    ensures Retryable(provider(calls - 1)) ==> calls >= maxRetries + 1
    ensures !Misreports(provider) ==>
              delivered == provider(calls - 1).chunks && forall i :: 0 <= i < calls - 1 ==> provider(i).chunks == []
    ensures forall i :: 0 <= i < calls - 1 && provider(i).end.Fails? && provider(i).end.fault.Status? ==>
              var code := provider(i).end.fault.code;
              provider(i).chunks == [] && (code in {408, 409, 429} || 500 <= code <= 599)
    ensures forall i :: 0 <= i < calls - 1 ==>
              || (provider(i).chunks == [] && provider(i).end.Stalls?)
              || (provider(i).end.Fails? && provider(i).end.fault == ChunkTimeout(0))
              || (provider(i).chunks == [] && provider(i).end.Fails?
                  && !provider(i).end.fault.ChunkTimeout? && !provider(i).end.fault.Other?)
    ensures var last := provider(calls - 1);
            last.chunks == [] && last.end.Fails? ==>
              && (last.end.fault.Connection? ==> calls >= maxRetries + 1)
              && (last.end.fault.Status? && last.end.fault.code in {408, 409, 429} ==> calls >= maxRetries + 1)
              && (last.end.fault.Status? && 500 <= last.end.fault.code <= 599 ==> calls >= maxRetries + 1)
              && (last.end.fault.TimedOut? ==> calls >= streamRetries + 1)
    ensures provider(calls - 1) == Reply([], Stalls) ==> calls >= streamRetries + 1
  {
    hide Calls;
    var tries, pauses;
    delivered, end, calls, tries, pauses := RunStreamingModel(provider, maxRetries, streamRetries);
    Product(maxRetries + 1, tries, streamRetries + 1);
    if !Misreports(provider) {
      NoReplayIff(provider);
      assert OneCallsOutput(provider, maxRetries, streamRetries);
      forall i | 0 <= i < calls - 1 ensures provider(i).chunks == [] {
        EarlierSilent(provider, maxRetries, streamRetries, i);
      }
    }
  }

  lemma Product(a: nat, b: nat, c: nat)
    requires b <= c
    ensures a * b <= a * c
  {
  }

  function Dishonest(n: nat): Reply<int> {
    if n == 0 then Reply([7], Fails(ChunkTimeout(0))) else Reply([7, 8], Complete)
  }

  /** For example: a stream that fails after one chunk but reports none is run again, and the consumer
      sees the first call's chunk before the second call's. The adapter raises every `TimeoutError` anew
      with its own count (providers.py:93), so this takes an SDK stream timeout that is not one; the SDK,
      which decides that, is not part of this model. */
  lemma DishonestReplay(maxRetries: nat, streamRetries: nat)
    requires streamRetries > 0
    ensures Calls(Dishonest, 0, maxRetries, streamRetries) == 2
    ensures ChunksOf(Dishonest, Calls(Dishonest, 0, maxRetries, streamRetries)) == [7, 7, 8]
  {
    assert TryCalls(Dishonest, 0, maxRetries) == 1 && TryCalls(Dishonest, 1, maxRetries) == 1;
    assert ChunksOf(Dishonest, 1) == [7];
  }

  /** And a transient fault is retried: a provider that stalls once and then answers is heard. */
  lemma StallThenAnswer<C>(provider: nat -> Reply<C>, maxRetries: nat, streamRetries: nat)
    requires streamRetries > 0 && provider(0) == Reply([], Stalls) && provider(1).end == Complete
    ensures Calls(provider, 0, maxRetries, streamRetries) == 2
    ensures ChunksOf(provider, Calls(provider, 0, maxRetries, streamRetries)) == provider(1).chunks
  {
    assert TryCalls(provider, 0, maxRetries) == 1 && TryCalls(provider, 1, maxRetries) == 1;
    SilentCalls(provider, 0, 1);
  }
}
