/**
 * The cached, rate-limited, retrying client of the providers (providers/http.py). Its lock makes every
 * operation atomic. The clock never goes back, a sleep lasts at least as long as asked, and the
 * upstream server answers anything at all.
 */
module HttpClient {
  import opened Wrappers

  /** What a request is cached under: method, address, parameters and body in canonical spelling. */
  type Key = (string, string, string, string)

  datatype Response = Response(status: int, content: string, contentType: string)

  datatype Upstream = Answer(response: Response) | TimedOut | Unreachable

  datatype HttpError =
    | NetworkTimeout
    | NetworkError
    | ResponseTooLarge
    | RateLimited
    | UpstreamUnavailable
    | HttpStatus(status: int)

  predicate Transient(status: int) {
    status == 408 || status == 429 || status == 500 || status == 502 || status == 503 || status == 504
  }

  function StatusError(status: int): HttpError {
    if status == 429 then RateLimited else if status >= 500 then UpstreamUnavailable else HttpStatus(status)
  }

  /** Whether an attempt that got this reply is tried again while attempts are left. */
  predicate Retryable(reply: Upstream, maxBytes: nat) {
    !reply.Answer? || (|reply.response.content| <= maxBytes && Transient(reply.response.status))
  }

  /** What the caller is told about a reply that is not tried again. */
  function Judged(reply: Upstream, maxBytes: nat): Result<Response, HttpError> {
    match reply
    case TimedOut => Err(NetworkTimeout)
    case Unreachable => Err(NetworkError)
    case Answer(response) =>
      if |response.content| > maxBytes then Err(ResponseTooLarge)
      else if response.status >= 400 then Err(StatusError(response.status))
      else Ok(response)
  }

  /** What is worth another attempt: a broken connection, or one of six statuses with a body within bounds. */
  lemma RetryableMeans(reply: Upstream, maxBytes: nat)
    ensures Retryable(reply, maxBytes) <==>
              || reply == TimedOut || reply == Unreachable
              || (|reply.response.content| <= maxBytes && reply.response.status in {408, 429, 500, 502, 503, 504})
  {
  }

  /** An answer is handed on exactly if it is within bounds and below 400; otherwise the error says why. */
  lemma JudgedMeans(reply: Upstream, maxBytes: nat)
    ensures var r := Judged(reply, maxBytes);
            && (r.Ok? <==> reply.Answer? && |reply.response.content| <= maxBytes && reply.response.status < 400)
            && (r.Ok? ==> r.value == reply.response)
            && (r == Err(NetworkTimeout) <==> reply.TimedOut?) && (r == Err(NetworkError) <==> reply.Unreachable?)
            && (r == Err(ResponseTooLarge) <==> reply.Answer? && |reply.response.content| > maxBytes)
            && (reply.Answer? && |reply.response.content| <= maxBytes ==>
                  && (r == Err(RateLimited) <==> reply.response.status == 429)
                  && (r == Err(UpstreamUnavailable) <==> reply.response.status >= 500)
                  && (forall status :: r == Err(HttpStatus(status)) <==>
                        reply.response.status == status && 400 <= status < 500 && status != 429))
  {
  }

  /**
   * The replies of one request: all but the last were worth a retry, and the last was not, or was the last
   * allowed.
   */
  ghost predicate Attempts(replies: seq<Upstream>, retries: nat, maxBytes: nat) {
    && 1 <= |replies| <= retries + 1
    && (forall k :: 0 <= k < |replies| - 1 ==> Retryable(replies[k], maxBytes))
    && (|replies| <= retries ==> !Retryable(replies[|replies| - 1], maxBytes))
  }

  function Power2(n: nat): (r: real)
    ensures r >= 1.0
  {
    if n == 0 then 1.0 else 2.0 * Power2(n - 1)
  }

  lemma {:induction false} Power2Sum(m: nat, n: nat)
    ensures Power2(1) == 2.0 && Power2(m + n) == Power2(m) * Power2(n)
  {
    if n > 0 {
      Power2Sum(m, n - 1);
    }
  }

  /** The sleep after the failed attempt `n`. */
  function Delay(base: real, n: nat): (r: real)
    ensures base >= 0.0 ==> r >= 0.0
  {
    base * Power2(n)
  }

  /** The sleeps after the first `n` failed attempts, together. */
  function Backoff(base: real, n: nat): real {
    if n == 0 then 0.0 else Backoff(base, n - 1) + Delay(base, n - 1)
  }

  lemma {:induction false} BackoffTotal(base: real, n: nat)
    ensures Backoff(base, n) == base * (Power2(n) - 1.0)
  {
    if n > 0 {
      BackoffTotal(base, n - 1);
      var p := Power2(n - 1);
      assert base * (p - 1.0) + base * p == base * (2.0 * p - 1.0);
    }
  }

  lemma {:induction false} BackoffGrows(base: real, m: nat, n: nat)
    requires base >= 0.0 && m <= n
    ensures Backoff(base, m) <= Backoff(base, n)
  {
    if m < n {
      BackoffGrows(base, m, n - 1);
    }
  }

  // ---- What callers saw ----

  /** What happened: an answer arrived from upstream, a caller was given one, or a run ended. */
  datatype Event =
    | Fetched(key: Key, response: Response, at: real)
    | Answered(run: string, key: Key, response: Response, readAt: real)
    | Finished(run: string)

  /** The run cache after a history. */
  function CacheOf(history: seq<Event>): map<(string, Key), Response> {
    if |history| == 0 then map[]
    else
      var before := CacheOf(history[..|history| - 1]);
      match history[|history| - 1]
      case Fetched(_, _, _) => before
      case Answered(run, key, response, _) => before[(run, key) := response]
      case Finished(run) => Without(before, run)
  }

  function Without(cache: map<(string, Key), Response>, run: string): map<(string, Key), Response> {
    map k | k in cache && k.0 != run :: cache[k]
  }

  /** The fetch of what an answer says. */
  ghost predicate AnswersLike(f: Event, e: Event)
    requires e.Answered?
  {
    f.Fetched? && f.key == e.key && f.response == e.response
  }

  /** A fetch of this answer for this key, less than the TTL before it is given. */
  ghost predicate Recent(ttl: real, f: Event, e: Event) {
    e.Answered? && AnswersLike(f, e) && f.at <= e.readAt && e.readAt - f.at < ttl
  }

  /**
   * An answer repeats what its run was told before; a run's first answer was fetched just now, or recently
   * enough.
   */
  ghost predicate EventOk(ttl: real, before: seq<Event>, e: Event) {
    e.Answered? ==>
      if (e.run, e.key) in CacheOf(before) then e.response == CacheOf(before)[(e.run, e.key)]
      else
        || (|before| > 0 && AnswersLike(before[|before| - 1], e))
        || exists i :: 0 <= i < |before| && Recent(ttl, before[i], e)
  }

  ghost predicate HistoryOk(ttl: real, history: seq<Event>) {
    forall i :: 0 <= i < |history| ==> EventOk(ttl, history[..i], history[i])
  }

  lemma HistoryExtends(ttl: real, history: seq<Event>, e: Event)
    requires HistoryOk(ttl, history) && EventOk(ttl, history, e)
    ensures HistoryOk(ttl, history + [e])
  {
    hide EventOk;
    var after := history + [e];
    forall i | 0 <= i < |after| ensures EventOk(ttl, after[..i], after[i]) {
      if i < |history| {
        assert after[..i] == history[..i];
      } else {
        assert after[..i] == history;
      }
    }
  }

  ghost predicate NotFinished(history: seq<Event>, run: string, from: nat, to: nat)
    requires to <= |history|
  {
    forall k :: from <= k < to ==> history[k] != Finished(run)
  }

  lemma RepeatedAnswer(ttl: real, history: seq<Event>, j: nat)
    requires HistoryOk(ttl, history) && j < |history| && history[j].Answered?
    requires (history[j].run, history[j].key) in CacheOf(history[..j])
    ensures history[j].response == CacheOf(history[..j])[(history[j].run, history[j].key)]
  {
    hide CacheOf;
    assert EventOk(ttl, history[..j], history[j]);
  }

  lemma {:induction false} CacheKeeps(ttl: real, history: seq<Event>, i: nat, n: nat)
    requires HistoryOk(ttl, history) && i < n <= |history| && history[i].Answered?
    requires NotFinished(history, history[i].run, i, n)
    ensures (history[i].run, history[i].key) in CacheOf(history[..n])
    ensures CacheOf(history[..n])[(history[i].run, history[i].key)] == history[i].response
    decreases n
  {
    hide HistoryOk;
    assert history[..n][..n - 1] == history[..n - 1];
    if i < n - 1 {
      CacheKeeps(ttl, history, i, n - 1);
      var e := history[n - 1];
      assert e != Finished(history[i].run);
      if e.Answered? && e.run == history[i].run && e.key == history[i].key {
        RepeatedAnswer(ttl, history, n - 1);
      }
    }
  }

  /** Within a run a key's answer never changes until the run is finished. */
  lemma AnswersAreStable(ttl: real, history: seq<Event>, i: nat, j: nat)
    requires HistoryOk(ttl, history) && i < j < |history|
    requires history[i].Answered? && history[j].Answered?
    requires history[i].run == history[j].run && history[i].key == history[j].key
    requires NotFinished(history, history[i].run, i, j)
    ensures history[i].response == history[j].response
  {
    hide HistoryOk, CacheOf;
    CacheKeeps(ttl, history, i, j);
    RepeatedAnswer(ttl, history, j);
  }

  ghost predicate AnswerFor(e: Event, run: string, key: Key) {
    e.Answered? && e.run == run && e.key == key
  }

  /** Only an answer given since the run last finished is in the run cache. */
  lemma {:induction false} CachedWasAnswered(history: seq<Event>, n: nat, run: string, key: Key)
    requires n <= |history| && (run, key) in CacheOf(history[..n])
    ensures exists i :: 0 <= i < n && AnswerFor(history[i], run, key) && NotFinished(history, run, i, n)
  {
    if n > 0 {
      assert history[..n][..n - 1] == history[..n - 1];
      if !AnswerFor(history[n - 1], run, key) {
        CachedWasAnswered(history, n - 1, run, key);
        var i :| 0 <= i < n - 1 && AnswerFor(history[i], run, key) && NotFinished(history, run, i, n - 1);
        assert NotFinished(history, run, i, n);
      } else {
        assert NotFinished(history, run, n - 1, n);
      }
    }
  }

  /** No earlier answer for the same run and key that the run has not finished since. */
  ghost predicate FirstAnswer(history: seq<Event>, j: nat)
    requires j < |history| && history[j].Answered?
  {
    forall i :: 0 <= i < j && AnswerFor(history[i], history[j].run, history[j].key)
                ==> !NotFinished(history, history[j].run, i, j)
  }

  /** The first answer a run gets for a key was fetched for it, or less than the TTL before it was given. */
  lemma FirstAnswerIsYoung(ttl: real, history: seq<Event>, j: nat)
    requires HistoryOk(ttl, history) && j < |history| && history[j].Answered?
    requires FirstAnswer(history, j)
    ensures exists i :: 0 <= i < j && AnswersLike(history[i], history[j])
                        && (i == j - 1 || Recent(ttl, history[i], history[j]))
  {
    hide CacheOf, NotFinished;
    assert EventOk(ttl, history[..j], history[j]);
    if (history[j].run, history[j].key) in CacheOf(history[..j]) {
      CachedWasAnswered(history, j, history[j].run, history[j].key);
    }
  }

  // ---- Why each recorded event is right ----

  lemma RepeatOk(ttl: real, history: seq<Event>, run: string, key: Key, at: real)
    requires (run, key) in CacheOf(history)
    ensures EventOk(ttl, history, Answered(run, key, CacheOf(history)[(run, key)], at))
  {
    hide CacheOf;
  }

  lemma RecentOk(ttl: real, history: seq<Event>, run: string, key: Key, response: Response, fetchedAt: real, at: real)
    requires (run, key) !in CacheOf(history)
    requires Fetched(key, response, fetchedAt) in history && fetchedAt <= at < fetchedAt + ttl
    ensures EventOk(ttl, history, Answered(run, key, response, at))
  {
    hide CacheOf;
    var i :| 0 <= i < |history| && history[i] == Fetched(key, response, fetchedAt);
    assert Recent(ttl, history[i], Answered(run, key, response, at));
  }

  lemma FreshOk(ttl: real, history: seq<Event>, run: string, key: Key, response: Response, at: real)
    requires history != [] && history[|history| - 1] == Fetched(key, response, at)
    requires (run, key) !in CacheOf(history)
    ensures EventOk(ttl, history, Answered(run, key, response, at))
  {
    hide CacheOf;
  }

  lemma FetchedOk(ttl: real, history: seq<Event>, key: Key, response: Response, at: real)
    ensures EventOk(ttl, history, Fetched(key, response, at))
  {
  }

  lemma FinishedOk(ttl: real, history: seq<Event>, run: string)
    ensures EventOk(ttl, history, Finished(run))
  {
  }

  // ---- The client ----

  ghost predicate Spaced(sends: seq<real>, interval: real) {
    forall i :: 0 < i < |sends| ==> sends[i] - sends[i - 1] >= interval
  }

  /** What other keys have in the shared cache stays until it expires. */
  ghost predicate KeepsFresh(before: map<Key, (real, Response)>, after: map<Key, (real, Response)>, key: Key,
                             now: real) {
    forall k :: k != key && k in before && before[k].0 > now ==> k in after && after[k] == before[k]
  }

  lemma NoneForgotten(cache: map<Key, (real, Response)>, key: Key, now: real)
    ensures KeepsFresh(cache, cache, key, now)
  {
  }

  lemma FreshStays(a: map<Key, (real, Response)>, b: map<Key, (real, Response)>, c: map<Key, (real, Response)>,
                   key: Key, now: real, later: real)
    requires KeepsFresh(a, b, key, now) && now <= later && (c == b || (key in c && c == b[key := c[key]]))
    ensures KeepsFresh(a, c, key, later)
  {
  }

  /** From the given send on, each one waits out the backoff after the one before. */
  ghost predicate Paused(sends: seq<real>, from: nat, backoff: real) {
    forall k: nat :: from + k + 1 < |sends| ==> sends[from + k + 1] - sends[from + k] >= Delay(backoff, k)
  }

  lemma NotPaused(sends: seq<real>, backoff: real)
    ensures Paused(sends, |sends|, backoff)
  {
  }

  lemma PausedExtends(sends: seq<real>, from: nat, backoff: real, stamp: real)
    requires from <= |sends| && Paused(sends, from, backoff)
    requires |sends| > from ==> stamp - sends[|sends| - 1] >= Delay(backoff, |sends| - 1 - from)
    ensures Paused(sends + [stamp], from, backoff)
  {
    hide Delay;
    var after := sends + [stamp];
    forall k: nat | from + k + 1 < |after| ensures after[from + k + 1] - after[from + k] >= Delay(backoff, k) {
      if from + k + 1 == |sends| {
        assert k == |sends| - 1 - from;
      }
    }
  }

  class Client {
    const retries: nat
    const backoff: real
    const ttl: real
    const minInterval: real
    const maxBytes: nat
    var now: real
    var lastRequestAt: Option<real>
    var runCache: map<(string, Key), Response>
    var ttlCache: map<Key, (real, Response)>
    ghost var sends: seq<real>
    ghost var replies: seq<Upstream>
    ghost var backedOff: real
    ghost var history: seq<Event>

    /** The request stamps are at least the minimal interval apart, and the newest one is remembered. */
    ghost predicate Paced()
      reads `now, `lastRequestAt, `sends
    {
      && backoff >= 0.0 && minInterval >= 0.0
      && Spaced(sends, minInterval)
      && (sends == [] ==> lastRequestAt == None)
      && (sends != [] ==> lastRequestAt == Some(sends[|sends| - 1]) && sends[|sends| - 1] <= now)
    }

    /** The run cache is the one the history explains. */
    ghost predicate Explained()
      reads `runCache, `history
    {
      runCache == CacheOf(history) && HistoryOk(ttl, history)
    }

    /** Whatever may be shared between runs was fetched, and expires one TTL after that. */
    ghost predicate Shareable()
      reads `now, `ttlCache, `history
    {
      ttl >= 0.0
      && forall k :: k in ttlCache ==> Fetched(k, ttlCache[k].1,
                                               ttlCache[k].0 - ttl) in history && ttlCache[k].0 - ttl <= now
    }

    ghost predicate Valid()
      reads this
    {
      Paced() && Explained() && Shareable()
    }

    constructor (retries: nat, backoff: real, ttl: real, minInterval: real, maxBytes: nat, now: real)
      requires backoff >= 0.0 && ttl >= 0.0 && minInterval >= 0.0
      ensures Valid() && sends == [] && history == []
    {
      this.retries, this.backoff, this.ttl, this.minInterval, this.maxBytes :=
        retries, backoff, ttl, minInterval, maxBytes;
      this.now, lastRequestAt, runCache, ttlCache := now, None, map[], map[];
      sends, replies, backedOff, history := [], [], 0.0, [];
    }

    /** Reading the clock: time may have passed since. */
    method Clock() returns (t: real)
      modifies this`now
      ensures t == now >= old(now)
    {
      var passed: real := *;
      if passed > 0.0 {
        now := now + passed;
      }
      t := now;
    }

    method Sleep(seconds: real)
      requires seconds >= 0.0
      modifies this`now
      ensures now >= old(now) + seconds
    {
      now := now + seconds;
      var overslept := Clock();
    }

    /** `_rate_limit`. */
    method RateLimit()
      modifies this`now
      ensures now >= old(now)
      ensures lastRequestAt.Some? ==> now - lastRequestAt.value >= minInterval
    {
      if lastRequestAt.None? {
        return;
      }
      var t := Clock();
      var wait := minInterval - (t - lastRequestAt.value);
      if wait > 0.0 {
        Sleep(wait);
      }
    }

    /** The start of one attempt: the rate limit, then the stamp of the request that is sent now. */
    method Send() returns (reply: Upstream)
      requires Paced()
      modifies `now, `lastRequestAt, `sends, `replies
      ensures Paced()
      ensures now >= old(now)
      ensures sends == old(sends) + [now] && replies == old(replies) + [reply]
    {
      RateLimit();
      var stamp := Clock();
      lastRequestAt := Some(stamp);
      sends := sends + [stamp];
      reply := *;
      replies := replies + [reply];
    }

    /**
     * `_request_with_retry`: at most `retries + 1` sends, bounded backoff, and the loop always ends with an
     * answer or an error.
     */
    method RequestWithRetry() returns (r: Result<Response, HttpError>)
      requires Paced()
      modifies `now, `lastRequestAt, `sends, `replies, `backedOff
      ensures Paced()
      ensures now >= old(now)
      ensures old(sends) < sends && old(replies) < replies && |sends| - |old(sends)| == |replies| - |old(replies)|
      ensures Attempts(replies[|old(replies)|..], retries, maxBytes)
      ensures r == Judged(replies[|replies| - 1], maxBytes)
      ensures backedOff == old(backedOff) + Backoff(backoff, |replies| - |old(replies)| - 1)
      ensures backedOff - old(backedOff) <= backoff * (Power2(retries) - 1.0)
      ensures Paused(sends, |old(sends)|, backoff)
      ensures sends[|sends| - 1] <= now
    {
      hide Spaced, Power2, Paused, Delay;
      BackoffTotal(backoff, retries);
      NotPaused(sends, backoff);
      for attempt := 0 to retries + 1
        invariant Paced()
        invariant attempt <= retries
        invariant now >= old(now)
        invariant |sends| == |old(sends)| + attempt && old(sends) <= sends
        invariant |replies| == |old(replies)| + attempt && old(replies) <= replies
        invariant forall k :: |old(replies)| <= k < |replies| ==> Retryable(replies[k], maxBytes)
        invariant backedOff == old(backedOff) + Backoff(backoff, attempt)
        invariant attempt > 0 ==> now >= sends[|sends| - 1] + Delay(backoff, attempt - 1)
        invariant Paused(sends, |old(sends)|, backoff)
      {
        BackoffGrows(backoff, attempt, retries);
        ghost var before := sends;
        var reply := Send();
        PausedExtends(before, |old(sends)|, backoff, sends[|sends| - 1]);
        if !reply.Answer? {
          if attempt >= retries {
            return Err(if reply.TimedOut? then NetworkTimeout else NetworkError);
          }
          BackOff(attempt);
          continue;
        }
        if |reply.response.content| > maxBytes {
          return Err(ResponseTooLarge);
        }
        if Transient(reply.response.status) && attempt < retries {
          BackOff(attempt);
          continue;
        }
        if reply.response.status >= 400 {
          return Err(StatusError(reply.response.status));
        }
        return Ok(reply.response);
      }
      assert false;
    }

    method BackOff(attempt: nat)
      requires backoff >= 0.0
      modifies `now, `backedOff
      ensures now >= old(now) + Delay(backoff, attempt) >= old(now)
      ensures backedOff == old(backedOff) + Delay(backoff, attempt)
    {
      hide Delay;
      Sleep(Delay(backoff, attempt));
      backedOff := backedOff + Delay(backoff, attempt);
    }

    /** `request`. */
    method Request(run: string, key: Key) returns (r: Result<Response, HttpError>)
      requires Valid()
      modifies this
      ensures Valid()
      ensures now >= old(now) && old(sends) <= sends
      ensures |sends| <= |old(sends)| + retries + 1
      ensures backedOff - old(backedOff) <= backoff * (Power2(retries) - 1.0)
      ensures sends != old(sends) ==> replies != [] && r == Judged(replies[|replies| - 1], maxBytes)
      ensures r.Err? ==> sends != old(sends)
      ensures (run, key) in old(runCache)
              ==> r == Ok(old(runCache)[(run, key)]) && sends == old(sends) && now == old(now)
      ensures r.Ok? ==>
                history == old(history) + (if sends == old(sends) then [] else [Fetched(key, r.value, now)])
                + [Answered(run, key, r.value, now)]
      ensures r.Err? ==> history == old(history)
      ensures (run, key) !in old(runCache) && key in old(ttlCache) && old(ttlCache)[key].0 > now ==>
                r == Ok(old(ttlCache)[key].1) && sends == old(sends)
      ensures r.Ok? ==> (run, key) in runCache && runCache[(run, key)] == r.value
      ensures KeepsFresh(old(ttlCache), ttlCache, key, now)
      ensures r.Ok? && sends != old(sends) && ttl > 0.0 ==>
                && key in ttlCache && ttlCache[key].1 == r.value
                && sends[|sends| - 1] + ttl <= ttlCache[key].0 <= now + ttl
    {
      hide CacheOf, HistoryOk, EventOk, Spaced, Power2, Delay, Paused, Retryable, Judged;
      hide KeepsFresh;
      ghost var before := ttlCache;
      NoneForgotten(before, key, now);
      BackoffTotal(backoff, retries);
      BackoffGrows(backoff, 0, retries);
      if (run, key) in runCache {
        r := Ok(runCache[(run, key)]);
        RepeatOk(ttl, history, run, key, now);
        Give(run, key, r.value);
        return;
      }
      var shared := Prune(key);
      ghost var kept, pruned := ttlCache, now;
      if shared.Some? {
        RecentOk(ttl, history, run, key, shared.value.1, shared.value.0 - ttl, now);
        Give(run, key, shared.value.1);
        return Ok(shared.value.1);
      }
      r := FetchAnswer(run, key);
      FreshStays(before, kept, ttlCache, key, pruned, now);
    }

    /** What `request` does when neither cache has the answer. */
    method FetchAnswer(run: string, key: Key) returns (r: Result<Response, HttpError>)
      requires Valid() && (run, key) !in runCache
      modifies this
      ensures Valid()
      ensures now >= old(now) && old(sends) < sends && |sends| <= |old(sends)| + retries + 1
      ensures backedOff - old(backedOff) <= backoff * (Power2(retries) - 1.0)
      ensures replies != [] && r == Judged(replies[|replies| - 1], maxBytes)
      ensures r.Err? ==> history == old(history) && runCache == old(runCache)
      ensures r.Ok? ==>
                && history == old(history) + [Fetched(key, r.value, now)] + [Answered(run, key, r.value, now)]
                && runCache == old(runCache)[(run, key) := r.value]
      ensures ttlCache == old(ttlCache) || (key in ttlCache && ttlCache == old(ttlCache)[key := ttlCache[key]])
      ensures r.Ok? && ttl > 0.0 ==>
                && key in ttlCache && ttlCache[key].1 == r.value
                && sends[|sends| - 1] + ttl <= ttlCache[key].0 <= now + ttl
    {
      hide CacheOf, HistoryOk, EventOk, Spaced, Power2, Delay, Paused, Retryable, Judged;
      r := RequestWithRetry();
      if r.Err? {
        return;
      }
      Remember(key, r.value);
      FreshOk(ttl, history, run, key, r.value, now);
      Give(run, key, r.value);
    }

    /** Drops what has expired and looks the key up in what has not. */
    method Prune(key: Key) returns (shared: Option<(real, Response)>)
      requires Shareable() && Paced()
      modifies `now, `ttlCache
      ensures Shareable() && Paced() && now >= old(now)
      ensures shared.Some? ==>
                && shared.value.0 - ttl <= now < shared.value.0
                && Fetched(key, shared.value.1, shared.value.0 - ttl) in history
      ensures key in old(ttlCache) && old(ttlCache)[key].0 > now ==> shared == Some(old(ttlCache)[key])
      ensures KeepsFresh(old(ttlCache), ttlCache, key, now)
    {
      hide Spaced;
      var t := Clock();
      ttlCache := map k | k in ttlCache && ttlCache[k].0 > t :: ttlCache[k];
      shared := if key in ttlCache && ttlCache[key].0 > t then Some(ttlCache[key]) else None;
    }

    /** Stores a fetched answer for other runs. */
    method Remember(key: Key, response: Response)
      requires Valid()
      modifies `now, `ttlCache, `history
      ensures Valid() && now >= old(now)
      ensures history == old(history) + [Fetched(key, response, now)]
      ensures ttl > 0.0 ==>
                key in ttlCache && ttlCache[key].1 == response && old(now) + ttl <= ttlCache[key].0 <= now + ttl
      ensures ttlCache == old(ttlCache) || (key in ttlCache && ttlCache == old(ttlCache)[key := ttlCache[key]])
    {
      hide Spaced, CacheOf, HistoryOk, EventOk;
      if ttl > 0.0 {
        var stored := Clock();
        ttlCache := ttlCache[key := (stored + ttl, response)];
      }
      FetchedOk(ttl, history, key, response, now);
      ghost var before := history;
      Record(Fetched(key, response, now));
      assert forall e :: e in before ==> e in history;
      assert Fetched(key, response, now) in history;
    }

    /** Hands out an answer and keeps it for the run. */
    method Give(run: string, key: Key, response: Response)
      requires Valid() && EventOk(ttl, history, Answered(run, key, response, now))
      modifies `runCache, `history
      ensures Valid()
      ensures history == old(history) + [Answered(run, key, response, now)]
      ensures runCache == old(runCache)[(run, key) := response]
    {
      hide Spaced, CacheOf, HistoryOk, EventOk;
      runCache := runCache[(run, key) := response];
      ghost var before := history;
      Record(Answered(run, key, response, now));
      assert forall e :: e in before ==> e in history;
    }

    ghost method Record(e: Event)
      requires HistoryOk(ttl, history) && EventOk(ttl, history, e)
      modifies `history
      ensures history == old(history) + [e]
      ensures HistoryOk(ttl, history)
      ensures e.Answered? ==> CacheOf(history) == CacheOf(old(history))[(e.run, e.key) := e.response]
      ensures e.Fetched? ==> CacheOf(history) == CacheOf(old(history))
      ensures e.Finished? ==> CacheOf(history) == Without(CacheOf(old(history)), e.run)
    {
      hide HistoryOk, EventOk;
      HistoryExtends(ttl, history, e);
      assert (history + [e])[..|history|] == history;
      history := history + [e];
    }

    /** `finish_run`. */
    method FinishRun(run: string)
      requires Valid()
      modifies `runCache, `history
      ensures Valid()
      ensures history == old(history) + [Finished(run)]
      ensures forall k :: k in runCache <==> k in old(runCache) && k.0 != run
      ensures forall k :: k in runCache ==> runCache[k] == old(runCache)[k]
    {
      hide Spaced, CacheOf, HistoryOk, EventOk;
      FinishedOk(ttl, history, run);
      runCache := map k | k in runCache && k.0 != run :: runCache[k];
      ghost var before := history;
      Record(Finished(run));
      assert forall e :: e in before ==> e in history;
    }
  }
}
