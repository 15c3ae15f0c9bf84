/**
 * The fixed-window request counter kept under `rate_limit:<ip>`: a count
 * stored with a 60-second expiry that every admission renews.
 */
module RateLimit {
  import opened Wrappers
  import opened Constants
  import opened Records

  /** A stored count and the instant at which the store forgets it. */
  datatype Counter = Counter(count: int, expiresAt: Instant)

  /** Whether the stored counter is still readable at `now`. */
  predicate Live(c: Option<Counter>, now: Instant) {
    c.Some? && now < c.value.expiresAt
  }

  /** `await kv.get(key) || 0`: an absent or expired counter reads as zero. */
  function Current(c: Option<Counter>, now: Instant): (n: int)
    ensures !Live(c, now) ==> n == 0
    ensures CounterOk(c) ==> 0 <= n <= MAX_REQUESTS_PER_MINUTE
  {
    if Live(c, now) then c.value.count else 0
  }

  /** A counter as the limiter writes it: between one and the maximum. */
  predicate CounterOk(c: Option<Counter>) {
    c.Some? ==> 1 <= c.value.count <= MAX_REQUESTS_PER_MINUTE
  }

  /**
   * `checkRateLimit` on one stored counter: the verdict and the counter left
   * behind. A full counter rejects and is left alone; otherwise the count
   * read goes up by one and lives for another window.
   */
  function Admit(c: Option<Counter>, now: Instant): (r: (bool, Option<Counter>))
    ensures r.0 <==> Current(c, now) < MAX_REQUESTS_PER_MINUTE
    ensures r.0 ==> r.1 == Some(Counter(Current(c, now) + 1, now + RATE_WINDOW))
    ensures !r.0 ==> r.1 == c && Live(c, now)
    ensures !Live(c, now) ==> r.0
    ensures CounterOk(c) ==> CounterOk(r.1)
  {
    var current := Current(c, now);
    if current >= MAX_REQUESTS_PER_MINUTE then (false, c)
    else (true, Some(Counter(current + 1, now + RATE_WINDOW)))
  }

  /** The number of admitted calls among calls made at the instants `times`, in order. */
  function Admissions(c: Option<Counter>, times: seq<Instant>): nat
    decreases |times|
  {
    if times == [] then 0
    else
      var (ok, next) := Admit(c, times[0]);
      (if ok then 1 else 0) + Admissions(next, times[1..])
  }

  /** The counter left behind by calls made at the instants `times`. */
  function After(c: Option<Counter>, times: seq<Instant>): Option<Counter>
    decreases |times|
  {
    if times == [] then c else After(Admit(c, times[0]).1, times[1..])
  }

  /** No call after the first finds the counter expired: the calls share one window. */
  predicate OneWindow(c: Option<Counter>, times: seq<Instant>)
    decreases |times|
  {
    |times| <= 1
    || (var next := Admit(c, times[0]).1;
        Live(next, times[1]) && OneWindow(next, times[1..]))
  }

  /**
   * Within one window the live counter is the count first read plus the
   * number of calls admitted since.
   */
  lemma {:induction false} CounterCountsAdmissions(c: Option<Counter>, times: seq<Instant>, later: Instant)
    requires |times| > 0 && OneWindow(c, times)
    requires Live(After(c, times), later)
    ensures Current(After(c, times), later) == Current(c, times[0]) + Admissions(c, times)
    decreases |times|
  {
    var next := Admit(c, times[0]).1;
    if |times| > 1 {
      CounterCountsAdmissions(next, times[1..], later);
    }
  }

  /**
   * Within one window at most `MAX_REQUESTS_PER_MINUTE` calls are admitted,
   * counting those admitted before the window's first call.
   */
  lemma {:induction false} AtMostMaxPerWindow(c: Option<Counter>, times: seq<Instant>)
    requires CounterOk(c)
    requires |times| > 0 && OneWindow(c, times)
    ensures Admissions(c, times) <= MAX_REQUESTS_PER_MINUTE - Current(c, times[0])
    decreases |times|
  {
    var next := Admit(c, times[0]).1;
    if |times| > 1 {
      AtMostMaxPerWindow(next, times[1..]);
    }
  }

  /** From an absent or expired counter, one window admits at most 60 calls. */
  lemma FreshWindowAdmitsAtMostMax(c: Option<Counter>, times: seq<Instant>)
    requires CounterOk(c)
    requires |times| > 0 && !Live(c, times[0]) && OneWindow(c, times)
    ensures Admissions(c, times) <= MAX_REQUESTS_PER_MINUTE
  {
    AtMostMaxPerWindow(c, times);
  }

  /** Once a window has admitted its quota, the next call in that window is rejected. */
  lemma FullWindowRejects(c: Option<Counter>, times: seq<Instant>, later: Instant)
    requires |times| > 0 && OneWindow(c, times)
    requires Live(After(c, times), later)
    requires Current(c, times[0]) + Admissions(c, times) == MAX_REQUESTS_PER_MINUTE
    ensures !Admit(After(c, times), later).0
  {
    CounterCountsAdmissions(c, times, later);
  }
}
