/** The per-method request limiter: how its token bucket is sized, how many requests it lets through in any
    window, and when the truncating division breaks that bound. Times are in nanoseconds. */
module RateLimit {
  import opened Sequences

  /** A token every `interval`, at most `burst` saved up; without a positive interval there is no limit. */
  datatype Limiter = Unlimited | Bucket(interval: nat, burst: nat)

  datatype LimiterError = DivisionByZero

  /** Division as the source's signed integers do it, towards zero. */
  function Quotient(a: int, b: int): int
    requires b != 0
  {
    if a >= 0 then (if b > 0 then a / b else -(a / -b))
    else if b > 0 then -(-a / b) else -a / -b
  }

  function Burst(count: int): int {
    if Quotient(count, 10) > 1 then Quotient(count, 10) else 1
  }

  function Sustained(count: int): int {
    count - Burst(count)
  }

  /** The quota is split into a burst of about a tenth and a refill of the rest over the window. */
  method NewRPCMethodLimiter(window: nat, count: int) returns (r: Result<Limiter, LimiterError>)
    ensures count == 1 <==> r == Err(DivisionByZero)
    ensures count < 1 ==> r == Ok(Unlimited)
    ensures count > 1 ==> r == Ok(LimiterFor(window, count)) && IsQuota(r.value, window, count)
  {
    if count > 1 {
      QuotaSplit(window, count);
      LimiterParts(window, count);
    }
    hide IsQuota, LimiterFor, Quotient;
    var burst := count / 10;
    if count < 0 {
      burst := -(-count / 10);
    }
    if burst < 1 {
      burst := 1;
    }
    BurstSize(count, burst);
    var sustained := count - burst;
    hide Burst, Sustained;
    if sustained == 0 {
      return Err(DivisionByZero);
    }
    QuotientSign(window, sustained);
    var interval := Quotient(window, sustained);
    if interval <= 0 {
      return Ok(Unlimited);
    }
    return Ok(Bucket(interval, burst));
  }

  function LimiterFor(window: nat, count: int): Limiter
    requires count > 1
  {
    if window / Sustained(count) == 0 then Unlimited
    else Bucket(window / Sustained(count), Burst(count))
  }

  /** A bucket for a quota of `count` requests in a window: a tenth of them, rounded down but at least one, may
      come at once, and the others are spread over the window; no limit when that leaves less than a nanosecond
      between them. */
  ghost predicate IsQuota(l: Limiter, window: nat, count: int) {
    match l
    case Unlimited => exists burst: nat :: IsTenth(burst, count) && window < count - burst
    case Bucket(interval, burst) =>
      && IsTenth(burst, count) && interval > 0
      && interval * (count - burst) <= window < (interval + 1) * (count - burst)
  }

  predicate IsTenth(burst: nat, count: int) {
    (count < 20 && burst == 1) || (count >= 20 && 10 * burst <= count < 10 * burst + 10)
  }

  lemma QuotaSplit(window: nat, count: int)
    requires count > 1
    ensures IsQuota(LimiterFor(window, count), window, count)
  {
    var s := Sustained(count);
    assert IsTenth(Burst(count), count) && s == count - Burst(count) && s > 0;
    DivideBy(window, s);
  }

  lemma DivideBy(a: nat, b: nat)
    requires b > 0
    ensures a / b * b <= a < (a / b + 1) * b
    ensures a / b == 0 ==> a < b
  {
    assert a == a / b * b + a % b && (a / b + 1) * b == a / b * b + b;
  }

  lemma BurstSize(count: int, burst: int)
    requires burst == var tenth := if count < 0 then -(-count / 10) else count / 10; if tenth < 1 then 1 else tenth
    ensures count > 1 ==> burst == Burst(count) && count - burst == Sustained(count) > 0
    ensures count == 1 <==> count - burst == 0
    ensures count < 1 ==> count - burst < 0
  {
  }

  lemma QuotientSign(a: nat, b: int)
    requires b != 0
    ensures b < 0 ==> Quotient(a, b) <= 0
    ensures b > 0 ==> Quotient(a, b) == a / b >= 0
  {
  }

  lemma LimiterParts(window: nat, count: int)
    requires count > 1
    ensures var s := Sustained(count);
            s > 0 && LimiterFor(window, count)
                     == if window / s == 0 then Unlimited else Bucket(window / s, Burst(count))
  {
  }

  // ---- runs of the bucket ----

  /** The time saved up before the k-th grant, when grants happen at these times: it starts full, grows
      with time up to `burst` intervals, and each grant costs one interval. */
  function Credit(l: Limiter, times: seq<nat>, k: nat): int
    requires l.Bucket? && k < |times|
  {
    var full := l.burst * l.interval;
    if k == 0 then full
    else
      var grown := Credit(l, times, k - 1) - l.interval + times[k] - times[k - 1];
      if grown > full then full else grown
  }

  /** A sequence of grant times the limiter allows. */
  ghost predicate Allowed(l: Limiter, times: seq<nat>) {
    && (forall i, j :: 0 <= i < j < |times| ==> times[i] <= times[j])
    && (l.Bucket? ==> forall k :: 0 <= k < |times| ==> l.interval <= Credit(l, times, k))
  }

  /** No interval of length `window` contains more than `count` of the times. */
  ghost predicate AtMost(times: seq<nat>, window: nat, count: nat) {
    forall i, j :: 0 <= i && j == i + count < |times| ==> times[j] - times[i] > window
  }

  /** Between grants i and j no more is saved up than the time between them allows. */
  lemma {:induction false} CreditBetween(l: Limiter, times: seq<nat>, i: nat, j: nat)
    requires l.Bucket? && i <= j < |times|
    ensures Credit(l, times, j) <= l.burst * l.interval - (j - i) * l.interval + times[j] - times[i]
    decreases j
  {
    if i < j {
      CreditBetween(l, times, i, j - 1);
      assert (j - i) * l.interval == (j - 1 - i) * l.interval + l.interval;
    } else if j > 0 {
      assert (j - i) * l.interval == 0;
    }
  }

  lemma BoundHolds(window: nat, count: int, times: seq<nat>)
    requires count > 1 && window % Sustained(count) < window / Sustained(count)
    requires Allowed(LimiterFor(window, count), times)
    ensures AtMost(times, window, count)
  {
    var l, s := LimiterFor(window, count), Sustained(count);
    assert l.Bucket? && l.burst == count - s;
    assert window == s * l.interval + window % s;
    Distribute(count, l.burst, l.interval);
    hide LimiterFor, Sustained;
    forall i, j | 0 <= i && j == i + count < |times|
      ensures times[j] - times[i] > window
    {
      GrantsApart(l, times, i, j, count);
    }
  }

  /** From one grant to the count-th after it at least the sustained part of the quota has been refilled. */
  lemma GrantsApart(l: Limiter, times: seq<nat>, i: nat, j: nat, count: nat)
    requires l.Bucket? && i <= j < |times| && j == i + count && Allowed(l, times)
    ensures times[j] - times[i] >= l.interval + count * l.interval - l.burst * l.interval
  {
    CreditBetween(l, times, i, j);
  }

  lemma Distribute(a: int, b: int, x: int)
    ensures b * x - a * x == -((a - b) * x)
  {
  }

  /** The greediest run: the whole burst at once, then one grant per interval. */
  function Greedy(l: Limiter, count: nat): (r: seq<nat>)
    requires l.Bucket? && l.burst <= count
    ensures |r| == count + 1
    ensures forall k :: 0 <= k < |r| ==> r[k] == GreedyTime(l, k)
  {
    seq(count + 1, k requires 0 <= k < count + 1 => GreedyTime(l, k))
  }

  function GreedyTime(l: Limiter, k: nat): nat
    requires l.Bucket?
  {
    if k < l.burst then 0 else (k + 1 - l.burst) * l.interval
  }

  lemma {:induction false} GreedyCredit(l: Limiter, count: nat, k: nat)
    requires l.Bucket? && 1 <= l.burst <= count && k <= count
    ensures Credit(l, Greedy(l, count), k) == (if k < l.burst then l.burst - k else 1) * l.interval
  {
    var times := Greedy(l, count);
    if k > 0 {
      GreedyCredit(l, count, k - 1);
      var i := l.interval;
      if k < l.burst {
        assert (l.burst - (k - 1)) * i == (l.burst - k) * i + i;
        assert (l.burst - k) * i <= l.burst * i;
      } else if k == l.burst {
        assert times[k] == 1 * i && times[k - 1] == 0;
        assert (l.burst - (k - 1)) * i == i && i <= l.burst * i;
      } else {
        assert (k + 1 - l.burst) * i == (k - l.burst) * i + i;
        assert i <= l.burst * i;
      }
    }
  }

  lemma GreedyAllowed(l: Limiter, count: nat)
    requires l.Bucket? && 1 <= l.burst <= count
    ensures Allowed(l, Greedy(l, count))
  {
    var times := Greedy(l, count);
    forall k | 0 <= k < |times|
      ensures l.interval <= Credit(l, times, k)
    {
      GreedyCredit(l, count, k);
      Scale(1, if k < l.burst then l.burst - k else 1, l.interval);
    }
    forall i, j | 0 <= i < j < |times|
      ensures times[i] <= times[j]
    {
      Scale(if i < l.burst then 0 else i + 1 - l.burst, if j < l.burst then 0 else j + 1 - l.burst, l.interval);
    }
  }

  lemma Scale(a: nat, b: nat, x: nat)
    ensures a <= b ==> a * x <= b * x
  {
    assert b * x == a * x + (b - a) * x;
  }

  lemma BoundBreaks(window: nat, count: int) returns (times: seq<nat>)
    requires count > 1 && window % Sustained(count) >= window / Sustained(count)
    ensures Allowed(LimiterFor(window, count), times) && !AtMost(times, window, count)
  {
    var l, s := LimiterFor(window, count), Sustained(count);
    if l.Unlimited? {
      times := seq(count + 1, k requires 0 <= k < count + 1 => 0);
      assert times[count] - times[0] <= window;
    } else {
      times := Greedy(l, count);
      GreedyAllowed(l, count);
      assert (count + 1 - l.burst) * l.interval == s * l.interval + l.interval;
      assert window == s * l.interval + window % s;
      assert times[count] - times[0] <= window;
    }
  }

  /** Over every run, no window holds more than the quota, if and only if the remainder of the division of the
      window by the sustained count is smaller than its quotient. */
  lemma QuotaHoldsExactlyWhen(window: nat, count: int)
    requires count > 1
    ensures (forall times :: Allowed(LimiterFor(window, count), times) ==> AtMost(times, window, count))
            <==> window % Sustained(count) < window / Sustained(count)
  {
    if window % Sustained(count) < window / Sustained(count) {
      forall times | Allowed(LimiterFor(window, count), times)
        ensures AtMost(times, window, count)
      {
        BoundHolds(window, count, times);
      }
    } else {
      var times := BoundBreaks(window, count);
    }
  }

  /** In particular the quota holds when the sustained count squared fits in the window. */
  lemma QuotaHoldsForWideWindows(window: nat, count: int, times: seq<nat>)
    requires count > 1 && Sustained(count) * Sustained(count) <= window
    requires Allowed(LimiterFor(window, count), times)
    ensures AtMost(times, window, count)
  {
    LimiterParts(window, count);
    hide Sustained, Burst, Quotient, LimiterFor, Allowed, AtMost;
    SquareFits(window, Sustained(count));
    BoundHolds(window, count, times);
  }

  lemma SquareFits(window: nat, s: nat)
    requires s > 0 && s * s <= window
    ensures window % s < window / s
  {
    DivideBy(window, s);
    Scale(window / s + 1, s, s);
  }
}
