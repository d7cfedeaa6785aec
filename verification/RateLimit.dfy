/** The fixed-window rate limiter: one Redis counter per bucket and client. */
module RateLimit {
  import opened Options
  import opened Text

  /** `inclusive` says whether a key still exists at the very instant of its expiry. */
  datatype Settings = Settings(enabled: bool, limit: int, window: int, inclusive: bool)

  /** A counter without an expiry never goes away. */
  datatype Counter = Counter(count: nat, expiry: Option<int>)

  /** Whether Redis answers, and if not, whether the increment was applied before it went away. */
  datatype Redis = Healthy | DownBeforeIncrement | DownAfterIncrement

  datatype Verdict = Admitted | Limited(retryAfter: int) | Unavailable

  predicate Expired(s: Settings, expiry: int, now: int) {
    now > expiry || (now == expiry && !s.inclusive)
  }

  /** What is left of a counter at time `now`. */
  function Live(s: Settings, c: Option<Counter>, now: int): Option<Counter> {
    if c.Some? && c.value.expiry.Some? && Expired(s, c.value.expiry.value, now) then None else c
  }

  function Incremented(c: Option<Counter>): Counter {
    if c.None? then Counter(1, None) else c.value.(count := c.value.count + 1)
  }

  /** EXPIRE deletes the key at once when the time to live is not positive. */
  function WithExpiry(s: Settings, c: Counter, now: int): Option<Counter> {
    if s.window <= 0 then None else Some(c.(expiry := Some(now + s.window)))
  }

  /** Seconds left; not positive for a key that is gone or has no expiry. */
  function TimeToLive(c: Option<Counter>, now: int): int {
    if c.None? then -2 else if c.value.expiry.None? then -1 else c.value.expiry.value - now
  }

  function RetryAfter(s: Settings, c: Option<Counter>, now: int): int {
    if TimeToLive(c, now) > 0 then TimeToLive(c, now) else s.window
  }

  /** One request: the counter it leaves and the answer it gets. */
  function Hit(s: Settings, c: Option<Counter>, now: int, redis: Redis): (Option<Counter>, Verdict) {
    if !s.enabled then (c, Admitted)
    else if redis.DownBeforeIncrement? then (c, Unavailable)
    else
      var current := Incremented(Live(s, c, now));
      var over := current.count > s.limit;
      if redis.DownAfterIncrement? && (current.count == 1 || over) then (Some(current), Unavailable)
      else
        var kept := if current.count == 1 then WithExpiry(s, current, now) else Some(current);
        (kept, if over then Limited(RetryAfter(s, kept, now)) else Admitted)
  }

  // ---- What a request is answered, written out ----

  /** The counter counts at `now`: it has no expiry, or one that has not come. */
  predicate Counts(s: Settings, c: Option<Counter>, now: int) {
    c.Some? && (c.value.expiry == None || now < c.value.expiry.value || (now == c.value.expiry.value && s.inclusive))
  }

  /** The number this request has in its window. */
  function Number(s: Settings, c: Option<Counter>, now: int): nat {
    if Counts(s, c, now) then c.value.count + 1 else 1
  }

  /** A disabled limiter lets everything through and counts nothing. An enabled one answers unavailable exactly
      if Redis went away before the increment, or after it while an expiry was to be set on an opening request
      or a waiting time to be asked for on a refused one; it refuses exactly the requests beyond the limit. */
  ghost predicate TreatedAsWritten(
    s: Settings, c: Option<Counter>, now: int, redis: Redis, kept: Option<Counter>, v: Verdict)
  {
    var n := Number(s, c, now);
    && (!s.enabled ==> v == Admitted && kept == c)
    && (s.enabled ==>
          && (v == Unavailable <==>
                redis == DownBeforeIncrement || (redis == DownAfterIncrement && (n == 1 || n > s.limit)))
          && (v.Limited? <==> redis == Healthy && n > s.limit)
          && (v.Limited? ==>
                v.retryAfter == (if n > 1 && c.value.expiry.Some? && c.value.expiry.value > now
                                 then c.value.expiry.value - now else s.window))
          && kept == (if redis == DownBeforeIncrement then c
                      else if n > 1 then Some(Counter(n, c.value.expiry))
                      else if redis == DownAfterIncrement then Some(Counter(1, None))
                      else if s.window <= 0 then None
                      else Some(Counter(1, Some(now + s.window)))))
  }

  /** Counters are at least one: INCR creates them so. */
  predicate Positive(c: Option<Counter>) {
    c.Some? ==> c.value.count >= 1
  }

  lemma HitAnswers(s: Settings, c: Option<Counter>, now: int, redis: Redis)
    ensures Positive(c) ==>
      Positive(Hit(s, c, now, redis).0)
      && TreatedAsWritten(s, c, now, redis, Hit(s, c, now, redis).0, Hit(s, c, now, redis).1)
  {
  }

  // ---- The dependency ----

  function KeyFor(bucket: string, client: string): string {
    "cyberlab:ratelimit:" + (bucket + [':'] + client)
  }

  /** Clients and buckets never share a counter: bucket names hold no colon, client addresses may. */
  lemma KeysAreApart(b: string, c: string, b': string, c': string)
    requires ':' !in b && ':' !in b'
    ensures KeyFor(b, c) == KeyFor(b', c') <==> b == b' && c == c'
  {
    var prefix := "cyberlab:ratelimit:";
    if KeyFor(b, c) == KeyFor(b', c') {
      assert KeyFor(b, c)[|prefix|..] == b + [':'] + c;
      assert KeyFor(b', c')[|prefix|..] == b' + [':'] + c';
      SplitFirst(b, c, b', c', ':');
    }
  }

  class Limiter {
    var counters: map<string, Counter>

    function At(key: string): Option<Counter>
      reads this
    {
      if key in counters then Some(counters[key]) else None
    }

    method Store(key: string, c: Option<Counter>)
      modifies this
      ensures At(key) == c
      ensures forall k | k != key :: At(k) == old(At(k))
    {
      if c.Some? {
        counters := counters[key := c.value];
      } else {
        counters := counters - {key};
      }
    }

    method Dependency(s: Settings, bucket: string, client: string, now: int, redis: Redis) returns (v: Verdict)
      modifies this
      ensures (At(KeyFor(bucket, client)), v) == Hit(s, old(At(KeyFor(bucket, client))), now, redis)
      ensures old(Positive(At(KeyFor(bucket, client)))) ==>
        Positive(At(KeyFor(bucket, client)))
        && TreatedAsWritten(s, old(At(KeyFor(bucket, client))), now, redis, At(KeyFor(bucket, client)), v)
      ensures !s.enabled ==> v == Admitted && counters == old(counters)
      ensures forall k | k != KeyFor(bucket, client) :: At(k) == old(At(k))
    {
      HitAnswers(s, At(KeyFor(bucket, client)), now, redis);
      if !s.enabled {
        return Admitted;
      }
      if redis.DownBeforeIncrement? {
        return Unavailable;
      }
      var key := KeyFor(bucket, client);
      var current := Incremented(Live(s, At(key), now));
      Store(key, Some(current));
      var over := current.count > s.limit;
      if redis.DownAfterIncrement? && (current.count == 1 || over) {
        return Unavailable;
      }
      if current.count == 1 {
        var kept := WithExpiry(s, current, now);
        Store(key, kept);
      }
      if over {
        return Limited(RetryAfter(s, At(key), now));
      }
      v := Admitted;
    }
  }

  // ---- Runs of requests for one key, Redis healthy ----

  predicate NotLater(times: seq<int>, i: nat, j: nat)
    requires i < |times| && j < |times|
  {
    times[i] <= times[j]
  }

  ghost predicate Ordered(times: seq<int>) {
    forall i, j | 0 <= i <= j < |times| :: NotLater(times, i, j)
  }

  /** The counter after the requests made at `times`, starting from `c`. */
  function CounterFrom(s: Settings, c: Option<Counter>, times: seq<int>): Option<Counter> {
    if times == [] then c
    else Hit(s, CounterFrom(s, c, times[..|times| - 1]), times[|times| - 1], Healthy).0
  }

  function CounterAfter(s: Settings, times: seq<int>): Option<Counter> {
    CounterFrom(s, None, times)
  }

  function VerdictOf(s: Settings, times: seq<int>, k: nat): Verdict
    requires k < |times|
  {
    Hit(s, CounterAfter(s, times[..k]), times[k], Healthy).1
  }

  /** The request that opened the window request `k` falls in: windows open at the first request and again
      at the first request after the last window has run out. */
  function Opener(s: Settings, times: seq<int>, k: nat): (j: nat)
    requires k < |times|
    ensures j <= k
  {
    if k == 0 then 0
    else
      var j := Opener(s, times, k - 1);
      if s.window <= 0 || Expired(s, times[j] + s.window, times[k]) then k else j
  }

  /** The counter counts the requests of the current window. */
  lemma {:induction false} CounterCountsTheWindow(s: Settings, times: seq<int>, k: nat)
    requires s.enabled && k < |times|
    ensures CounterAfter(s, times[..k + 1]) ==
      if s.window <= 0 then None
      else Some(Counter(k - Opener(s, times, k) + 1, Some(times[Opener(s, times, k)] + s.window)))
    ensures VerdictOf(s, times, k) ==
      if k - Opener(s, times, k) < s.limit then Admitted
      else Limited(RetryAfter(s, CounterAfter(s, times[..k + 1]), times[k]))
  {
    var upTo := times[..k + 1];
    assert upTo[..|upTo| - 1] == times[..k] && upTo[|upTo| - 1] == times[k];
    assert CounterAfter(s, upTo) == Hit(s, CounterAfter(s, times[..k]), times[k], Healthy).0;
    if k > 0 {
      CounterCountsTheWindow(s, times, k - 1);
    }
  }

  lemma {:induction false} WindowIsContiguous(s: Settings, times: seq<int>, i: nat, k: nat)
    requires i <= k < |times| && Opener(s, times, k) <= i
    ensures Opener(s, times, i) == Opener(s, times, k)
    decreases k
  {
    if i < k {
      WindowIsContiguous(s, times, i, k - 1);
    }
  }

  lemma OpenersMeet(s: Settings, times: seq<int>, i: nat, k: nat)
    requires i <= k < |times|
    ensures Opener(s, times, i) == Opener(s, times, k) || i < Opener(s, times, k)
  {
    if Opener(s, times, k) <= i {
      WindowIsContiguous(s, times, i, k);
    }
  }

  lemma OpenerOpens(s: Settings, times: seq<int>, k: nat)
    requires k < |times|
    ensures Opener(s, times, Opener(s, times, k)) == Opener(s, times, k)
  {
    WindowIsContiguous(s, times, Opener(s, times, k), k);
  }

  ghost function Window(s: Settings, times: seq<int>, j: nat): set<nat> {
    set k: nat | k < |times| && Opener(s, times, k) == j
  }

  ghost function AdmittedAmong(s: Settings, times: seq<int>, ks: set<nat>): set<nat> {
    set k | k in ks && k < |times| && VerdictOf(s, times, k).Admitted?
  }

  function Range(lo: nat, hi: nat): (r: set<nat>)
    requires lo <= hi
    ensures |r| == hi - lo && forall k :: k in r <==> lo <= k < hi
    decreases hi - lo
  {
    if lo == hi then {} else {lo} + Range(lo + 1, hi)
  }

  function Least(a: int, b: int): int {
    if a <= b then a else b
  }

  lemma {:induction false} WindowIsARange(s: Settings, times: seq<int>, j: nat, to: nat)
    requires j < to <= |times| && Opener(s, times, j) == j
    requires Opener(s, times, to - 1) == j && (to < |times| ==> Opener(s, times, to) != j)
    ensures Window(s, times, j) == Range(j, to)
  {
    forall k: nat
      ensures k in Window(s, times, j) <==> j <= k < to
    {
      if j <= k < to {
        WindowIsContiguous(s, times, k, to - 1);
      } else if to <= k < |times| && Opener(s, times, k) == j {
        WindowIsContiguous(s, times, to, k);
      }
    }
  }

  lemma {:induction false} WindowEnd(s: Settings, times: seq<int>, j: nat, from: nat) returns (to: nat)
    requires j <= from < |times| && Opener(s, times, from) == j
    ensures from < to <= |times| && Opener(s, times, to - 1) == j
    ensures to < |times| ==> Opener(s, times, to) != j
    decreases |times| - from
  {
    if from + 1 < |times| && Opener(s, times, from + 1) == j {
      to := WindowEnd(s, times, j, from + 1);
    } else {
      to := from + 1;
    }
  }

  /** Each window admits exactly its first `limit` requests: as many as it has, up to the limit. */
  lemma WindowAdmitsUpToTheLimit(s: Settings, times: seq<int>, j: nat)
    requires s.enabled && j < |times| && Opener(s, times, j) == j
    ensures |AdmittedAmong(s, times, Window(s, times, j))| ==
      Least(|Window(s, times, j)|, if s.limit < 0 then 0 else s.limit)
  {
    var to := WindowEnd(s, times, j, j);
    WindowIsARange(s, times, j, to);
    var n := Least(to - j, if s.limit < 0 then 0 else s.limit);
    forall k: nat
      ensures k in AdmittedAmong(s, times, Window(s, times, j)) <==> j <= k < j + n
    {
      if k in Window(s, times, j) {
        CounterCountsTheWindow(s, times, k);
      }
    }
    assert AdmittedAmong(s, times, Window(s, times, j)) == Range(j, j + n);
  }

  // ---- Any interval of the window's length ----

  ghost function Within(times: seq<int>, a: int, b: int): set<nat> {
    set k: nat | k < |times| && a <= times[k] < b
  }

  /** Windows that open inside one interval of the window's length are the same window. */
  lemma OpenedInside(s: Settings, times: seq<int>, a: int, i: nat, k: nat)
    requires Ordered(times) && i <= k < |times| && s.window > 0
    requires a <= times[Opener(s, times, i)] && times[k] < a + s.window
    ensures Opener(s, times, i) == Opener(s, times, k)
  {
    var j := Opener(s, times, k);
    OpenersMeet(s, times, i, k);
    if i < j {
      OpenersAreApart(s, times, i, k);
      InOrder(times, j, k);
    }
  }

  lemma OpenersAreApart(s: Settings, times: seq<int>, i: nat, k: nat)
    requires Ordered(times) && k < |times| && s.window > 0 && i < Opener(s, times, k)
    ensures times[Opener(s, times, i)] + s.window <= times[Opener(s, times, k)]
  {
    var j := Opener(s, times, k);
    OpenerOpens(s, times, k);
    WindowLasts(s, times, j);
    EarlierOpener(s, times, i, j - 1);
  }

  lemma EarlierOpener(s: Settings, times: seq<int>, i: nat, k: nat)
    requires Ordered(times) && i <= k < |times|
    ensures times[Opener(s, times, i)] <= times[Opener(s, times, k)]
  {
    OpenersMeet(s, times, i, k);
    InOrder(times, Opener(s, times, i), Opener(s, times, k));
  }

  lemma InOrder(times: seq<int>, i: nat, j: nat)
    requires Ordered(times) && i <= j < |times|
    ensures times[i] <= times[j]
  {
    assert NotLater(times, i, j);
  }

  /** A request is in the last window until that has run out, and opens one as soon as it has. */
  lemma WindowLasts(s: Settings, times: seq<int>, k: nat)
    requires k < |times| && s.window > 0
    ensures times[k] <= times[Opener(s, times, k)] + s.window
    ensures k > 0 && Opener(s, times, k) == k ==> times[Opener(s, times, k - 1)] + s.window <= times[k]
  {
  }

  /** Requests inside such an interval belong to the window already open at its first request or to one
      other window. */
  lemma AtMostTwoWindows(s: Settings, times: seq<int>, a: int, first: nat, i: nat, k: nat)
    requires Ordered(times) && s.window > 0 && first <= i <= k < |times|
    requires a <= times[first] && times[k] < a + s.window
    requires Opener(s, times, i) != Opener(s, times, first) && Opener(s, times, k) != Opener(s, times, first)
    ensures Opener(s, times, i) == Opener(s, times, k)
  {
    OpenersMeet(s, times, first, i);
    InOrder(times, first, Opener(s, times, i));
    OpenedInside(s, times, a, i, k);
  }

  function Allowance(s: Settings): nat {
    if s.limit < 0 then 0 else s.limit
  }

  /** Requests of one window from index `from` on. */
  lemma FewAdmitted(s: Settings, times: seq<int>, j: nat, from: nat, ks: set<nat>)
    requires s.enabled && j <= from
    requires forall k | k in ks :: from <= k < |times| && Opener(s, times, k) == j
    ensures |AdmittedAmong(s, times, ks)| <= Spare(s, from - j)
  {
    forall k | k in AdmittedAmong(s, times, ks)
      ensures k in Range(from, from + Spare(s, from - j))
    {
      CounterCountsTheWindow(s, times, k);
    }
    SubsetIsSmaller(AdmittedAmong(s, times, ks), Range(from, from + Spare(s, from - j)));
  }

  /** What is left of the allowance after `used` requests. */
  function Spare(s: Settings, used: nat): nat {
    if used >= Allowance(s) then 0 else Allowance(s) - used
  }

  lemma {:induction false} SubsetIsSmaller(a: set<nat>, b: set<nat>)
    requires a <= b
    ensures |a| <= |b|
    decreases a
  {
    if x :| x in a {
      SubsetIsSmaller(a - {x}, b - {x});
    }
  }

  /** In any half-open interval of the window's length fewer than twice the limit get through: a window
      that reaches into the interval from before has spent one request on opening. */
  lemma IntervalAdmitsUnderTwiceTheLimit(s: Settings, times: seq<int>, a: int)
    requires s.enabled && Ordered(times)
    ensures var admitted := |AdmittedAmong(s, times, Within(times, a, a + s.window))|;
            if s.limit <= 0 then admitted == 0 else admitted <= 2 * s.limit - 1
  {
    var inside := Within(times, a, a + s.window);
    if inside != {} {
      var first := Earliest(times, a, a + s.window);
      var j := Opener(s, times, first);
      var earlier := set k | k in inside && Opener(s, times, k) == j;
      var rest := inside - earlier;
      FewAdmitted(s, times, j, first, earlier);
      if other :| other in rest {
        LaterWindow(s, times, a, first, other, rest);
      }
      assert AdmittedAmong(s, times, inside) == AdmittedAmong(s, times, earlier) + AdmittedAmong(s, times, rest);
    }
  }

  lemma LaterWindow(s: Settings, times: seq<int>, a: int, first: nat, other: nat, rest: set<nat>)
    requires s.enabled && Ordered(times) && s.window > 0 && first < |times| && a <= times[first]
    requires other in rest
    requires forall k | k in rest ::
      first <= k < |times| && times[k] < a + s.window && Opener(s, times, k) != Opener(s, times, first)
    ensures Opener(s, times, first) < first
    ensures |AdmittedAmong(s, times, rest)| <= Allowance(s)
  {
    if Opener(s, times, first) == first {
      OpenedInside(s, times, a, first, other);
    }
    forall k | k in rest
      ensures Opener(s, times, other) <= k && Opener(s, times, k) == Opener(s, times, other)
    {
      AtMostTwoWindows(s, times, a, first, if k <= other then k else other, if k <= other then other else k);
    }
    FewAdmitted(s, times, Opener(s, times, other), Opener(s, times, other), rest);
  }

  lemma Earliest(times: seq<int>, a: int, b: int) returns (first: nat)
    requires Within(times, a, b) != {}
    ensures first in Within(times, a, b) && forall k | k in Within(times, a, b) :: first <= k
  {
    first :| first in Within(times, a, b);
    while exists k :: k in Within(times, a, b) && k < first
      invariant first in Within(times, a, b)
      decreases first
    {
      var earlier :| earlier in Within(times, a, b) && earlier < first;
      first := earlier;
    }
  }

  // ---- The bound is reached ----

  /** The last instant at which a window opened at 0 still counts. */
  function LastInstant(s: Settings): int {
    if s.inclusive then s.window else s.window - 1
  }

  /** One request at 0, the rest of the allowance at the last instant of its window, a full allowance right
      after. */
  function Burst(s: Settings): seq<int>
    requires s.limit > 0
  {
    var last := LastInstant(s);
    seq(2 * s.limit, i requires 0 <= i < 2 * s.limit => if i == 0 then 0 else if i < s.limit then last else last + 1)
  }

  lemma {:induction false} BurstOpeners(s: Settings, k: nat)
    requires s.limit > 0 && s.window > 1 && k < 2 * s.limit
    ensures Opener(s, Burst(s), k) == if k < s.limit then 0 else s.limit
  {
    if k > 0 {
      BurstOpeners(s, k - 1);
    }
  }

  lemma BurstIsOrdered(s: Settings)
    requires s.limit > 0 && s.window > 1
    ensures Ordered(Burst(s))
  {
    forall i, j | 0 <= i <= j < |Burst(s)|
      ensures NotLater(Burst(s), i, j)
    {
    }
  }

  lemma BurstAdmits(s: Settings, k: nat)
    requires s.enabled && s.limit > 0 && s.window > 1 && k < 2 * s.limit
    ensures VerdictOf(s, Burst(s), k).Admitted?
    ensures k in Within(Burst(s), LastInstant(s), LastInstant(s) + s.window) <==> k > 0
  {
    BurstOpeners(s, k);
    CounterCountsTheWindow(s, Burst(s), k);
  }

  lemma BoundIsReached(s: Settings)
    requires s.enabled && s.limit > 0 && s.window > 1
    ensures Ordered(Burst(s))
    ensures
      |AdmittedAmong(s, Burst(s), Within(Burst(s), LastInstant(s), LastInstant(s) + s.window))| == 2 * s.limit - 1
  {
    BurstIsOrdered(s);
    var inside := Within(Burst(s), LastInstant(s), LastInstant(s) + s.window);
    forall k: nat
      ensures k in AdmittedAmong(s, Burst(s), inside) <==> 1 <= k < 2 * s.limit
    {
      if k < 2 * s.limit {
        BurstAdmits(s, k);
      }
    }
    assert AdmittedAmong(s, Burst(s), inside) == Range(1, 2 * s.limit);
  }

  /** A request that opens no window falls into one that has not run out; one that opens a window finds the
      last one run out. */
  lemma OpenerMeaning(s: Settings, times: seq<int>, k: nat)
    requires k < |times| && s.window > 0
    ensures Opener(s, times, k) != k ==> !Expired(s, times[Opener(s, times, k)] + s.window, times[k])
    ensures k > 0 && Opener(s, times, k) == k ==>
      Expired(s, times[Opener(s, times, k - 1)] + s.window, times[k])
  {
  }

  /** Requests made at one instant share a window. */
  lemma OneInstantOneWindow(s: Settings, times: seq<int>, i: nat, k: nat)
    requires Ordered(times) && s.window > 0 && i <= k < |times| && times[i] == times[k]
    ensures Opener(s, times, i) == Opener(s, times, k)
  {
    var j := Opener(s, times, k);
    OpenersMeet(s, times, i, k);
    if i < j {
      InOrder(times, i, j);
      InOrder(times, j, k);
      OpenerOpens(s, times, k);
      OpenerMeaning(s, times, j);
      SameInstantIsNotExpired(s, times, i, j - 1);
    }
  }

  lemma SameInstantIsNotExpired(s: Settings, times: seq<int>, i: nat, k: nat)
    requires Ordered(times) && s.window > 0 && i <= k < |times|
    ensures !Expired(s, times[Opener(s, times, k)] + s.window, times[i])
  {
    OpenersMeet(s, times, i, k);
    OpenerMeaning(s, times, i);
    if i <= Opener(s, times, k) {
      InOrder(times, i, Opener(s, times, k));
    }
  }

  lemma OneTickAdmitsTheLimit(s: Settings, times: seq<int>, a: int)
    requires s.enabled && s.window == 1 && Ordered(times)
    ensures |AdmittedAmong(s, times, Within(times, a, a + 1))| <= Allowance(s)
  {
    var inside := Within(times, a, a + 1);
    if inside != {} {
      var first := Earliest(times, a, a + 1);
      forall k | k in inside
        ensures Opener(s, times, k) == Opener(s, times, first)
      {
        OneInstantOneWindow(s, times, first, k);
      }
      FewAdmitted(s, times, Opener(s, times, first), first, inside);
    }
  }

  ghost predicate ReachesBound(s: Settings, times: seq<int>, a: int) {
    Ordered(times) && |AdmittedAmong(s, times, Within(times, a, a + s.window))| == 2 * s.limit - 1
  }

  /** The bound is sharp for every window of more than one tick, whatever the store does at the very instant
      of expiry; in a window of one tick two windows never meet. */
  lemma BoundIsReachedIff(s: Settings)
    requires s.enabled && s.limit > 0
    ensures (exists times, a :: ReachesBound(s, times, a)) <==>
      s.window > 1 || (s.window == 1 && s.limit == 1)
  {
    if s.window > 1 {
      BoundIsReached(s);
      assert ReachesBound(s, Burst(s), LastInstant(s));
    } else if s.window == 1 && s.limit == 1 {
      OneRequestIsAdmitted(s);
    } else if times, a :| ReachesBound(s, times, a) {
      if s.window == 1 {
        OneTickAdmitsTheLimit(s, times, a);
      } else {
        NoTickAdmitsNothing(s, times, a);
      }
    }
  }

  lemma NoTickAdmitsNothing(s: Settings, times: seq<int>, a: int)
    requires s.window <= 0
    ensures |AdmittedAmong(s, times, Within(times, a, a + s.window))| == 0
  {
    assert AdmittedAmong(s, times, Within(times, a, a + s.window)) == {};
  }

  lemma OneRequestIsAdmitted(s: Settings)
    requires s.enabled && s.limit == 1 && s.window == 1
    ensures ReachesBound(s, [0], 0)
  {
    CounterCountsTheWindow(s, [0], 0);
    assert AdmittedAmong(s, [0], Within([0], 0, 1)) == {0};
    assert NotLater([0], 0, 0);
  }

  // ---- Waiting, and a lost expiry ----

  /** A refused client is told when its window ends, and further requests before then do not push it back:
      they are refused too, and the first one after it opens a new window. */
  lemma RetryAfterIsHonest(s: Settings, times: seq<int>, k: nat, m: nat)
    requires s.enabled && s.window > 0 && Ordered(times) && k < m < |times|
    requires VerdictOf(s, times, k).Limited?
    ensures var end := times[Opener(s, times, k)] + s.window;
            (times[k] == end || VerdictOf(s, times, k) == Limited(end - times[k]))
            && (times[m] < end ==> VerdictOf(s, times, m).Limited?)
            && (times[m] > end ==> Opener(s, times, m) > k)
  {
    CounterCountsTheWindow(s, times, k);
    CounterCountsTheWindow(s, times, m);
    WindowLasts(s, times, k);
    WindowLasts(s, times, m);
    OpenersMeet(s, times, k, m);
    if k < Opener(s, times, m) {
      OpenersAreApart(s, times, k, m);
      InOrder(times, Opener(s, times, m), m);
    }
  }

  // ---- A lost expiry ----

  /** A counter is left without an expiry exactly when Redis goes away after the increment that opens a
      window and before the expiry is set. */
  lemma ExpiryIsLostIff(s: Settings, c: Option<Counter>, now: int, redis: Redis)
    requires s.enabled && (c.Some? ==> c.value.expiry.Some?)
    ensures var kept := Hit(s, c, now, redis).0;
            kept.Some? && kept.value.expiry.None? <==> redis.DownAfterIncrement? && Live(s, c, now).None?
  {
  }

  /** If Redis goes away between the increment that opens a window and its expiry, the counter has no end:
      from then on the client gets the rest of one allowance, and after that nothing, ever. */
  lemma {:induction false} LostExpiryNeverRecovers(s: Settings, start: int, times: seq<int>, k: nat)
    requires s.enabled && k < |times|
    ensures var lost := Hit(s, None, start, DownAfterIncrement);
            lost == (Some(Counter(1, None)), Unavailable)
            && CounterFrom(s, lost.0, times[..k]) == Some(Counter(k + 1, None))
            && (Hit(s, CounterFrom(s, lost.0, times[..k]), times[k], Healthy).1.Admitted? <==> k + 2 <= s.limit)
  {
    if k > 0 {
      LostExpiryNeverRecovers(s, start, times, k - 1);
      assert times[..k][..k - 1] == times[..k - 1];
    }
  }
}
