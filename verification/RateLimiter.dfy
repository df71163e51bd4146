/** The fixed-window limiter against an ideal counter that forgets nothing. */
module Windows {
  import opened Numbers

  /** One minute in nanoseconds; instants are nanoseconds. */
  const MINUTE: nat := 60_000_000_000

  function Truncate(t: nat): nat {
    t - t % MINUTE
  }

  /** What became of a counter increment sent to Redis. */
  datatype Reply = Counted | CountedThenFailed | Failed

  /** One counted call: a LocalCall under the limiter's mutex, or an increment sent to Redis. */
  datatype Event =
    | LocalCall(key: string, at: nat)
    | RedisCall(key: string, at: nat, reply: Reply)

  predicate CountsLocally(e: Event, key: string, window: nat) {
    e.LocalCall? && e.key == key && Truncate(e.at) == window
  }

  predicate CountsInRedis(e: Event, key: string, window: nat) {
    e.RedisCall? && e.reply != Failed && e.key == key && Truncate(e.at) == window
  }

  /** The ideal counters: all calls of a key in a window, over the whole history. */
  function LocalCount(h: seq<Event>, key: string, window: nat): nat {
    if h == [] then 0
    else LocalCount(h[..|h| - 1], key, window) + (if CountsLocally(h[|h| - 1], key, window) then 1 else 0)
  }

  function RedisCount(h: seq<Event>, key: string, window: nat): nat {
    if h == [] then 0
    else RedisCount(h[..|h| - 1], key, window) + (if CountsInRedis(h[|h| - 1], key, window) then 1 else 0)
  }

  lemma CountsAppend(h: seq<Event>, e: Event, key: string, window: nat)
    ensures LocalCount(h + [e], key, window)
         == LocalCount(h, key, window) + (if CountsLocally(e, key, window) then 1 else 0)
    ensures RedisCount(h + [e], key, window)
         == RedisCount(h, key, window) + (if CountsInRedis(e, key, window) then 1 else 0)
  {
  }

  predicate NothingAfter(h: seq<Event>, now: nat) {
    forall i | 0 <= i < |h| :: h[i].at <= now
  }

  lemma TruncateMonotone(a: nat, b: nat)
    requires a <= b
    ensures Truncate(a) <= Truncate(b)
  {
  }

  lemma {:induction false} NoCallsAhead(h: seq<Event>, now: nat, key: string, window: nat)
    requires NothingAfter(h, now) && window > Truncate(now)
    ensures LocalCount(h, key, window) == 0
  {
    if h != [] {
      NoCallsAhead(h[..|h| - 1], now, key, window);
      TruncateMonotone(h[|h| - 1].at, now);
    }
  }

  /** The number of its call that the backend of h's last call has counted. */
  function Tally(h: seq<Event>): nat
    requires h != []
  {
    match h[|h| - 1]
    case LocalCall(key, at) => LocalCount(h, key, Truncate(at))
    case RedisCall(key, at, _) => RedisCount(h, key, Truncate(at))
  }

  /** The last call of h is let through by a limit. */
  predicate Admits(limit: int, h: seq<Event>) {
    h != [] && (h[|h| - 1].RedisCall? ==> h[|h| - 1].reply == Counted) && Tally(h) <= limit
  }

  function LocalAdmissions(limit: int, h: seq<Event>, key: string, window: nat): nat {
    if h == [] then 0
    else
      LocalAdmissions(limit, h[..|h| - 1], key, window)
      + (if CountsLocally(h[|h| - 1], key, window) && Admits(limit, h) then 1 else 0)
  }

  function RedisAdmissions(limit: int, h: seq<Event>, key: string, window: nat): nat {
    if h == [] then 0
    else
      RedisAdmissions(limit, h[..|h| - 1], key, window)
      + (if CountsInRedis(h[|h| - 1], key, window) && Admits(limit, h) then 1 else 0)
  }

  /** Each backend alone admits the first limit calls it counts in a window: the local one exactly, Redis at
      most that many, and exactly when no reply was lost. */
  lemma {:induction false} OneBackendAdmitsTheFirst(limit: int, h: seq<Event>, key: string, window: nat)
    ensures LocalAdmissions(limit, h, key, window) == Min(Max(0, limit), LocalCount(h, key, window))
    ensures RedisAdmissions(limit, h, key, window) <= Min(Max(0, limit), RedisCount(h, key, window))
    ensures (forall i | 0 <= i < |h| :: h[i].RedisCall? ==> h[i].reply != CountedThenFailed) ==>
              RedisAdmissions(limit, h, key, window) == Min(Max(0, limit), RedisCount(h, key, window))
  {
    if h != [] {
      OneBackendAdmitsTheFirst(limit, h[..|h| - 1], key, window);
    }
  }

  predicate WithinSpan(e: Event, from: nat) {
    from <= e.at < from + MINUTE
  }

  /** Admissions of a key whose counting moment lies in the half-open minute that starts at from. */
  function SpanAdmissions(limit: int, h: seq<Event>, key: string, from: nat): nat {
    if h == [] then 0
    else
      SpanAdmissions(limit, h[..|h| - 1], key, from)
      + (if h[|h| - 1].key == key && WithinSpan(h[|h| - 1], from) && Admits(limit, h) then 1 else 0)
  }

  lemma SpanTouchesTwoWindows(at: nat, from: nat)
    requires from <= at < from + MINUTE
    ensures Truncate(at) == Truncate(from) || Truncate(at) == Truncate(from) + MINUTE
  {
  }

  lemma {:induction false} SpanIsWithinTwoWindows(limit: int, h: seq<Event>, key: string, from: nat)
    ensures var w := Truncate(from);
            SpanAdmissions(limit, h, key, from)
            <= LocalAdmissions(limit, h, key, w) + LocalAdmissions(limit, h, key, w + MINUTE)
               + RedisAdmissions(limit, h, key, w) + RedisAdmissions(limit, h, key, w + MINUTE)
  {
    if h != [] {
      SpanIsWithinTwoWindows(limit, h[..|h| - 1], key, from);
      if WithinSpan(h[|h| - 1], from) {
        SpanTouchesTwoWindows(h[|h| - 1].at, from);
      }
    }
  }

  predicate WithoutRedis(h: seq<Event>) {
    forall i | 0 <= i < |h| :: h[i].LocalCall?
  }

  /** Whatever Redis does, a key gets at most 2 * limit requests through in a window and 4 * limit in any
      minute; half as many if only one backend ever answers. */
  lemma AdmissionBounds(limit: int, h: seq<Event>, key: string, window: nat, from: nat)
    ensures LocalAdmissions(limit, h, key, window) + RedisAdmissions(limit, h, key, window) <= 2 * Max(0, limit)
    ensures SpanAdmissions(limit, h, key, from) <= 4 * Max(0, limit)
    ensures WithoutRedis(h) ==> SpanAdmissions(limit, h, key, from) <= 2 * Max(0, limit)
  {
    var w := Truncate(from);
    OneBackendAdmitsTheFirst(limit, h, key, window);
    OneBackendAdmitsTheFirst(limit, h, key, w);
    OneBackendAdmitsTheFirst(limit, h, key, w + MINUTE);
    SpanIsWithinTwoWindows(limit, h, key, from);
    if WithoutRedis(h) {
      NoRedisWithoutRedis(h, key, w);
      NoRedisWithoutRedis(h, key, w + MINUTE);
    }
  }

  lemma {:induction false} NoRedisWithoutRedis(h: seq<Event>, key: string, window: nat)
    requires WithoutRedis(h)
    ensures RedisCount(h, key, window) == 0
  {
    if h != [] {
      NoRedisWithoutRedis(h[..|h| - 1], key, window);
    }
  }

  /** Requests served one after the other leave h: time moves forward, and with Redis in front a call is counted
      locally only right after its increment failed. */
  predicate Possible(h: seq<Event>, redis: bool) {
    && (forall i, j | 0 <= i < j < |h| :: h[i].at <= h[j].at)
    && (if redis then
          forall i | 0 <= i < |h| && h[i].LocalCall? :: i > 0 && h[i - 1] == RedisCall(h[i].key, h[i].at, Failed)
        else WithoutRedis(h))
  }

  /** One request; with Redis, one that it counts and one that it fails. */
  function Round(key: string, at: nat, redis: bool): seq<Event> {
    if redis then [RedisCall(key, at, Counted), RedisCall(key, at, Failed), LocalCall(key, at)]
    else [LocalCall(key, at)]
  }

  /** n rounds at one instant. */
  function Burst(key: string, at: nat, n: nat, redis: bool): seq<Event> {
    if n == 0 then [] else Burst(key, at, n - 1, redis) + Round(key, at, redis)
  }

  lemma RoundIsPossible(h: seq<Event>, key: string, at: nat, redis: bool)
    requires Possible(h, redis) && NothingAfter(h, at)
    ensures Possible(h + Round(key, at, redis), redis)
  {
    var h' := h + Round(key, at, redis);
    forall i | 0 <= i < |h'| && h'[i].LocalCall? && redis
      ensures i > 0 && h'[i - 1] == RedisCall(h'[i].key, h'[i].at, Failed)
    {
      assert i < |h| ==> h'[i] == h[i];
    }
  }

  lemma {:induction false} BurstShape(key: string, at: nat, n: nat, redis: bool)
    ensures var h := Burst(key, at, n, redis);
            && Possible(h, redis)
            && (forall i | 0 <= i < |h| :: h[i].key == key && h[i].at == at)
            && (forall i | 0 <= i < |h| && h[i].RedisCall? :: h[i].reply != CountedThenFailed)
  {
    if n > 0 {
      BurstShape(key, at, n - 1, redis);
      hide Possible;
      RoundIsPossible(Burst(key, at, n - 1, redis), key, at, redis);
    }
  }

  lemma RoundCounts(h: seq<Event>, key: string, at: nat, redis: bool, window: nat)
    ensures var h', more := h + Round(key, at, redis), if Truncate(at) == window then 1 else 0;
            && LocalCount(h', key, window) == LocalCount(h, key, window) + more
            && RedisCount(h', key, window) == RedisCount(h, key, window) + (if redis then more else 0)
  {
    hide LocalCount, RedisCount, Truncate;
    if redis {
      var one := h + [RedisCall(key, at, Counted)];
      var two := one + [RedisCall(key, at, Failed)];
      CountsAppend(h, RedisCall(key, at, Counted), key, window);
      CountsAppend(one, RedisCall(key, at, Failed), key, window);
      CountsAppend(two, LocalCall(key, at), key, window);
      assert h + Round(key, at, redis) == two + [LocalCall(key, at)];
    } else {
      CountsAppend(h, LocalCall(key, at), key, window);
    }
  }

  lemma {:induction false} BurstCounts(h: seq<Event>, key: string, at: nat, n: nat, redis: bool, window: nat)
    ensures var h', more := h + Burst(key, at, n, redis), if Truncate(at) == window then n else 0;
            && LocalCount(h', key, window) == LocalCount(h, key, window) + more
            && RedisCount(h', key, window) == RedisCount(h, key, window) + (if redis then more else 0)
  {
    hide LocalCount, RedisCount, Truncate, Round;
    if n == 0 {
      assert h + Burst(key, at, n, redis) == h;
    } else {
      var front := h + Burst(key, at, n - 1, redis);
      BurstCounts(h, key, at, n - 1, redis, window);
      RoundCounts(front, key, at, redis, window);
      assert h + Burst(key, at, n, redis) == front + Round(key, at, redis);
    }
  }

  /** If all calls are of the key and in the span, the admissions of the two windows are those of the span. */
  lemma {:induction false} SpanIsTwoWindows(limit: int, h: seq<Event>, key: string, from: nat)
    requires forall i | 0 <= i < |h| :: h[i].key == key && WithinSpan(h[i], from)
    ensures var w := Truncate(from);
            SpanAdmissions(limit, h, key, from)
            == LocalAdmissions(limit, h, key, w) + LocalAdmissions(limit, h, key, w + MINUTE)
               + RedisAdmissions(limit, h, key, w) + RedisAdmissions(limit, h, key, w + MINUTE)
  {
    if h != [] {
      SpanIsTwoWindows(limit, h[..|h| - 1], key, from);
      SpanTouchesTwoWindows(h[|h| - 1].at, from);
    }
  }

  /** A minute that is a window touches no other. */
  lemma {:induction false} AlignedSpanIsOneWindow(limit: int, h: seq<Event>, key: string, from: nat)
    requires from % MINUTE == 0
    ensures SpanAdmissions(limit, h, key, from)
         <= LocalAdmissions(limit, h, key, from) + RedisAdmissions(limit, h, key, from)
  {
    if h != [] {
      AlignedSpanIsOneWindow(limit, h[..|h| - 1], key, from);
      if WithinSpan(h[|h| - 1], from) {
        SpanTouchesTwoWindows(h[|h| - 1].at, from);
      }
    }
  }

  /** Backends that each give a key its allowance. */
  function Backends(redis: bool): nat {
    if redis then 2 else 1
  }

  /** A burst at the start of a minute and one at a later moment of it. */
  function TwoBursts(key: string, from: nat, later: nat, n: nat, redis: bool): seq<Event> {
    Burst(key, from, n, redis) + Burst(key, later, n, redis)
  }

  lemma TwoBurstsShape(key: string, from: nat, later: nat, n: nat, redis: bool)
    requires from <= later < from + MINUTE
    ensures var h := TwoBursts(key, from, later, n, redis);
            && Possible(h, redis)
            && (forall i | 0 <= i < |h| :: h[i].key == key && WithinSpan(h[i], from))
            && (forall i | 0 <= i < |h| && h[i].RedisCall? :: h[i].reply != CountedThenFailed)
  {
    hide Burst;
    BurstShape(key, from, n, redis);
    BurstShape(key, later, n, redis);
    var a, b, h := Burst(key, from, n, redis), Burst(key, later, n, redis), TwoBursts(key, from, later, n, redis);
    forall i | 0 <= i < |h| && h[i].LocalCall? && redis
      ensures i > 0 && h[i - 1] == RedisCall(h[i].key, h[i].at, Failed)
    {
      if i >= |a| {
        assert h[i] == b[i - |a|];
      }
    }
  }

  lemma TwoBurstsAreAdmitted(limit: int, key: string, from: nat, later: nat, redis: bool, window: nat)
    requires from <= later < from + MINUTE
    requires Truncate(from) != Truncate(later) && (window == Truncate(from) || window == Truncate(later))
    ensures var n := Max(0, limit);
            var h := TwoBursts(key, from, later, n, redis);
            && LocalAdmissions(limit, h, key, window) == n
            && RedisAdmissions(limit, h, key, window) == (if redis then n else 0)
  {
    hide LocalCount, RedisCount, LocalAdmissions, RedisAdmissions, Truncate, Burst, Possible;
    var n := Max(0, limit);
    var a := Burst(key, from, n, redis);
    BurstCounts([], key, from, n, redis, window);
    assert [] + a == a;
    NoCallsNoCount(key, window);
    BurstCounts(a, key, later, n, redis, window);
    TwoBurstsShape(key, from, later, n, redis);
    OneBackendAdmitsTheFirst(limit, TwoBursts(key, from, later, n, redis), key, window);
  }

  lemma NoCallsNoCount(key: string, window: nat)
    ensures LocalCount([], key, window) == 0 && RedisCount([], key, window) == 0
  {
  }

  lemma BoundaryOf(from: nat)
    requires from % MINUTE != 0
    ensures from <= Truncate(from) + MINUTE < from + MINUTE
    ensures Truncate(Truncate(from) + MINUTE) == Truncate(from) + MINUTE
  {
  }

  /** The bounds are reached, for every limit and key and in every minute that straddles two windows: two bursts,
      one at the start of the minute and one at the boundary in it, take every backend's allowance twice. */
  lemma AdmissionBoundsAreReached(limit: int, key: string, from: nat, redis: bool) returns (h: seq<Event>)
    requires from % MINUTE != 0
    ensures Possible(h, redis)
    ensures SpanAdmissions(limit, h, key, from) == 2 * Backends(redis) * Max(0, limit)
    ensures var window := Truncate(from);
            LocalAdmissions(limit, h, key, window) + RedisAdmissions(limit, h, key, window)
            == Backends(redis) * Max(0, limit)
  {
    hide Truncate, LocalAdmissions, RedisAdmissions, SpanAdmissions, TwoBursts, Possible;
    var boundary, n := Truncate(from) + MINUTE, Max(0, limit);
    BoundaryOf(from);
    h := TwoBursts(key, from, boundary, n, redis);
    TwoBurstsShape(key, from, boundary, n, redis);
    TwoBurstsAreAdmitted(limit, key, from, boundary, redis, Truncate(from));
    TwoBurstsAreAdmitted(limit, key, from, boundary, redis, boundary);
    SpanIsTwoWindows(limit, h, key, from);
  }

  /** A minute never gets more than one allowance from each backend exactly when it is a window of the limiter, or
      nothing is let through at all. */
  lemma OneAllowanceIffAligned(limit: int, key: string, from: nat, redis: bool)
    ensures (forall h | redis || WithoutRedis(h) ::
               SpanAdmissions(limit, h, key, from) <= Backends(redis) * Max(0, limit))
       <==> from % MINUTE == 0 || limit <= 0
  {
    if from % MINUTE == 0 || limit <= 0 {
      forall h | redis || WithoutRedis(h)
        ensures SpanAdmissions(limit, h, key, from) <= Backends(redis) * Max(0, limit)
      {
        AdmissionBounds(limit, h, key, from, from);
        if from % MINUTE == 0 {
          AlignedSpanIsOneWindow(limit, h, key, from);
          OneBackendAdmitsTheFirst(limit, h, key, from);
          if !redis {
            NoRedisWithoutRedis(h, key, from);
          }
        }
      }
    } else {
      var h := AdmissionBoundsAreReached(limit, key, from, redis);
    }
  }

  const SECOND: nat := 1_000_000_000

  /** The start of the next minute. */
  function ResetAfter(at: nat): nat {
    (at / 60_000_000_000 + 1) * 60_000_000_000
  }

  /** The whole seconds left until the reset, but at least one. */
  predicate ToldToWait(now: nat, seconds: nat) {
    || (seconds == 1 && ResetAfter(now) < now + SECOND)
    || (seconds >= 1 && now + seconds * SECOND <= ResetAfter(now) < now + (seconds + 1) * SECOND)
  }

  lemma WholeSecondsLeft(now: nat)
    ensures now < ResetAfter(now) <= now + MINUTE
    ensures var seconds := (ResetAfter(now) - now) / 1_000_000_000;
            0 <= seconds <= 60 && ToldToWait(now, if seconds < 1 then 1 else seconds)
  {
    var left := ResetAfter(now) - now;
    assert left == SECOND * (left / SECOND) + left % SECOND;
  }

  /** No call of the key is counted from the given window on. */
  predicate QuietFrom(h: seq<Event>, key: string, from: nat) {
    forall i | 0 <= i < |h| && h[i].key == key :: h[i].at < from
  }

  lemma {:induction false} QuietCountsNothing(h: seq<Event>, key: string, from: nat, at: nat)
    requires QuietFrom(h, key, from) && from % MINUTE == 0 && from <= at
    ensures LocalCount(h, key, Truncate(at)) == 0
  {
    if h != [] {
      var front, last := h[..|h| - 1], h[|h| - 1];
      assert QuietFrom(front, key, from);
      QuietCountsNothing(front, key, from, at);
      if last.key == key {
        TruncateMonotone(from, at);
        assert Truncate(last.at) <= last.at < from;
      }
    }
  }

  lemma {:induction false} CountsGrow(h: seq<Event>, more: seq<Event>, key: string, window: nat)
    ensures LocalCount(h, key, window) <= LocalCount(h + more, key, window)
  {
    if more == [] {
      assert h + more == h;
    } else {
      var front := more[..|more| - 1];
      CountsGrow(h, front, key, window);
      assert h + more == (h + front) + [more[|more| - 1]];
      CountsAppend(h + front, more[|more| - 1], key, window);
    }
  }

  lemma ResetIsTheBoundary(at: nat)
    ensures ResetAfter(at) == Truncate(at) + MINUTE && ResetAfter(at) % MINUTE == 0
  {
  }

  lemma SameWindowUntilReset(at: nat, later: nat)
    requires at <= later
    ensures later < ResetAfter(at) ==> Truncate(later) == Truncate(at)
    ensures later >= ResetAfter(at) ==> Truncate(later) >= ResetAfter(at)
  {
  }

  /** A call that the local limiter turned away at one moment comes back later, with any calls of others and of the
      same client before the reset in between: it is let through if and only if it waited for the reset, and then
      it is counted as the first. */
  lemma ComesBackIffReset(limit: int, h: seq<Event>, key: string, counted: nat, more: seq<Event>, at: nat)
    requires h != [] && h[|h| - 1] == LocalCall(key, counted) && NothingAfter(h, counted) && !Admits(limit, h)
    requires counted <= at && QuietFrom(more, key, ResetAfter(counted))
    ensures var h' := h + more + [LocalCall(key, at)];
            && (Admits(limit, h') <==> at >= ResetAfter(counted) && limit >= 1)
            && (at >= ResetAfter(counted) ==> Tally(h') == 1)
  {
    var before, e := h + more, LocalCall(key, at);
    assert Tally(h) == LocalCount(h, key, Truncate(counted)) && Tally(h) > limit;
    CountsAppend(before, e, key, Truncate(at));
    assert Tally(before + [e]) == LocalCount(before + [e], key, Truncate(at));
    SameWindowUntilReset(counted, at);
    ResetIsTheBoundary(counted);
    hide LocalCount;
    if at >= ResetAfter(counted) {
      assert QuietFrom(before, key, ResetAfter(counted)) by {
        assert counted < ResetAfter(counted);
      }
      QuietCountsNothing(before, key, ResetAfter(counted), at);
    } else {
      CountsGrow(h, more, key, Truncate(counted));
    }
  }

  /** A client that waits exactly as long as it was told at the moment now is let through if and only if a new
      window had begun since its call was counted, or the time to the reset was a whole number of seconds or less
      than one: in all other cases the seconds are rounded down and it comes back too early. */
  lemma WaitingAsToldIff(limit: int, h: seq<Event>, key: string, counted: nat, more: seq<Event>, now: nat, seconds: nat)
    requires h != [] && h[|h| - 1] == LocalCall(key, counted) && NothingAfter(h, counted) && !Admits(limit, h)
    requires counted <= now && ToldToWait(now, seconds) && QuietFrom(more, key, ResetAfter(counted)) && limit >= 1
    ensures Admits(limit, h + more + [LocalCall(key, now + seconds * SECOND)])
       <==> || now >= ResetAfter(counted)
            || (ResetAfter(now) - now) % SECOND == 0 || ResetAfter(now) - now < SECOND
  {
    ComesBackIffReset(limit, h, key, counted, more, now + seconds * SECOND);
    WholeSecondsReachTheReset(now, seconds);
    if now < ResetAfter(counted) {
      SameReset(counted, now);
    }
  }

  lemma SameReset(counted: nat, now: nat)
    requires counted <= now < ResetAfter(counted)
    ensures ResetAfter(now) == ResetAfter(counted)
  {
    SameWindowUntilReset(counted, now);
    ResetIsTheBoundary(counted);
    ResetIsTheBoundary(now);
  }

  lemma WholeSecondsReachTheReset(now: nat, seconds: nat)
    requires ToldToWait(now, seconds)
    ensures now + seconds * SECOND >= ResetAfter(now)
       <==> (ResetAfter(now) - now) % SECOND == 0 || ResetAfter(now) - now < SECOND
  {
    var left := ResetAfter(now) - now;
    if now + seconds * SECOND <= ResetAfter(now) {
      assert left / SECOND == seconds;
    }
  }

  function WindowKeys(h: seq<Event>, window: nat): set<string> {
    set i | 0 <= i < |h| && h[i].LocalCall? && Truncate(h[i].at) == window :: h[i].key
  }

  lemma {:induction false} CountedKeysAreWindowKeys(h: seq<Event>, key: string, window: nat)
    ensures LocalCount(h, key, window) > 0 <==> key in WindowKeys(h, window)
  {
    if h != [] {
      CountedKeysAreWindowKeys(h[..|h| - 1], key, window);
      var front, last := h[..|h| - 1], h[|h| - 1];
      assert WindowKeys(h, window)
          == WindowKeys(front, window) + (if last.LocalCall? && Truncate(last.at) == window then {last.key} else {})
      by {
        forall i | 0 <= i < |h| && h[i].LocalCall? && Truncate(h[i].at) == window
          ensures h[i].key in WindowKeys(front, window) || (i == |h| - 1)
        {
          if i < |h| - 1 {
            assert front[i] == h[i];
          }
        }
        forall k | k in WindowKeys(front, window) ensures k in WindowKeys(h, window) {
          var i :| 0 <= i < |front| && front[i].LocalCall? && Truncate(front[i].at) == window && front[i].key == k;
          assert h[i] == front[i];
        }
      }
    }
  }
}

module RateLimiter {
  import opened Numbers
  import opened Windows

  const CLEANUP_SIZE: nat := 512

  datatype Bucket = Bucket(window: nat, count: nat)

  datatype Verdict =
    | Passed(remaining: nat, resetAt: nat)
    | Limited(resetAt: nat, retryAfter: nat)

  /** A bucket that is there counts its window; a key without a bucket for the present window has no call in it. */
  ghost predicate BucketOK(local: map<string, Bucket>, h: seq<Event>, now: nat, key: string) {
    && (key in local ==>
          && local[key].window <= Truncate(now)
          && 0 < local[key].count == LocalCount(h, key, local[key].window))
    && (key !in local || local[key].window != Truncate(now) ==> LocalCount(h, key, Truncate(now)) == 0)
  }

  ghost predicate Agrees(local: map<string, Bucket>, h: seq<Event>, now: nat) {
    && NothingAfter(h, now)
    && forall key :: BucketOK(local, h, now, key)
  }

  /** What Valid says survives the passing of time: the step that Interfere allows and Wait performs. */
  lemma TimePasses(local: map<string, Bucket>, h: seq<Event>, now: nat, later: nat)
    requires Agrees(local, h, now) && now <= later
    ensures Agrees(local, h, later)
  {
    TruncateMonotone(now, later);
    forall key ensures BucketOK(local, h, later, key) {
      assert BucketOK(local, h, now, key);
      if Truncate(now) < Truncate(later) {
        NoCallsAhead(h, now, key, Truncate(later));
      }
    }
  }

  /** The map after its expired buckets are dropped. */
  function Pruned(local: map<string, Bucket>, window: nat): map<string, Bucket> {
    if |local| < CLEANUP_SIZE then local
    else map key | key in local && local[key].window >= window :: local[key]
  }

  lemma PruningForgetsNothing(local: map<string, Bucket>, h: seq<Event>, now: nat)
    requires Agrees(local, h, now)
    ensures Agrees(Pruned(local, Truncate(now)), h, now)
  {
    forall key ensures BucketOK(Pruned(local, Truncate(now)), h, now, key) {
      assert BucketOK(local, h, now, key);
    }
  }

  /** What incrementLocal stores for a key. */
  function NextBucket(local: map<string, Bucket>, key: string, window: nat): Bucket {
    if key in local && local[key].window == window then Bucket(window, local[key].count + 1) else Bucket(window, 1)
  }

  lemma CountingAgrees(local: map<string, Bucket>, h: seq<Event>, now: nat, key: string)
    requires Agrees(local, h, now)
    ensures var h' := h + [LocalCall(key, now)];
            && Agrees(local[key := NextBucket(local, key, Truncate(now))], h', now)
            && NextBucket(local, key, Truncate(now)).count == LocalCount(h', key, Truncate(now))
  {
    var w, e := Truncate(now), LocalCall(key, now);
    var local' := local[key := NextBucket(local, key, w)];
    forall k ensures BucketOK(local', h + [e], now, k) {
      assert BucketOK(local, h, now, k);
      CountsAppend(h, e, k, w);
      if k in local {
        CountsAppend(h, e, k, local[k].window);
      }
    }
    assert BucketOK(local', h + [e], now, key);
  }

  /** After pruning, every bucket belongs to a key called in the present window. */
  lemma PrunedIsSmall(local: map<string, Bucket>, h: seq<Event>, now: nat)
    requires Agrees(local, h, now) && |local| >= CLEANUP_SIZE
    ensures Pruned(local, Truncate(now)).Keys <= WindowKeys(h, Truncate(now))
  {
    forall key | key in Pruned(local, Truncate(now)) ensures key in WindowKeys(h, Truncate(now)) {
      assert BucketOK(local, h, now, key);
      CountedKeysAreWindowKeys(h, key, Truncate(now));
    }
  }

  lemma SmallAfterCall(local: map<string, Bucket>, h: seq<Event>, now: nat, key: string, value: Bucket)
    requires Agrees(local, h, now)
    ensures |Pruned(local, Truncate(now))[key := value]|
         <= Max(CLEANUP_SIZE, |WindowKeys(h + [LocalCall(key, now)], Truncate(now))|)
  {
    var kept, h' := Pruned(local, Truncate(now)), h + [LocalCall(key, now)];
    assert kept[key := value].Keys == kept.Keys + {key};
    if |local| >= CLEANUP_SIZE {
      PrunedIsSmall(local, h, now);
      CountsAppend(h, LocalCall(key, now), key, Truncate(now));
      CountedKeysAreWindowKeys(h', key, Truncate(now));
      forall k | k in WindowKeys(h, Truncate(now)) ensures k in WindowKeys(h', Truncate(now)) {
        CountsAppend(h, LocalCall(key, now), k, Truncate(now));
        CountedKeysAreWindowKeys(h, k, Truncate(now));
        CountedKeysAreWindowKeys(h', k, Truncate(now));
      }
      Smaller(kept[key := value].Keys, WindowKeys(h', Truncate(now)));
    } else {
      assert |kept.Keys + {key}| <= |kept.Keys| + 1;
    }
    assert |kept[key := value]| == |kept[key := value].Keys|;
  }

  lemma Smaller(a: set<string>, b: set<string>)
    requires a <= b
    ensures |a| <= |b|
  {
    assert b == a + (b - a);
  }

  /** Redis keeps the ideal count of every minute and key. */
  ghost predicate RedisAgrees(counters: map<(nat, string), nat>, h: seq<Event>) {
    forall window, key :: RedisCount(h, key, window) == Stored(counters, window, key)
  }

  function Stored(counters: map<(nat, string), nat>, window: nat, key: string): nat {
    if (window, key) in counters then counters[(window, key)] else 0
  }

  lemma EventKeepsOthers(local: map<string, Bucket>, h: seq<Event>, now: nat, key: string, reply: Reply)
    requires Agrees(local, h, now)
    ensures Agrees(local, h + [RedisCall(key, now, reply)], now)
  {
    var e := RedisCall(key, now, reply);
    forall k ensures BucketOK(local, h + [e], now, k) {
      assert BucketOK(local, h, now, k);
      CountsAppend(h, e, k, Truncate(now));
      if k in local {
        CountsAppend(h, e, k, local[k].window);
      }
    }
  }

  lemma LocalCallsKeepRedis(counters: map<(nat, string), nat>, h: seq<Event>, key: string, now: nat)
    requires RedisAgrees(counters, h)
    ensures RedisAgrees(counters, h + [LocalCall(key, now)])
  {
  }

  lemma RedisCountsOne(counters: map<(nat, string), nat>, h: seq<Event>, key: string, now: nat, reply: Reply)
    requires RedisAgrees(counters, h)
    ensures var window := Truncate(now);
            RedisAgrees(if reply == Failed then counters
                        else counters[(window, key) := Stored(counters, window, key) + 1],
                        h + [RedisCall(key, now, reply)])
  {
    var slot := Truncate(now);
    var counters' := if reply == Failed then counters else counters[(slot, key) := Stored(counters, slot, key) + 1];
    forall window, k
      ensures RedisCount(h + [RedisCall(key, now, reply)], k, window) == Stored(counters', window, k)
    {
      CountsAppend(h, RedisCall(key, now, reply), k, window);
    }
  }

  class Limiter {
    const limit: int
    const redisEnabled: bool
    var local: map<string, Bucket>
    var counters: map<(nat, string), nat>   // kept by Redis
    var clock: nat
    ghost var history: seq<Event>

    ghost predicate Valid()
      reads this
    {
      Agrees(local, history, clock) && RedisAgrees(counters, history)
    }

    constructor (limit: int, redisEnabled: bool, now: nat)
      ensures Valid() && this.limit == limit && this.redisEnabled == redisEnabled
      ensures history == [] && local == map[] && clock == now
    {
      this.limit, this.redisEnabled, clock := limit, redisEnabled, now;
      local, counters, history := map[], map[], [];
    }

    /** Other requests run and time passes; the clock never goes back. */
    method Interfere()
      requires Valid()
      modifies this
      ensures Valid() && old(history) <= history && old(clock) <= clock
    {
    }

    /** Time passes, across any number of window boundaries. No other method calls this one: together with
        IncrementLocal and Increment it shows that everything Interfere may do is something a limiter can do. */
    method Wait(later: nat)
      requires Valid() && clock <= later
      modifies `clock
      ensures Valid() && clock == later
    {
      TimePasses(local, history, clock, later);
      clock := later;
    }

    /** Drops the buckets of past windows once there are many. */
    method CleanupLocal(currentWindow: nat)
      modifies `local
      ensures local == Pruned(old(local), currentWindow)
    {
      if |local| < CLEANUP_SIZE {
        return;
      }
      var keys := local.Keys;
      while keys != {}
        invariant keys <= local.Keys <= old(local).Keys
        invariant forall key | key in local :: local[key] == old(local)[key]
        invariant forall key | key in old(local) ::
                    key in local <==> key in keys || old(local)[key].window >= currentWindow
      {
        var key :| key in keys;
        if local[key].window < currentWindow {
          local := local - {key};
        }
        keys := keys - {key};
      }
    }

    /** Counts a call under the mutex. The answer is the number of calls of the key in this minute over the
        whole history, and the map stays no larger than the keys of this minute, or 512. */
    method IncrementLocal(key: string) returns (count: nat)
      requires Valid()
      modifies `local, `history
      ensures Valid()
      ensures history == old(history) + [LocalCall(key, clock)]
      ensures count == LocalCount(history, key, Truncate(clock)) > 0
      ensures |local| <= Max(CLEANUP_SIZE, |WindowKeys(history, Truncate(clock))|)
    {
      var now := Truncate(clock);
      PruningForgetsNothing(local, history, clock);
      CleanupLocal(now);
      CountingAgrees(local, history, clock, key);
      SmallAfterCall(old(local), history, clock, key, NextBucket(local, key, now));
      var value := Bucket(now, 0);
      if key in local && local[key].window == now {
        value := local[key];
      }
      value := value.(count := value.count + 1);
      local := local[key := value];
      history := history + [LocalCall(key, clock)];
      count := value.count;
      LocalCallsKeepRedis(counters, old(history), key, clock);
    }

    /** Sends an increment to Redis, which may fail before or after it has counted. */
    method Increment(key: string, reply: Reply) returns (ok: bool, count: nat)
      requires Valid()
      modifies `counters, `history
      ensures Valid()
      ensures ok <==> redisEnabled && reply == Counted
      ensures history == if redisEnabled then old(history) + [RedisCall(key, clock, reply)] else old(history)
      ensures ok ==> count == RedisCount(history, key, Truncate(clock)) > 0
    {
      ok, count := false, 0;
      if !redisEnabled {
        return;
      }
      var slot := (Truncate(clock), key);
      if reply != Failed {
        counters := counters[slot := (if slot in counters then counters[slot] else 0) + 1];
      }
      if reply == Counted {
        ok, count := true, counters[slot];
      }
      EventKeepsOthers(local, history, clock, key, reply);
      RedisCountsOne(old(counters), history, key, clock, reply);
      history := history + [RedisCall(key, clock, reply)];
    }

    /** Admits a request if the backend that answered has counted at most limit calls in this minute; call is
        the place of that count in the history, where AdmissionBounds counts the admission. */
    method Middleware(key: string, reply: Reply) returns (verdict: Verdict, ghost call: nat)
      requires Valid()
      modifies this
      ensures Valid() && old(history) <= history && old(clock) <= clock
      ensures |old(history)| <= call < |history| && history[call].key == key
      ensures history[call].LocalCall? <==> !(redisEnabled && reply == Counted)
      ensures verdict.Passed? <==> Admits(limit, history[..call + 1])
      ensures verdict.Passed? ==> verdict.remaining == limit - Tally(history[..call + 1])
      ensures clock < verdict.resetAt <= clock + MINUTE && verdict.resetAt % MINUTE == 0
      ensures verdict.resetAt == ResetAfter(clock)
      ensures verdict.Limited? ==> 1 <= verdict.retryAfter <= 60 && ToldToWait(clock, verdict.retryAfter)
    {
      Interfere();
      var ok, count := Increment(key, reply);
      if !ok {
        Interfere();
        count := IncrementLocal(key);
      }
      call := |history| - 1;
      ghost var counted := history;
      assert counted[..call + 1] == counted;
      Interfere();
      assert history[..call + 1] == counted;
      ResetIsTheBoundary(clock);
      WholeSecondsLeft(clock);
      hide Valid, Admits, Tally, Truncate, ResetAfter, ToldToWait;
      var resetAt := Truncate(clock) + MINUTE;
      if count > limit {
        var seconds := (resetAt - clock) / 1_000_000_000;
        verdict := Limited(resetAt, if seconds < 1 then 1 else seconds);
      } else {
        verdict := Passed(if limit - count < 0 then 0 else limit - count, resetAt);
      }
    }
  }
}
