/**
  The limited-drop section (`src/components/sections/exclusive-drops-section.tsx`):
  which products it features, and the once-a-second countdown update.
  The `setInterval` that applies the update is not part of this model.
*/
module ExclusiveDrops {
  import opened Wrappers
  import opened Catalog

  // ---------------------------------------------------------------------------
  // Featured products

  /** `ps.filter(p => p.is_limited)`. */
  function LimitedOnly(ps: seq<Product>): (r: seq<Product>)
    ensures forall p :: p in r <==> p in ps && p.isLimited
  {
    if ps == [] then []
    else if ps[0].isLimited then [ps[0]] + LimitedOnly(ps[1..])
    else LimitedOnly(ps[1..])
  }

  /** The limited filter keeps the input order and each product's number of copies: filtering a
      concatenation is filtering each part. */
  lemma {:induction false} LimitedOnlyConcat(a: seq<Product>, b: seq<Product>)
    ensures LimitedOnly(a + b) == LimitedOnly(a) + LimitedOnly(b)
  {
    if a == [] {
      assert a + b == b;
    } else {
      assert (a + b)[0] == a[0] && (a + b)[1..] == a[1..] + b;
      LimitedOnlyConcat(a[1..], b);
    }
  }

  /** `allProducts?.filter(p => p.is_limited).slice(0, 3) || []`: the loaded list's first three
      limited products, or none while the data is absent. */
  function ExclusiveProducts(allProducts: Option<seq<Product>>): (r: seq<Product>)
    ensures allProducts.None? ==> r == []
    ensures allProducts.Some? ==> r <= LimitedOnly(allProducts.value)
    ensures allProducts.Some? ==> |r| == Min(3, |LimitedOnly(allProducts.value)|)
  {
    match allProducts
    case None => []
    case Some(ps) =>
      var limited := LimitedOnly(ps);
      limited[..if |limited| < 3 then |limited| else 3]
  }

  function Min(a: int, b: int): int {
    if a < b then a else b
  }

  /** The section features at most three products, all limited and all loaded, in load order: the
      first limited products of the list, and every one of them when there are fewer than three. */
  lemma ExclusiveProductsSpec(allProducts: Option<seq<Product>>)
    ensures allProducts.None? ==> ExclusiveProducts(allProducts) == []
    ensures |ExclusiveProducts(allProducts)| <= 3
    ensures allProducts.Some? ==> |ExclusiveProducts(allProducts)| == Min(3, |LimitedOnly(allProducts.value)|)
    ensures allProducts.Some? ==>
      && (forall p :: p in ExclusiveProducts(allProducts) ==> p in allProducts.value && p.isLimited)
      && ExclusiveProducts(allProducts) <= LimitedOnly(allProducts.value)
      && (|ExclusiveProducts(allProducts)| < 3 ==>
            forall p :: p in allProducts.value && p.isLimited ==> p in ExclusiveProducts(allProducts))
  {
  }

  // ---------------------------------------------------------------------------
  // Countdown

  datatype TimeLeft = TimeLeft(days: int, hours: int, minutes: int, seconds: int)

  /** The state the countdown starts from: 2 days, 14:32:45. */
  const InitialTimeLeft := TimeLeft(2, 14, 32, 45)

  /** The `setTimeLeft` updater: take one second, borrowing from minutes, hours and days in turn.
      Days never go below zero, so at 0d 00:00:00 the clock wraps to 0d 23:59:59. */
  function Tick(prev: TimeLeft): (next: TimeLeft)
    ensures InRange(prev) ==> InRange(next)
    ensures next.days <= prev.days
  {
    var TimeLeft(days, hours, minutes, seconds) := prev;
    if seconds > 0 then TimeLeft(days, hours, minutes, seconds - 1)
    else if minutes > 0 then TimeLeft(days, hours, minutes - 1, 59)
    else if hours > 0 then TimeLeft(days, hours - 1, 59, 59)
    else if days > 0 then TimeLeft(days - 1, 23, 59, 59)
    else TimeLeft(days, 23, 59, 59)
  }

  predicate InRange(t: TimeLeft) {
    t.days >= 0 && 0 <= t.hours <= 23 && 0 <= t.minutes <= 59 && 0 <= t.seconds <= 59
  }

  /** The seconds a countdown state stands for. */
  function TotalSeconds(t: TimeLeft): int {
    86400 * t.days + 3600 * t.hours + 60 * t.minutes + t.seconds
  }

  /** With seconds left on the clock, only the seconds move. */
  lemma TickSecondsOnly(prev: TimeLeft)
    requires prev.seconds > 0
    ensures Tick(prev) == prev.(seconds := prev.seconds - 1)
  {
  }

  /** The borrow chain: a zero field becomes its maximum and the next larger field gives one up;
      days give one up only when they have one. */
  lemma TickBorrows(prev: TimeLeft)
    requires prev.seconds <= 0
    ensures Tick(prev).seconds == 59
    ensures prev.minutes > 0 ==> Tick(prev) == prev.(minutes := prev.minutes - 1, seconds := 59)
    ensures prev.minutes <= 0 ==> Tick(prev).minutes == 59
    ensures prev.minutes <= 0 && prev.hours > 0 ==> Tick(prev) == TimeLeft(prev.days, prev.hours - 1, 59, 59)
    ensures prev.minutes <= 0 && prev.hours <= 0 ==> Tick(prev).hours == 23
    ensures prev.minutes <= 0 && prev.hours <= 0 ==>
              Tick(prev).days == if prev.days > 0 then prev.days - 1 else prev.days
  {
  }

  /** While time is left, each tick takes exactly one second off the total. */
  lemma TickCountsDown(prev: TimeLeft)
    requires InRange(prev) && TotalSeconds(prev) > 0
    ensures TotalSeconds(Tick(prev)) == TotalSeconds(prev) - 1
  {
  }

  /** At 0d 00:00:00 the countdown does not stop: it starts a new day. */
  lemma TickWrapsAtZero()
    ensures Tick(TimeLeft(0, 0, 0, 0)) == TimeLeft(0, 23, 59, 59)
  {
  }

  /** The clock after `n` ticks. */
  function Ticks(t: TimeLeft, n: nat): TimeLeft
    decreases n
  {
    if n == 0 then t else Ticks(Tick(t), n - 1)
  }

  /** From any state in range, the clock reaches 0d 00:00:00 after exactly its total seconds of
      ticks, passing through states in range and counting down one second per tick. */
  lemma {:induction false} CountdownReachesZero(t: TimeLeft, n: nat)
    requires InRange(t) && n <= TotalSeconds(t)
    decreases n
    ensures InRange(Ticks(t, n)) && TotalSeconds(Ticks(t, n)) == TotalSeconds(t) - n
    ensures n == TotalSeconds(t) ==> Ticks(t, n) == TimeLeft(0, 0, 0, 0)
  {
    if n > 0 {
      TickCountsDown(t);
      CountdownReachesZero(Tick(t), n - 1);
    }
    if n == TotalSeconds(t) {
      ZeroTotal(Ticks(t, n));
    }
  }

  /** The only state in range with no seconds left is 0d 00:00:00. */
  lemma ZeroTotal(t: TimeLeft)
    requires InRange(t) && TotalSeconds(t) == 0
    ensures t == TimeLeft(0, 0, 0, 0)
  {
  }

  /** The starting state is in range and stands for 225165 seconds. */
  lemma InitialTimeLeftSpec()
    ensures InRange(InitialTimeLeft) && TotalSeconds(InitialTimeLeft) == 225165
  {
  }
}
