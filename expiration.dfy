/** The expiration classifier: how many whole days are left until a product's
    expiration instant, and which of the five status buckets that number falls in.
    Instants are integer milliseconds since the epoch. */
module Expiration {

  /** Milliseconds in one day (1000 * 60 * 60 * 24). */
  const DAY: int := 86_400_000

  /** Days left until `exp`, seen at `now`: the ceiling of (exp - now) / DAY.
      The contract pins the result down uniquely: it is the one integer d with
      (d - 1) * DAY < exp - now <= d * DAY. */
  function DaysUntilExpiration(exp: int, now: int): (days: int)
    ensures (days - 1) * DAY < exp - now <= days * DAY
  {
    var diff := exp - now;
    // Euclidean division by a positive divisor is floor division, so
    // -floor(-diff / DAY) is the ceiling of diff / DAY.
    var q := (-diff) / DAY;
    assert -diff == q * DAY + (-diff) % DAY;
    -q
  }

  /** The five statuses, from most to least urgent. */
  datatype Status = Expired | Today | Warning | Caution | Ok {

    /** The colour shown next to the status: a `#rrggbb` hex code. */
    function Color(): (c: string)
      ensures |c| == 7 && c[0] == '#'
      ensures forall i :: 1 <= i < |c| ==> c[i] in "0123456789abcdef"
    {
      match this
      case Expired => "#ff4444"
      case Today => "#ff6b35"
      case Warning => "#ffa500"
      case Caution => "#ffdb4d"
      case Ok => "#4caf50"
    }

    /** Urgency rank of the status: a larger number is more urgent. */
    function Urgency(): nat {
      match this
      case Expired => 4
      case Today => 3
      case Warning => 2
      case Caution => 1
      case Ok => 0
    }
  }

  /** The ordered threshold table, first match wins. The contract states the
      whole partition of the integers: each status owns exactly one range. */
  function StatusOf(days: int): (s: Status)
    ensures s == Expired <==> days < 0
    ensures s == Today <==> days == 0
    ensures s == Warning <==> 1 <= days <= 7
    ensures s == Caution <==> 8 <= days <= 30
    ensures s == Ok <==> 30 < days
  {
    if days < 0 then Expired
    else if days == 0 then Today
    else if days <= 7 then Warning
    else if days <= 30 then Caution
    else Ok
  }

  /** Status of an item expiring at `exp`, seen at `now`. The contract states
      each status's window of expiration instants relative to now. */
  function ExpirationStatus(exp: int, now: int): (s: Status)
    ensures s == Expired <==> exp <= now - DAY
    ensures s == Today <==> now - DAY < exp <= now
    ensures s == Warning <==> now < exp <= now + 7 * DAY
    ensures s == Caution <==> now + 7 * DAY < exp <= now + 30 * DAY
    ensures s == Ok <==> now + 30 * DAY < exp
  {
    StatusOf(DaysUntilExpiration(exp, now))
  }

  /** Each status has its own colour, so the colour shown identifies the status. */
  lemma ColorIdentifiesStatus(s1: Status, s2: Status)
    requires s1.Color() == s2.Color()
    ensures s1 == s2
  {
  }

  /** The days count is the unique integer bracketing exp - now. */
  lemma DaysUntilIsUnique(exp: int, now: int, d: int)
    requires (d - 1) * DAY < exp - now <= d * DAY
    ensures DaysUntilExpiration(exp, now) == d
  {
  }

  /** Zero days are left exactly when the expiration instant lies in the last
      24 hours up to and including now; an expiration later today already
      counts as one day left. */
  lemma DueTodayIff(exp: int, now: int)
    ensures DaysUntilExpiration(exp, now) == 0 <==> now - DAY < exp <= now
    ensures now < exp <= now + DAY ==> DaysUntilExpiration(exp, now) == 1
  {
    if now - DAY < exp <= now {
      DaysUntilIsUnique(exp, now, 0);
    }
    if now < exp <= now + DAY {
      DaysUntilIsUnique(exp, now, 1);
    }
  }

  /** An expiration exactly n whole days away has n days left. */
  lemma WholeDaysAway(now: int, n: int)
    ensures DaysUntilExpiration(now + n * DAY, now) == n
  {
    DaysUntilIsUnique(now + n * DAY, now, n);
  }

  /** A later expiration never has fewer days left. */
  lemma DaysMonotoneInExpiration(exp1: int, exp2: int, now: int)
    requires exp1 <= exp2
    ensures DaysUntilExpiration(exp1, now) <= DaysUntilExpiration(exp2, now)
  {
  }

  /** Seen later, the same expiration never has more days left. */
  lemma DaysShrinkOverTime(exp: int, now1: int, now2: int)
    requires now1 <= now2
    ensures DaysUntilExpiration(exp, now2) <= DaysUntilExpiration(exp, now1)
  {
  }

  /** More days left never gives a more urgent status. */
  lemma StatusMonotone(d1: int, d2: int)
    requires d1 <= d2
    ensures StatusOf(d2).Urgency() <= StatusOf(d1).Urgency()
  {
  }

  /** For one point in time, a later expiration is never more urgent. */
  lemma StatusMonotoneInExpiration(exp1: int, exp2: int, now: int)
    requires exp1 <= exp2
    ensures ExpirationStatus(exp2, now).Urgency() <= ExpirationStatus(exp1, now).Urgency()
  {
    DaysMonotoneInExpiration(exp1, exp2, now);
    StatusMonotone(DaysUntilExpiration(exp1, now), DaysUntilExpiration(exp2, now));
  }

  /** As time passes, an item's status only becomes more urgent. */
  lemma StatusEscalatesOverTime(exp: int, now1: int, now2: int)
    requires now1 <= now2
    ensures ExpirationStatus(exp, now1).Urgency() <= ExpirationStatus(exp, now2).Urgency()
  {
    DaysShrinkOverTime(exp, now1, now2);
    StatusMonotone(DaysUntilExpiration(exp, now2), DaysUntilExpiration(exp, now1));
  }

  /** An item is reported expired exactly when it expired at least a full day
      ago; a named corollary of ExpirationStatus's first window. */
  lemma ExpiredIff(exp: int, now: int)
    ensures ExpirationStatus(exp, now) == Expired <==> exp <= now - DAY
  {
  }

  /** An item that expired five days ago: five days overdue, status expired. */
  lemma ExpiredFiveDaysAgo(now: int)
    ensures DaysUntilExpiration(now - 5 * DAY, now) == -5
    ensures ExpirationStatus(now - 5 * DAY, now) == Expired
  {
    WholeDaysAway(now, -5);
  }
}
