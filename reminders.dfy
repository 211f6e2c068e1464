/** The reminder plan: the up to three reminders derived from a product's
    expiration instant, their keys, and the dispatcher state that scheduling
    them produces. */
module Reminders {
  import opened Expiration

  /** The three fixed horizons a reminder can fire at. */
  datatype Horizon = AtExpiration | SevenDaysBefore | ThirtyDaysBefore

  /** Whole days between a horizon and the expiration instant. */
  function DaysBefore(h: Horizon): nat {
    match h
    case AtExpiration => 0
    case SevenDaysBefore => 7
    case ThirtyDaysBefore => 30
  }

  /** The key suffix attached to the product id for each horizon. */
  function Suffix(h: Horizon): string {
    match h
    case AtExpiration => "_exp"
    case SevenDaysBefore => "_7d"
    case ThirtyDaysBefore => "_30d"
  }

  /** The dispatcher key of a product's reminder at horizon `h`. */
  function Key(id: string, h: Horizon): string {
    id + Suffix(h)
  }

  /** The three keys a product can ever have scheduled. */
  function ReminderKeys(id: string): set<string> {
    {Key(id, AtExpiration), Key(id, SevenDaysBefore), Key(id, ThirtyDaysBefore)}
  }

  /** The instant the reminder at horizon `h` of an item expiring at `exp` fires. */
  function FireAt(exp: int, h: Horizon): int {
    exp - DaysBefore(h) * DAY
  }

  /** What the dispatcher is told: deliver at `fireAt`, tagged with `key`. */
  datatype Reminder = Reminder(key: string, fireAt: int)

  /** The reminder a product would get at horizon `h`, before filtering. */
  function Candidate(id: string, exp: int, h: Horizon): Reminder {
    Reminder(Key(id, h), FireAt(exp, h))
  }

  /** The schedule calls issued for a product, in the order they are issued:
      at expiration, seven days before, thirty days before; each one only when
      its fire instant is strictly after `now`. */
  function Plan(id: string, exp: int, now: int): (plan: seq<Reminder>)
    ensures |plan| <= 3
    ensures exp <= now ==> plan == []
    ensures forall i :: 0 <= i < |plan| ==> plan[i].key in ReminderKeys(id) && plan[i].fireAt > now
  {
    var atExp := Candidate(id, exp, AtExpiration);
    var seven := Candidate(id, exp, SevenDaysBefore);
    var thirty := Candidate(id, exp, ThirtyDaysBefore);
    (if atExp.fireAt > now then [atExp] else [])
    + (if seven.fireAt > now then [seven] else [])
    + (if thirty.fireAt > now then [thirty] else [])
  }

  /** One product's keys are pairwise distinct. */
  lemma {:induction false} SuffixDistinguishesKey(id: string, h1: Horizon, h2: Horizon)
    requires Key(id, h1) == Key(id, h2)
    ensures h1 == h2
  {
    assert Suffix(h1) == Key(id, h1)[|id|..];
    assert Suffix(h2) == Key(id, h2)[|id|..];
  }

  /** Cancelling a product's three keys one after another removes exactly
      its key set. */
  lemma CancelKeysInTurn(pending: map<string, int>, id: string)
    ensures pending - {Key(id, AtExpiration)} - {Key(id, SevenDaysBefore)} - {Key(id, ThirtyDaysBefore)}
            == pending - ReminderKeys(id)
  {
  }

  /** The three keys of one product, pairwise. */
  lemma OneProductKeysDistinct(id: string)
    ensures Key(id, AtExpiration) != Key(id, SevenDaysBefore)
    ensures Key(id, AtExpiration) != Key(id, ThirtyDaysBefore)
    ensures Key(id, SevenDaysBefore) != Key(id, ThirtyDaysBefore)
  {
    if Key(id, AtExpiration) == Key(id, SevenDaysBefore) {
      SuffixDistinguishesKey(id, AtExpiration, SevenDaysBefore);
    }
    if Key(id, AtExpiration) == Key(id, ThirtyDaysBefore) {
      SuffixDistinguishesKey(id, AtExpiration, ThirtyDaysBefore);
    }
    if Key(id, SevenDaysBefore) == Key(id, ThirtyDaysBefore) {
      SuffixDistinguishesKey(id, SevenDaysBefore, ThirtyDaysBefore);
    }
  }

  /** The last |t| characters of s + t are t; a step of KeyInjective. */
  lemma TailOfConcat(s: string, t: string)
    ensures (s + t)[|s + t| - |t|..] == t
  {
  }

  /** Keys never collide: equal keys come from the same product and the same
      horizon, whatever characters the ids contain, because no suffix ends
      another suffix. */
  lemma {:induction false} KeyInjective(id1: string, h1: Horizon, id2: string, h2: Horizon)
    requires Key(id1, h1) == Key(id2, h2)
    ensures id1 == id2 && h1 == h2
  {
    var s1, s2 := Suffix(h1), Suffix(h2);
    var k := id1 + s1;
    assert k == id2 + s2;
    assert |s1| == |s2| by {
      // The third character from the end is '_' in "_7d" but 'e' in "_exp"
      // and '3' in "_30d", so the suffixes have the same length.
      assert k[|k| - 3] == s1[|s1| - 3] == s2[|s2| - 3];
    }
    TailOfConcat(id1, s1);
    TailOfConcat(id2, s2);
    assert id1 == k[..|k| - |s1|] == id2;
  }

  /** A key belongs to at most one product. */
  lemma KeyOwnerUnique(k: string, id1: string, id2: string)
    requires k in ReminderKeys(id1) && k in ReminderKeys(id2)
    ensures id1 == id2
  {
    var h1 :| k == Key(id1, h1);
    var h2 :| k == Key(id2, h2);
    KeyInjective(id1, h1, id2, h2);
  }

  /** Each horizon's reminder is planned exactly when it fires strictly after now. */
  lemma PlanMembership(id: string, exp: int, now: int, h: Horizon)
    ensures Candidate(id, exp, h) in Plan(id, exp, now) <==> FireAt(exp, h) > now
  {
    var plan := Plan(id, exp, now);
    if Candidate(id, exp, h) in plan {
      var i :| 0 <= i < |plan| && plan[i] == Candidate(id, exp, h);
      var g :| plan[i] == Candidate(id, exp, g) && FireAt(exp, g) > now;
      SuffixDistinguishesKey(id, h, g);
    }
  }

  /** The plan is nested: a thirty-day reminder implies a seven-day one, and a
      seven-day reminder implies one at expiration. */
  lemma PlanNested(id: string, exp: int, now: int)
    ensures Candidate(id, exp, ThirtyDaysBefore) in Plan(id, exp, now)
            ==> Candidate(id, exp, SevenDaysBefore) in Plan(id, exp, now)
    ensures Candidate(id, exp, SevenDaysBefore) in Plan(id, exp, now)
            ==> Candidate(id, exp, AtExpiration) in Plan(id, exp, now)
  {
    PlanMembership(id, exp, now, AtExpiration);
    PlanMembership(id, exp, now, SevenDaysBefore);
    PlanMembership(id, exp, now, ThirtyDaysBefore);
  }

  /** Within one plan the keys are pairwise distinct and the fire instants
      strictly decrease in issue order (thirty days before < seven days before
      < expiration). */
  lemma PlanWellFormed(id: string, exp: int, now: int)
    ensures forall i, j :: 0 <= i < j < |Plan(id, exp, now)| ==>
              Plan(id, exp, now)[i].key != Plan(id, exp, now)[j].key
              && Plan(id, exp, now)[i].fireAt > Plan(id, exp, now)[j].fireAt
  {
    var plan := Plan(id, exp, now);
    forall i, j | 0 <= i < j < |plan|
      ensures plan[i].key != plan[j].key && plan[i].fireAt > plan[j].fireAt
    {
      var hi :| plan[i] == Candidate(id, exp, hi);
      var hj :| plan[j] == Candidate(id, exp, hj);
      if plan[i].key == plan[j].key {
        SuffixDistinguishesKey(id, hi, hj);
      }
    }
  }

  /** An item expiring in ten days gets the reminder at expiration and the one
      seven days before; the thirty-day horizon has already passed. */
  lemma PlanTenDaysAhead(id: string, now: int)
    ensures Plan(id, now + 10 * DAY, now)
            == [Reminder(Key(id, AtExpiration), now + 10 * DAY),
                Reminder(Key(id, SevenDaysBefore), now + 3 * DAY)]
  {
  }

  /** An item expiring in forty days gets all three reminders. */
  lemma PlanFortyDaysAhead(id: string, now: int)
    ensures Plan(id, now + 40 * DAY, now)
            == [Reminder(Key(id, AtExpiration), now + 40 * DAY),
                Reminder(Key(id, SevenDaysBefore), now + 33 * DAY),
                Reminder(Key(id, ThirtyDaysBefore), now + 10 * DAY)]
  {
  }

  /** The dispatcher's pending reminders after it receives the schedule calls
      of `plan` in order; a key that is scheduled again is replaced. */
  function ScheduleAll(pending: map<string, int>, plan: seq<Reminder>): map<string, int>
  {
    if plan == [] then pending
    else
      var last := plan[|plan| - 1];
      ScheduleAll(pending, plan[..|plan| - 1])[last.key := last.fireAt]
  }

  /** The dispatcher state after the schedule call for `r`, which is issued
      only when `r` fires strictly after `now`. */
  function ScheduleIfFuture(pending: map<string, int>, r: Reminder, now: int): map<string, int> {
    if r.fireAt > now then pending[r.key := r.fireAt] else pending
  }

  /** One more conditional schedule call at the end of a plan. */
  lemma ScheduleAllOptional(pending: map<string, int>, plan: seq<Reminder>, r: Reminder, now: int)
    ensures ScheduleAll(pending, plan + (if r.fireAt > now then [r] else []))
            == ScheduleIfFuture(ScheduleAll(pending, plan), r, now)
  {
    if r.fireAt > now {
      assert (plan + [r])[..|plan|] == plan;
    } else {
      assert plan + [] == plan;
    }
  }

  /** Scheduling a plan is the three conditional schedule calls in issue order. */
  lemma ScheduleAllPlanSteps(pending: map<string, int>, id: string, exp: int, now: int)
    ensures ScheduleAll(pending, Plan(id, exp, now))
            == ScheduleIfFuture(ScheduleIfFuture(ScheduleIfFuture(pending,
                 Candidate(id, exp, AtExpiration), now),
                 Candidate(id, exp, SevenDaysBefore), now),
                 Candidate(id, exp, ThirtyDaysBefore), now)
  {
    var atExp := Candidate(id, exp, AtExpiration);
    var seven := Candidate(id, exp, SevenDaysBefore);
    var thirty := Candidate(id, exp, ThirtyDaysBefore);
    var p1 := if atExp.fireAt > now then [atExp] else [];
    var p2 := p1 + (if seven.fireAt > now then [seven] else []);
    ScheduleAllOptional(pending, [], atExp, now);
    assert [] + p1 == p1;
    ScheduleAllOptional(pending, p1, seven, now);
    ScheduleAllOptional(pending, p2, thirty, now);
  }

  /** Scheduling a product's plan registers exactly the reminders whose fire
      instant is after now, at that instant, and leaves every key of other
      products, and every reminder of the product that is not planned, as it was. */
  lemma ScheduleAllPlan(pending: map<string, int>, id: string, exp: int, now: int)
    ensures forall h :: FireAt(exp, h) > now ==>
              Key(id, h) in ScheduleAll(pending, Plan(id, exp, now))
              && ScheduleAll(pending, Plan(id, exp, now))[Key(id, h)] == FireAt(exp, h)
    ensures forall h :: FireAt(exp, h) <= now ==>
              (Key(id, h) in ScheduleAll(pending, Plan(id, exp, now)) <==> Key(id, h) in pending)
              && (Key(id, h) in pending ==>
                    ScheduleAll(pending, Plan(id, exp, now))[Key(id, h)] == pending[Key(id, h)])
    ensures forall k :: k !in ReminderKeys(id) ==>
              (k in ScheduleAll(pending, Plan(id, exp, now)) <==> k in pending)
              && (k in pending ==> ScheduleAll(pending, Plan(id, exp, now))[k] == pending[k])
  {
    forall h ensures FireAt(exp, h) > now ==>
                       Key(id, h) in ScheduleAll(pending, Plan(id, exp, now))
                       && ScheduleAll(pending, Plan(id, exp, now))[Key(id, h)] == FireAt(exp, h)
    {
      ScheduleAllPlanAt(pending, id, exp, now, h);
    }
    forall h ensures FireAt(exp, h) <= now ==>
                       (Key(id, h) in ScheduleAll(pending, Plan(id, exp, now)) <==> Key(id, h) in pending)
                       && (Key(id, h) in pending ==>
                             ScheduleAll(pending, Plan(id, exp, now))[Key(id, h)] == pending[Key(id, h)])
    {
      ScheduleAllPlanAt(pending, id, exp, now, h);
    }
    forall k | k !in ReminderKeys(id)
      ensures (k in ScheduleAll(pending, Plan(id, exp, now)) <==> k in pending)
              && (k in pending ==> ScheduleAll(pending, Plan(id, exp, now))[k] == pending[k])
    {
      ScheduleAllPlanSteps(pending, id, exp, now);
    }
  }

  /** ScheduleAllPlan for the key of one horizon. */
  lemma ScheduleAllPlanAt(pending: map<string, int>, id: string, exp: int, now: int, h: Horizon)
    ensures FireAt(exp, h) > now ==>
              Key(id, h) in ScheduleAll(pending, Plan(id, exp, now))
              && ScheduleAll(pending, Plan(id, exp, now))[Key(id, h)] == FireAt(exp, h)
    ensures FireAt(exp, h) <= now ==>
              (Key(id, h) in ScheduleAll(pending, Plan(id, exp, now)) <==> Key(id, h) in pending)
              && (Key(id, h) in pending ==>
                    ScheduleAll(pending, Plan(id, exp, now))[Key(id, h)] == pending[Key(id, h)])
  {
    ScheduleAllPlanSteps(pending, id, exp, now);
    OneProductKeysDistinct(id);
    var m1 := ScheduleIfFuture(pending, Candidate(id, exp, AtExpiration), now);
    var m2 := ScheduleIfFuture(m1, Candidate(id, exp, SevenDaysBefore), now);
    var m3 := ScheduleIfFuture(m2, Candidate(id, exp, ThirtyDaysBefore), now);
    assert ScheduleAll(pending, Plan(id, exp, now)) == m3;
    match h
    case AtExpiration =>
      assert Key(id, h) in m1 <==> Key(id, h) in pending || FireAt(exp, h) > now;
    case SevenDaysBefore =>
      assert Key(id, h) in m1 <==> Key(id, h) in pending;
    case ThirtyDaysBefore =>
      assert Key(id, h) in m2 <==> Key(id, h) in pending;
  }

  /** Scheduling the same plan a second time changes nothing: keys are stable,
      so the repeated calls replace each reminder with itself. */
  lemma RescheduleIsIdempotent(pending: map<string, int>, id: string, exp: int, now: int)
    ensures ScheduleAll(ScheduleAll(pending, Plan(id, exp, now)), Plan(id, exp, now))
            == ScheduleAll(pending, Plan(id, exp, now))
  {
    var once := ScheduleAll(pending, Plan(id, exp, now));
    var twice := ScheduleAll(once, Plan(id, exp, now));
    ScheduleAllPlan(pending, id, exp, now);
    ScheduleAllPlan(once, id, exp, now);
    forall k | k in ReminderKeys(id)
      ensures (k in twice <==> k in once) && (k in once ==> twice[k] == once[k])
    {
      var h :| k == Key(id, h);
    }
    assert twice.Keys == once.Keys;
  }
}
