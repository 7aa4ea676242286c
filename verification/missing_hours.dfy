/** The hour starts a price series lacks, day by local day
    (internal/marketdata/completeness.go). */
module MissingHours {
  import opened Readings

  /** The local midnights, in order. Day k runs from midnight k to midnight k + 1
      and stands for its date. */
  type Midnights = nat -> int

  ghost predicate Ordered(midnight: Midnights) {
    forall k: nat :: midnight(k) < midnight(k + 1)
  }

  /** Days are whole hours long, 23 or 25 included. */
  ghost predicate WholeHoursApart(midnight: Midnights) {
    forall k: nat :: (midnight(k + 1) - midnight(k)) % HOUR == 0
  }

  /** The hours from h on, up to the next day, that are in the window and absent. */
  function MissingFrom(h: int, nextDay: int, window: Window, present: set<int>): seq<int>
    decreases nextDay - h
  {
    if h >= nextDay then []
    else (if In(h, window) && h !in present then [h] else []) + MissingFrom(h + HOUR, nextDay, window, present)
  }

  function MissingOn(midnight: Midnights, day: nat, window: Window, present: set<int>): seq<int> {
    MissingFrom(midnight(day), midnight(day + 1), window, present)
  }

  /** What the result must be: an entry exactly for each day of the window that
      misses an hour. */
  ghost predicate IsMissing(result: map<nat, seq<int>>, midnight: Midnights, first: nat, window: Window, present: set<int>) {
    forall day: nat ::
      (day in result <==>
        window.from < window.to && first <= day && midnight(day) < window.to && MissingOn(midnight, day, window, present) != [])
      && (day in result ==> result[day] == MissingOn(midnight, day, window, present))
  }

  method MissingHours(prices: seq<int>, window: Window, midnight: Midnights, first: nat)
    returns (result: map<nat, seq<int>>)
    requires Ordered(midnight) && midnight(first) <= window.from < midnight(first + 1)
    ensures IsMissing(result, midnight, first, window, set p | p in prices)
  {
    var present: set<int> := {};
    for i := 0 to |prices|
      invariant present == set p | p in prices[..i]
    {
      present := present + {prices[i]};
      assert prices[..i + 1] == prices[..i] + [prices[i]];
    }
    assert prices[..|prices|] == prices;
    result := map[];
    if !(window.from < window.to) {
      return;
    }
    var day := first;
    while midnight(day) < window.to
      invariant first <= day
      invariant DoneBefore(result, midnight, first, day, window, present)
      decreases window.to - midnight(day)
    {
      var missing := MissingOnDay(midnight(day), midnight(day + 1), window, present);
      OneMoreDay(result, midnight, first, day, window, present);
      if |missing| > 0 {
        result := result[day := missing];
      }
      day := day + 1;
    }
    AllDaysDone(result, midnight, first, day, window, present);
  }

  /** The days before `day` are done. */
  ghost predicate DoneBefore(result: map<nat, seq<int>>, midnight: Midnights, first: nat, day: nat, window: Window,
                             present: set<int>) {
    forall d: nat ::
      (d in result <==> first <= d < day && midnight(d) < window.to && MissingOn(midnight, d, window, present) != [])
      && (d in result ==> result[d] == MissingOn(midnight, d, window, present))
  }

  lemma OneMoreDay(result: map<nat, seq<int>>, midnight: Midnights, first: nat, day: nat, window: Window, present: set<int>)
    requires DoneBefore(result, midnight, first, day, window, present) && first <= day && midnight(day) < window.to
    ensures var missing := MissingOn(midnight, day, window, present);
      DoneBefore(if missing == [] then result else result[day := missing], midnight, first, day + 1, window, present)
  {
    var missing := MissingOn(midnight, day, window, present);
    var more := if missing == [] then result else result[day := missing];
    forall d: nat
      ensures d in more <==> first <= d < day + 1 && midnight(d) < window.to && MissingOn(midnight, d, window, present) != []
      ensures d in more ==> more[d] == MissingOn(midnight, d, window, present)
    {
      if d != day {
        assert d in more <==> d in result;
      }
    }
  }

  lemma AllDaysDone(result: map<nat, seq<int>>, midnight: Midnights, first: nat, day: nat, window: Window, present: set<int>)
    requires DoneBefore(result, midnight, first, day, window, present) && Ordered(midnight)
    requires first <= day && midnight(day) >= window.to && window.from < window.to
    ensures IsMissing(result, midnight, first, window, present)
  {
    LaterDaysAreLater(midnight, day);
  }

  /** The inner loop: one day's hours, an absolute hour at a time. */
  method MissingOnDay(dayStart: int, nextDay: int, window: Window, present: set<int>) returns (missing: seq<int>)
    ensures missing == MissingFrom(dayStart, nextDay, window, present)
  {
    missing := [];
    var h := dayStart;
    while h < nextDay
      invariant missing + MissingFrom(h, nextDay, window, present) == MissingFrom(dayStart, nextDay, window, present)
      decreases nextDay - h
    {
      OneMoreHour(missing, h, nextDay, window, present);
      if h < window.from || !(h < window.to) {
        h := h + HOUR;
        continue;
      }
      if h !in present {
        missing := missing + [h];
      }
      h := h + HOUR;
    }
  }

  lemma OneMoreHour(missing: seq<int>, h: int, nextDay: int, window: Window, present: set<int>)
    requires h < nextDay
    ensures missing + MissingFrom(h, nextDay, window, present)
      == (if In(h, window) && h !in present then missing + [h] else missing) + MissingFrom(h + HOUR, nextDay, window, present)
  {
    var rest := MissingFrom(h + HOUR, nextDay, window, present);
    assert missing + ([h] + rest) == (missing + [h]) + rest;
    assert [] + rest == rest;
  }

  lemma {:induction false} MidnightsGrow(midnight: Midnights, a: nat, b: nat)
    requires Ordered(midnight) && a <= b
    ensures a < b ==> midnight(a) < midnight(b)
    decreases b - a
  {
    if a < b {
      MidnightsGrow(midnight, a, b - 1);
      assert midnight(b - 1) < midnight(b - 1 + 1);
    }
  }

  lemma LaterDaysAreLater(midnight: Midnights, day: nat)
    requires Ordered(midnight)
    ensures forall d: nat :: day < d ==> midnight(day) < midnight(d)
  {
    forall d: nat | day < d ensures midnight(day) < midnight(d) {
      MidnightsGrow(midnight, day, d);
    }
  }

  // ----- What the lists hold

  /** An hour start of the day that starts at dayStart. */
  predicate StepOf(t: int, dayStart: int, nextDay: int) {
    dayStart <= t < nextDay && (t - dayStart) % HOUR == 0
  }

  /** A day's list holds exactly its absent hour starts in the window, in order. */
  lemma {:induction false} MissingFromExact(h: int, nextDay: int, window: Window, present: set<int>, t: int)
    ensures t in MissingFrom(h, nextDay, window, present) <==> StepOf(t, h, nextDay) && In(t, window) && t !in present
    decreases nextDay - h
  {
    if h < nextDay {
      MissingFromExact(h + HOUR, nextDay, window, present, t);
      HourSteps(t, h);
    }
  }

  lemma HourSteps(t: int, h: int)
    ensures (t - h) % HOUR == (t - (h + HOUR)) % HOUR
    ensures h < t < h + HOUR ==> (t - h) % HOUR != 0
  {
    assert t - (h + HOUR) == (t - h) - HOUR;
  }

  lemma {:induction false} MissingFromAscends(h: int, nextDay: int, window: Window, present: set<int>, i: nat, j: nat)
    requires i < j < |MissingFrom(h, nextDay, window, present)|
    ensures MissingFrom(h, nextDay, window, present)[i] < MissingFrom(h, nextDay, window, present)[j]
    decreases nextDay - h
  {
    var rest := MissingFrom(h + HOUR, nextDay, window, present);
    var drop := if In(h, window) && h !in present then 1 else 0;
    if i >= drop {
      MissingFromAscends(h + HOUR, nextDay, window, present, i - drop, j - drop);
    } else {
      MissingFromExact(h + HOUR, nextDay, window, present, rest[j - 1]);
    }
  }

  ghost predicate Listed(result: map<nat, seq<int>>, t: int) {
    exists day: nat :: day in result && t in result[day]
  }

  /** The lists together are exactly the hour starts of the window that have no
      price, counted from the first local midnight. */
  lemma ListsAreExact(result: map<nat, seq<int>>, midnight: Midnights, first: nat, window: Window, prices: seq<int>, t: int)
    requires Ordered(midnight) && WholeHoursApart(midnight) && midnight(first) <= window.from < midnight(first + 1)
    requires IsMissing(result, midnight, first, window, set p | p in prices)
    ensures Listed(result, t) <==> In(t, window) && (t - midnight(first)) % HOUR == 0 && t !in prices
  {
    var present := set p | p in prices;
    if Listed(result, t) {
      var day: nat :| day in result && t in result[day];
      MissingFromExact(midnight(day), midnight(day + 1), window, present, t);
      SameGrid(midnight, first, day, t);
    }
    if In(t, window) && (t - midnight(first)) % HOUR == 0 && t !in prices {
      var day := DayOf(midnight, first, t);
      SameGrid(midnight, first, day, t);
      MissingFromExact(midnight(day), midnight(day + 1), window, present, t);
      assert t in MissingOn(midnight, day, window, present);
      assert day in result;
    }
  }

  /** The day an instant falls on. */
  lemma DayOf(midnight: Midnights, first: nat, t: int) returns (day: nat)
    requires Ordered(midnight) && midnight(first) <= t
    ensures first <= day && midnight(day) <= t < midnight(day + 1)
  {
    day := first;
    while midnight(day + 1) <= t
      invariant first <= day && midnight(day) <= t
      decreases t - midnight(day)
    {
      day := day + 1;
    }
  }

  lemma {:induction false} SameGrid(midnight: Midnights, first: nat, day: nat, t: int)
    requires WholeHoursApart(midnight) && first <= day
    ensures (t - midnight(first)) % HOUR == (t - midnight(day)) % HOUR
    decreases day - first
  {
    if first < day {
      SameGrid(midnight, first, day - 1, t);
      ShiftByHours(t - midnight(day - 1), midnight(day - 1 + 1) - midnight(day - 1));
    }
  }

  lemma ShiftByHours(a: int, length: int)
    requires length % HOUR == 0
    ensures (a - length) % HOUR == a % HOUR
  {
    var n := length / HOUR;
    assert length == n * HOUR;
    assert a == a / HOUR * HOUR + a % HOUR;
    assert a - length == (a / HOUR - n) * HOUR + a % HOUR;
  }

  /** Lists are non-empty and ascending. */
  lemma ListsAreOrdered(result: map<nat, seq<int>>, midnight: Midnights, first: nat, window: Window, present: set<int>,
                        day: nat)
    requires IsMissing(result, midnight, first, window, present) && day in result
    ensures result[day] != []
    ensures forall i: nat, j: nat :: i < j < |result[day]| ==> result[day][i] < result[day][j]
  {
    forall i: nat, j: nat | i < j < |result[day]| ensures result[day][i] < result[day][j] {
      MissingFromAscends(midnight(day), midnight(day + 1), window, present, i, j);
    }
  }

  lemma ListedWithinDay(result: map<nat, seq<int>>, midnight: Midnights, first: nat, window: Window, present: set<int>,
                        day: nat, t: int)
    requires IsMissing(result, midnight, first, window, present) && day in result && t in result[day]
    ensures midnight(day) <= t < midnight(day + 1)
  {
    MissingFromExact(midnight(day), midnight(day + 1), window, present, t);
  }

  /** Different days list different hours. */
  lemma ListsAreDisjoint(result: map<nat, seq<int>>, midnight: Midnights, first: nat, window: Window, present: set<int>,
                         a: nat, b: nat, t: int)
    requires Ordered(midnight) && IsMissing(result, midnight, first, window, present)
    requires a in result && b in result && a != b && t in result[a]
    ensures t !in result[b]
  {
    hide IsMissing, MissingFrom, Ordered;
    ListedWithinDay(result, midnight, first, window, present, a, t);
    if t in result[b] {
      ListedWithinDay(result, midnight, first, window, present, b, t);
      MidnightsGrow(midnight, if a < b then a + 1 else b + 1, if a < b then b else a);
    }
  }

  /** Adding a price at each listed hour leaves nothing missing. */
  lemma FillingTheGapsEmptiesTheResult(result: map<nat, seq<int>>, after: map<nat, seq<int>>, midnight: Midnights, first: nat,
                                       window: Window, prices: seq<int>, added: seq<int>)
    requires Ordered(midnight)
    requires IsMissing(result, midnight, first, window, set p | p in prices)
    requires IsMissing(after, midnight, first, window, set p | p in prices + added)
    requires forall t :: Listed(result, t) ==> t in added
    ensures after == map[]
  {
    var present, more := set p | p in prices, set p | p in prices + added;
    forall day: nat | window.from < window.to && first <= day && midnight(day) < window.to
      ensures MissingOn(midnight, day, window, more) == []
    {
      forall t ensures t !in MissingOn(midnight, day, window, more) {
        MissingFromExact(midnight(day), midnight(day + 1), window, more, t);
        MissingFromExact(midnight(day), midnight(day + 1), window, present, t);
        assert t in MissingOn(midnight, day, window, present) ==> Listed(result, t);
      }
      NoMembers(MissingOn(midnight, day, window, more));
    }
    assert forall day: nat :: day !in after;
  }

  lemma SomeMember(s: seq<int>) returns (t: int)
    requires s != []
    ensures t in s
  {
    t := s[0];
  }

  lemma NoMembers(s: seq<int>)
    requires forall t :: t !in s
    ensures s == []
  {
    if s != [] {
      var t := SomeMember(s);
    }
  }

  /** A day without prices inside the window lists as many hours as it has. */
  lemma {:induction false} EmptyDayListsItsHours(h: int, nextDay: int, window: Window)
    requires window.from <= h <= nextDay <= window.to && (nextDay - h) % HOUR == 0
    ensures |MissingFrom(h, nextDay, window, {})| * HOUR == nextDay - h
    decreases nextDay - h
  {
    if h < nextDay {
      HourSteps(nextDay, h);
      EmptyDayListsItsHours(h + HOUR, nextDay, window);
    }
  }
}
