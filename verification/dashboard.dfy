/**
 * The Dashboard page (src/pages/Dashboard.tsx): the signed-in user's
 * upcoming shifts, soonest first, and the two counters of its Quick Stats
 * card.
 */
module Dashboard {
  import opened Types
  import opened Filtering
  import opened ShiftContext

  /**
   * The shift is upcoming when it is later than today or on today itself
   * (src/pages/Dashboard.tsx:27), read on day numbers.
   */
  predicate IsUpcoming(sh: Shift, today: Day)
  {
    sh.date > today || sh.date == today
  }

  function UpcomingFrom(today: Day): Shift -> bool
  {
    (sh: Shift) => IsUpcoming(sh, today)
  }

  ghost predicate SortedByDate(s: seq<Shift>)
  {
    forall i, j :: 0 <= i < j < |s| ==> s[i].date <= s[j].date
  }

  /**
   * Inserts `x` in front of the first shift that is not earlier, so that a
   * shift inserted later ends up ahead of shifts of the same day inserted
   * before it.
   */
  function InsertByDate(x: Shift, s: seq<Shift>): (r: seq<Shift>)
    requires SortedByDate(s)
    ensures |r| == |s| + 1
    ensures multiset(r) == multiset(s) + multiset{x}
    ensures forall y :: y in r <==> y in s || y == x
    ensures SortedByDate(r)
    decreases |s|
  {
    if |s| == 0 || x.date <= s[0].date then [x] + s
    else
      assert s == [s[0]] + s[1..];
      var rest := InsertByDate(x, s[1..]);
      assert forall k :: 0 <= k < |rest| ==> rest[k] in s[1..] || rest[k] == x;
      assert forall k :: 0 <= k < |rest| ==> s[0].date <= rest[k].date;
      var r := [s[0]] + rest;
      assert forall k :: 0 < k < |r| ==> r[k] == rest[k - 1];
      r
  }

  /**
   * The comparator sort `(a, b) => date(a) - date(b)`; JavaScript's sort is
   * stable, so shifts of the same day keep their relative order.
   */
  function SortByDate(s: seq<Shift>): (r: seq<Shift>)
    ensures |r| == |s|
    ensures multiset(r) == multiset(s)
    ensures SortedByDate(r)
    decreases |s|
  {
    if |s| == 0 then []
    else
      assert s == [s[0]] + s[1..];
      InsertByDate(s[0], SortByDate(s[1..]))
  }

  /** Inserting `x` adds it in front of the shifts of its own day and nowhere else. */
  lemma {:induction false} InsertOnDay(x: Shift, s: seq<Shift>, d: Day)
    requires SortedByDate(s)
    ensures OnDay(InsertByDate(x, s), d) == if x.date == d then [x] + OnDay(s, d) else OnDay(s, d)
    decreases |s|
  {
    if |s| == 0 || x.date <= s[0].date {
      assert InsertByDate(x, s) == [x] + s;
      assert ([x] + s)[1..] == s;
    } else {
      var rest := InsertByDate(x, s[1..]);
      assert InsertByDate(x, s) == [s[0]] + rest;
      assert ([s[0]] + rest)[1..] == rest;
      InsertOnDay(x, s[1..], d);
      if s[0].date == d {
        assert x.date != d;
      }
    }
  }

  /** The sort is stable: on every day the shifts keep their input order. */
  lemma {:induction false} SortByDateStable(s: seq<Shift>, d: Day)
    ensures OnDay(SortByDate(s), d) == OnDay(s, d)
    decreases |s|
  {
    if |s| > 0 {
      SortByDateStable(s[1..], d);
      InsertOnDay(s[0], SortByDate(s[1..]), d);
    }
  }

  /** `upcomingShifts`: the user's shifts from today on, soonest first. */
  function UpcomingShifts(userShifts: seq<Shift>, today: Day): (r: seq<Shift>)
    ensures forall sh :: sh in r <==> sh in userShifts && sh.date >= today
    ensures forall sh :: sh in r ==> sh.date >= today
    ensures forall sh :: sh in userShifts && sh.date == today ==> sh in r
    ensures SortedByDate(r)
    ensures forall sh :: multiset(r)[sh] == if sh.date >= today then multiset(userShifts)[sh] else 0
  {
    SortByDate(Filter(userShifts, UpcomingFrom(today)))
  }

  /** Sorting keeps, on every day, the roster order of the user's upcoming shifts. */
  lemma UpcomingKeepsDayOrder(userShifts: seq<Shift>, today: Day, d: Day)
    ensures OnDay(UpcomingShifts(userShifts, today), d)
         == if d >= today then OnDay(userShifts, d) else []
  {
    var up := Filter(userShifts, UpcomingFrom(today));
    var both := (sh: Shift) => IsUpcoming(sh, today) && sh.date == d;
    SortByDateStable(up, d);
    assert OnDay(UpcomingShifts(userShifts, today), d) == Filter(up, DatedOn(d));
    FilterFilter(userShifts, UpcomingFrom(today), DatedOn(d), both);
    assert Filter(up, DatedOn(d)) == Filter(userShifts, both);
    if d >= today {
      FilterCongruent(userShifts, both, DatedOn(d));
    } else {
      FilterNone(userShifts, both);
    }
  }

  /** What the page shows: the upcoming list and the two Quick Stats counters. */
  datatype DashboardView = DashboardView(upcoming: seq<Shift>, upcomingCount: nat, openCount: nat)

  function Dashboard(shifts: seq<Shift>, reqs: seq<SwapRequest>, current: Option<User>, today: Day): (r: DashboardView)
    ensures forall sh :: sh in r.upcoming <==>
      sh in shifts && current.Some? && sh.userId == current.value.id && sh.date >= today
    ensures SortedByDate(r.upcoming)
    ensures r.upcoming == UpcomingShifts(UserShifts(shifts, current), today)
    ensures r.upcomingCount == |r.upcoming|
    ensures r.openCount == |OpenRequests(reqs, current)|
    ensures current.None? ==> r.upcoming == [] && r.upcomingCount == 0
  {
    var upcoming := UpcomingShifts(UserShifts(shifts, current), today);
    DashboardView(upcoming, |upcoming|, |OpenRequests(reqs, current)|)
  }
}
