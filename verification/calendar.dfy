/** The week calendar of campaigns (src/components/campaigns/CalendarView.tsx).
    Dates are day numbers counted from 1970-01-01 (day 0, a Thursday);
    date-fns' `format(date, 'yyyy-MM-dd')` is the parameter `key`, and a
    campaign's day is the text of its `date` before the first 'T'. */
module Calendar {
  import opened Text
  import opened Seqs
  import opened Kanban

  /** `startOfWeek(viewDate, { weekStartsOn: 0 })`: the Sunday on or before `d`. */
  function WeekStart(d: int): (ws: int)
    ensures ws <= d < ws + 7
    ensures (ws + 4) % 7 == 0
  {
    d - (d + 4) % 7
  }

  /** `Array.from({ length: 7 }, (_, i) => addDays(weekStart, i))`. */
  function WeekDays(view: int): (days: seq<int>)
    ensures |days| == 7
    ensures days[0] == WeekStart(view)
    ensures forall i :: 0 < i < 7 ==> days[i] == days[i - 1] + 1
  {
    seq(7, i requires 0 <= i < 7 => WeekStart(view) + i)
  }

  /** The bucket keys, one per day of the week. */
  function WeekKeys(view: int, key: int -> string): (keys: seq<string>)
    ensures |keys| == 7
    ensures forall i :: 0 <= i < 7 ==> keys[i] == key(WeekDays(view)[i])
  {
    seq(7, i requires 0 <= i < 7 => key(WeekDays(view)[i]))
  }

  /** `campaign.date.split('T')[0]`. */
  function DayKey(c: Campaign): string {
    BeforeFirst(c.date, 'T')
  }

  function OnDay(k: string): Campaign -> bool {
    (c: Campaign) => DayKey(c) == k
  }

  /** `campaignsByDate` after its initialisation: every week key maps to []. */
  function EmptyBuckets(keys: seq<string>): (m: map<string, seq<Campaign>>)
    ensures m.Keys == Elems(keys)
    ensures forall k :: k in m ==> m[k] == []
  {
    map k | k in keys :: []
  }

  /** The names a plain object literal inherits from `Object.prototype`:
      `name in campaignsByDate` holds for each of them although no bucket
      was created under it. */
  const ObjectPrototypeNames: set<string> := {
    "constructor", "hasOwnProperty", "isPrototypeOf", "propertyIsEnumerable",
    "toLocaleString", "toString", "valueOf", "__proto__",
    "__defineGetter__", "__defineSetter__", "__lookupGetter__", "__lookupSetter__"
  }

  /** A campaign whose day key is no key of the week but an inherited name
      passes the `in` guard; the value found under it is a function or
      `Object.prototype`, neither of which has `push`, so the render throws
      a TypeError. */
  predicate Throws(keys: seq<string>, c: Campaign) {
    DayKey(c) !in keys && DayKey(c) in ObjectPrototypeNames
  }

  /** Some campaign makes the population pass throw. */
  predicate RenderThrows(keys: seq<string>, campaigns: seq<Campaign>) {
    exists i :: 0 <= i < |campaigns| && Throws(keys, campaigns[i])
  }

  /** The outcome of the population pass: the filled buckets, or the
      TypeError raised at campaign number `at`. */
  datatype Grouping = Grouped(buckets: map<string, seq<Campaign>>) | TypeError(at: nat)

  /** The population pass of `CalendarView`: each campaign whose day key
      is one of the week's keys is pushed onto that day's bucket, a
      campaign whose day key is an inherited name throws, and any other
      campaign is dropped. */
  method GroupByDay(keys: seq<string>, campaigns: seq<Campaign>) returns (r: Grouping)
    ensures r.TypeError? <==> RenderThrows(keys, campaigns)
    ensures r.TypeError? ==>
      && r.at < |campaigns|
      && Throws(keys, campaigns[r.at])
      && forall j :: 0 <= j < r.at ==> !Throws(keys, campaigns[j])
    ensures r.Grouped? ==> r.buckets.Keys == Elems(keys)
    ensures r.Grouped? ==> forall k :: k in r.buckets ==> r.buckets[k] == Filter(campaigns, OnDay(k))
  {
    var buckets := EmptyBuckets(keys);
    var i := 0;
    assert campaigns[..i] == [];
    while i < |campaigns|
      invariant 0 <= i <= |campaigns|
      invariant buckets.Keys == Elems(keys)
      invariant forall k :: k in buckets ==> buckets[k] == Filter(campaigns[..i], OnDay(k))
      invariant forall j :: 0 <= j < i ==> !Throws(keys, campaigns[j])
    {
      var c := campaigns[i];
      var day := DayKey(c);
      if day !in buckets && day in ObjectPrototypeNames {
        return TypeError(i);
      }
      ghost var before := buckets;
      if day in buckets {
        buckets := buckets[day := buckets[day] + [c]];
      }
      PlaceStep(campaigns, i, before, buckets);
      i := i + 1;
    }
    assert campaigns[..i] == campaigns;
    r := Grouped(buckets);
  }

  /** One step of the population pass: pushing campaign `i` onto its
      day's bucket, if the week has that day, extends every bucket to the
      next prefix. */
  lemma PlaceStep(campaigns: seq<Campaign>, i: int, before: map<string, seq<Campaign>>,
                  after: map<string, seq<Campaign>>)
    requires 0 <= i < |campaigns|
    requires forall k :: k in before ==> before[k] == Filter(campaigns[..i], OnDay(k))
    requires after == if DayKey(campaigns[i]) in before
                      then before[DayKey(campaigns[i]) := before[DayKey(campaigns[i])] + [campaigns[i]]]
                      else before
    ensures after.Keys == before.Keys
    ensures forall k :: k in after ==> after[k] == Filter(campaigns[..i + 1], OnDay(k))
  {
    forall k | k in after
      ensures after[k] == Filter(campaigns[..i + 1], OnDay(k))
    {
      FilterSnoc(campaigns, i, OnDay(k));
    }
  }

  /** The reference board of a week: for each of the week's keys, the
      campaigns of that day in input order. */
  function WeekBuckets(view: int, key: int -> string, campaigns: seq<Campaign>): map<string, seq<Campaign>> {
    map k | k in WeekKeys(view, key) :: Filter(campaigns, OnDay(k))
  }

  /** What `CalendarView` computes for a view date: the week's days and
      keys, then the population pass over them. */
  method RenderWeek(view: int, key: int -> string, campaigns: seq<Campaign>)
    returns (days: seq<int>, r: Grouping)
    ensures |days| == 7 && days[0] <= view < days[0] + 7
    ensures forall i :: 0 <= i < 7 ==> days[i] == days[0] + i
    ensures days == WeekDays(view)
    ensures r.TypeError? <==> RenderThrows(WeekKeys(view, key), campaigns)
    ensures r.Grouped? ==> r.buckets == WeekBuckets(view, key, campaigns)
  {
    days := WeekDays(view);
    r := GroupByDay(WeekKeys(view, key), campaigns);
  }

  /** A campaign shows up in a bucket of the week exactly when its day key
      is that bucket's key. A campaign outside the week is in no bucket,
      and when its day key is an inherited name the render throws instead
      of leaving it out. */
  lemma PlacementRule(view: int, key: int -> string, campaigns: seq<Campaign>, c: Campaign)
    requires c in campaigns
    ensures forall k :: k in WeekBuckets(view, key, campaigns) ==>
      (c in WeekBuckets(view, key, campaigns)[k] <==> DayKey(c) == k)
    ensures DayKey(c) !in WeekKeys(view, key) ==>
      forall k :: k in WeekBuckets(view, key, campaigns) ==> c !in WeekBuckets(view, key, campaigns)[k]
    ensures DayKey(c) !in WeekKeys(view, key) && DayKey(c) in ObjectPrototypeNames ==>
      RenderThrows(WeekKeys(view, key), campaigns)
  {
    var i :| 0 <= i < |campaigns| && campaigns[i] == c;
    assert Throws(WeekKeys(view, key), c) ==> Throws(WeekKeys(view, key), campaigns[i]);
  }

  /** A date written as an ISO date starts with a digit, and no inherited
      name does, so such a campaign never throws. */
  lemma IsoDatesNeverThrow(keys: seq<string>, c: Campaign)
    requires |c.date| > 0 && '0' <= c.date[0] <= '9'
    ensures !Throws(keys, c)
  {
    var d := DayKey(c);
    assert |d| > 0 && d[0] == c.date[0];
    forall n | n in ObjectPrototypeNames
      ensures |n| > 0 && !('0' <= n[0] <= '9')
    {
    }
  }

  /** Within a day, campaigns keep their input order. */
  lemma DayKeepsOrder(view: int, key: int -> string, campaigns: seq<Campaign>, k: string)
    requires k in WeekBuckets(view, key, campaigns)
    ensures IsSubseq(WeekBuckets(view, key, campaigns)[k], campaigns)
  {
    FilterIsSubseq(campaigns, OnDay(k));
  }

  /** With a formatter that tells days apart, the map has exactly seven keys. */
  lemma SevenBuckets(view: int, key: int -> string, campaigns: seq<Campaign>)
    requires forall a, b :: key(a) == key(b) ==> a == b
    ensures |WeekBuckets(view, key, campaigns).Keys| == 7
  {
    var keys := WeekKeys(view, key);
    assert NoDup(keys) by {
      forall i, j | 0 <= i < j < 7 ensures keys[i] != keys[j] {
        assert WeekDays(view)[i] == WeekStart(view) + i;
        assert WeekDays(view)[j] == WeekStart(view) + j;
      }
    }
    NoDupCard(keys);
    assert WeekBuckets(view, key, campaigns).Keys == Elems(keys);
  }

  /** The left chevron, `addDays(prevDate, -7)`: the displayed week
      becomes the one before. */
  function PreviousWeek(view: int): (r: int)
    ensures WeekStart(r) == WeekStart(view) - 7
    ensures WeekStart(r) <= r < WeekStart(r) + 7 && r - WeekStart(r) == view - WeekStart(view)
  {
    WeekStartShift(view, -1);
    view - 7
  }

  /** The right chevron, `addDays(prevDate, 7)`: the displayed week
      becomes the one after. */
  function NextWeek(view: int): (r: int)
    ensures WeekStart(r) == WeekStart(view) + 7
    ensures WeekStart(r) <= r < WeekStart(r) + 7 && r - WeekStart(r) == view - WeekStart(view)
  {
    WeekStartShift(view, 1);
    view + 7
  }

  /** Back then forward (or forward then back) returns to the same view
      date, and each step moves the displayed week by exactly seven days. */
  lemma NavigationRoundTrip(view: int)
    ensures NextWeek(PreviousWeek(view)) == view
    ensures PreviousWeek(NextWeek(view)) == view
    ensures WeekStart(NextWeek(view)) == WeekStart(view) + 7
    ensures WeekStart(PreviousWeek(view)) == WeekStart(view) - 7
  {
    WeekStartShift(view, 1);
    WeekStartShift(view, -1);
  }

  lemma WeekStartShift(view: int, n: int)
    ensures WeekStart(view + 7 * n) == WeekStart(view) + 7 * n
  {
    var ws := WeekStart(view);
    var w := WeekStart(view + 7 * n);
    assert ws + 7 * n <= view + 7 * n < ws + 7 * n + 7;
    assert (ws + 7 * n + 4) % 7 == 0 by {
      assert ws + 7 * n + 4 == (ws + 4) + 7 * n;
    }
    SundayUnique(w, ws + 7 * n, view + 7 * n);
  }

  /** Only one Sunday lies in any seven-day window containing `d`. */
  lemma SundayUnique(a: int, b: int, d: int)
    requires a <= d < a + 7 && b <= d < b + 7
    requires (a + 4) % 7 == 0 && (b + 4) % 7 == 0
    ensures a == b
  {
    var qa, qb := (a + 4) / 7, (b + 4) / 7;
    assert a + 4 == 7 * qa;
    assert b + 4 == 7 * qb;
    assert -7 < 7 * (qa - qb) < 7;
  }
}
