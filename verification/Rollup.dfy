/** Rolling kept sessions up into month, week and day buckets. */
module Rollup {
  import opened Tallies

  type Day = int

  /** The month, the ISO week or the day itself that a day falls in. */
  type Key = Day -> int

  /** A parsed session: whether its start and end carry a date, its surface, and
      its cells by local day. */
  datatype Session = Session(dated: bool, surface: string, daily: map<Day, Tally>)

  datatype Bucket = Bucket(total: Tally, bySurface: map<string, Tally>)

  type Buckets = map<int, Bucket>

  const EMPTY := Bucket(NOTHING, map[])
  const ONE_SESSION := Tally(0, 0, 0.0, 0.0, 1)

  function BucketAt(m: Buckets, k: int): Bucket { if k in m then m[k] else EMPTY }

  /** Adds to a bucket and to one surface of it. */
  function Put(m: Buckets, k: int, surface: string, t: Tally): Buckets {
    var b := BucketAt(m, k);
    m[k := Bucket(Plus(b.total, t), Add(b.bySurface, surface, t))]
  }

  /** One session's in-window activity: what is left of it after the cutoff. */
  datatype Activity = Activity(surface: string, days: map<Day, Tally>)

  function CallsOnly(t: Tally): Tally { t.(sessions := 0) }

  function InWindow(s: Session, cutoff: Day): Activity {
    Activity(s.surface, map d | d in s.daily && d >= cutoff :: CallsOnly(s.daily[d]))
  }

  /** The sessions that are kept: dated, and active on or after the cutoff. */
  predicate IsKept(s: Session, cutoff: Day) { s.dated && InWindow(s, cutoff).days != map[] }

  function Kept(sessions: seq<Session>, cutoff: Day, n: nat): seq<Session>
    requires n <= |sessions|
  {
    if n == 0 then []
    else Kept(sessions, cutoff, n - 1) + (if IsKept(sessions[n - 1], cutoff) then [sessions[n - 1]] else [])
  }

  /** A session is kept, as often as it is there, exactly when it is dated and has
      a day at or after the cutoff. */
  lemma {:induction false} KeptIff(sessions: seq<Session>, cutoff: Day, n: nat, s: Session)
    requires n <= |sessions|
    ensures multiset(Kept(sessions, cutoff, n))[s] == if InTime(s, cutoff) then multiset(sessions[..n])[s] else 0
  {
    if n > 0 {
      var last, before := sessions[n - 1], Kept(sessions, cutoff, n - 1);
      KeptIff(sessions, cutoff, n - 1, s);
      assert sessions[..n] == sessions[..n - 1] + [last];
      InTimeIff(last, cutoff);
      CountMore(sessions[..n - 1], last, s);
      CountMore(before, last, s);
      assert Kept(sessions, cutoff, n) == if InTime(last, cutoff) then before + [last] else before;
    }
  }

  lemma CountMore(before: seq<Session>, last: Session, s: Session)
    ensures multiset(before + [last])[s] == multiset(before)[s] + if last == s then 1 else 0
  {
  }

  predicate InTime(s: Session, cutoff: Day) { s.dated && exists d :: d in s.daily && d >= cutoff }

  lemma InTimeIff(s: Session, cutoff: Day)
    ensures IsKept(s, cutoff) <==> InTime(s, cutoff)
  {
    if d :| d in s.daily && d >= cutoff { assert d in InWindow(s, cutoff).days; }
    if InWindow(s, cutoff).days != map[] {
      var d :| d in InWindow(s, cutoff).days;
    }
  }

  function Activities(kept: seq<Session>, cutoff: Day): (acts: seq<Activity>)
    ensures |acts| == |kept| && forall i :: 0 <= i < |kept| ==> acts[i] == InWindow(kept[i], cutoff)
  {
    seq(|kept|, i requires 0 <= i < |kept| => InWindow(kept[i], cutoff))
  }

  // ----- what a bucket should hold -----

  function DaysAt(days: map<Day, Tally>, key: Key, k: int): map<Day, Tally> {
    map d | d in days && key(d) == k :: days[d]
  }

  /** A session's part of bucket k: its cells there, and one session if any. */
  ghost function Share(days: map<Day, Tally>, key: Key, k: int): Tally {
    var here := DaysAt(days, key, k);
    if here == map[] then NOTHING else Plus(SumOf(here), ONE_SESSION)
  }

  ghost function Total(acts: seq<Activity>, key: Key, k: int, n: nat): Tally
    requires n <= |acts|
  {
    if n == 0 then NOTHING else Plus(Total(acts, key, k, n - 1), Share(acts[n - 1].days, key, k))
  }

  ghost function TotalOn(acts: seq<Activity>, key: Key, k: int, surface: string, n: nat): Tally
    requires n <= |acts|
  {
    if n == 0 then NOTHING
    else if acts[n - 1].surface == surface then
      Plus(TotalOn(acts, key, k, surface, n - 1), Share(acts[n - 1].days, key, k))
    else TotalOn(acts, key, k, surface, n - 1)
  }

  /** All in-window cells of all sessions. */
  ghost function Grand(acts: seq<Activity>, n: nat): Tally
    requires n <= |acts|
  {
    if n == 0 then NOTHING else Plus(Grand(acts, n - 1), SumOf(acts[n - 1].days))
  }

  function Totals(m: Buckets): map<int, Tally> { map k | k in m :: m[k].total }

  predicate ActiveAt(acts: seq<Activity>, key: Key, k: int) {
    exists i :: 0 <= i < |acts| && DaysAt(acts[i].days, key, k) != map[]
  }

  /** Bucket by bucket, and surface by surface within a bucket. */
  ghost predicate Holds(m: Buckets, acts: seq<Activity>, key: Key) {
    && (forall k :: k in m <==> ActiveAt(acts, key, k))
    && (forall k :: BucketAt(m, k).total == Total(acts, key, k, |acts|))
    && (forall k, surface :: At(BucketAt(m, k).bySurface, surface) == TotalOn(acts, key, k, surface, |acts|))
  }

  /** Every bucket is the sum of its surfaces. */
  ghost predicate SurfacesAddUp(m: Buckets) {
    forall k :: k in m ==> SumOf(m[k].bySurface) == m[k].total
  }

  /** The buckets together hold every in-window cell once. */
  ghost predicate Conserves(m: Buckets, acts: seq<Activity>) {
    CallsOnly(SumOf(Totals(m))) == Grand(acts, |acts|)
  }

  ghost predicate Rolled(m: Buckets, acts: seq<Activity>, key: Key) {
    Holds(m, acts, key) && SurfacesAddUp(m) && Conserves(m, acts)
  }

  // ----- one more day of the last session -----

  /** What the loop does to one roll-up for one day. */
  function DayAdded(m: Buckets, k: int, surface: string, cell: Tally, first: bool): Buckets {
    var added := Put(m, k, surface, cell);
    if first then Put(added, k, surface, ONE_SESSION) else added
  }

  lemma SumNew<K>(m: map<K, Tally>, k: K, t: Tally)
    requires k !in m
    ensures SumOf(m[k := t]) == Plus(SumOf(m), t)
  {
    SumAdd(m, k, t);
    assert Plus(NOTHING, t) == t;
  }

  /** What a new day adds to its session's part of bucket k. */
  function Gain(days: map<Day, Tally>, d: Day, cell: Tally, key: Key, k: int): Tally {
    if key(d) != k then NOTHING
    else if DaysAt(days, key, k) == map[] then Plus(cell, ONE_SESSION)
    else cell
  }

  lemma ShareGains(days: map<Day, Tally>, d: Day, cell: Tally, key: Key, k: int)
    requires d !in days
    ensures Share(days[d := cell], key, k) == Plus(Share(days, key, k), Gain(days, d, cell, key, k))
  {
    var here, more := DaysAt(days, key, k), DaysAt(days[d := cell], key, k);
    if key(d) == k {
      assert more == here[d := cell];
      SumNew(here, d, cell);
      assert d in more;
    } else {
      assert more == here;
    }
  }

  lemma {:induction false} TotalAgrees(a: seq<Activity>, b: seq<Activity>, key: Key, k: int, n: nat)
    requires n <= |a| && n <= |b| && forall i :: 0 <= i < n ==> a[i] == b[i]
    ensures Total(a, key, k, n) == Total(b, key, k, n)
    ensures forall surface :: TotalOn(a, key, k, surface, n) == TotalOn(b, key, k, surface, n)
  {
    if n > 0 { TotalAgrees(a, b, key, k, n - 1); }
  }

  lemma {:induction false} GrandAgrees(a: seq<Activity>, b: seq<Activity>, n: nat)
    requires n <= |a| && n <= |b| && forall i :: 0 <= i < n ==> a[i] == b[i]
    ensures Grand(a, n) == Grand(b, n)
  {
    if n > 0 { GrandAgrees(a, b, n - 1); }
  }

  lemma PlusAssociates(a: Tally, b: Tally, c: Tally)
    ensures Plus(Plus(a, b), c) == Plus(a, Plus(b, c))
  {
  }

  lemma {:induction false} TotalLast(past: seq<Activity>, act: Activity, key: Key, k: int)
    ensures Total(past + [act], key, k, |past + [act]|) == Plus(Total(past, key, k, |past|), Share(act.days, key, k))
  {
    TotalAgrees(past + [act], past, key, k, |past|);
  }

  lemma {:induction false} TotalOnLast(past: seq<Activity>, act: Activity, key: Key, k: int, on: string)
    ensures TotalOn(past + [act], key, k, on, |past + [act]|)
      == if act.surface == on then Plus(TotalOn(past, key, k, on, |past|), Share(act.days, key, k))
         else TotalOn(past, key, k, on, |past|)
  {
    TotalAgrees(past + [act], past, key, k, |past|);
  }

  lemma {:induction false} GrandLast(past: seq<Activity>, act: Activity)
    ensures Grand(past + [act], |past + [act]|) == Plus(Grand(past, |past|), SumOf(act.days))
  {
    GrandAgrees(past + [act], past, |past|);
  }

  lemma ActiveLast(past: seq<Activity>, act: Activity, key: Key, k: int)
    ensures ActiveAt(past + [act], key, k) <==> ActiveAt(past, key, k) || DaysAt(act.days, key, k) != map[]
  {
    var acts := past + [act];
    assert forall i :: 0 <= i < |past| ==> acts[i] == past[i];
    assert acts[|past|] == act;
  }

  /** The totals a bucket should hold grow by the day's gain. */
  lemma {:induction false} TotalGains(
      past: seq<Activity>, surface: string, done: map<Day, Tally>, d: Day, cell: Tally, key: Key, k: int)
    requires d !in done
    ensures var a, b := past + [Activity(surface, done)], past + [Activity(surface, done[d := cell])];
            Total(b, key, k, |b|) == Plus(Total(a, key, k, |a|), Gain(done, d, cell, key, k))
  {
    TotalLast(past, Activity(surface, done), key, k);
    TotalLast(past, Activity(surface, done[d := cell]), key, k);
    ShareGains(done, d, cell, key, k);
    PlusAssociates(Total(past, key, k, |past|), Share(done, key, k), Gain(done, d, cell, key, k));
  }

  lemma {:induction false} TotalOnGains(
      past: seq<Activity>, surface: string, done: map<Day, Tally>, d: Day, cell: Tally, key: Key, k: int, on: string)
    requires d !in done
    ensures var a, b := past + [Activity(surface, done)], past + [Activity(surface, done[d := cell])];
            TotalOn(b, key, k, on, |b|)
            == if on == surface then Plus(TotalOn(a, key, k, on, |a|), Gain(done, d, cell, key, k))
               else TotalOn(a, key, k, on, |a|)
  {
    TotalOnLast(past, Activity(surface, done), key, k, on);
    TotalOnLast(past, Activity(surface, done[d := cell]), key, k, on);
    ShareGains(done, d, cell, key, k);
    PlusAssociates(TotalOn(past, key, k, on, |past|), Share(done, key, k), Gain(done, d, cell, key, k));
  }

  lemma ActiveGains(past: seq<Activity>, surface: string, done: map<Day, Tally>, d: Day, cell: Tally, key: Key, k: int)
    requires d !in done
    ensures ActiveAt(past + [Activity(surface, done[d := cell])], key, k)
      <==> k == key(d) || ActiveAt(past + [Activity(surface, done)], key, k)
  {
    ActiveLast(past, Activity(surface, done), key, k);
    ActiveLast(past, Activity(surface, done[d := cell]), key, k);
    var here, more := DaysAt(done, key, k), DaysAt(done[d := cell], key, k);
    if key(d) == k { assert d in more; } else { assert more == here; }
  }

  /** What the loop writes grows by the same gain. */
  lemma BucketGains(
      m: Buckets, surface: string, done: map<Day, Tally>, d: Day, cell: Tally, key: Key, k: int, on: string)
    ensures var m' := DayAdded(m, key(d), surface, cell, DaysAt(done, key, key(d)) == map[]);
            var gain := Gain(done, d, cell, key, k);
            && (k in m' <==> k in m || k == key(d))
            && BucketAt(m', k).total == Plus(BucketAt(m, k).total, gain)
            && At(BucketAt(m', k).bySurface, on)
               == if on == surface then Plus(At(BucketAt(m, k).bySurface, on), gain)
                 else At(BucketAt(m, k).bySurface, on)
  {
    var b := BucketAt(m, k);
    PlusAssociates(b.total, cell, ONE_SESSION);
    PlusAssociates(At(b.bySurface, on), cell, ONE_SESSION);
  }

  lemma HoldsMore(
      m: Buckets, past: seq<Activity>, surface: string, done: map<Day, Tally>, d: Day, cell: Tally, key: Key)
    requires d !in done && Holds(m, past + [Activity(surface, done)], key)
    ensures Holds(DayAdded(m, key(d), surface, cell, DaysAt(done, key, key(d)) == map[]),
                  past + [Activity(surface, done[d := cell])], key)
  {
    var m' := DayAdded(m, key(d), surface, cell, DaysAt(done, key, key(d)) == map[]);
    var a, b := past + [Activity(surface, done)], past + [Activity(surface, done[d := cell])];
    forall k ensures k in m' <==> ActiveAt(b, key, k) {
      BucketGains(m, surface, done, d, cell, key, k, surface);
      ActiveGains(past, surface, done, d, cell, key, k);
      assert k in m <==> ActiveAt(a, key, k);
    }
    forall k ensures BucketAt(m', k).total == Total(b, key, k, |b|) {
      BucketGains(m, surface, done, d, cell, key, k, surface);
      TotalGains(past, surface, done, d, cell, key, k);
    }
    forall k, on: string ensures At(BucketAt(m', k).bySurface, on) == TotalOn(b, key, k, on, |b|) {
      BucketGains(m, surface, done, d, cell, key, k, on);
      TotalOnGains(past, surface, done, d, cell, key, k, on);
    }
  }

  lemma PutKeepsSurfaces(m: Buckets, k: int, surface: string, t: Tally)
    requires SurfacesAddUp(m)
    ensures SurfacesAddUp(Put(m, k, surface, t))
    ensures SumOf(Totals(Put(m, k, surface, t))) == Plus(SumOf(Totals(m)), t)
  {
    SumAdd(BucketAt(m, k).bySurface, surface, t);
    assert Totals(Put(m, k, surface, t)) == Add(Totals(m), k, t);
    SumAdd(Totals(m), k, t);
  }

  lemma ConservesMore(
      m: Buckets, past: seq<Activity>, surface: string, done: map<Day, Tally>, d: Day, cell: Tally, k: int, first: bool)
    requires d !in done && cell.sessions == 0 && SurfacesAddUp(m) && Conserves(m, past + [Activity(surface, done)])
    ensures SurfacesAddUp(DayAdded(m, k, surface, cell, first))
    ensures Conserves(DayAdded(m, k, surface, cell, first), past + [Activity(surface, done[d := cell])])
  {
    PutKeepsSurfaces(m, k, surface, cell);
    PutKeepsSurfaces(Put(m, k, surface, cell), k, surface, ONE_SESSION);
    SumNew(done, d, cell);
    GrandLast(past, Activity(surface, done));
    GrandLast(past, Activity(surface, done[d := cell]));
    PlusAssociates(Grand(past, |past|), SumOf(done), cell);
  }

  /** One more day of the last session: a roll-up keeps its meaning. */
  lemma DayKeepsRolled(
      m: Buckets, past: seq<Activity>, surface: string, done: map<Day, Tally>, d: Day, cell: Tally, key: Key)
    requires d !in done && cell.sessions == 0 && Rolled(m, past + [Activity(surface, done)], key)
    ensures Rolled(DayAdded(m, key(d), surface, cell, DaysAt(done, key, key(d)) == map[]),
                   past + [Activity(surface, done[d := cell])], key)
  {
    HoldsMore(m, past, surface, done, d, cell, key);
    ConservesMore(m, past, surface, done, d, cell, key(d), DaysAt(done, key, key(d)) == map[]);
  }

  lemma {:induction false} IdleTotals(past: seq<Activity>, idle: Activity, key: Key, k: int, on: string)
    requires idle.days == map[]
    ensures ActiveAt(past + [idle], key, k) <==> ActiveAt(past, key, k)
    ensures Total(past + [idle], key, k, |past + [idle]|) == Total(past, key, k, |past|)
    ensures TotalOn(past + [idle], key, k, on, |past + [idle]|) == TotalOn(past, key, k, on, |past|)
  {
    assert DaysAt(idle.days, key, k) == map[];
    ActiveLast(past, idle, key, k);
    TotalLast(past, idle, key, k);
    TotalOnLast(past, idle, key, k, on);
  }

  lemma IdleHolds(m: Buckets, past: seq<Activity>, idle: Activity, key: Key)
    requires idle.days == map[] && Holds(m, past, key)
    ensures Holds(m, past + [idle], key)
  {
    var a := past + [idle];
    forall k ensures k in m <==> ActiveAt(a, key, k) { IdleTotals(past, idle, key, k, ""); }
    forall k ensures BucketAt(m, k).total == Total(a, key, k, |a|) { IdleTotals(past, idle, key, k, ""); }
    forall k, on: string ensures At(BucketAt(m, k).bySurface, on) == TotalOn(a, key, k, on, |a|) {
      IdleTotals(past, idle, key, k, on);
    }
  }

  /** A session with no day yet changes nothing. */
  lemma IdleSession(m: Buckets, past: seq<Activity>, idle: Activity, key: Key)
    requires idle.days == map[] && Rolled(m, past, key)
    ensures Rolled(m, past + [idle], key)
  {
    IdleHolds(m, past, idle, key);
    GrandLast(past, idle);
  }

  // ----- the loop -----

  predicate Ascending(keys: seq<Day>) {
    forall i, j :: 0 <= i < j < |keys| ==> keys[i] < keys[j]
  }

  /** The list holds exactly the session's days, in ascending order. */
  ghost predicate Lists(keys: seq<Day>, days: map<Day, Tally>) {
    Ascending(keys) && forall d :: d in days <==> d in keys
  }

  lemma {:induction false} LastDay(days: map<Day, Tally>)
    requires days != map[]
    ensures exists d :: d in days && forall e :: e in days ==> e <= d
    decreases |days|
  {
    assert (forall d :: d !in days) ==> days.Keys <= {};
    var d :| d in days;
    if days - {d} != map[] {
      LastDay(days - {d});
      var m :| m in days - {d} && forall e :: e in days - {d} ==> e <= m;
      var last := if m < d then d else m;
      assert forall e :: e in days ==> e == d || e in days - {d};
      assert last in days && forall e :: e in days ==> e <= last;
    } else {
      assert forall e :: e in days ==> e !in days - {d} ==> e == d;
    }
  }

  /** sort.Strings over the keys of Daily. */
  ghost function KeysOf(days: map<Day, Tally>): (keys: seq<Day>)
    ensures Lists(keys, days)
    decreases |days|
  {
    if days == map[] then []
    else
      LastDay(days);
      var d :| d in days && forall e :: e in days ==> e <= d;
      KeysOf(days - {d}) + [d]
  }

  lemma LastListed(keys: seq<Day>, days: map<Day, Tally>)
    requires Lists(keys, days)
    ensures keys == [] <==> days == map[]
    ensures keys != [] ==> keys[|keys| - 1] in days && forall d :: d in days ==> d <= keys[|keys| - 1]
  {
    assert keys == [] || keys[0] in keys;
    assert (forall d :: d !in days) ==> days.Keys <= {};
  }

  lemma {:induction false} ListsUnique(a: seq<Day>, b: seq<Day>, days: map<Day, Tally>)
    requires Lists(a, days) && Lists(b, days)
    ensures a == b
    decreases |a|
  {
    LastListed(a, days);
    LastListed(b, days);
    if a != [] {
      var last := a[|a| - 1];
      assert b[|b| - 1] == last;
      ListsWithoutLast(a, days);
      ListsWithoutLast(b, days);
      ListsUnique(a[..|a| - 1], b[..|b| - 1], days - {last});
      assert a == a[..|a| - 1] + [last] && b == b[..|b| - 1] + [last];
    }
  }

  lemma ListsWithoutLast(keys: seq<Day>, days: map<Day, Tally>)
    requires Lists(keys, days) && keys != []
    ensures Lists(keys[..|keys| - 1], days - {keys[|keys| - 1]})
  {
    var init, last := keys[..|keys| - 1], keys[|keys| - 1];
    forall d ensures d in init <==> d in days - {last} {
      if d in init { var i :| 0 <= i < |init| && init[i] == d;
    }
      if d in days - {last} { var i :| 0 <= i < |keys| && keys[i] == d; assert init[i] == d; }
    }
  }

  method SortedDays(days: map<Day, Tally>) returns (keys: seq<Day>)
    ensures keys == KeysOf(days)
  {
    var left := days.Keys;
    keys := [];
    while left != {}
      invariant Ascending(keys)
      invariant forall d :: d in days <==> d in left || d in keys
      invariant forall d :: d in left ==> d !in keys
      decreases |left|
    {
      assert (forall d :: d !in left) ==> left <= {};
      var d :| d in left;
      keys := InsertDay(keys, d);
      left := left - {d};
    }
    ListsUnique(keys, KeysOf(days), days);
  }

  /** Puts d where it belongs in the list. */
  method InsertDay(keys: seq<Day>, d: Day) returns (out: seq<Day>)
    requires Ascending(keys) && d !in keys
    ensures Ascending(out) && forall x :: x in out <==> x in keys || x == d
  {
    var i := 0;
    while i < |keys| && keys[i] < d
      invariant 0 <= i <= |keys| && forall k :: 0 <= k < i ==> keys[k] < d
    {
      i := i + 1;
    }
    out := keys[..i] + [d] + keys[i..];
  }

  function DayItself(): Key { (d: Day) => d }

  /** One roll-up, and the buckets the session has been counted in. */
  datatype Progress = Progress(m: Buckets, seen: set<int>)

  /** What one in-window day does to it. */
  function OneDay(p: Progress, s: Session, d: Day, key: Key): Progress
    requires d in s.daily
  {
    Progress(DayAdded(p.m, key(d), s.surface, CallsOnly(s.daily[d]), key(d) !in p.seen), p.seen + {key(d)})
  }

  function Done(s: Session, done: map<Day, Tally>, d: Day): map<Day, Tally>
    requires d in s.daily
  {
    done[d := CallsOnly(s.daily[d])]
  }

  /** The first n of one session's days, on one roll-up. */
  function Days(before: Buckets, s: Session, keys: seq<Day>, n: nat, cutoff: Day, key: Key): Progress
    requires n <= |keys| && forall d :: d in keys ==> d in s.daily
  {
    if n == 0 then Progress(before, {})
    else
      var p, d := Days(before, s, keys, n - 1, cutoff, key), keys[n - 1];
      if d < cutoff then p else OneDay(p, s, d, key)
  }

  /** The in-window days among the first n keys. */
  function DoneDays(s: Session, cutoff: Day, keys: seq<Day>, n: nat): map<Day, Tally>
    requires n <= |keys| && forall d :: d in keys ==> d in s.daily
  {
    if n == 0 then map[]
    else if keys[n - 1] < cutoff then DoneDays(s, cutoff, keys, n - 1)
    else Done(s, DoneDays(s, cutoff, keys, n - 1), keys[n - 1])
  }

  /** All in-window days of one session, on one roll-up. */
  ghost function AfterSession(m: Buckets, s: Session, cutoff: Day, key: Key): Buckets {
    Days(m, s, KeysOf(s.daily), |KeysOf(s.daily)|, cutoff, key).m
  }

  ghost function RollUp(sessions: seq<Session>, n: nat, cutoff: Day, key: Key): Buckets
    requires n <= |sessions|
  {
    if n == 0 then map[]
    else
      var m := RollUp(sessions, n - 1, cutoff, key);
      if IsKept(sessions[n - 1], cutoff) then AfterSession(m, sessions[n - 1], cutoff, key) else m
  }

  /** The three roll-ups. */
  datatype Rollups = Rollups(months: Buckets, weeks: Buckets, days: Buckets)

  lemma {:induction false} SeenDaysAreKeys(before: Buckets, s: Session, keys: seq<Day>, n: nat, cutoff: Day)
    requires n <= |keys| && forall d :: d in keys ==> d in s.daily
    ensures forall k :: k in Days(before, s, keys, n, cutoff, DayItself()).seen ==>
        exists i :: 0 <= i < n && keys[i] == k
  {
    if n > 0 { SeenDaysAreKeys(before, s, keys, n - 1, cutoff); }
  }

  /** One session's days, in order, on all three. */
  method RollSession(before: Rollups, s: Session, keys: seq<Day>, cutoff: Day, monthOf: Key, weekOf: Key)
    returns (r: Rollups)
    requires Ascending(keys) && forall d :: d in keys ==> d in s.daily
    ensures r == Rollups(Days(before.months, s, keys, |keys|, cutoff, monthOf).m,
                         Days(before.weeks, s, keys, |keys|, cutoff, weekOf).m,
                         Days(before.days, s, keys, |keys|, cutoff, DayItself()).m)
  {
    var months, weeks, days := before.months, before.weeks, before.days;
    var seenMonth: set<int>, seenWeek: set<int> := {}, {};
    for n := 0 to |keys|
      invariant Progress(months, seenMonth) == Days(before.months, s, keys, n, cutoff, monthOf)
      invariant Progress(weeks, seenWeek) == Days(before.weeks, s, keys, n, cutoff, weekOf)
      invariant days == Days(before.days, s, keys, n, cutoff, DayItself()).m
    {
      var d := keys[n];
      if d < cutoff {
        continue;
      }
      var cell, mk, wk := CallsOnly(s.daily[d]), monthOf(d), weekOf(d);
      ghost var p := Days(before.days, s, keys, n, cutoff, DayItself());
      SeenDaysAreKeys(before.days, s, keys, n, cutoff);
      assert d !in p.seen;
      months, weeks, days := Put(months, mk, s.surface, cell), Put(weeks, wk, s.surface, cell),
        Put(days, d, s.surface, cell);
      days := Put(days, d, s.surface, ONE_SESSION);
      if mk !in seenMonth {
        months := Put(months, mk, s.surface, ONE_SESSION);
      }
      seenMonth := seenMonth + {mk};
      if wk !in seenWeek {
        weeks := Put(weeks, wk, s.surface, ONE_SESSION);
      }
      seenWeek := seenWeek + {wk};
    }
    r := Rollups(months, weeks, days);
  }

  /** Rolls every dated session up and returns the kept ones, in input order. */
  method Build(sessions: seq<Session>, cutoff: Day, monthOf: Key, weekOf: Key) returns (r: Rollups, kept: seq<Session>)
    ensures kept == Kept(sessions, cutoff, |sessions|)
    ensures r == Rollups(RollUp(sessions, |sessions|, cutoff, monthOf),
                         RollUp(sessions, |sessions|, cutoff, weekOf),
                         RollUp(sessions, |sessions|, cutoff, DayItself()))
  {
    r, kept := Rollups(map[], map[], map[]), [];
    for n := 0 to |sessions|
      invariant kept == Kept(sessions, cutoff, n)
      invariant r == Rollups(RollUp(sessions, n, cutoff, monthOf), RollUp(sessions, n, cutoff, weekOf),
                             RollUp(sessions, n, cutoff, DayItself()))
    {
      var s := sessions[n];
      if !s.dated {
        continue;
      }
      var keys := SortedDays(s.daily);
      LastDayDecides(s, cutoff);
      if |keys| == 0 || keys[|keys| - 1] < cutoff {
        continue;
      }
      r := RollSession(r, s, keys, cutoff, monthOf, weekOf);
      kept := kept + [s];
    }
  }

  /** Looking at the last day tells whether the session has any day in the window. */
  lemma LastDayDecides(s: Session, cutoff: Day)
    ensures var keys := KeysOf(s.daily);
            InWindow(s, cutoff).days == map[] <==> |keys| == 0 || keys[|keys| - 1] < cutoff
  {
    var keys, days := KeysOf(s.daily), InWindow(s, cutoff).days;
    if |keys| == 0 || keys[|keys| - 1] < cutoff {
      forall d | d in s.daily ensures d < cutoff {
        var i :| 0 <= i < |keys| && keys[i] == d;
      }
      assert days == map[];
    } else {
      assert keys[|keys| - 1] in days;
    }
  }

  // ----- the loop keeps the meaning -----

  /** Which key values the days so far have met. */
  ghost predicate Seen(seen: set<int>, done: map<Day, Tally>, key: Key) {
    forall k :: k in seen <==> DaysAt(done, key, k) != map[]
  }

  lemma SeenMore(seen: set<int>, done: map<Day, Tally>, d: Day, cell: Tally, key: Key)
    requires Seen(seen, done, key) && d !in done
    ensures Seen(seen + {key(d)}, done[d := cell], key)
  {
    forall k ensures k in seen + {key(d)} <==> DaysAt(done[d := cell], key, k) != map[] {
      var here, more := DaysAt(done, key, k), DaysAt(done[d := cell], key, k);
      if key(d) == k { assert d in more; } else { assert more == here; }
    }
  }

  lemma {:induction false} DoneDaysAre(s: Session, cutoff: Day, keys: seq<Day>, n: nat)
    requires n <= |keys| && forall d :: d in keys ==> d in s.daily
    ensures forall d :: d in DoneDays(s, cutoff, keys, n) <==> d >= cutoff && exists i :: 0 <= i < n && keys[i] == d
    ensures forall d :: d in DoneDays(s, cutoff, keys, n) ==>
      d in s.daily && DoneDays(s, cutoff, keys, n)[d] == CallsOnly(s.daily[d])
  {
    if n > 0 { DoneDaysAre(s, cutoff, keys, n - 1); }
  }

  lemma {:induction false} AllDaysDone(s: Session, cutoff: Day, keys: seq<Day>)
    requires forall d :: d in keys <==> d in s.daily
    ensures Activity(s.surface, DoneDays(s, cutoff, keys, |keys|)) == InWindow(s, cutoff)
  {
    var done, all := DoneDays(s, cutoff, keys, |keys|), InWindow(s, cutoff).days;
    DoneDaysAre(s, cutoff, keys, |keys|);
    assert forall d :: d in done <==> d in all;
    assert done == all;
  }

  /** Anything that each new day keeps holds after the session's days. */
  lemma {:induction false} FoldDays(
      keeps: (Progress, map<Day, Tally>) -> bool, before: Buckets, s: Session, keys: seq<Day>,
                                    n: nat, cutoff: Day, key: Key)
    requires n <= |keys| && Ascending(keys) && forall d :: d in keys ==> d in s.daily
    requires keeps(Progress(before, {}), map[])
    requires forall p, done, d :: d in s.daily && d !in done && keeps(p, done) ==>
      keeps(OneDay(p, s, d, key), Done(s, done, d))
    ensures keeps(Days(before, s, keys, n, cutoff, key), DoneDays(s, cutoff, keys, n))
  {
    if n > 0 {
      FoldDays(keeps, before, s, keys, n - 1, cutoff, key);
      DoneDaysAre(s, cutoff, keys, n - 1);
      assert keys[n - 1] in keys;
    }
  }

  /** Anything that each kept session keeps holds after all sessions. */
  lemma {:induction false} FoldSessions(
      keeps: (Buckets, seq<Activity>) -> bool, sessions: seq<Session>, n: nat, cutoff: Day, key: Key)
    requires n <= |sessions| && keeps(map[], [])
    requires forall m, acts, s :: keeps(m, acts) ==>
        keeps(AfterSession(m, s, cutoff, key), acts + [InWindow(s, cutoff)])
    ensures keeps(RollUp(sessions, n, cutoff, key), Activities(Kept(sessions, cutoff, n), cutoff))
  {
    var kept := Kept(sessions, cutoff, n);
    if n == 0 {
      assert Activities(kept, cutoff) == [];
    } else {
      var before, s := Kept(sessions, cutoff, n - 1), sessions[n - 1];
      FoldSessions(keeps, sessions, n - 1, cutoff, key);
      if IsKept(s, cutoff) {
        assert Activities(kept, cutoff) == Activities(before, cutoff) + [InWindow(s, cutoff)];
      } else {
        assert kept == before;
      }
    }
  }

  lemma OneDayKeeps(p: Progress, past: seq<Activity>, s: Session, done: map<Day, Tally>, d: Day, key: Key)
    requires d in s.daily && d !in done
    requires Rolled(p.m, past + [Activity(s.surface, done)], key) && Seen(p.seen, done, key)
    ensures var p' := OneDay(p, s, d, key);
            && Rolled(p'.m, past + [Activity(s.surface, Done(s, done, d))], key)
            && Seen(p'.seen, Done(s, done, d), key)
  {
    DayKeepsRolled(p.m, past, s.surface, done, d, CallsOnly(s.daily[d]), key);
    SeenMore(p.seen, done, d, CallsOnly(s.daily[d]), key);
  }

  /** One more session rolled up. */
  lemma SessionKeeps(m: Buckets, past: seq<Activity>, s: Session, cutoff: Day, key: Key)
    requires Rolled(m, past, key)
    ensures Rolled(AfterSession(m, s, cutoff, key), past + [InWindow(s, cutoff)], key)
  {
    var keeps := (p: Progress, done: map<Day, Tally>) =>
      Rolled(p.m, past + [Activity(s.surface, done)], key) && Seen(p.seen, done, key);
    IdleSession(m, past, Activity(s.surface, map[]), key);
    forall p, done, d | d in s.daily && d !in done && keeps(p, done)
      ensures keeps(OneDay(p, s, d, key), Done(s, done, d))
    {
      OneDayKeeps(p, past, s, done, d, key);
    }
    FoldDays(keeps, m, s, KeysOf(s.daily), |KeysOf(s.daily)|, cutoff, key);
    AllDaysDone(s, cutoff, KeysOf(s.daily));
  }

  /** Every roll-up of any sessions holds, bucket by bucket and surface by
      surface, exactly the kept sessions' in-window days. */
  lemma {:induction false} RollUpIsRight(sessions: seq<Session>, cutoff: Day, key: Key)
    ensures Rolled(RollUp(sessions, |sessions|, cutoff, key),
                   Activities(Kept(sessions, cutoff, |sessions|), cutoff), key)
  {
    var keeps := (m: Buckets, acts: seq<Activity>) => Rolled(m, acts, key);
    forall m, acts, s | keeps(m, acts) ensures keeps(AfterSession(m, s, cutoff, key), acts + [InWindow(s, cutoff)]) {
      SessionKeeps(m, acts, s, cutoff, key);
    }
    FoldSessions(keeps, sessions, |sessions|, cutoff, key);
  }

  // ----- what the roll-ups say -----

  /** Any two roll-ups, so months, weeks and days, hold the same calls, tokens
      and cost: those of the kept sessions' in-window days. */
  lemma {:induction false} RollUpsAgree(sessions: seq<Session>, cutoff: Day, a: Key, b: Key)
    ensures CallsOnly(SumOf(Totals(RollUp(sessions, |sessions|, cutoff, a))))
      == CallsOnly(SumOf(Totals(RollUp(sessions, |sessions|, cutoff, b))))
      == Grand(Activities(Kept(sessions, cutoff, |sessions|), cutoff), |Kept(sessions, cutoff, |sessions|)|)
  {
    RollUpIsRight(sessions, cutoff, a);
    RollUpIsRight(sessions, cutoff, b);
  }

  function ActiveCount(acts: seq<Activity>, key: Key, k: int, n: nat): int
    requires n <= |acts|
  {
    if n == 0 then 0
    else ActiveCount(acts, key, k, n - 1) + (if DaysAt(acts[n - 1].days, key, k) != map[] then 1 else 0)
  }

  lemma {:induction false} NoSessionsInCells(m: map<Day, Tally>)
    requires forall d :: d in m ==> m[d].sessions == 0
    ensures SumOf(m).sessions == 0
    decreases |m|
  {
    assert (forall d :: d !in m) ==> m.Keys <= {};
    if m != map[] {
      var d :| d in m;
      SumPick(m, d);
      NoSessionsInCells(m - {d});
    }
  }

  lemma {:induction false} TotalCountsSessions(acts: seq<Activity>, key: Key, k: int, n: nat)
    requires n <= |acts|
    requires forall i, d :: 0 <= i < |acts| && d in acts[i].days ==> acts[i].days[d].sessions == 0
    ensures Total(acts, key, k, n).sessions == ActiveCount(acts, key, k, n)
  {
    if n > 0 {
      TotalCountsSessions(acts, key, k, n - 1);
      NoSessionsInCells(DaysAt(acts[n - 1].days, key, k));
    }
  }

  /** A bucket's session count: each kept session once if it was active there. */
  lemma {:induction false} SessionsCountedOnce(sessions: seq<Session>, cutoff: Day, key: Key, k: int)
    ensures var kept := Kept(sessions, cutoff, |sessions|);
            BucketAt(RollUp(sessions, |sessions|, cutoff, key), k).total.sessions
            == ActiveCount(Activities(kept, cutoff), key, k, |kept|)
  {
    var kept := Kept(sessions, cutoff, |sessions|);
    RollUpIsRight(sessions, cutoff, key);
    TotalCountsSessions(Activities(kept, cutoff), key, k, |kept|);
  }
}
