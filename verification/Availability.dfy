/** A seller's bookable times: the enumerator behind the public list, the
    independent checker behind a booking, and that they agree on days whose
    UTC offset does not change (services/core/cmd/api/availability.go). */
module Availability {

  /** Hours of one day, in minutes after local midnight. */
  datatype Window = Window(start: int, end: int)

  datatype Busy = Busy(from: int, to: int)

  /** What is stored about one date: a closed day, replacement hours, or the
      hours of its weekday. */
  datatype Plan = Closed | Replaced(hours: seq<Window>) | Weekly(hours: seq<Window>)

  const STEP := 15
  const MINUTE := 60
  const DAY := 86400
  const SEARCH := 4 * 3600
  const QUARTER := 900

  function Hours(plan: Plan): seq<Window> { if plan.Closed? then [] else plan.hours }

  /** What putAvailability and putAvailabilityOverride accept for a day. */
  predicate Aligned(w: Window) { 0 <= w.start < w.end < 1440 && w.start % STEP == 0 && w.end % STEP == 0 }

  predicate Apart(a: Window, b: Window) { a.end <= b.start || b.end <= a.start }

  ghost predicate AllAligned(ws: seq<Window>) { forall i | 0 <= i < |ws| :: Aligned(ws[i]) }

  ghost predicate PairsApart(ws: seq<Window>) { forall i, j | 0 <= i < j < |ws| :: Apart(ws[i], ws[j]) }

  ghost predicate Acceptable(ws: seq<Window>) { AllAligned(ws) && PairsApart(ws) }

  // ---- accepting hours: sort by start, then compare neighbours ----

  predicate ByStart(ws: seq<Window>) { forall i, j | 0 <= i < j < |ws| :: ws[i].start <= ws[j].start }

  function Insert(ws: seq<Window>, w: Window): seq<Window> {
    if ws == [] then [w] else if w.start <= ws[0].start then [w] + ws else [ws[0]] + Insert(ws[1..], w)
  }

  function Sorted(ws: seq<Window>): seq<Window> {
    if ws == [] then [] else Insert(Sorted(ws[1..]), ws[0])
  }

  ghost predicate AllApart(w: Window, ws: seq<Window>) { forall i | 0 <= i < |ws| :: Apart(w, ws[i]) }

  lemma {:induction false} InsertSorted(ws: seq<Window>, w: Window)
    requires ByStart(ws)
    ensures ByStart(Insert(ws, w)) && |Insert(ws, w)| == |ws| + 1
    ensures forall x :: x in Insert(ws, w) <==> x == w || x in ws
  {
    if ws == [] {
    } else if w.start <= ws[0].start {
      FrontSorted(w, ws);
    } else {
      InsertSorted(ws[1..], w);
      assert ws == [ws[0]] + ws[1..];
      assert forall x | x in ws[1..] :: ws[0].start <= x.start;
      FrontSorted(ws[0], Insert(ws[1..], w));
    }
  }

  lemma FrontSorted(w: Window, ws: seq<Window>)
    requires ByStart(ws) && forall x | x in ws :: w.start <= x.start
    ensures ByStart([w] + ws)
  {}

  /** Sorting one in keeps whether all are apart. */
  lemma {:induction false} InsertApart(ws: seq<Window>, w: Window)
    requires ByStart(ws)
    ensures PairsApart(Insert(ws, w)) <==> PairsApart(ws) && AllApart(w, ws)
  {
    hide PairsApart, AllApart;
    FrontApart(w, ws);
    if ws == [] {
      NoneApart(w);
    } else if w.start > ws[0].start {
      var rest := Insert(ws[1..], w);
      InsertApart(ws[1..], w);
      InsertSorted(ws[1..], w);
      FrontApart(ws[0], rest);
      FrontApart(ws[0], ws[1..]);
      assert ws == [ws[0]] + ws[1..];
      AllApartCons(w, ws[0], ws[1..]);
      AllApartCons(ws[0], w, ws[1..]);
      AllApartAs(ws[0], rest, [w] + ws[1..]);
    }
  }

  lemma NoneApart(w: Window)
    ensures PairsApart([w]) && PairsApart([]) && AllApart(w, [])
  {}

  lemma AllApartCons(w: Window, x: Window, xs: seq<Window>)
    ensures AllApart(w, [x] + xs) <==> Apart(w, x) && AllApart(w, xs)
  {
    var r := [x] + xs;
    assert forall i | 0 <= i < |xs| :: r[i + 1] == xs[i];
    if AllApart(w, r) {
      assert Apart(w, r[0]);
      forall i | 0 <= i < |xs| ensures Apart(w, xs[i]) {
        assert Apart(w, r[i + 1]);
      }
    }
  }

  lemma FrontApart(w: Window, ws: seq<Window>)
    ensures PairsApart([w] + ws) <==> PairsApart(ws) && AllApart(w, ws)
  {
    var r := [w] + ws;
    assert forall i | 0 <= i < |ws| :: r[i + 1] == ws[i];
    if PairsApart(r) {
      forall i, j | 0 <= i < j < |ws| ensures Apart(ws[i], ws[j]) {
        assert Apart(r[i + 1], r[j + 1]);
      }
      forall i | 0 <= i < |ws| ensures Apart(w, ws[i]) {
        assert Apart(r[0], r[i + 1]);
      }
    }
  }

  /** Being apart from a list depends only on its elements. */
  lemma AllApartAs(w: Window, ws: seq<Window>, xs: seq<Window>)
    requires forall x :: x in ws <==> x in xs
    ensures AllApart(w, ws) <==> AllApart(w, xs)
  {
    assert AllApart(w, ws) <==> forall x | x in ws :: Apart(w, x);
    assert AllApart(w, xs) <==> forall x | x in xs :: Apart(w, x);
  }

  lemma {:induction false} SortedKeeps(ws: seq<Window>)
    ensures ByStart(Sorted(ws)) && |Sorted(ws)| == |ws|
    ensures forall x :: x in Sorted(ws) <==> x in ws
    ensures PairsApart(Sorted(ws)) <==> PairsApart(ws)
  {
    if ws != [] {
      SortedKeeps(ws[1..]);
      InsertSorted(Sorted(ws[1..]), ws[0]);
      InsertApart(Sorted(ws[1..]), ws[0]);
      FrontApart(ws[0], ws[1..]);
      AllApartAs(ws[0], Sorted(ws[1..]), ws[1..]);
      assert ws == [ws[0]] + ws[1..];
    }
  }

  /** Neighbours apart is enough, once sorted. */
  lemma {:induction false} NeighboursApart(ws: seq<Window>)
    requires ByStart(ws) && AllAligned(ws)
    requires forall i | 1 <= i < |ws| :: ws[i].start >= ws[i - 1].end
    ensures PairsApart(ws)
  {
    forall i, j | 0 <= i < j < |ws| ensures Apart(ws[i], ws[j]) {
      assert ws[i + 1].start >= ws[i].end;
      assert i + 1 < j ==> ws[i + 1].start <= ws[j].start;
    }
  }

  /** The check both handlers make: hours are accepted exactly when they are
      aligned and no two of them overlap. */
  method AcceptHours(ws: seq<Window>) returns (ok: bool)
    ensures ok <==>
      && (forall i | 0 <= i < |ws| :: 0 <= ws[i].start < ws[i].end < 1440 && ws[i].start % 15 == 0 && ws[i].end % 15 == 0)
      && (forall i, j | 0 <= i < j < |ws| :: ws[i].end <= ws[j].start || ws[j].end <= ws[i].start)
  {
    for i := 0 to |ws|
      invariant forall k | 0 <= k < i :: Aligned(ws[k])
    {
      if !Aligned(ws[i]) {
        return false;
      }
    }
    var sorted := Sorted(ws);
    SortedKeeps(ws);
    assert AllAligned(sorted) by {
      forall i | 0 <= i < |sorted| ensures Aligned(sorted[i]) {
        assert sorted[i] in ws;
      }
    }
    var i := 1;
    while i < |sorted|
      invariant 1 <= i
      invariant forall k | 1 <= k < i && k < |sorted| :: sorted[k].start >= sorted[k - 1].end
    {
      if sorted[i].start < sorted[i - 1].end {
        assert !Apart(sorted[i - 1], sorted[i]);
        return false;
      }
      i := i + 1;
    }
    NeighboursApart(sorted);
    return true;
  }

  // ---- local time at a constant offset ----

  function LocalDay(t: int, offset: int): int { (t + offset) / DAY }

  function SecondOfDay(t: int, offset: int): int { (t + offset) % DAY }

  function Wall(day: int, minute: int, offset: int): int { day * DAY + minute * MINUTE - offset }

  predicate Reads(t: int, offset: int, day: int, minute: int) {
    var s := SecondOfDay(t, offset);
    LocalDay(t, offset) == day && s / 3600 == minute / 60 && (s % 3600) / 60 == minute % 60 && s % 60 == 0
  }

  lemma ReadsOnlyAt(t: int, offset: int, day: int, minute: nat)
    ensures Reads(t, offset, day, minute) <==> t == Wall(day, minute, offset) && minute < 1440
  {}

  lemma DayParts(day: int, minute: nat)
    requires minute < 1440
    ensures (day * DAY + minute * MINUTE) / DAY == day && (day * DAY + minute * MINUTE) % DAY == minute * MINUTE
    ensures var s := minute * MINUTE; s / 3600 == minute / 60 && (s % 3600) / 60 == minute % 60 && s % 60 == 0
  {}

  /** localInstants: quarter-hour candidates four hours either way of the wall
      time, those that read as it. At a constant offset that is the one instant. */
  method LocalInstants(day: int, minute: nat, offset: int) returns (instants: seq<int>)
    ensures instants == if minute < 1440 then [Wall(day, minute, offset)] else []
  {
    var center := Wall(day, minute, offset);
    instants := [];
    var candidate := center - SEARCH;
    while candidate <= center + SEARCH
      invariant (candidate - center) % QUARTER == 0 && candidate <= center + SEARCH + QUARTER
      invariant instants == if candidate > center && minute < 1440 then [center] else []
      decreases center + SEARCH - candidate
    {
      ReadsOnlyAt(candidate, offset, day, minute);
      if Reads(candidate, offset, day, minute) {
        instants := instants + [candidate];
      }
      candidate := candidate + QUARTER;
    }
  }

  // ---- busy time ----

  predicate Meets(b: Busy, from: int, to: int) { from < b.to && b.from < to }

  predicate MeetsAny(bs: seq<Busy>, from: int, to: int) { exists i :: 0 <= i < |bs| && Meets(bs[i], from, to) }

  method Conflict(bs: seq<Busy>, from: int, to: int) returns (busy: bool)
    ensures busy <==> MeetsAny(bs, from, to)
  {
    for i := 0 to |bs|
      invariant forall k | 0 <= k < i :: !Meets(bs[k], from, to)
    {
      if from < bs[i].to && bs[i].from < to {
        return true;
      }
    }
    return false;
  }

  // ---- the checker ----

  /** Some hours of the day hold a session of length minutes from this minute on. */
  predicate Within(ws: seq<Window>, minute: int, length: int) {
    exists i :: 0 <= i < |ws| && ws[i].start <= minute && minute + length <= ws[i].end
  }

  function MinuteOf(t: int, offset: int): int { SecondOfDay(t, offset) / MINUTE }

  /** What validScheduledTime accepts: on the quarter hour, inside the seller's
      hours, and in none of the calendar's busy times. */
  predicate Valid(ws: seq<Window>, offset: int, busy: seq<Busy>, t: int, length: int) {
    && SecondOfDay(t, offset) % MINUTE == 0 && MinuteOf(t, offset) % STEP == 0
    && Within(ws, MinuteOf(t, offset), length)
    && !MeetsAny(busy, t, t + length * MINUTE)
  }

  /** Starts are on the local quarter hour; the whole session lies inside one of
      the day's hours; and it may touch a busy time but not reach into it. */
  lemma ValidExactly(ws: seq<Window>, offset: int, busy: seq<Busy>, t: int, length: nat)
    ensures Valid(ws, offset, busy, t, length) <==>
      && (t + offset) % 900 == 0
      && (exists i :: 0 <= i < |ws| && ws[i].start * 60 <= (t + offset) % 86_400
                      && (t + offset) % 86_400 + length * 60 <= ws[i].end * 60)
      && (forall i | 0 <= i < |busy| :: busy[i].to <= t || t + length * 60 <= busy[i].from)
  {
    var s := SecondOfDay(t, offset);
    QuarterHours(t + offset);
    if s % 60 == 0 {
      forall i | 0 <= i < |ws|
        ensures ws[i].start <= s / 60 && s / 60 + length <= ws[i].end
           <==> ws[i].start * 60 <= s && s + length * 60 <= ws[i].end * 60
      {}
    }
    assert MeetsAny(busy, t, t + length * MINUTE) <==>
      !(forall i | 0 <= i < |busy| :: busy[i].to <= t || t + length * 60 <= busy[i].from) by {
      assert forall i | 0 <= i < |busy| :: Meets(busy[i], t, t + length * MINUTE) <==> !(busy[i].to <= t || t + length * 60 <= busy[i].from);
    }
  }

  lemma QuarterHours(t: int)
    ensures t % 900 == 0 <==> (t % 86_400) % 60 == 0 && ((t % 86_400) / 60) % 15 == 0
  {
    var day, s := t / 86_400, t % 86_400;
    assert t == 900 * (96 * day) + s;
    QuartersOfDay(s, 96 * day);
  }

  lemma QuartersOfDay(s: int, n: int)
    requires 0 <= s < 86_400
    ensures (900 * n + s) % 900 == 0 <==> s % 60 == 0 && (s / 60) % 15 == 0
  {
    var k, x := s / 60, s % 60;
    var q, m := k / 15, k % 15;
    Quarters(n + q, 60 * m + x);
    assert 900 * n + s == 900 * (n + q) + (60 * m + x);
  }

  lemma Quarters(q: int, r: int)
    requires 0 <= r < 900
    ensures (900 * q + r) % 900 == r
  {}

  lemma WallOf(t: int, offset: int)
    requires SecondOfDay(t, offset) % MINUTE == 0
    ensures t == Wall(LocalDay(t, offset), MinuteOf(t, offset), offset) && 0 <= MinuteOf(t, offset) < 1440
  {}

  /** validScheduledTime */
  method ValidScheduledTime(ws: seq<Window>, offset: int, busy: seq<Busy>, t: int, length: nat) returns (ok: bool)
    requires Acceptable(ws)
    ensures ok <==> Valid(ws, offset, busy, t, length)
  {
    var end := t + length * MINUTE;
    var taken := Conflict(busy, t, end);
    if taken {
      return false;
    }
    var day, minute := LocalDay(t, offset), MinuteOf(t, offset);
    if SecondOfDay(t, offset) % MINUTE != 0 || minute % STEP != 0 {
      return false;
    }
    WallOf(t, offset);
    var instants := LocalInstants(day, minute, offset);
    if t !in instants {
      return false;
    }
    for i := 0 to |ws|
      invariant forall k | 0 <= k < i :: !(ws[k].start <= minute && minute + length <= ws[k].end)
    {
      var w := ws[i];
      assert Aligned(w);
      if minute < w.start || minute + length > w.end {
        continue;
      }
      var opens := LocalInstants(day, w.start, offset);
      var closes := LocalInstants(day, w.end, offset);
      assert opens[0] <= t && end <= closes[0];
      if |opens| > 0 && |closes| > 0 && closes[0] > opens[0] && t >= opens[0] && end <= closes[0] {
        return true;
      }
    }
    return false;
  }

  // ---- the enumerator ----

  /** Notice and horizon as instants, and everything that takes time. */
  datatype Limits = Limits(first: int, last: int, occupied: seq<Busy>)

  predicate Good(lim: Limits, t: int, length: int) {
    lim.first <= t <= lim.last && !MeetsAny(lim.occupied, t, t + length * MINUTE)
  }

  /** The starts of one window from a minute on. */
  function StartsFrom(day: int, offset: int, minute: int, end: int, length: int, lim: Limits): seq<int>
    decreases end - minute - length
  {
    if minute + length > end then []
    else
      var t := Wall(day, minute, offset);
      (if Good(lim, t, length) then [t] else []) + StartsFrom(day, offset, minute + STEP, end, length, lim)
  }

  function StartsOf(ws: seq<Window>, day: int, offset: int, length: int, lim: Limits): seq<int> {
    if ws == [] then []
    else
      StartsOf(ws[..|ws| - 1], day, offset, length, lim)
      + StartsFrom(day, offset, ws[|ws| - 1].start, ws[|ws| - 1].end, length, lim)
  }

  /** The instants of one minute of the day that can be booked. */
  method ListMinute(day: int, minute: nat, offset: int, length: nat, lim: Limits) returns (out: seq<int>)
    requires minute + length < 1440
    ensures out == if Good(lim, Wall(day, minute, offset), length) then [Wall(day, minute, offset)] else []
  {
    out := [];
    var instants := LocalInstants(day, minute, offset);
    for k := 0 to |instants|
      invariant k == 0 ==> out == []
      invariant k == 1 ==> out == if Good(lim, instants[0], length) then [instants[0]] else []
    {
      var t := instants[k];
      var end := t + length * MINUTE;
      EndsSameDay(day, minute, offset, length);
      if t < lim.first || t > lim.last || LocalDay(end, offset) != day {
        continue;
      }
      var taken := Conflict(lim.occupied, t, end);
      if !taken {
        out := out + [t];
      }
    }
  }

  /** Every quarter of an hour of one window. */
  method ListWindow(w: Window, day: int, offset: int, length: nat, lim: Limits) returns (out: seq<int>)
    requires Aligned(w)
    ensures out == StartsFrom(day, offset, w.start, w.end, length, lim)
  {
    hide Good, Wall;
    out := [];
    var minute := w.start;
    while minute + length <= w.end
      invariant w.start <= minute
      invariant out + StartsFrom(day, offset, minute, w.end, length, lim) == StartsFrom(day, offset, w.start, w.end, length, lim)
      decreases w.end - minute
    {
      var found := ListMinute(day, minute, offset, length, lim);
      ghost var rest := StartsFrom(day, offset, minute + STEP, w.end, length, lim);
      assert out + (found + rest) == (out + found) + rest;
      out := out + found;
      minute := minute + STEP;
    }
    assert out + [] == out;
  }

  /** The loop of sellerDaySlots over windows, minutes and instants. */
  method ListStarts(ws: seq<Window>, day: int, offset: int, length: nat, lim: Limits) returns (out: seq<int>)
    requires Acceptable(ws)
    ensures out == StartsOf(ws, day, offset, length, lim)
  {
    hide StartsFrom;
    out := [];
    for i := 0 to |ws|
      invariant out == StartsOf(ws[..i], day, offset, length, lim)
    {
      assert Aligned(ws[i]) && ws[..i + 1][..i] == ws[..i];
      var found := ListWindow(ws[i], day, offset, length, lim);
      out := out + found;
    }
    assert ws[..|ws|] == ws;
  }

  /** Hours end before midnight, so sessions end on their own date. */
  lemma EndsSameDay(day: int, minute: int, offset: int, length: nat)
    requires 0 <= minute && minute + length < 1440
    ensures LocalDay(Wall(day, minute, offset) + length * MINUTE, offset) == day
  {}

  /** sellerDaySlots: the free starts of one local date. */
  method SellerDaySlots(plan: Plan, offset: int, day: int, now: int, notice: nat, horizon: nat, length: nat, reserved: seq<Busy>, busy: seq<Busy>)
    returns (out: seq<int>)
    requires Acceptable(Hours(plan)) && length > 0
    ensures forall t :: t in out <==>
      && (t + offset) / 86_400 == day
      && now + notice * 60 <= t <= now + horizon * 86_400
      && Valid(if plan.Closed? then [] else plan.hours, offset, busy, t, length)
      && (forall i | 0 <= i < |reserved| :: reserved[i].to <= t || t + length * 60 <= reserved[i].from)
    ensures forall i, j | 0 <= i < j < |out| :: out[i] != out[j]
  {
    var midnight := Wall(day, 0, offset);
    var today := Wall(LocalDay(now, offset), 0, offset);
    var lim := Limits(now + notice * MINUTE, now + horizon * DAY, reserved + busy);
    if midnight < today || midnight > now + horizon * DAY {
      forall t ensures !(LocalDay(t, offset) == day && lim.first <= t <= lim.last) {
        OutsideDay(t, offset, day, now, horizon);
      }
      return [];
    }
    out := ListStarts(Hours(plan), day, offset, length, lim);
    forall t
      ensures t in out <==>
        && LocalDay(t, offset) == day && lim.first <= t <= lim.last
        && Valid(Hours(plan), offset, busy, t, length) && !MeetsAny(reserved, t, t + length * MINUTE)
    {
      EnumeratorIsChecker(Hours(plan), offset, day, length, lim, reserved, busy, t);
    }
    NoStartTwice(Hours(plan), offset, day, length, lim);
  }

  lemma OutsideDay(t: int, offset: int, day: int, now: int, horizon: nat)
    requires Wall(day, 0, offset) < Wall(LocalDay(now, offset), 0, offset) || Wall(day, 0, offset) > now + horizon * DAY
    ensures !(LocalDay(t, offset) == day && now <= t <= now + horizon * DAY)
  {}

  // ---- why they agree ----

  /** A start that lies in one window's quarter-hour steps. */
  predicate Steps(day: int, offset: int, minute: int, end: int, length: int, t: int) {
    var m := MinuteOf(t, offset);
    && LocalDay(t, offset) == day && SecondOfDay(t, offset) % MINUTE == 0
    && minute <= m && (m - minute) % STEP == 0 && m + length <= end
  }

  lemma {:induction false} InStartsFrom(day: int, offset: int, minute: int, end: int, length: nat, lim: Limits, t: int)
    requires 0 <= minute && end < 1440
    ensures t in StartsFrom(day, offset, minute, end, length, lim) <==> Steps(day, offset, minute, end, length, t) && Good(lim, t, length)
    decreases end - minute - length
  {
    if minute + length <= end {
      InStartsFrom(day, offset, minute + STEP, end, length, lim, t);
      var at := Wall(day, minute, offset);
      DayParts(day, minute);
      if t == at {
        assert Steps(day, offset, minute, end, length, t);
      } else if Steps(day, offset, minute, end, length, t) {
        WallOf(t, offset);
      }
    }
  }

  lemma {:induction false} InStartsOf(ws: seq<Window>, day: int, offset: int, length: nat, lim: Limits, t: int)
    requires forall i | 0 <= i < |ws| :: Aligned(ws[i])
    ensures t in StartsOf(ws, day, offset, length, lim) <==>
      Good(lim, t, length) && exists i :: 0 <= i < |ws| && Steps(day, offset, ws[i].start, ws[i].end, length, t)
  {
    if ws != [] {
      var n := |ws| - 1;
      InStartsOf(ws[..n], day, offset, length, lim, t);
      InStartsFrom(day, offset, ws[n].start, ws[n].end, length, lim, t);
      assert forall i | 0 <= i < n :: ws[..n][i] == ws[i];
    }
  }

  /** On a date with a constant offset a start within notice and horizon is
      listed exactly when the checker accepts it and no reservation meets it. */
  lemma EnumeratorIsChecker(ws: seq<Window>, offset: int, day: int, length: nat, lim: Limits, reserved: seq<Busy>, busy: seq<Busy>, t: int)
    requires Acceptable(ws) && lim.occupied == reserved + busy
    ensures t in StartsOf(ws, day, offset, length, lim) <==>
      && LocalDay(t, offset) == day && lim.first <= t <= lim.last
      && Valid(ws, offset, busy, t, length) && !MeetsAny(reserved, t, t + length * MINUTE)
  {
    InStartsOf(ws, day, offset, length, lim, t);
    EitherBusy(reserved, busy, t, t + length * MINUTE);
    var m := MinuteOf(t, offset);
    forall i | 0 <= i < |ws|
      ensures Steps(day, offset, ws[i].start, ws[i].end, length, t) <==>
        && LocalDay(t, offset) == day && SecondOfDay(t, offset) % MINUTE == 0 && m % STEP == 0
        && ws[i].start <= m && m + length <= ws[i].end
    {
      assert Aligned(ws[i]);
      SameStep(m, ws[i].start);
    }
  }

  lemma SameStep(m: int, start: int)
    requires start % STEP == 0
    ensures (m - start) % STEP == 0 <==> m % STEP == 0
  {}

  lemma EitherBusy(xs: seq<Busy>, ys: seq<Busy>, from: int, to: int)
    ensures MeetsAny(xs + ys, from, to) <==> MeetsAny(xs, from, to) || MeetsAny(ys, from, to)
  {
    var zs := xs + ys;
    if MeetsAny(xs, from, to) {
      var i :| 0 <= i < |xs| && Meets(xs[i], from, to);
      assert Meets(zs[i], from, to);
    }
    if MeetsAny(ys, from, to) {
      var i :| 0 <= i < |ys| && Meets(ys[i], from, to);
      assert Meets(zs[|xs| + i], from, to);
    }
  }

  ghost predicate AllDifferent(out: seq<int>) { forall i, j | 0 <= i < j < |out| :: out[i] != out[j] }

  lemma DifferentTogether(xs: seq<int>, ys: seq<int>)
    requires AllDifferent(xs) && AllDifferent(ys) && forall x | x in xs :: x !in ys
    ensures AllDifferent(xs + ys)
  {
    var out := xs + ys;
    forall i, j | 0 <= i < j < |out| ensures out[i] != out[j] {
      if i < |xs| <= j {
        assert out[i] in xs && out[j] in ys;
      }
    }
  }

  /** Starts of one window rise, those of different windows lie apart. */
  lemma {:induction false} NoStartTwice(ws: seq<Window>, offset: int, day: int, length: nat, lim: Limits)
    requires Acceptable(ws) && length > 0
    ensures AllDifferent(StartsOf(ws, day, offset, length, lim))
  {
    if ws != [] {
      var n := |ws| - 1;
      var init, last := ws[..n], StartsFrom(day, offset, ws[n].start, ws[n].end, length, lim);
      var before := StartsOf(init, day, offset, length, lim);
      NoStartTwice(init, offset, day, length, lim);
      assert Aligned(ws[n]);
      StartsRise(day, offset, ws[n].start, ws[n].end, length, lim);
      forall t | t in before ensures t !in last {
        InStartsOf(init, day, offset, length, lim, t);
        InStartsFrom(day, offset, ws[n].start, ws[n].end, length, lim, t);
        var k :| 0 <= k < n && Steps(day, offset, init[k].start, init[k].end, length, t);
        assert Apart(ws[k], ws[n]) && Aligned(ws[k]);
      }
      DifferentTogether(before, last);
    }
  }

  ghost predicate RisesFrom(out: seq<int>, t: int) {
    && (forall i | 0 <= i < |out| :: out[i] >= t)
    && (forall i, j | 0 <= i < j < |out| :: out[i] < out[j])
  }

  lemma RisesWith(rest: seq<int>, t: int, next: int)
    requires RisesFrom(rest, next) && t < next
    ensures RisesFrom([t] + rest, t)
  {}

  lemma RisesEarlier(rest: seq<int>, t: int, next: int)
    requires RisesFrom(rest, next) && t < next
    ensures RisesFrom(rest, t)
  {}

  lemma RisesNone(t: int)
    ensures RisesFrom([], t)
  {}

  lemma {:induction false} StartsRise(day: int, offset: int, minute: int, end: int, length: nat, lim: Limits)
    ensures RisesFrom(StartsFrom(day, offset, minute, end, length, lim), Wall(day, minute, offset))
    decreases end - minute - length
  {
    if minute + length <= end {
      StartsRise(day, offset, minute + STEP, end, length, lim);
      var rest := StartsFrom(day, offset, minute + STEP, end, length, lim);
      hide RisesFrom, Good;
      RisesWith(rest, Wall(day, minute, offset), Wall(day, minute + STEP, offset));
      RisesEarlier(rest, Wall(day, minute, offset), Wall(day, minute + STEP, offset));
      assert [] + rest == rest;
    } else {
      RisesNone(Wall(day, minute, offset));
    }
  }
}
