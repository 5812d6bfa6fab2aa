/** How often the goroutines of the scheduler may send.

    `next = next.Add(...)` makes the deadline of a goroutine cumulative: one that wakes late passes
    several times in quick succession until it has caught up. There is no lower bound on the gap
    between two sends; the bound proved here is on the running total of one goroutine. */
module Pacing {
  import opened Common
  import opened Permissions
  import opened SchedulerModel

  function Sum(s: seq<int>): int {
    if s == [] then 0 else Sum(Front(s)) + Last(s)
  }

  // --- What one goroutine did -------------------------------------------------------------

  predicate Begins(s: State, e: Event, l: nat) {
    e.Begin? && e.loop == l < |s.loops| && s.loops[l].Spawned?
  }

  predicate PassesOn(s: State, e: Event, l: nat) {
    Passes(s, e) && e.loop == l
  }

  predicate Dispatches(s: State, e: Event, l: nat)
    requires WellFormed(s)
  {
    PassesOn(s, e, l) && Output(s, e).Some?
  }

  /** The interval goroutine `l` pauses in this step: one when it begins and one after each pass. */
  function ReadNow(s: State, e: Event, l: nat): seq<int>
    requires WellFormed(s)
  {
    if Begins(s, e, l) || PassesOn(s, e, l) then [Pause(s, s.loops[l].schedule)] else []
  }

  ghost function Intervals(s: State, es: seq<Event>, l: nat): seq<int>
    requires WellFormed(s)
  {
    if es == [] then [] else Intervals(s, Front(es), l) + ReadNow(After(s, Front(es)), Last(es), l)
  }

  ghost function BeginTime(s: State, es: seq<Event>, l: nat): Option<int>
    requires WellFormed(s)
  {
    if es == [] then None
    else if Begins(After(s, Front(es)), Last(es), l) then Some(Last(es).now)
    else BeginTime(s, Front(es), l)
  }

  ghost function PassTimes(s: State, es: seq<Event>, l: nat): seq<int>
    requires WellFormed(s)
  {
    if es == [] then []
    else PassTimes(s, Front(es), l) + if PassesOn(After(s, Front(es)), Last(es), l) then [Last(es).now] else []
  }

  ghost function DispatchTimes(s: State, es: seq<Event>, l: nat): seq<int>
    requires WellFormed(s)
  {
    if es == [] then []
    else DispatchTimes(s, Front(es), l) + if Dispatches(After(s, Front(es)), Last(es), l) then [Last(es).now] else []
  }

  /** Goroutine `l` has not begun in `s`; it may not even exist yet. */
  predicate NotBegun(s: State, l: nat) {
    l < |s.loops| ==> s.loops[l].Spawned?
  }

  // --- The cumulative deadline -------------------------------------------------------------

  ghost predicate OnSchedule(t: State, l: nat, begin: Option<int>, pauses: seq<int>, passes: int) {
    if NotBegun(t, l) then begin == None && pauses == [] && passes == 0
    else
      && begin.Some?
      && |pauses| == passes + 1
      && (t.loops[l].Sleeping? ==> t.loops[l].next == begin.value + Sum(pauses))
  }

  lemma SumAppend(pauses: seq<int>, x: int)
    ensures Sum(pauses + [x]) == Sum(pauses) + x
  {
  }

  /** How a step changes goroutine `l`: beginning and passing set its deadline, and nothing else moves it. */
  ghost predicate LoopAdvances(t: State, loops: seq<Loop>, e: Event, l: nat)
    requires WellFormed(t)
  {
    if Begins(t, e, l) then
      l < |loops| && loops[l].Sleeping? && loops[l].next == e.now + Pause(t, t.loops[l].schedule)
    else if PassesOn(t, e, l) then
      l < |loops| && loops[l].Sleeping? && loops[l].next == t.loops[l].next + Pause(t, t.loops[l].schedule)
    else if l < |t.loops| then
      l < |loops| && (loops[l] == t.loops[l] || (t.loops[l].Sleeping? && loops[l].Ended?))
    else l < |loops| ==> loops[l].Spawned?
  }

  lemma LoopStep(t: State, e: Event, l: nat)
    requires WellFormed(t)
    ensures LoopAdvances(t, Next(t, e).loops, e, l)
  {
  }

  lemma OnScheduleKept(t: State, t': State, e: Event, l: nat, begin: Option<int>, pauses: seq<int>, passes: nat)
    requires WellFormed(t) && OnSchedule(t, l, begin, pauses, passes) && LoopAdvances(t, t'.loops, e, l)
    ensures OnSchedule(t', l,
                       if Begins(t, e, l) then Some(e.now) else begin,
                       pauses + ReadNow(t, e, l),
                       passes + if PassesOn(t, e, l) then 1 else 0)
  {
    if Begins(t, e, l) || PassesOn(t, e, l) {
      SumAppend(pauses, Pause(t, t.loops[l].schedule));
    } else {
      assert pauses + ReadNow(t, e, l) == pauses;
    }
  }

  /** The deadline of a sleeping goroutine is its begin time plus every interval it has read so far. */
  lemma {:induction false} DeadlineIsCumulative(s: State, es: seq<Event>, l: nat)
    requires WellFormed(s) && NotBegun(s, l)
    ensures OnSchedule(After(s, es), l, BeginTime(s, es, l), Intervals(s, es, l), |PassTimes(s, es, l)|)
  {
    if es != [] {
      DeadlineIsCumulative(s, Front(es), l);
      var t, e := After(s, Front(es)), Last(es);
      var begin, pauses, passes := BeginTime(s, Front(es), l), Intervals(s, Front(es), l), PassTimes(s, Front(es), l);
      LoopStep(t, e, l);
      OnScheduleKept(t, Next(t, e), e, l, begin, pauses, |passes|);
      assert |PassTimes(s, es, l)| == |passes| + if PassesOn(t, e, l) then 1 else 0;
    }
  }

  lemma {:induction false} IntervalsArePauses(s: State, es: seq<Event>, l: nat)
    requires WellFormed(s)
    ensures forall k :: 0 <= k < |Intervals(s, es, l)| ==> Intervals(s, es, l)[k] >= 50
  {
    if es != [] {
      IntervalsArePauses(s, Front(es), l);
    }
  }

  lemma {:induction false} SumOfPrefix(pauses: seq<int>, k: nat)
    requires k <= |pauses|
    requires forall i :: 0 <= i < |pauses| ==> pauses[i] >= 0
    ensures Sum(pauses[..k]) <= Sum(pauses)
  {
    if k < |pauses| {
      SumOfPrefix(Front(pauses), k);
      assert Front(pauses)[..k] == pauses[..k];
    } else {
      assert pauses[..k] == pauses;
    }
  }

  lemma Successor(c: int, n: nat)
    ensures c * (n + 1) == c * n + c
  {
  }

  lemma {:induction false} SumAtLeast(pauses: seq<int>, c: int)
    requires forall i :: 0 <= i < |pauses| ==> pauses[i] >= c
    ensures Sum(pauses) >= c * |pauses|
  {
    if pauses != [] {
      SumAtLeast(Front(pauses), c);
      Successor(c, |Front(pauses)|);
    }
  }

  ghost predicate NoEarlierThan(times: seq<int>, begin: int, pauses: seq<int>) {
    && |times| <= |pauses|
    && forall k :: 0 <= k < |times| ==> times[k] >= begin + Sum(pauses[..k + 1])
  }

  lemma NoEarlierThanLonger(times: seq<int>, begin: int, pauses: seq<int>, more: seq<int>)
    requires NoEarlierThan(times, begin, pauses)
    ensures NoEarlierThan(times, begin, pauses + more)
  {
    forall k | 0 <= k < |times| ensures times[k] >= begin + Sum((pauses + more)[..k + 1]) {
      assert (pauses + more)[..k + 1] == pauses[..k + 1];
    }
  }

  lemma NoEarlierThanOneMore(times: seq<int>, begin: int, pauses: seq<int>, now: int)
    requires NoEarlierThan(times, begin, pauses) && |times| < |pauses| && now >= begin + Sum(pauses[..|times| + 1])
    ensures NoEarlierThan(times + [now], begin, pauses)
  {
  }

  lemma NoEarlierThanGrows(times: seq<int>, begin: int, pauses: seq<int>, more: seq<int>, now: int)
    requires NoEarlierThan(times, begin, pauses) && |times| < |pauses|
    requires forall i :: 0 <= i < |pauses| ==> pauses[i] >= 0
    requires now >= begin + Sum(pauses)
    ensures NoEarlierThan(times, begin, pauses + more) && NoEarlierThan(times + [now], begin, pauses + more)
  {
    NoEarlierThanLonger(times, begin, pauses, more);
    SumOfPrefix(pauses, |times| + 1);
    NoEarlierThanOneMore(times, begin, pauses, now);
    NoEarlierThanLonger(times + [now], begin, pauses, more);
  }

  ghost predicate Paced(begin: Option<int>, pauses: seq<int>, passes: seq<int>, sends: seq<int>) {
    && |sends| <= |passes|
    && (begin.None? ==> passes == [])
    && (begin.Some? ==> NoEarlierThan(passes, begin.value, pauses) && NoEarlierThan(sends, begin.value, pauses))
  }

  lemma PacedStep(t: State, e: Event, l: nat, begin: Option<int>, pauses: seq<int>, passes: seq<int>, sends: seq<int>)
    requires WellFormed(t) && OnSchedule(t, l, begin, pauses, |passes|) && Paced(begin, pauses, passes, sends)
    requires forall i :: 0 <= i < |pauses| ==> pauses[i] >= 0
    ensures Paced(if Begins(t, e, l) then Some(e.now) else begin,
                  pauses + ReadNow(t, e, l),
                  passes + (if PassesOn(t, e, l) then [e.now] else []),
                  sends + if Dispatches(t, e, l) then [e.now] else [])
  {
    if PassesOn(t, e, l) {
      NoEarlierThanGrows(passes, begin.value, pauses, ReadNow(t, e, l), e.now);
      NoEarlierThanGrows(sends, begin.value, pauses, ReadNow(t, e, l), e.now);
      assert sends + [] == sends;
    } else {
      assert passes + [] == passes && sends + [] == sends;
      if !Begins(t, e, l) {
        assert pauses + [] == pauses;
      }
    }
  }

  /** The k-th pass of a goroutine, and the k-th message it sends, come no earlier than its begin time plus
      the first k intervals it read, whatever timer updates and late wake-ups happened in between. */
  lemma {:induction false} CumulativeRate(s: State, es: seq<Event>, l: nat)
    requires WellFormed(s) && NotBegun(s, l)
    ensures Paced(BeginTime(s, es, l), Intervals(s, es, l), PassTimes(s, es, l), DispatchTimes(s, es, l))
  {
    if es != [] {
      CumulativeRate(s, Front(es), l);
      DeadlineIsCumulative(s, Front(es), l);
      IntervalsArePauses(s, Front(es), l);
      PacedStep(After(s, Front(es)), Last(es), l, BeginTime(s, Front(es), l), Intervals(s, Front(es), l),
                PassTimes(s, Front(es), l), DispatchTimes(s, Front(es), l));
    }
  }

  // --- Counting messages -------------------------------------------------------------------

  /** How many of the times are no later than `t`. */
  function CountUpTo(times: seq<int>, t: int): (n: nat)
    ensures n <= |times|
  {
    if times == [] then 0 else CountUpTo(Front(times), t) + if Last(times) <= t then 1 else 0
  }

  function Elapsed(begin: Option<int>, t: int): (d: nat) {
    if begin.Some? && begin.value <= t then t - begin.value else 0
  }

  lemma Scale(c: int, m: nat, n: nat)
    requires c > 0 && m <= n
    ensures c * m <= c * n
  {
  }

  lemma {:induction false} CountBound(times: seq<int>, begin: int, c: int, t: int)
    requires c > 0
    requires forall k :: 0 <= k < |times| ==> times[k] >= begin + c * (k + 1)
    ensures c * CountUpTo(times, t) <= Elapsed(Some(begin), t)
  {
    if times != [] {
      CountBound(Front(times), begin, c, t);
      if Last(times) <= t {
        var n := |times|;
        assert Last(times) >= begin + c * ((n - 1) + 1);
        assert c * CountUpTo(times, t) <= c * n by {
          Scale(c, CountUpTo(times, t), n);
        }
      }
    }
  }

  lemma PacedBy(s: State, es: seq<Event>, l: nat, c: int, t: int)
    requires WellFormed(s) && NotBegun(s, l)
    requires c > 0 && forall k :: 0 <= k < |Intervals(s, es, l)| ==> Intervals(s, es, l)[k] >= c
    ensures c * CountUpTo(DispatchTimes(s, es, l), t) <= Elapsed(BeginTime(s, es, l), t)
  {
    CumulativeRate(s, es, l);
    var times, pauses := DispatchTimes(s, es, l), Intervals(s, es, l);
    if BeginTime(s, es, l).Some? {
      var begin := BeginTime(s, es, l).value;
      forall k | 0 <= k < |times| ensures times[k] >= begin + c * (k + 1) {
        SumAtLeast(pauses[..k + 1], c);
      }
      CountBound(times, begin, c, t);
    }
  }

  /** By time `t` one goroutine has sent at most one message per 50 ms since it began. */
  lemma LoopRate(s: State, es: seq<Event>, l: nat, t: int)
    requires WellFormed(s) && NotBegun(s, l)
    ensures 50 * CountUpTo(DispatchTimes(s, es, l), t) <= Elapsed(BeginTime(s, es, l), t)
  {
    IntervalsArePauses(s, es, l);
    PacedBy(s, es, l, 50, t);
  }

  lemma {:induction false} NoReadsBeforeSpawn(s: State, es: seq<Event>, l: nat)
    requires WellFormed(s) && l >= |After(s, es).loops|
    ensures Intervals(s, es, l) == []
  {
    if es != [] {
      NoReadsBeforeSpawn(s, Front(es), l);
    }
  }

  lemma {:induction false} CatchAllIntervals(s: State, es: seq<Event>, l: nat)
    requires WellFormed(s)
    requires l < |After(s, es).loops| && After(s, es).loops[l].schedule == 0
    ensures forall k :: 0 <= k < |Intervals(s, es, l)| ==> Intervals(s, es, l)[k] == DEFAULT_MESSAGE_INTERVAL
  {
    if es != [] {
      var t := After(s, Front(es));
      if l < |t.loops| {
        CatchAllIntervals(s, Front(es), l);
      } else {
        NoReadsBeforeSpawn(s, Front(es), l);
      }
    }
  }

  /** No timer update reaches the catch-all schedule: its goroutine sends at most one message per 1250 ms. */
  lemma CatchAllRate(s: State, es: seq<Event>, l: nat, t: int)
    requires WellFormed(s) && NotBegun(s, l)
    requires l < |After(s, es).loops| && After(s, es).loops[l].schedule == 0
    ensures 1250 * CountUpTo(DispatchTimes(s, es, l), t) <= Elapsed(BeginTime(s, es, l), t)
  {
    CatchAllIntervals(s, es, l);
    PacedBy(s, es, l, 1250, t);
  }

  /** Schedule `i` has the interval `level` throughout the run. */
  ghost predicate StaysAt(s: State, es: seq<Event>, i: nat, level: int)
    requires WellFormed(s)
  {
    && (i < |After(s, es).schedules| ==> After(s, es).schedules[i].interval == level)
    && (es != [] ==> StaysAt(s, Front(es), i, level))
  }

  lemma {:induction false} LevelIntervals(s: State, es: seq<Event>, l: nat, level: int)
    requires WellFormed(s) && l < |After(s, es).loops| && StaysAt(s, es, After(s, es).loops[l].schedule, level)
    ensures forall k :: 0 <= k < |Intervals(s, es, l)| ==> Intervals(s, es, l)[k] == MessageCooldown(level)
  {
    if es != [] {
      var t := After(s, Front(es));
      if l < |t.loops| {
        LevelIntervals(s, Front(es), l, level);
      } else {
        NoReadsBeforeSpawn(s, Front(es), l);
      }
    }
  }

  lemma {:induction false} SumOfEqual(pauses: seq<int>, c: int)
    requires forall k :: 0 <= k < |pauses| ==> pauses[k] == c
    ensures Sum(pauses) == c * |pauses|
  {
    if pauses != [] {
      SumOfEqual(Front(pauses), c);
      Successor(c, |Front(pauses)|);
    }
  }

  /** The pace of every level, in milliseconds. A goroutine whose schedule stays at a level is due again exactly that long
      after its last deadline, and so sends at most one message per so many milliseconds. */
  lemma LevelPace(s: State, es: seq<Event>, l: nat, level: int, t: int)
    requires WellFormed(s) && NotBegun(s, l)
    requires l < |After(s, es).loops| && StaysAt(s, es, After(s, es).loops[l].schedule, level)
    ensures
      var ms := if level == 2 then 250 else if level == 3 || level == 4 then 50 else 1250;
      var loop, begin := After(s, es).loops[l], BeginTime(s, es, l);
      && ms * CountUpTo(DispatchTimes(s, es, l), t) <= Elapsed(begin, t)
      && (loop.Sleeping? ==> begin.Some? && loop.next == begin.value + ms * (|PassTimes(s, es, l)| + 1))
  {
    LevelIntervals(s, es, l, level);
    PacedBy(s, es, l, MessageCooldown(level), t);
    DeadlineIsCumulative(s, es, l);
    SumOfEqual(Intervals(s, es, l), MessageCooldown(level));
  }

  // --- Waiting is bounded --------------------------------------------------------------------

  lemma {:induction false} KeepsSchedule(s: State, es: seq<Event>, l: nat)
    requires WellFormed(s) && l < |s.loops|
    ensures l < |After(s, es).loops| && After(s, es).loops[l].schedule == s.loops[l].schedule
  {
    if es != [] {
      KeepsSchedule(s, Front(es), l);
    }
  }

  lemma {:induction false} PassesDrain(s: State, es: seq<Event>, l: nat, i: nat)
    requires WellFormed(s) && l < |s.loops| && s.loops[l].schedule == i
    ensures |DispatchedBy(s, es, i)| >= |PassTimes(s, es, l)| || |DispatchedBy(s, es, i)| >= |QueueOf(s, i)|
  {
    if es != [] {
      PassesDrain(s, Front(es), l, i);
      KeepsSchedule(s, Front(es), l);
      ConservationAndFifo(s, Front(es), i);
      var t := After(s, Front(es));
      assert QueueOf(t, i) == [] ==> |DispatchedBy(s, Front(es), i)| >= |QueueOf(s, i)|;
    }
  }

  /** The message at position `p` of a queue is the p-th one its schedule sends from then on, and it has been
      sent once any goroutine of the schedule has passed `p + 1` times. The channel may be removed meanwhile. */
  lemma BoundedWait(s: State, es: seq<Event>, l: nat, p: nat)
    requires WellFormed(s) && l < |s.loops| && p < |QueueOf(s, s.loops[l].schedule)|
    requires |PassTimes(s, es, l)| > p
    ensures
      var i := s.loops[l].schedule;
      |DispatchedBy(s, es, i)| > p && DispatchedBy(s, es, i)[p] == QueueOf(s, i)[p]
  {
    var i := s.loops[l].schedule;
    PassesDrain(s, es, l, i);
    ConservationAndFifo(s, es, i);
    assert (QueueOf(s, i) + AcceptedBy(s, es, i))[p] == QueueOf(s, i)[p];
  }

  // --- A schedule drained by several goroutines ---------------------------------------------

  /** The times at which any goroutine of schedule `i` sent a message. */
  ghost function ScheduleTimes(s: State, es: seq<Event>, i: nat): seq<int>
    requires WellFormed(s)
  {
    if es == [] then []
    else ScheduleTimes(s, Front(es), i)
         + if DispatchedNow(After(s, Front(es)), Last(es), i) != [] then [Last(es).now] else []
  }

  lemma {:induction false} OneTimePerMessage(s: State, es: seq<Event>, i: nat)
    requires WellFormed(s)
    ensures |ScheduleTimes(s, es, i)| == |DispatchedBy(s, es, i)|
  {
    if es != [] {
      OneTimePerMessage(s, Front(es), i);
    }
  }

  ghost predicate Homes(t: State, homes: seq<nat>) {
    |t.loops| <= |homes| && forall l :: 0 <= l < |t.loops| ==> t.loops[l].schedule == homes[l]
  }

  ghost function LoopCounts(s: State, es: seq<Event>, i: nat, t: int, homes: seq<nat>): nat
    requires WellFormed(s)
  {
    if homes == [] then 0
    else LoopCounts(s, es, i, t, Front(homes))
         + if Last(homes) == i then CountUpTo(DispatchTimes(s, es, |homes| - 1), t) else 0
  }

  lemma CountAppendOne(times: seq<int>, x: int, t: int)
    ensures CountUpTo(times + [x], t) == CountUpTo(times, t) + if x <= t then 1 else 0
  {
  }

  lemma CountStep(s: State, es: seq<Event>, l: nat, t: int)
    requires WellFormed(s) && es != []
    ensures CountUpTo(DispatchTimes(s, es, l), t) == CountUpTo(DispatchTimes(s, Front(es), l), t)
              + if Dispatches(After(s, Front(es)), Last(es), l) && Last(es).now <= t then 1 else 0
  {
    var before := DispatchTimes(s, Front(es), l);
    if Dispatches(After(s, Front(es)), Last(es), l) {
      CountAppendOne(before, Last(es).now, t);
    } else {
      assert before + [] == before;
    }
  }

  /** The event is a send by a goroutine of schedule `i`, among those listed, no later than `t`. */
  predicate SendsOn(u: State, e: Event, i: nat, t: int, homes: seq<nat>)
    requires WellFormed(u)
  {
    e.Wake? && e.loop < |homes| && homes[e.loop] == i && Dispatches(u, e, e.loop) && e.now <= t
  }

  lemma {:induction false} LoopCountsStep(s: State, es: seq<Event>, i: nat, t: int, homes: seq<nat>)
    requires WellFormed(s) && es != []
    ensures LoopCounts(s, es, i, t, homes) == LoopCounts(s, Front(es), i, t, homes)
              + if SendsOn(After(s, Front(es)), Last(es), i, t, homes) then 1 else 0
  {
    if homes != [] {
      LoopCountsStep(s, es, i, t, Front(homes));
      CountStep(s, es, |homes| - 1, t);
    }
  }

  lemma SendsWhenDispatched(u: State, e: Event, i: nat, t: int, homes: seq<nat>)
    requires WellFormed(u) && Homes(u, homes)
    ensures SendsOn(u, e, i, t, homes) <==> DispatchedNow(u, e, i) != [] && e.now <= t
  {
  }

  lemma ScheduleTimesStep(s: State, es: seq<Event>, i: nat, t: int, homes: seq<nat>)
    requires WellFormed(s) && es != [] && Homes(After(s, Front(es)), homes)
    ensures CountUpTo(ScheduleTimes(s, es, i), t) == CountUpTo(ScheduleTimes(s, Front(es), i), t)
              + if SendsOn(After(s, Front(es)), Last(es), i, t, homes) then 1 else 0
  {
    var before, u, e := ScheduleTimes(s, Front(es), i), After(s, Front(es)), Last(es);
    SendsWhenDispatched(u, e, i, t, homes);
    if DispatchedNow(u, e, i) != [] {
      CountAppendOne(before, e.now, t);
    } else {
      assert before + [] == before;
    }
  }

  lemma {:induction false} HomesShrink(s: State, es: seq<Event>, homes: seq<nat>)
    requires WellFormed(s) && es != [] && Homes(After(s, es), homes)
    ensures Homes(After(s, Front(es)), homes)
  {
  }

  lemma {:induction false} NoCounts(s: State, i: nat, t: int, homes: seq<nat>)
    requires WellFormed(s)
    ensures LoopCounts(s, [], i, t, homes) == 0
  {
    if homes != [] {
      NoCounts(s, i, t, Front(homes));
    }
  }

  lemma {:induction false} ScheduleCount(s: State, es: seq<Event>, i: nat, t: int, homes: seq<nat>)
    requires WellFormed(s) && Homes(After(s, es), homes)
    ensures CountUpTo(ScheduleTimes(s, es, i), t) == LoopCounts(s, es, i, t, homes)
  {
    if es == [] {
      NoCounts(s, i, t, homes);
    } else {
      HomesShrink(s, es, homes);
      ScheduleCount(s, Front(es), i, t, homes);
      LoopCountsStep(s, es, i, t, homes);
      ScheduleTimesStep(s, es, i, t, homes);
    }
  }

  /** The time, summed over the goroutines of schedule `i`, that each has been running at `t`. */
  ghost function RunningTime(s: State, es: seq<Event>, i: nat, t: int, homes: seq<nat>): nat
    requires WellFormed(s)
  {
    if homes == [] then 0
    else RunningTime(s, es, i, t, Front(homes))
         + if Last(homes) == i then Elapsed(BeginTime(s, es, |homes| - 1), t) else 0
  }

  lemma {:induction false} LoopCountsBound(s: State, es: seq<Event>, i: nat, t: int, homes: seq<nat>)
    requires WellFormed(s) && forall l :: 0 <= l < |homes| ==> NotBegun(s, l)
    ensures 50 * LoopCounts(s, es, i, t, homes) <= RunningTime(s, es, i, t, homes)
  {
    if homes != [] {
      LoopCountsBound(s, es, i, t, Front(homes));
      LoopRate(s, es, |homes| - 1, t);
    }
  }

  function HomesOf(s: State): (homes: seq<nat>)
    ensures |homes| == |s.loops| && forall l :: 0 <= l < |s.loops| ==> homes[l] == s.loops[l].schedule
  {
    seq(|s.loops|, l requires 0 <= l < |s.loops| => s.loops[l].schedule)
  }

  /** A schedule with several goroutines (Run starts one more for each schedule already there) sends by time
      `t` at most one message per 50 ms of running time of each of them. */
  lemma ScheduleRate(s: State, es: seq<Event>, i: nat, t: int)
    requires WellFormed(s) && forall l: nat :: NotBegun(s, l)
    ensures 50 * CountUpTo(ScheduleTimes(s, es, i), t) <= RunningTime(s, es, i, t, HomesOf(After(s, es)))
  {
    var homes := HomesOf(After(s, es));
    ScheduleCount(s, es, i, t, homes);
    LoopCountsBound(s, es, i, t, homes);
  }
}
