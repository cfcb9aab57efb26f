/** The call counts of the jump-ahead tests, derived from the scheduler's
    own rules. Times are in ticks of one millisecond: 5 s is 5000 ticks.
    Each scenario starts a fresh runner, clock reading 0 throughout, and a
    callback that only counts its calls. */
module JumpAheadScenarios {
  import opened EventQueue
  import opened Scheduler
  import opened SchedulerJob

  /** A callback that cancels nothing. */
  const NoCancels: Callbacks := map[]

  const Callback := Target("callback")

  /** A started runner with nothing scheduled. */
  method StartedRunner() returns (s: Runner)
    ensures fresh(s) && s.Valid()
    ensures s.status == Started && s.events == map[] && s.queue == []
    ensures s.offset == 0 && s.lastMono == 0 && s.issued == {}
    ensures s.minDelta == DefaultMinDelta && s.resolution == DefaultResolution
  {
    s := new Runner();
    s.SetStatus(Started);
  }

  /** A jump of `ticks` through `s`, the base clock reading staying 0 and
      no callback cancelling anything. */
  method Jump(s: Runner, ticks: int) returns (p: seq<Event>)
    requires s.Valid() && s.lastMono == 0 && ticks >= 0
    modifies s
    ensures s.Valid() && s.lastMono == 0
    ensures s.offset == old(s.offset) + ticks
    ensures Drained(old(s.events), s.queue, s.events, p, s.offset, NoCancels)
    ensures Cancelled(NoCancels, p) == {}
    ensures s.status == old(s.status) && s.issued == old(s.issued)
  {
    var _, pass := s.JumpAhead(ticks, 0, NoCancels);
    p := pass;
    CancelledQuiet(NoCancels, p);
  }

  /** A jump of `ticks` through `s`, and how often task `k` was called. */
  method JumpCount(s: Runner, ticks: int, k: Id) returns (c: nat)
    requires s.Valid() && s.lastMono == 0 && ticks >= 0 && k in s.events
    modifies s
    ensures s.Valid() && s.lastMono == 0
    ensures s.offset == old(s.offset) + ticks
    ensures s.status == old(s.status) && s.issued == old(s.issued)
    ensures c == DueCount(old(s.events)[k], s.offset)
    ensures old(s.events)[k].frequency != 0 || s.offset < old(s.events)[k].time ==>
              k in s.events && s.events[k] == Advance(old(s.events)[k], c)
  {
    ghost var e0s := s.events;
    var p := Jump(s, ticks);
    FiringCount(e0s, s.queue, s.events, p, s.offset, NoCancels, k);
    if e0s[k].frequency != 0 || s.offset < e0s[k].time {
      Survivor(e0s, s.queue, s.events, p, s.offset, NoCancels, k);
    }
    c := Fired(p, k);
  }

  /** A task repeating every 5 s is called once by a 6 s jump, and four
      times in all after 15 s more. */
  method RepeatEveryFive() returns (afterSix: nat, afterTwentyOne: nat)
    ensures afterSix == 1 && afterTwentyOne == 4
  {
    var s := StartedRunner();
    var r := NewJob(s, Callback, TimeDelta(5000), true, [], map[], 0, 0);
    afterSix := JumpCount(s, 6000, 0);
    var more := JumpCount(s, 15000, 0);
    afterTwentyOne := afterSix + more;
  }

  /** A one-shot task due in 5 s is not called by a 2 s jump, and called
      once after 4 s more. */
  method OneShotFive() returns (afterTwo: nat, afterSix: nat)
    ensures afterTwo == 0 && afterSix == 1
  {
    var s := StartedRunner();
    var r := NewJob(s, Callback, TimeDelta(5000), false, [], map[], 0, 0);
    afterTwo := JumpCount(s, 2000, 0);
    var more := JumpCount(s, 4000, 0);
    afterSix := afterTwo + more;
  }

  /** A one-shot task scheduled after a 2 s jump is due 5 s after that
      jump: not called after 4 s more, called once after another 4 s. */
  method ScheduleAfterJump() returns (afterFour: nat, afterEight: nat)
    ensures afterFour == 0 && afterEight == 1
  {
    var s := StartedRunner();
    var _ := Jump(s, 2000);
    var r := NewJob(s, Callback, TimeDelta(5000), false, [], map[], 0, 0);
    afterFour := JumpCount(s, 4000, 0);
    var more := JumpCount(s, 4000, 0);
    afterEight := afterFour + more;
  }

  /** Jumping backwards raises ValueError and leaves the clock alone. */
  method JumpBackwards() returns (r: Outcome, offset: int)
    ensures r == Raised(ValueError) && offset == 0
  {
    var s := StartedRunner();
    var j := NewJob(s, Callback, TimeDelta(5000), false, [], map[], 0, 0);
    var job := j.value;
    var p;
    r, p := job.JumpAhead(-5000, 0, NoCancels);
    offset := s.offset;
  }

  /** Two handles share one clock: a jump through the first calls the task
      of the second. */
  method SharedClock() returns (first: nat, second: nat)
    ensures first == 1 && second == 1
  {
    var s := StartedRunner();
    var r1 := NewJob(s, Callback, TimeDelta(1000), false, [], map[], 0, 0);
    var r2 := NewJob(s, Callback, TimeDelta(3000), false, [], map[], 0, 1);
    var job1 := r1.value;
    ghost var e0s := s.events;
    assert e0s[0].time == 1000 && e0s[1].time == 3000;
    var _, p := job1.JumpAhead(5000, 0, NoCancels);
    CancelledQuiet(NoCancels, p);
    FiringCount(e0s, s.queue, s.events, p, 5000, NoCancels, 0);
    FiringCount(e0s, s.queue, s.events, p, 5000, NoCancels, 1);
    first, second := Fired(p, 0), Fired(p, 1);
  }

  /** A task cancelled before it is due is never called; the first
      unschedule finds it, the second does not. */
  method CancelBeforeDue() returns (firstFound: bool, secondFound: bool, calls: nat)
    ensures firstFound && !secondFound && calls == 0
  {
    var s := StartedRunner();
    var r := NewJob(s, Callback, TimeDelta(5000), true, [], map[], 0, 0);
    firstFound := s.Unschedule(0);
    secondFound := s.Unschedule(0);
    ghost var e0s := s.events;
    var p := Jump(s, 6000);
    FiredUnknown(e0s, s.events, p, 6000, NoCancels, 0);
    calls := Fired(p, 0);
  }

  /** Cancelling through the handle twice leaves the runner as the first
      cancel left it. */
  method CancelTwice() returns (afterFirst: map<Id, Event>, afterSecond: map<Id, Event>)
    ensures afterFirst == afterSecond == map[]
  {
    var s := StartedRunner();
    var r := NewJob(s, Callback, TimeDelta(5000), false, [], map[], 0, 0);
    var job := r.value;
    job.Cancel();
    afterFirst := s.events;
    job.Cancel();
    afterSecond := s.events;
  }
}
