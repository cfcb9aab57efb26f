/** The `Job` handle of the synchronous scheduler: a task scheduled on the
    one shared runner (`SyncScheduler`), which it can cancel and whose
    virtual clock it can move forward. */
module SchedulerJob {
  import opened EventQueue
  import opened Scheduler

  class Job {
    /** The shared runner every handle talks to. */
    const scheduler: Runner
    /** The id `schedule_task` returned for this handle's task. */
    const job: Id

    constructor (scheduler: Runner, job: Id)
      ensures this.scheduler == scheduler && this.job == job
    {
      this.scheduler := scheduler;
      this.job := job;
    }

    /** `cancel`: unschedules this handle's task, and only that one. */
    method Cancel()
      requires scheduler.Valid()
      modifies scheduler`queue, scheduler`events
      ensures scheduler.Valid()
      ensures scheduler.events == old(scheduler.events) - {job}
      ensures job in old(scheduler.events) ==>
                multiset(scheduler.queue) == multiset(old(scheduler.queue)) - multiset{old(scheduler.events)[job]}
      ensures job !in old(scheduler.events) ==> scheduler.queue == old(scheduler.queue)
    {
      var _ := scheduler.Unschedule(job);
    }

    /** `jump_ahead`: moves the shared runner's clock, whichever handle
        is used. */
    method JumpAhead(ticks: int, mono: int, cancels: Callbacks) returns (r: Outcome, pass: seq<Event>)
      requires scheduler.Valid() && mono >= scheduler.lastMono
      modifies scheduler
      ensures scheduler.Valid()
      ensures ticks < 0 ==> r == Raised(ValueError) && unchanged(scheduler)
      ensures ticks >= 0 ==>
        && r == Done
        && scheduler.offset == old(scheduler.offset) + ticks && scheduler.lastMono == mono
        && Drained(old(scheduler.events), scheduler.queue, scheduler.events, pass,
                   mono + scheduler.offset, cancels)
        && scheduler.status == old(scheduler.status) && scheduler.issued == old(scheduler.issued)
        && scheduler.minDelta == old(scheduler.minDelta)
        && scheduler.resolution == old(scheduler.resolution)
    {
      r, pass := scheduler.JumpAhead(ticks, mono, cancels);
    }
  }

  /** `Job.__init__`: schedules exactly one task on `s` and keeps its id;
      the scheduler's errors reach the caller and no handle is made. */
  method NewJob(s: Runner, target: Target, delta: Delta, repeatable: bool, args: seq<string>,
                kwargs: map<string, string>, mono: int, newId: Id) returns (r: Result<Job>)
    requires s.Valid() && mono >= s.lastMono && newId !in s.issued
    modifies s
    ensures s.Valid()
    ensures old(s.status) != Started ==> r == Err(ModuleNotInitialized)
    ensures old(s.status) == Started && delta.NotTimeDelta? ==> r == Err(AttributeError)
    ensures r.Err? ==> unchanged(s)
    ensures old(s.status) == Started && delta.TimeDelta? ==>
      && r.Ok? && fresh(r.value)
      && r.value.scheduler == s && r.value.job == newId
      && var e := NewEvent(target, delta.ticks, repeatable, args, kwargs, mono + old(s.offset), s.minDelta, newId);
      && s.events == old(s.events)[newId := e]
      && multiset(s.queue) == multiset(old(s.queue)) + multiset{e}
      && s.issued == old(s.issued) + {newId} && s.lastMono == mono
      && s.offset == old(s.offset) && s.status == old(s.status)
      && s.minDelta == old(s.minDelta) && s.resolution == old(s.resolution)
  {
    var id := s.ScheduleTask(target, delta, repeatable, args, kwargs, mono, newId);
    if id.Err? {
      return Err(id.failure);
    }
    var j := new Job(s, id.value);
    r := Ok(j);
  }
}
