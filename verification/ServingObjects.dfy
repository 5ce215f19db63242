/** `start_generation_core` and `finish_generation` over the objects they share
    (engine/api/serving.py): the scheduler, the registry behind the router, the
    gateway's limiter and the counters, each updated in place on every exit. */
module ServingObjects {
  import opened Registry
  import opened Router
  import opened Gateway
  import Sched = Scheduler
  import C = Counters
  import S = Serving

  /** The handle of a started generation. */
  class Served {
    const id: nat
    const access: ApiAccess
    const lease: RegistryLease

    constructor (id: nat, access: ApiAccess, lease: RegistryLease)
      ensures this.id == id && this.access == access && this.lease == lease
    {
      this.id, this.access, this.lease := id, access, lease;
    }
  }

  /** How a start went, up to its first suspension. */
  datatype Start = Refused | NotPlaced | Waits(id: nat, access: ApiAccess) | Started(served: Served)

  class Engine {
    const routing: Routing
    const scheduler: Sched.AdmissionControl
    const registry: BackendRegistry
    const limiter: Limiter
    const counters: C.RequestCounters
    ghost var reqs: S.Requests
    ghost var leaks: S.Leaks

    /** The state of the lifecycle model that the objects are in. */
    ghost function Now(): S.State
      reads this, scheduler, registry, limiter, counters
    {
      S.State(S.Config(routing, limiter.maxConcurrent),
              S.Resources(scheduler.View(), registry.entries, limiter.inflight, counters.active), reqs, leaks)
    }

    constructor (routing: Routing, scheduler: Sched.AdmissionControl, registry: BackendRegistry, limiter: Limiter,
                 counters: C.RequestCounters)
      requires scheduler.View() == Sched.Init(scheduler.maxConcurrency, scheduler.maxQueueDepth)
      requires S.Idle(registry.entries) && limiter.inflight == map[] && counters.active == 0
      ensures this.scheduler == scheduler && this.registry == registry && this.limiter == limiter
      ensures this.counters == counters && this.routing == routing
      ensures S.Inv(Now())
    {
      this.routing, this.scheduler, this.registry := routing, scheduler, registry;
      this.limiter, this.counters := limiter, counters;
      reqs, leaks := S.Requests(map[], map[], map[], map[]), S.Leaks(map[], 0);
      new;
      S.InitInv(S.Config(routing, limiter.maxConcurrent), registry.entries, scheduler.maxConcurrency,
          scheduler.maxQueueDepth);
    }

    /** An access handle of this engine that still holds what it was given. */
    ghost predicate Fresh(access: ApiAccess)
      reads access
    {
      access.limiter == limiter && !access.finalized && access.slotHeld == (access.key != LOCAL)
    }

    /** The error path after admission: permit first, then the slot. */
    method GiveBack(id: nat, access: ApiAccess)
      requires Sched.Inv(scheduler.View()) && Fresh(access)
      modifies scheduler, limiter, access
      ensures Sched.Inv(scheduler.View()) && Now() == S.Undo(old(Now()), id, access.key)
      ensures access.finalized && !access.slotHeld
    {
      hide Sched.Inv, Sched.Next;
      scheduler.ReleaseLease(id, false);
      access.Abort();
    }

    /** From a granted permit to a handle, or back. */
    method PlaceAdmitted(id: nat, access: ApiAccess, req: Request, generates: bool, time: real) returns (r: Start)
      requires Sched.Inv(scheduler.View()) && Fresh(access)
      modifies this, scheduler, registry, limiter, counters, access
      ensures Sched.Inv(scheduler.View())
      ensures Now() == S.PlaceRequest(old(Now()), id, access.key, req, generates)
      ensures r.Started? <==> generates && Route(routing, old(registry.entries), req).Routed?
      ensures r.Started? ==> Owned(r.served) && r.served.id == id && fresh(r.served) && fresh(r.served.lease)
      ensures r.Started? ==> r.served.lease.index == Route(routing, old(registry.entries), req).decision.index
      ensures r.Started? ==> r.served.access == access
      ensures !r.Started? ==> r.NotPlaced? && access.finalized && !access.slotHeld
    {
      hide Sched.Inv, Sched.Next, Route;
      var route := Router.Acquire(routing, registry, req);
      if !route.Routed? {
        GiveBack(id, access);
        return NotPlaced;
      }
      counters.RequestStarted(time);
      var lease := new RegistryLease(registry, route.decision.index);
      if !generates {
        lease.Release();
        GiveBack(id, access);
        counters.RequestFinished(0, 0, true);
        return NotPlaced;
      }
      reqs := reqs.(key := reqs.key[id := access.key], on := reqs.on[id := route.decision.index]);
      var served := new Served(id, access, lease);
      r := Started(served);
    }

    /** A handle whose leases are all still out. */
    ghost predicate Owned(served: Served)
      reads this, served.access, served.lease
    {
      && Fresh(served.access) && served.lease.registry == registry && !served.lease.released
      && served.id in reqs.key && reqs.key[served.id] == served.access.key
      && served.id in reqs.on && reqs.on[served.id] == served.lease.index
    }

    /** `admit` and what follows it, up to a suspension. */
    method AdmitAuthorized(access: ApiAccess, req: Request, generates: bool, time: real) returns (r: Start)
      requires Sched.Inv(scheduler.View()) && Fresh(access)
      modifies this, scheduler, registry, limiter, counters, access
      ensures Now() == S.AdmitRequest(old(Now()), access.key, req, generates)
      ensures r.Started? ==> Owned(r.served) && r.served.access == access
      ensures r.Waits? ==> r.id in reqs.waitKey && r.access == access && Fresh(access)
      ensures r.Started? <==> !old(scheduler.draining) && !Sched.Busy(old(scheduler.View()))
                              && generates && Route(routing, old(registry.entries), req).Routed?
      ensures r.Waits? <==> !old(scheduler.draining) && Sched.Busy(old(scheduler.View()))
                            && old(scheduler.waiters) < scheduler.maxQueueDepth
      ensures !r.Started? && !r.Waits? ==> access.finalized && !access.slotHeld
    {
      Sched.AdmissionIsExact(scheduler.View());
      hide Sched.Inv, Sched.Next, Sched.AdmitStep, Sched.Locked, Route, S.PlaceRequest, Sched.Busy;
      var ticket := scheduler.Admit();
      assert scheduler.View() == Sched.AdmitStep(old(scheduler.View())) by { AdmitIsStep(old(scheduler.View())); }
      match ticket
      case Saturated =>
        access.Abort();
        r := Refused;
      case Queued(id) =>
        reqs := reqs.(waitKey := reqs.waitKey[id := access.key], waitFor := reqs.waitFor[id := req]);
        r := Waits(id, access);
      case Admitted(id) =>
        r := PlaceAdmitted(id, access, req, generates, time);
    }

    /** `start_generation_core`. */
    method StartGeneration(key: string, req: Request, verdict: S.Verdict, generates: bool, time: real)
      returns (r: Start)
      requires S.Inv(Now())
      modifies this, scheduler, registry, limiter, counters
      ensures Now() == S.Next(old(Now()), S.Arrive(key, req, verdict, generates)) && S.Inv(Now())
      ensures r.Started? ==> Owned(r.served) && r.served.access.key == key
      ensures r.Waits? ==> r.id in reqs.waitKey && Fresh(r.access) && r.access.key == key
      ensures r.Started? <==>
                !S.TurnedAway(old(Now()), key, verdict)
                && !old(scheduler.draining) && !Sched.Busy(old(scheduler.View()))
                && generates && Route(routing, old(registry.entries), req).Routed?
      ensures r.Waits? <==>
                !S.TurnedAway(old(Now()), key, verdict) && !old(scheduler.draining) && Sched.Busy(old(scheduler.View()))
                && old(scheduler.waiters) < scheduler.maxQueueDepth
    {
      hide S.Inv, S.AdmitRequest, Sched.Busy, Sched.Inv, Sched.Next, Route;
      S.NextKeeps(Now(), S.Arrive(key, req, verdict, generates));
      SchedulerIsSound(Now());
      if verdict.Denied? { return Refused; }
      var access := new ApiAccess(limiter, key, false);
      if key != LOCAL {
        var ok := limiter.Acquire(key);
        if !ok { return Refused; }
        access.slotHeld := true;
        if verdict.StoreFails? {
          leaks := S.Leak(leaks, key);
          return Refused;
        }
        if verdict.OverQuota? {
          access.Abort();
          return Refused;
        }
      }
      r := AdmitAuthorized(access, req, generates, time);
    }

    /** A waiting request is resumed with its permit. */
    method ContinueWaiter(id: nat, access: ApiAccess, req: Request, generates: bool, time: real) returns (r: Start)
      requires S.Inv(Now()) && Fresh(access) && id in scheduler.sem.handed
      requires id in reqs.waitKey && reqs.waitKey[id] == access.key && id in reqs.waitFor && reqs.waitFor[id] == req
      modifies this, scheduler, registry, limiter, counters, access
      ensures Now() == S.Next(old(Now()), S.Resume(id, generates)) && S.Inv(Now())
      ensures r.Started? <==> generates && Route(routing, old(registry.entries), req).Routed?
      ensures r.Started? ==> Owned(r.served) && r.served.access == access && r.served.id == id
                             && r.served.lease.index == Route(routing, old(registry.entries), req).decision.index
      ensures !r.Started? ==> r.NotPlaced? && access.finalized && !access.slotHeld
    {
      hide S.Inv, S.PlaceRequest, Sched.Inv, Sched.Next, Route;
      S.NextKeeps(Now(), S.Resume(id, generates));
      SchedulerIsSound(Now());
      scheduler.ResumeWaiter(id);
      reqs := S.Unwait(reqs, id);
      r := PlaceAdmitted(id, access, req, generates, time);
    }

    /** A wait ends without a permit. A timeout is reported as saturation and
        gives the slot back; a cancellation is not caught and keeps it. */
    method EndWait(id: nat, access: ApiAccess, timedOut: bool)
      requires S.Inv(Now()) && Fresh(access) && id in reqs.waitKey && reqs.waitKey[id] == access.key
      modifies this, scheduler, limiter, access
      ensures Now() == S.Next(old(Now()), if timedOut then S.TimeOut(id) else S.CancelWait(id)) && S.Inv(Now())
    {
      hide S.Inv, Freed, Sched.Inv, Sched.Next, Sched.Waiting;
      S.NextKeeps(Now(), if timedOut then S.TimeOut(id) else S.CancelWait(id));
      SchedulerIsSound(Now());
      WaitersWait(Now(), id);
      scheduler.AbandonWait(id, timedOut);
      reqs := S.Unwait(reqs, id);
      if timedOut {
        access.Abort();
      } else {
        leaks := S.Leak(leaks, access.key);
      }
    }

    /** `finish_generation`; a failing usage write raises before the gauge is lowered. */
    method FinishGeneration(served: Served, prompt: int, completion: int, cancelled: bool, error: bool,
                            storeFails: bool)
      requires S.Inv(Now()) && Owned(served)
      modifies this, scheduler, registry, limiter, counters, served.access, served.lease
      ensures Now() == S.Next(old(Now()), S.Finish(served.id, cancelled, storeFails)) && S.Inv(Now())
      ensures served.lease.released && served.access.finalized && !served.access.slotHeld
    {
      hide S.Inv, Freed, Sched.Inv, Sched.Next, Free;
      S.NextKeeps(Now(), S.Finish(served.id, cancelled, storeFails));
      SchedulerIsSound(Now());
      ServedOnEntry(Now(), served.id);
      scheduler.ReleaseLease(served.id, cancelled);
      served.lease.Release();
      reqs := reqs.(key := reqs.key - {served.id}, on := reqs.on - {served.id});
      var raised := served.access.Finalize(storeFails);
      if raised {
        leaks := leaks.(gauge := leaks.gauge + 1);
        return;
      }
      counters.RequestFinished(prompt, completion, error);
    }
  }

  lemma SchedulerIsSound(s: S.State)
    requires S.Inv(s)
    ensures Sched.Inv(s.res.sched)
  {
  }

  lemma WaitersWait(s: S.State, id: nat)
    requires S.Inv(s) && id in s.reqs.waitKey
    ensures Sched.Waiting(s.res.sched, id)
  {
  }

  lemma ServedOnEntry(s: S.State, id: nat)
    requires S.Inv(s) && id in s.reqs.on
    ensures s.reqs.on[id] < |s.res.entries|
  {
  }

  lemma AdmitIsStep(s: Sched.State)
    ensures Sched.Next(s, Sched.Event.Admit) == Sched.AdmitStep(s)
  {
  }
}
