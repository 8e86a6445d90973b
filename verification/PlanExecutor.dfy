/** simulation/construction/plan_executor.py: the executor object over a shared colony. */
module PlanExecutor {
  import C = Construction
  import opened BuildSystem
  import opened PlanSteps

  class PlanExecutor {
    const colony: ColonyState
    var plan: seq<PlanStep>
    var status: map<string, Status>
    ghost var subs: seq<Submission>

    ghost predicate Valid()
      reads this, colony, colony.grid, colony.grid.tiles
    {
      colony.Valid()
    }

    ghost function View(): Session
      reads this, colony, colony.grid, colony.grid.tiles
    {
      Session(Executor(plan, status), colony.View(), subs)
    }

    constructor (colony: ColonyState)
      requires colony.Valid()
      ensures this.colony == colony && Valid() && plan == [] && status == map[] && subs == []
    {
      this.colony := colony;
      plan, status, subs := [], map[], [];
    }

    /** Replaces any plan in flight; every step starts out pending. */
    method LoadPlan(steps: seq<PlanStep>)
      requires Valid()
      modifies this
      ensures Valid() && View() == Session(Loaded(steps), colony.View(), [])
    {
      plan, status, subs := [], map[], [];
      for i := 0 to |steps|
        invariant plan == steps[..i] && subs == []
        invariant status == map step | step in steps[..i] :: step.id := Pending
      {
        plan := plan + [steps[i]];
        status := status[steps[i].id := Pending];
        assert steps[..i + 1] == steps[..i] + [steps[i]];
      }
      assert steps[..|steps|] == steps;
    }

    method RefreshStatus()
      requires Valid()
      modifies `status
      ensures Valid()
      ensures View() == old(View()).(e := Refresh(old(View()).e, ActivePlaces(colony.sites), |plan|))
    {
      var active := set s | s in colony.sites :: s.p;
      ghost var e := View().e;
      for i := 0 to |plan|
        invariant Valid() && Executor(plan, status) == Refresh(e, active, i)
      {
        var step := plan[i];
        if step.id in status && status[step.id] == Submitted && step.p !in active {
          status := status[step.id := Complete];
        }
      }
    }

    /** One tick: promote what is finished, then submit at most one step. */
    method Update()
      requires Valid()
      modifies this, colony
      ensures Valid() && View() == TickPlan(old(View()))
    {
      if plan == [] {
        return;
      }
      RefreshStatus();
      ghost var s := View();
      var i := 0;
      while i < |plan|
        invariant Valid() && 0 <= i <= |plan| && plan == s.e.plan
        invariant Submit(View(), i) == Submit(s, 0)
      {
        var placed := AttemptStep(i);
        if placed {
          return;
        }
        i := i + 1;
      }
    }

    /** The body of the submission loop for step i. */
    method AttemptStep(i: nat) returns (placed: bool)
      requires Valid() && i < |plan|
      modifies this, colony
      ensures Valid() && (View(), placed) == Attempt(old(View()), i)
    {
      hide C.PlaceToolAt, DependenciesComplete;
      var step := plan[i];
      if (step.id in status && status[step.id] != Pending) || !Ready(step) {
        return false;
      }
      ghost var at := |View().c.log|;
      var r := colony.PlaceToolAt(step.tool, step.p);
      if !r.ok {
        status := status[step.id := Failed];
        return false;
      }
      if r.phase == C.BlueprintPhase {
        status := status[step.id := Submitted];
        subs := subs + [Submission(step.id, at)];
        return true;
      }
      return false;
    }

    predicate Ready(step: PlanStep)
      reads this
    {
      DependenciesComplete(Executor(plan, status), step)
    }
  }
}
