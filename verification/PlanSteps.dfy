/** The plan executor's state machine on values: statuses, one tick, and whole runs in which the
    colony may change between ticks. */
module PlanSteps {
  import opened Tiles
  import opened BuildAdvisor
  import opened Construction
  import opened ConstructionRuns

  datatype Status = Pending | Submitted | Complete | Failed

  datatype PlanStep = PlanStep(id: string, tool: Tool, p: Point, dependsOn: seq<string>)

  datatype Executor = Executor(plan: seq<PlanStep>, status: map<string, Status>)

  /** A step that was submitted, and where the log announces its blueprint. */
  datatype Submission = Submission(id: string, at: nat)

  datatype Session = Session(e: Executor, c: Colony, subs: seq<Submission>)

  predicate UniqueIds(plan: seq<PlanStep>) {
    forall i, j :: 0 <= i < j < |plan| ==> plan[i].id != plan[j].id
  }

  // ---- one tick ---------------------------------------------------------------------

  function StatusOf(e: Executor, id: string): Status {
    if id in e.status then e.status[id] else Pending
  }

  function ActivePlaces(sites: seq<Site>): set<Point> {
    set s | s in sites :: s.p
  }

  /** Promotes the submitted steps among the first n whose site is gone. */
  function Refresh(e: Executor, active: set<Point>, n: nat): (r: Executor)
    requires n <= |e.plan|
    ensures r.plan == e.plan
  {
    if n == 0 then e
    else
      var d := Refresh(e, active, n - 1);
      var step := e.plan[n - 1];
      if StatusOf(d, step.id) == Submitted && step.p !in active then d.(status := d.status[step.id := Complete]) else d
  }

  predicate DependenciesComplete(e: Executor, step: PlanStep) {
    forall d :: d in step.dependsOn ==> StatusOf(e, d) == Complete
  }

  function SetStatus(e: Executor, id: string, s: Status): Executor {
    e.(status := e.status[id := s])
  }

  /** Tries step i if it is pending and its dependencies are complete; says whether a blueprint
      was placed. */
  function Attempt(s: Session, i: nat): (r: (Session, bool))
    requires WellFormed(s.c.m) && i < |s.e.plan|
    ensures WellFormed(r.0.c.m) && r.0.c.m.width == s.c.m.width && r.0.c.m.height == s.c.m.height
    ensures r.0.e.plan == s.e.plan
  {
    var step := s.e.plan[i];
    if StatusOf(s.e, step.id) != Pending || !DependenciesComplete(s.e, step) then (s, false)
    else
      var (c', o) := PlaceToolAt(s.c, step.tool, step.p);
      if !o.ok then (s.(e := SetStatus(s.e, step.id, Failed), c := c'), false)
      else if o.phase == BlueprintPhase then
        (Session(SetStatus(s.e, step.id, Submitted), c', s.subs + [Submission(step.id, |s.c.log|)]), true)
      else (s.(c := c'), false)
  }

  /** Tries the steps from the i-th on; stops after the first blueprint. */
  function Submit(s: Session, i: nat): (r: Session)
    requires WellFormed(s.c.m) && i <= |s.e.plan|
    ensures WellFormed(r.c.m) && r.c.m.width == s.c.m.width && r.c.m.height == s.c.m.height
    ensures r.e.plan == s.e.plan
    decreases |s.e.plan| - i
  {
    if i == |s.e.plan| then s
    else
      var (t, placed) := Attempt(s, i);
      if placed then t else Submit(t, i + 1)
  }

  /** Whatever every attempt keeps until a blueprint is placed, and then leaves behind, holds after the
      submission loop. */
  lemma {:induction false} SubmitKeeps(loops: Session -> bool, ends: Session -> bool, s: Session, i: nat)
    requires WellFormed(s.c.m) && i <= |s.e.plan| && loops(s) && forall t :: loops(t) ==> ends(t)
    requires forall t: Session, k: nat :: WellFormed(t.c.m) && k < |t.e.plan| && loops(t) ==>
      ends(Attempt(t, k).0) && (!Attempt(t, k).1 ==> loops(Attempt(t, k).0))
    ensures ends(Submit(s, i))
    decreases |s.e.plan| - i
  {
    hide Attempt;
    if i < |s.e.plan| && !Attempt(s, i).1 {
      SubmitKeeps(loops, ends, Attempt(s, i).0, i + 1);
    }
  }

  function TickPlan(s: Session): Session
    requires WellFormed(s.c.m)
  {
    if s.e.plan == [] then s
    else Submit(s.(e := Refresh(s.e, ActivePlaces(s.c.sites), |s.e.plan|)), 0)
  }

  // ---- order of submission --------------------------------------------------------------

  predicate WasSubmitted(subs: seq<Submission>, id: string) {
    exists i :: 0 <= i < |subs| && subs[i].id == id
  }

  /** Every submission comes after those of all the step's dependencies, and none comes twice. */
  ghost predicate LinearExtension(plan: seq<PlanStep>, subs: seq<Submission>) {
    && (forall i, j :: 0 <= i < j < |subs| ==> subs[i].id != subs[j].id)
    && (forall i :: 0 <= i < |subs| ==> ComesAfter(plan, subs, i))
  }

  ghost predicate ComesAfter(plan: seq<PlanStep>, subs: seq<Submission>, i: nat)
    requires i < |subs|
  {
    exists n :: 0 <= n < |plan| && plan[n].id == subs[i].id
             && forall d :: d in plan[n].dependsOn ==> WasSubmitted(subs[..i], d)
  }

  /** Exactly the submitted and completed steps have been submitted. */
  ghost predicate StatusesTell(s: Session) {
    forall id :: (StatusOf(s.e, id) == Submitted || StatusOf(s.e, id) == Complete) <==> WasSubmitted(s.subs, id)
  }

  ghost predicate InOrder(s: Session) {
    UniqueIds(s.e.plan) && LinearExtension(s.e.plan, s.subs) && StatusesTell(s)
  }

  /** Statuses only move forward: pending, submitted, complete; or pending, failed. */
  predicate Advances(a: Status, b: Status) {
    a == b || a == Pending || (a == Submitted && b == Complete)
  }

  ghost predicate AllAdvance(d: Executor, e: Executor) {
    forall id :: Advances(StatusOf(d, id), StatusOf(e, id))
  }

  lemma {:induction false} RefreshAdvances(e: Executor, active: set<Point>, n: nat)
    requires n <= |e.plan|
    ensures AllAdvance(e, Refresh(e, active, n))
    ensures forall id :: StatusOf(Refresh(e, active, n), id) == StatusOf(e, id)
              || (StatusOf(e, id) == Submitted && StatusOf(Refresh(e, active, n), id) == Complete)
  {
    if n > 0 { RefreshAdvances(e, active, n - 1); }
  }

  lemma RefreshKeepsOrder(s: Session, active: set<Point>)
    requires InOrder(s)
    ensures InOrder(s.(e := Refresh(s.e, active, |s.e.plan|)))
  {
    RefreshAdvances(s.e, active, |s.e.plan|);
  }

  lemma SubmissionKeepsOrder(s: Session, i: nat, c': Colony)
    requires InOrder(s) && i < |s.e.plan|
    requires StatusOf(s.e, s.e.plan[i].id) == Pending && DependenciesComplete(s.e, s.e.plan[i])
    ensures InOrder(Session(SetStatus(s.e, s.e.plan[i].id, Submitted), c',
                            s.subs + [Submission(s.e.plan[i].id, |s.c.log|)]))
  {
    var step := s.e.plan[i];
    var subs' := s.subs + [Submission(step.id, |s.c.log|)];
    assert !WasSubmitted(s.subs, step.id);
    forall j | 0 <= j < |subs'| ensures ComesAfter(s.e.plan, subs', j) {
      if j < |s.subs| {
        assert ComesAfter(s.e.plan, s.subs, j) && subs'[..j] == s.subs[..j];
      } else {
        assert subs'[..j] == s.subs && s.e.plan[i].id == subs'[j].id;
      }
    }
    forall id ensures WasSubmitted(subs', id) <==> WasSubmitted(s.subs, id) || id == step.id {
      if WasSubmitted(s.subs, id) {
        var j :| 0 <= j < |s.subs| && s.subs[j].id == id;
        assert subs'[j].id == id;
      }
      if id == step.id { assert subs'[|s.subs|].id == id; }
    }
  }

  lemma AdvancesTransitively(d: Executor, e: Executor, f: Executor)
    ensures AllAdvance(d, e) && AllAdvance(e, f) ==> AllAdvance(d, f)
  {
  }

  lemma SubmissionAdvances(e: Executor, id: string)
    requires StatusOf(e, id) == Pending
    ensures AllAdvance(e, SetStatus(e, id, Submitted))
  {
  }

  lemma OrderIgnoresColony(s: Session, c': Colony)
    requires InOrder(s)
    ensures InOrder(s.(c := c'))
  {
  }

  lemma FailureKeepsOrder(s: Session, i: nat, c': Colony)
    requires InOrder(s) && i < |s.e.plan| && StatusOf(s.e, s.e.plan[i].id) == Pending
    ensures InOrder(s.(e := SetStatus(s.e, s.e.plan[i].id, Failed), c := c'))
    ensures AllAdvance(s.e, SetStatus(s.e, s.e.plan[i].id, Failed))
  {
  }

  /** The submissions after a move: those before it, and at most one more. */
  predicate OneMore(before: seq<Submission>, after: seq<Submission>, more: bool) {
    |after| == |before| + (if more then 1 else 0) && after[..|before|] == before
  }

  lemma AttemptKeepsOrder(s: Session, i: nat)
    requires WellFormed(s.c.m) && i < |s.e.plan| && InOrder(s)
    ensures InOrder(Attempt(s, i).0) && AllAdvance(s.e, Attempt(s, i).0.e)
    ensures OneMore(s.subs, Attempt(s, i).0.subs, Attempt(s, i).1)
  {
    hide PlaceToolAt, LinearExtension, StatusesTell;
    var step := s.e.plan[i];
    if StatusOf(s.e, step.id) == Pending && DependenciesComplete(s.e, step) {
      var (c', o) := PlaceToolAt(s.c, step.tool, step.p);
      FailureKeepsOrder(s, i, c');
      SubmissionKeepsOrder(s, i, c');
      SubmissionAdvances(s.e, step.id);
      OrderIgnoresColony(s, c');
    }
  }

  lemma {:induction false} SubmitKeepsOrder(s: Session, i: nat)
    requires WellFormed(s.c.m) && i <= |s.e.plan| && InOrder(s)
    ensures InOrder(Submit(s, i)) && AllAdvance(s.e, Submit(s, i).e)
    ensures OneMore(s.subs, Submit(s, i).subs, false) || OneMore(s.subs, Submit(s, i).subs, true)
    decreases |s.e.plan| - i
  {
    if i < |s.e.plan| {
      hide Attempt, InOrder, AllAdvance;
      AttemptKeepsOrder(s, i);
      var (t, placed) := Attempt(s, i);
      if !placed {
        SubmitKeepsOrder(t, i + 1);
        AdvancesTransitively(s.e, t.e, Submit(t, i + 1).e);
      }
    }
  }

  /** A tick submits at most one step, keeps the order and moves statuses forward only. */
  lemma TickKeepsOrder(s: Session)
    requires WellFormed(s.c.m) && InOrder(s)
    ensures InOrder(TickPlan(s)) && AllAdvance(s.e, TickPlan(s).e)
    ensures OneMore(s.subs, TickPlan(s).subs, false) || OneMore(s.subs, TickPlan(s).subs, true)
  {
    if s.e.plan != [] {
      var active := ActivePlaces(s.c.sites);
      RefreshKeepsOrder(s, active);
      RefreshAdvances(s.e, active, |s.e.plan|);
      SubmitKeepsOrder(s.(e := Refresh(s.e, active, |s.e.plan|)), 0);
    }
  }

  // ---- progress ---------------------------------------------------------------------------

  predicate Ready(e: Executor, step: PlanStep) {
    StatusOf(e, step.id) == Pending && DependenciesComplete(e, step)
  }

  function OutcomeOf(c: Colony, step: PlanStep): Outcome
    requires WellFormed(c.m)
  {
    PlaceToolAt(c, step.tool, step.p).1
  }

  /** The executor after the refused ones among the first i steps have failed. */
  ghost predicate OnlyFailures(e: Executor, d: Executor, i: nat)
    requires i <= |e.plan|
  {
    && d.plan == e.plan
    && (forall k :: i <= k < |e.plan| ==> StatusOf(d, e.plan[k].id) == StatusOf(e, e.plan[k].id))
    && (forall id :: StatusOf(d, id) == Complete <==> StatusOf(e, id) == Complete)
  }

  lemma SameReady(e: Executor, d: Executor, i: nat, k: nat)
    requires i <= k < |e.plan| && OnlyFailures(e, d, i)
    ensures Ready(e, e.plan[k]) <==> Ready(d, e.plan[k])
  {
  }

  /** The ready steps from the i-th on whose placement is not refused. */
  ghost predicate FirstPlaceable(e: Executor, c: Colony, i: nat, n: nat)
    requires WellFormed(c.m)
  {
    && i <= n <= |e.plan|
    && (forall k :: i <= k < n && Ready(e, e.plan[k]) ==> !OutcomeOf(c, e.plan[k]).ok)
    && (n < |e.plan| ==> Ready(e, e.plan[n]) && OutcomeOf(c, e.plan[n]).phase == BlueprintPhase)
  }

  lemma RefusalChangesNothing(c: Colony, tool: Tool, p: Point)
    requires WellFormed(c.m)
    ensures var (c', o) := PlaceToolAt(c, tool, p);
      (!o.ok ==> c' == c && o.phase == Rejected) && (o.phase == BlueprintPhase ==> o.ok)
  {
  }

  lemma {:induction false} SubmitsFirst(e: Executor, s: Session, i: nat, n: nat)
    requires WellFormed(s.c.m) && i <= |e.plan| && UniqueIds(e.plan) && OnlyFailures(e, s.e, i)
    requires FirstPlaceable(e, s.c, i, n)
    ensures n < |e.plan| ==>
      (&& Submit(s, i).subs == s.subs + [Submission(e.plan[n].id, |s.c.log|)]
       && Submit(s, i).c == PlaceToolAt(s.c, e.plan[n].tool, e.plan[n].p).0
       && StatusOf(Submit(s, i).e, e.plan[n].id) == Submitted)
    ensures n == |e.plan| ==> Submit(s, i).subs == s.subs && Submit(s, i).c == s.c
    decreases |e.plan| - i
  {
    if i < |e.plan| {
      var step := e.plan[i];
      SameReady(e, s.e, i, i);
      RefusalChangesNothing(s.c, step.tool, step.p);
      hide PlaceToolAt, DependenciesComplete;
      if i < n {
        var t := Attempt(s, i).0;
        assert !Attempt(s, i).1 && t.c == s.c && t.subs == s.subs;
        assert OnlyFailures(e, t.e, i + 1);
        SubmitsFirst(e, t, i + 1, n);
      }
    }
  }

  /** A tick makes progress: past ready steps whose placement is refused, the first ready step whose
      blueprint can be placed is submitted; if there is none, nothing is. */
  lemma TickSubmitsFirst(s: Session, n: nat)
    requires WellFormed(s.c.m) && UniqueIds(s.e.plan)
    requires FirstPlaceable(Refresh(s.e, ActivePlaces(s.c.sites), |s.e.plan|), s.c, 0, n)
    ensures n < |s.e.plan| ==>
      (&& TickPlan(s).subs == s.subs + [Submission(s.e.plan[n].id, |s.c.log|)]
       && TickPlan(s).c == PlaceToolAt(s.c, s.e.plan[n].tool, s.e.plan[n].p).0
       && StatusOf(TickPlan(s).e, s.e.plan[n].id) == Submitted)
    ensures n == |s.e.plan| ==> TickPlan(s).subs == s.subs && TickPlan(s).c == s.c
  {
    var e := Refresh(s.e, ActivePlaces(s.c.sites), |s.e.plan|);
    SubmitsFirst(e, s.(e := e), 0, n);
  }

  /** Such a position exists unless a ready step is an erase that cancels a blueprint. */
  lemma {:induction false} FirstExists(e: Executor, c: Colony, i: nat) returns (n: nat)
    requires WellFormed(c.m) && i <= |e.plan|
    requires forall k :: i <= k < |e.plan| && Ready(e, e.plan[k]) ==> OutcomeOf(c, e.plan[k]).phase != CancelPhase
    ensures FirstPlaceable(e, c, i, n)
    decreases |e.plan| - i
  {
    hide OutcomeOf, Ready;
    if i == |e.plan| {
      n := i;
    } else {
      var step := e.plan[i];
      AcceptedHasPhase(c, step);
      if Ready(e, step) && OutcomeOf(c, step).ok {
        n := i;
      } else {
        n := FirstExists(e, c, i + 1);
      }
    }
  }

  lemma AcceptedHasPhase(c: Colony, step: PlanStep)
    requires WellFormed(c.m)
    ensures OutcomeOf(c, step).ok <==> OutcomeOf(c, step).phase != Rejected
  {
  }

  // ---- what a tick makes of each step ---------------------------------------------------------

  /** The session when the turn of step k comes, if no step before it places a blueprint. */
  function TurnOf(s: Session, k: nat): (r: Session)
    requires WellFormed(s.c.m) && k <= |s.e.plan|
    ensures WellFormed(r.c.m) && r.e.plan == s.e.plan
  {
    if k == 0 then s else Attempt(TurnOf(s, k - 1), k - 1).0
  }

  /** No step before k places a blueprint. */
  predicate Reaches(s: Session, k: nat)
    requires WellFormed(s.c.m) && k <= |s.e.plan|
  {
    k == 0 || (Reaches(s, k - 1) && !Attempt(TurnOf(s, k - 1), k - 1).1)
  }

  lemma {:induction false} SubmitResumes(s: Session, k: nat)
    requires WellFormed(s.c.m) && k <= |s.e.plan|
    ensures Reaches(s, k) ==> Submit(s, 0) == Submit(TurnOf(s, k), k)
  {
    if k > 0 { SubmitResumes(s, k - 1); }
    hide Attempt;
  }

  /** What the loop has tried so far changes neither later steps nor what is complete. */
  ghost predicate LeavesAlone(e: Executor, d: Executor, ids: set<string>) {
    && (forall id :: StatusOf(d, id) == Complete <==> StatusOf(e, id) == Complete)
    && (forall id :: id !in ids ==> StatusOf(d, id) == StatusOf(e, id))
  }

  function IdsFrom(plan: seq<PlanStep>, i: nat, n: nat): set<string>
    requires i <= n <= |plan|
  {
    set k | i <= k < n :: plan[k].id
  }

  lemma AttemptLeavesAlone(s: Session, i: nat)
    requires WellFormed(s.c.m) && i < |s.e.plan|
    ensures LeavesAlone(s.e, Attempt(s, i).0.e, {s.e.plan[i].id})
  {
    hide PlaceToolAt, DependenciesComplete;
  }

  lemma LeftAloneTwice(e: Executor, d: Executor, f: Executor, ids: set<string>, more: set<string>)
    requires LeavesAlone(e, d, ids) && LeavesAlone(d, f, more)
    ensures LeavesAlone(e, f, ids + more)
  {
  }

  lemma OneMoreId(plan: seq<PlanStep>, i: nat, k: nat, n: nat)
    requires i <= k < n <= |plan|
    ensures IdsFrom(plan, i, k + 1) == IdsFrom(plan, i, k) + {plan[k].id}
    ensures IdsFrom(plan, k, n) == {plan[k].id} + IdsFrom(plan, k + 1, n)
  {
  }

  lemma {:induction false} TurnLeavesAlone(s: Session, k: nat)
    requires WellFormed(s.c.m) && k <= |s.e.plan|
    ensures LeavesAlone(s.e, TurnOf(s, k).e, IdsFrom(s.e.plan, 0, k))
  {
    if k > 0 {
      TurnLeavesAlone(s, k - 1);
      AttemptLeavesAlone(TurnOf(s, k - 1), k - 1);
      OneMoreId(s.e.plan, 0, k - 1, k);
      hide Attempt, LeavesAlone, IdsFrom, WellFormed;
      LeftAloneTwice(s.e, TurnOf(s, k - 1).e, TurnOf(s, k).e, IdsFrom(s.e.plan, 0, k - 1), {s.e.plan[k - 1].id});
    }
  }

  lemma {:induction false} SubmitLeavesAlone(s: Session, i: nat)
    requires WellFormed(s.c.m) && i <= |s.e.plan|
    ensures LeavesAlone(s.e, Submit(s, i).e, IdsFrom(s.e.plan, i, |s.e.plan|))
    decreases |s.e.plan| - i
  {
    if i < |s.e.plan| {
      var t, rest := Attempt(s, i).0, IdsFrom(s.e.plan, i + 1, |s.e.plan|);
      AttemptLeavesAlone(s, i);
      OneMoreId(s.e.plan, i, i, |s.e.plan|);
      LeftAloneTwice(s.e, t.e, t.e, {s.e.plan[i].id}, rest);
      if !Attempt(s, i).1 {
        SubmitLeavesAlone(t, i + 1);
        hide Attempt, LeavesAlone, IdsFrom, WellFormed;
        LeftAloneTwice(s.e, t.e, Submit(t, i + 1).e, {s.e.plan[i].id}, rest);
      }
    }
    hide Attempt, LeavesAlone, IdsFrom, WellFormed;
  }

  /** If a blueprint is placed before the turn of step k, the tick ends without touching that step. */
  lemma {:induction false} EndsEarly(s: Session, k: nat)
    requires WellFormed(s.c.m) && k <= |s.e.plan| && !Reaches(s, k)
    ensures LeavesAlone(s.e, Submit(s, 0).e, IdsFrom(s.e.plan, 0, k))
  {
    hide Attempt, LeavesAlone, IdsFrom, WellFormed;
    assert k > 0;
    if Reaches(s, k - 1) {
      SubmitResumes(s, k - 1);
      TurnLeavesAlone(s, k);
    } else {
      EndsEarly(s, k - 1);
      OneMoreId(s.e.plan, 0, k - 1, k);
      MoreIds(s.e, Submit(s, 0).e, IdsFrom(s.e.plan, 0, k - 1), {s.e.plan[k - 1].id});
    }
  }

  lemma MoreIds(e: Executor, d: Executor, ids: set<string>, more: set<string>)
    requires LeavesAlone(e, d, ids)
    ensures LeavesAlone(e, d, ids + more)
  {
  }

  lemma UniqueIdIsNotAmong(plan: seq<PlanStep>, i: nat, n: nat, k: nat)
    requires UniqueIds(plan) && i <= n <= |plan| && k < |plan| && !(i <= k < n)
    ensures plan[k].id !in IdsFrom(plan, i, n)
  {
  }

  /** What becomes of step k in a tick, told from its status and those of its dependencies after the
      refresh and from how its placement fares when its turn comes. */
  function Fate(e: Executor, step: PlanStep, reached: bool, o: Outcome): Status {
    if StatusOf(e, step.id) != Pending then StatusOf(e, step.id)
    else if exists d :: d in step.dependsOn && StatusOf(e, d) != Complete then Pending
    else if !reached then Pending
    else if !o.ok then Failed
    else if o.phase == BlueprintPhase then Submitted
    else Pending
  }

  /** A tick gives each step that fate: one that waits for something stays pending, the first one
      placed is submitted and ends the tick, and one refused before that fails. */
  lemma StepAfterTick(s: Session, k: nat)
    requires WellFormed(s.c.m) && UniqueIds(s.e.plan) && k < |s.e.plan|
    ensures var t := s.(e := Refresh(s.e, ActivePlaces(s.c.sites), |s.e.plan|));
      StatusOf(TickPlan(s).e, s.e.plan[k].id) ==
        Fate(t.e, s.e.plan[k], Reaches(t, k), OutcomeOf(TurnOf(t, k).c, s.e.plan[k]))
  {
    StepAfterLoop(s.(e := Refresh(s.e, ActivePlaces(s.c.sites), |s.e.plan|)), k);
  }

  lemma StepAfterLoop(t: Session, k: nat)
    requires WellFormed(t.c.m) && UniqueIds(t.e.plan) && k < |t.e.plan|
    ensures StatusOf(Submit(t, 0).e, t.e.plan[k].id) ==
      Fate(t.e, t.e.plan[k], Reaches(t, k), OutcomeOf(TurnOf(t, k).c, t.e.plan[k]))
  {
    hide Attempt, PlaceToolAt, UniqueIds, IdsFrom, WellFormed, LeavesAlone;
    var plan := t.e.plan;
    UniqueIdIsNotAmong(plan, 0, k, k);
    UniqueIdIsNotAmong(plan, k + 1, |plan|, k);
    if !Reaches(t, k) {
      EndsEarly(t, k);
      SameFate(t.e, Submit(t, 0).e, IdsFrom(plan, 0, k), plan[k], OutcomeOf(TurnOf(t, k).c, plan[k]));
    } else {
      var turn := TurnOf(t, k);
      SubmitResumes(t, k);
      TurnLeavesAlone(t, k);
      OneAttempt(turn, k);
      SameFate(t.e, turn.e, IdsFrom(plan, 0, k), plan[k], OutcomeOf(turn.c, plan[k]));
      var tried := Attempt(turn, k);
      if !tried.1 {
        SubmitLeavesAlone(tried.0, k + 1);
        SameFate(tried.0.e, Submit(tried.0, k + 1).e, IdsFrom(plan, k + 1, |plan|), plan[k],
                 OutcomeOf(turn.c, plan[k]));
      }
    }
  }

  lemma SameFate(e: Executor, d: Executor, ids: set<string>, step: PlanStep, o: Outcome)
    requires LeavesAlone(e, d, ids) && step.id !in ids
    ensures StatusOf(d, step.id) == StatusOf(e, step.id) && Fate(d, step, true, o) == Fate(e, step, true, o)
    ensures Fate(e, step, false, o) == StatusOf(e, step.id)
  {
  }

  lemma OneAttempt(s: Session, i: nat)
    requires WellFormed(s.c.m) && i < |s.e.plan|
    ensures StatusOf(Attempt(s, i).0.e, s.e.plan[i].id) ==
      Fate(s.e, s.e.plan[i], true, OutcomeOf(s.c, s.e.plan[i]))
  {
    hide PlaceToolAt;
  }

  // ---- what is never submitted --------------------------------------------------------------

  /** Each step of the path depends on the next. */
  predicate DependencyPath(plan: seq<PlanStep>, path: seq<string>) {
    forall k :: 1 <= k < |path| ==> DependsOn(plan, path[k - 1], path[k])
  }

  predicate DependsOn(plan: seq<PlanStep>, a: string, b: string) {
    exists n :: 0 <= n < |plan| && plan[n].id == a && b in plan[n].dependsOn
  }

  /** Along a dependency path submissions lie ever earlier. */
  lemma {:induction false} PathGoesBack(plan: seq<PlanStep>, subs: seq<Submission>, path: seq<string>, i: nat)
      returns (j: nat)
    requires UniqueIds(plan) && LinearExtension(plan, subs)
    requires |path| > 0 && DependencyPath(plan, path) && i < |subs| && subs[i].id == path[0]
    ensures j < |subs| && subs[j].id == path[|path| - 1] && j + |path| - 1 <= i
    decreases |path|
  {
    if |path| == 1 {
      j := i;
    } else {
      assert DependsOn(plan, path[0], path[1]);
      var m :| 0 <= m < |plan| && plan[m].id == path[0] && path[1] in plan[m].dependsOn;
      assert ComesAfter(plan, subs, i);
      var n :| 0 <= n < |plan| && plan[n].id == subs[i].id
            && forall d :: d in plan[n].dependsOn ==> WasSubmitted(subs[..i], d);
      assert m == n;
      var k :| 0 <= k < |subs[..i]| && subs[..i][k].id == path[1];
      assert forall q :: 1 <= q < |path[1..]| ==> DependsOn(plan, path[1..][q - 1], path[1..][q]) by {
        forall q | 1 <= q < |path[1..]| ensures DependsOn(plan, path[1..][q - 1], path[1..][q]) {
          assert DependsOn(plan, path[(q + 1) - 1], path[q + 1]);
        }
      }
      j := PathGoesBack(plan, subs, path[1..], k);
    }
  }

  /** A step on a dependency cycle is never submitted. */
  lemma CyclesAreNeverSubmitted(s: Session, path: seq<string>)
    requires InOrder(s) && |path| >= 2 && DependencyPath(s.e.plan, path) && path[0] == path[|path| - 1]
    ensures !WasSubmitted(s.subs, path[0])
  {
    if WasSubmitted(s.subs, path[0]) {
      var i :| 0 <= i < |s.subs| && s.subs[i].id == path[0];
      var j := PathGoesBack(s.e.plan, s.subs, path, i);
    }
  }

  /** Nor is a step that depends, however indirectly, on one that has failed, is still pending or
      does not exist. */
  lemma BlockedIsNeverSubmitted(s: Session, path: seq<string>)
    requires InOrder(s) && |path| >= 1 && DependencyPath(s.e.plan, path)
    requires StatusOf(s.e, path[|path| - 1]) == Failed || StatusOf(s.e, path[|path| - 1]) == Pending
    ensures !WasSubmitted(s.subs, path[0])
  {
    if WasSubmitted(s.subs, path[0]) {
      var i :| 0 <= i < |s.subs| && s.subs[i].id == path[0];
      var j := PathGoesBack(s.e.plan, s.subs, path, i);
      assert WasSubmitted(s.subs, path[|path| - 1]);
    }
  }

  // ---- runs --------------------------------------------------------------------------------------

  datatype Move = ExecutorTick | World(op: Op)

  function Perform(s: Session, move: Move): (r: Session)
    requires WellFormed(s.c.m) && s.c.m.width > 0
    ensures WellFormed(r.c.m) && r.c.m.width == s.c.m.width && r.c.m.height == s.c.m.height
  {
    match move
    case ExecutorTick => TickPlan(s)
    case World(op) => s.(c := Step(s.c, op))
  }

  function PerformAll(s: Session, moves: seq<Move>): (r: Session)
    requires WellFormed(s.c.m) && s.c.m.width > 0
    ensures WellFormed(r.c.m) && r.c.m.width == s.c.m.width && r.c.m.height == s.c.m.height
  {
    if moves == [] then s else Perform(PerformAll(s, moves[..|moves| - 1]), moves[|moves| - 1])
  }

  function Loaded(plan: seq<PlanStep>): Executor {
    Executor(plan, map step | step in plan :: step.id := Pending)
  }

  /** Whatever the world does between ticks, submissions over a run extend the dependency order. */
  lemma {:induction false} RunKeepsOrder(plan: seq<PlanStep>, c: Colony, moves: seq<Move>)
    requires UniqueIds(plan) && WellFormed(c.m) && c.m.width > 0
    ensures InOrder(PerformAll(Session(Loaded(plan), c, []), moves))
  {
    if moves != [] {
      var front := moves[..|moves| - 1];
      RunKeepsOrder(plan, c, front);
      var t := PerformAll(Session(Loaded(plan), c, []), front);
      match moves[|moves| - 1]
      case ExecutorTick => TickKeepsOrder(t);
      case World(op) => OrderIgnoresColony(t, Step(t.c, op));
    }
  }

  /** Over any run statuses only move forward; in particular what has failed or is complete stays so. */
  lemma {:induction false} RunAdvances(s: Session, moves: seq<Move>)
    requires WellFormed(s.c.m) && s.c.m.width > 0 && InOrder(s)
    ensures InOrder(PerformAll(s, moves)) && AllAdvance(s.e, PerformAll(s, moves).e)
  {
    if moves != [] {
      var t := PerformAll(s, moves[..|moves| - 1]);
      RunAdvances(s, moves[..|moves| - 1]);
      match moves[|moves| - 1]
      case ExecutorTick =>
        TickKeepsOrder(t);
        AdvancesTransitively(s.e, t.e, TickPlan(t).e);
      case World(op) => OrderIgnoresColony(t, Step(t.c, op));
    }
    hide InOrder, AllAdvance, TickPlan, Step;
  }

  /** A step that is refused when its turn comes has failed for good: after that tick and after any
      moves that follow, and it is never submitted. */
  lemma RefusedFailsForGood(s: Session, k: nat, moves: seq<Move>)
    requires WellFormed(s.c.m) && s.c.m.width > 0 && InOrder(s) && k < |s.e.plan|
    requires var t := s.(e := Refresh(s.e, ActivePlaces(s.c.sites), |s.e.plan|));
      && Reaches(t, k) && StatusOf(t.e, s.e.plan[k].id) == Pending
      && (forall d :: d in s.e.plan[k].dependsOn ==> StatusOf(t.e, d) == Complete)
      && !OutcomeOf(TurnOf(t, k).c, s.e.plan[k]).ok
    ensures var r := PerformAll(TickPlan(s), moves);
      StatusOf(r.e, s.e.plan[k].id) == Failed && !WasSubmitted(r.subs, s.e.plan[k].id)
  {
    StepAfterTick(s, k);
    TickKeepsOrder(s);
    RunAdvances(TickPlan(s), moves);
    hide TickPlan, Reaches, TurnOf, OutcomeOf;
  }
}
