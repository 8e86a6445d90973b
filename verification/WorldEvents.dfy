/** world/events.py: the event queue, its per-type caps, and the pressure each tick writes. */
module WorldEvents {
  import opened Wrappers
  import opened Tiles
  import opened Rounding
  import Sums

  datatype EventType = BanditRaid | AnimalMigration | TradeCaravan

  datatype Status = Prepare | Active | Resolve | Cooldown

  /** The payload fields that bear on pressure. */
  datatype Payload = Payload(
    basePressure: Option<real>, pressure: Option<real>,
    targetTile: Option<Point>, targetTiles: seq<Point>)

  datatype WorldEvent = WorldEvent(
    id: nat, kind: EventType, status: Status, elapsed: real, duration: real, intensity: real, payload: Payload)

  datatype EventState = EventState(queue: seq<WorldEvent>, active: seq<WorldEvent>, raidsRepelled: nat, nextId: nat)

  /** What a tick is given besides the state: the anchors picked for raids and for wildlife, whether
      there is a herbivore list, and the weather's hazard factor. */
  datatype Env = Env(depot: Option<Point>, wild: Option<Point>, herbivores: bool, hazard: real)

  type Caps = map<EventType, int>

  function Cap(caps: Caps, kind: EventType): nat {
    var cap := if kind in caps then caps[kind] else 9999;
    if cap < 0 then 0 else cap
  }

  // ---- queue and caps ------------------------------------------------------------------

  function Enqueue(s: EventState, kind: EventType, payload: Payload, duration: real, intensity: real): EventState {
    s.(queue := s.queue + [WorldEvent(s.nextId, kind, Prepare, 0.0, duration, intensity, payload)],
       nextId := s.nextId + 1)
  }

  function OfKind(events: seq<WorldEvent>, kind: EventType): seq<nat> {
    if events == [] then []
    else if events[|events| - 1].kind == kind then OfKind(events[..|events| - 1], kind) + [events[|events| - 1].id]
    else OfKind(events[..|events| - 1], kind)
  }

  /** Moves queued events to the active list in order, as long as their kind is below its cap;
      `kept` is what stays queued. */
  function Drain(s: EventState, caps: Caps, n: nat): (r: (seq<WorldEvent>, seq<WorldEvent>))
    requires n <= |s.queue|
  {
    if n == 0 then (s.active, [])
    else
      var (active, kept) := Drain(s, caps, n - 1);
      var evt := s.queue[n - 1];
      if |OfKind(active, evt.kind)| >= Cap(caps, evt.kind) then (active, kept + [evt])
      else (active + [evt.(status := Active)], kept)
  }

  function Drained(s: EventState, caps: Caps): EventState {
    var (active, kept) := Drain(s, caps, |s.queue|);
    s.(active := active, queue := kept)
  }

  lemma OfKindSnoc(a: seq<WorldEvent>, e: WorldEvent, kind: EventType)
    ensures OfKind(a + [e], kind) == if e.kind == kind then OfKind(a, kind) + [e.id] else OfKind(a, kind)
  {
    assert (a + [e])[..|a|] == a;
  }

  /** Per kind, active followed by kept is active followed by what was queued, and the split point
      is as far right as the cap allows. */
  lemma {:induction false} DrainIsFifo(s: EventState, caps: Caps, n: nat, kind: EventType)
    requires n <= |s.queue| && |OfKind(s.active, kind)| <= Cap(caps, kind)
    ensures var (active, kept) := Drain(s, caps, n);
      Fifo(OfKind(s.active, kind), OfKind(s.queue[..n], kind), OfKind(active, kind), OfKind(kept, kind),
           Cap(caps, kind))
  {
    if n == 0 {
      assert OfKind(s.queue[..0], kind) == [];
    } else {
      DrainIsFifo(s, caps, n - 1, kind);
      var (active, kept) := Drain(s, caps, n - 1);
      var evt := s.queue[n - 1];
      assert s.queue[..n] == s.queue[..n - 1] + [evt];
      OfKindSnoc(s.queue[..n - 1], evt, kind);
      OfKindSnoc(kept, evt, kind);
      OfKindSnoc(active, evt.(status := Active), kind);
      var blocked := |OfKind(active, evt.kind)| >= Cap(caps, evt.kind);
      assert Drain(s, caps, n) == if blocked then (active, kept + [evt]) else (active + [evt.(status := Active)], kept);
      hide Drain, OfKind, Cap, Fifo;
      FifoStep(OfKind(s.active, kind), OfKind(s.queue[..n - 1], kind), OfKind(active, kind), OfKind(kept, kind),
               evt.id, Cap(caps, kind));
    }
  }

  /** Active and kept ids are the old active and the queued ids, cut as late as the cap allows. */
  predicate Fifo(active0: seq<nat>, queue: seq<nat>, active: seq<nat>, kept: seq<nat>, cap: nat) {
    active + kept == active0 + queue && |active| <= cap && (kept != [] ==> |active| == cap)
  }

  /** One more id at the end of the queue goes to the end of what is kept, or, if nothing is kept, to
      the end of what is active. */
  lemma FifoStep(active0: seq<nat>, queue: seq<nat>, active: seq<nat>, kept: seq<nat>, id: nat, cap: nat)
    requires Fifo(active0, queue, active, kept, cap)
    ensures |active| >= cap ==> Fifo(active0, queue + [id], active, kept + [id], cap)
    ensures |active| < cap ==> Fifo(active0, queue + [id], active + [id], kept, cap)
  {
    assert active + (kept + [id]) == active + kept + [id];
    assert active0 + (queue + [id]) == active0 + queue + [id];
  }

  // ---- per-event work --------------------------------------------------------------------

  function Clamp(v: real, lo: real, hi: real): real {
    var low := if hi < v then hi else v;
    if lo > low then lo else low
  }

  /** Pressure is reset from its base every tick; the first base is whatever the payload offers. */
  function Rehydrated(e: WorldEvent): WorldEvent {
    var base := Round3(
      if e.payload.basePressure.Some? then e.payload.basePressure.value
      else if e.payload.pressure.Some? then e.payload.pressure.value
      else e.intensity);
    e.(payload := e.payload.(basePressure := Some(base), pressure := Some(base)))
  }

  function RaidPressure(e: WorldEvent, env: Env): real {
    Round3(Clamp(e.intensity * 0.54 + (env.hazard - 1.0) + 0.22, 0.35, 2.6))
  }

  function MigrationPressure(e: WorldEvent, env: Env): real {
    Round3(Clamp(e.intensity * 0.42 + (if env.hazard - 1.0 > 0.0 then env.hazard - 1.0 else 0.0) * 0.5, 0.22, 1.9))
  }

  function WithPressure(e: WorldEvent, p: real): WorldEvent {
    e.(payload := e.payload.(basePressure := Some(p), pressure := Some(p)))
  }

  function Handled(e: WorldEvent, env: Env): WorldEvent {
    match e.kind
    case BanditRaid =>
      var aimed := if env.depot.None? then e
                   else e.(payload := e.payload.(targetTile := env.depot, targetTiles := [env.depot.value]));
      WithPressure(aimed, RaidPressure(e, env))
    case AnimalMigration =>
      if env.wild.None? || !env.herbivores then e
      else WithPressure(e.(payload := e.payload.(targetTile := env.wild)), MigrationPressure(e, env))
    case TradeCaravan => e
  }

  predicate Resolves(e: WorldEvent, dt: real) {
    e.status == Active && e.elapsed + dt >= e.duration
  }

  function Aged(e: WorldEvent, dt: real): WorldEvent {
    e.(elapsed := e.elapsed + dt, status := if Resolves(e, dt) then Resolve else e.status)
  }

  /** One active event's share of a tick, before contested tiles are looked at. */
  function Worked(e: WorldEvent, env: Env, dt: real): WorldEvent {
    Aged(Handled(Rehydrated(e), env), dt)
  }

  // ---- contested tiles ------------------------------------------------------------------------

  /** The tiles an event names, a tile named twice counted twice. */
  function TilesOf(e: WorldEvent): seq<Point> {
    (if e.payload.targetTile.Some? then [e.payload.targetTile.value] else []) + e.payload.targetTiles
  }

  function AllTiles(events: seq<WorldEvent>): seq<Point> {
    if events == [] then [] else AllTiles(events[..|events| - 1]) + TilesOf(events[|events| - 1])
  }

  /** Distinct tiles in the order in which they are first named. */
  function FirstNamed(tiles: seq<Point>): seq<Point> {
    if tiles == [] then []
    else
      var front := FirstNamed(tiles[..|tiles| - 1]);
      if tiles[|tiles| - 1] in tiles[..|tiles| - 1] then front else front + [tiles[|tiles| - 1]]
  }

  function Count(tiles: seq<Point>, t: Point): nat {
    multiset(tiles)[t]
  }

  /** The event's pressure after the contested tiles among `order` have been applied in turn. */
  function Contested(e: WorldEvent, all: seq<Point>, order: seq<Point>): WorldEvent {
    if order == [] then e
    else
      var d := Contested(e, all, order[..|order| - 1]);
      var t := order[|order| - 1];
      if Count(all, t) > 1 && t in TilesOf(e) && e.kind != TradeCaravan then
        var base := if e.payload.basePressure.Some? then e.payload.basePressure.value else e.intensity;
        d.(payload := d.payload.(pressure := Some(Round3(base + 0.12 * (Count(all, t) - 1) as real))))
      else d
  }

  function WorkAll(events: seq<WorldEvent>, env: Env, dt: real): (r: seq<WorldEvent>)
    ensures |r| == |events|
    ensures forall i :: 0 <= i < |events| ==> r[i] == Worked(events[i], env, dt)
  {
    if events == [] then [] else WorkAll(events[..|events| - 1], env, dt) + [Worked(events[|events| - 1], env, dt)]
  }

  function ContestAll(events: seq<WorldEvent>, all: seq<Point>): (r: seq<WorldEvent>)
    ensures |r| == |events|
    ensures forall i :: 0 <= i < |events| ==> r[i] == Contested(events[i], all, FirstNamed(all))
  {
    if events == [] then []
    else ContestAll(events[..|events| - 1], all) + [Contested(events[|events| - 1], all, FirstNamed(all))]
  }

  function RaidsResolving(events: seq<WorldEvent>, dt: real): nat {
    if events == [] then 0
    else
      var last := if events[|events| - 1].kind == BanditRaid && Resolves(events[|events| - 1], dt) then 1 else 0;
      RaidsResolving(events[..|events| - 1], dt) + last
  }

  /** Events are dropped only from the cooldown status. */
  function Remaining(events: seq<WorldEvent>): seq<WorldEvent> {
    if events == [] then []
    else
      var e := events[|events| - 1];
      if e.status != Cooldown || e.elapsed < e.duration + 4.0 then Remaining(events[..|events| - 1]) + [e]
      else Remaining(events[..|events| - 1])
  }

  function Tick(s: EventState, caps: Caps, env: Env, dt: real): EventState {
    var d := Drained(s, caps);
    var worked := WorkAll(d.active, env, dt);
    d.(active := Remaining(ContestAll(worked, AllTiles(worked))),
       raidsRepelled := d.raidsRepelled + RaidsResolving(d.active, dt))
  }

  // ---- runs --------------------------------------------------------------------------------------

  datatype Op = Queue(kind: EventType, payload: Payload, duration: real, intensity: real) | TickOp(env: Env, dt: real)

  function Step(s: EventState, caps: Caps, op: Op): EventState {
    match op
    case Queue(kind, payload, duration, intensity) => Enqueue(s, kind, payload, duration, intensity)
    case TickOp(env, dt) => Tick(s, caps, env, dt)
  }

  function Run(caps: Caps, ops: seq<Op>): EventState {
    if ops == [] then EventState([], [], 0, 1) else Step(Run(caps, ops[..|ops| - 1]), caps, ops[|ops| - 1])
  }

  /** The ids handed out to events of a kind over a run, in order. */
  function Enqueued(ops: seq<Op>, kind: EventType): seq<nat> {
    if ops == [] then []
    else
      var front, op := ops[..|ops| - 1], ops[|ops| - 1];
      if op.Queue? && op.kind == kind then Enqueued(front, kind) + [1 + Queued(front)] else Enqueued(front, kind)
  }

  function Queued(ops: seq<Op>): nat {
    if ops == [] then 0 else Queued(ops[..|ops| - 1]) + (if ops[|ops| - 1].Queue? then 1 else 0)
  }

  function ResolvedRaids(events: seq<WorldEvent>): nat {
    if events == [] then 0
    else
      var last := if events[|events| - 1].kind == BanditRaid && events[|events| - 1].status == Resolve then 1 else 0;
      ResolvedRaids(events[..|events| - 1]) + last
  }

  ghost predicate Lively(s: EventState) {
    forall i :: 0 <= i < |s.active| ==> s.active[i].status == Active || s.active[i].status == Resolve
  }

  lemma ContestKeepsRest(e: WorldEvent, all: seq<Point>, order: seq<Point>)
    ensures Contested(e, all, order) == e.(payload := e.payload.(pressure := Contested(e, all, order).payload.pressure))
  {
    if order != [] { ContestKeepsRest(e, all, order[..|order| - 1]); }
  }

  lemma WorkKeepsIdentity(e: WorldEvent, env: Env, dt: real)
    ensures var w := Worked(e, env, dt);
      w.id == e.id && w.kind == e.kind && w.intensity == e.intensity && w.duration == e.duration
      && w.status == (if Resolves(e, dt) then Resolve else e.status)
  {
  }

  /** What the whole of a tick does to one active event that is not in cooldown. */
  function Ticked(e: WorldEvent, env: Env, dt: real, all: seq<Point>): WorldEvent {
    Contested(Worked(e, env, dt), all, FirstNamed(all))
  }

  lemma {:induction false} NothingRemains(events: seq<WorldEvent>)
    requires forall i :: 0 <= i < |events| ==> events[i].status != Cooldown
    ensures Remaining(events) == events
  {
    if events != [] { NothingRemains(events[..|events| - 1]); }
  }

  /** No event is ever in cooldown, so a tick never drops one: the active list only grows. */
  lemma TickKeepsAll(s: EventState, caps: Caps, env: Env, dt: real)
    requires Lively(s)
    ensures var d, r := Drained(s, caps), Tick(s, caps, env, dt);
      var all := AllTiles(WorkAll(d.active, env, dt));
      && |r.active| == |d.active| && r.queue == d.queue && Lively(d) && Lively(r)
      && forall i :: 0 <= i < |d.active| ==> r.active[i] == Ticked(d.active[i], env, dt, all)
  {
    var d := Drained(s, caps);
    DrainIsLively(s, caps, |s.queue|);
    var worked := WorkAll(d.active, env, dt);
    var contested := ContestAll(worked, AllTiles(worked));
    forall i | 0 <= i < |contested| ensures contested[i].status == Active || contested[i].status == Resolve {
      ContestKeepsRest(worked[i], AllTiles(worked), FirstNamed(AllTiles(worked)));
      WorkKeepsIdentity(d.active[i], env, dt);
    }
    NothingRemains(contested);
  }

  lemma {:induction false} DrainIsLively(s: EventState, caps: Caps, n: nat)
    requires n <= |s.queue| && Lively(s)
    ensures Lively(s.(active := Drain(s, caps, n).0))
  {
    if n > 0 { DrainIsLively(s, caps, n - 1); }
  }

  lemma {:induction false} SameIds(a: seq<WorldEvent>, b: seq<WorldEvent>, kind: EventType)
    requires |a| == |b| && forall i :: 0 <= i < |a| ==> a[i].id == b[i].id && a[i].kind == b[i].kind
    ensures OfKind(a, kind) == OfKind(b, kind)
  {
    if a != [] { SameIds(a[..|a| - 1], b[..|b| - 1], kind); }
  }

  lemma {:induction false} ResolvingRaidsAreCounted(a: seq<WorldEvent>, b: seq<WorldEvent>, dt: real)
    requires |a| == |b| && forall i :: 0 <= i < |a| ==> a[i].kind == b[i].kind
    requires forall i :: 0 <= i < |a| ==> b[i].status == (if Resolves(a[i], dt) then Resolve else a[i].status)
    ensures ResolvedRaids(b) == ResolvedRaids(a) + RaidsResolving(a, dt)
  {
    if a != [] { ResolvingRaidsAreCounted(a[..|a| - 1], b[..|b| - 1], dt); }
  }

  lemma {:induction false} DrainAddsNoResolved(s: EventState, caps: Caps, n: nat)
    requires n <= |s.queue|
    ensures ResolvedRaids(Drain(s, caps, n).0) == ResolvedRaids(s.active)
  {
    if n > 0 {
      DrainAddsNoResolved(s, caps, n - 1);
      var active := Drain(s, caps, n - 1).0;
      var evt := s.queue[n - 1].(status := Active);
      assert (active + [evt])[..|active|] == active;
    }
  }

  /** What every run keeps: caps hold, each kind activates first in, first out, nothing is lost or
      duplicated, and the raid counter counts the resolved raids. */
  ghost predicate Keeps(s: EventState, caps: Caps, ops: seq<Op>) {
    && Lively(s) && s.nextId == 1 + Queued(ops)
    && s.raidsRepelled == ResolvedRaids(s.active)
    && forall kind :: KeepsKind(s, caps, ops, kind)
  }

  ghost predicate KeepsKind(s: EventState, caps: Caps, ops: seq<Op>, kind: EventType) {
    && |OfKind(s.active, kind)| <= Cap(caps, kind)
    && OfKind(s.active, kind) + OfKind(s.queue, kind) == Enqueued(ops, kind)
  }

  lemma TickKeepsKind(s: EventState, caps: Caps, env: Env, dt: real, kind: EventType)
    requires Lively(s) && |OfKind(s.active, kind)| <= Cap(caps, kind)
    ensures var r := Tick(s, caps, env, dt);
      && OfKind(r.active, kind) + OfKind(r.queue, kind) == OfKind(s.active, kind) + OfKind(s.queue, kind)
      && |OfKind(r.active, kind)| <= Cap(caps, kind)
      && (OfKind(r.queue, kind) != [] ==> |OfKind(r.active, kind)| == Cap(caps, kind))
  {
    var d, r := Drained(s, caps), Tick(s, caps, env, dt);
    DrainIsFifo(s, caps, |s.queue|, kind);
    assert s.queue[..|s.queue|] == s.queue;
    TickKeepsAll(s, caps, env, dt);
    var all := AllTiles(WorkAll(d.active, env, dt));
    forall i | 0 <= i < |d.active| ensures r.active[i].id == d.active[i].id && r.active[i].kind == d.active[i].kind {
      ContestKeepsRest(Worked(d.active[i], env, dt), all, FirstNamed(all));
      WorkKeepsIdentity(d.active[i], env, dt);
    }
    SameIds(r.active, d.active, kind);
  }

  lemma TickCountsRaids(s: EventState, caps: Caps, env: Env, dt: real)
    requires Lively(s) && s.raidsRepelled == ResolvedRaids(s.active)
    ensures Tick(s, caps, env, dt).raidsRepelled == ResolvedRaids(Tick(s, caps, env, dt).active)
  {
    var d, r := Drained(s, caps), Tick(s, caps, env, dt);
    DrainAddsNoResolved(s, caps, |s.queue|);
    TickKeepsAll(s, caps, env, dt);
    var all := AllTiles(WorkAll(d.active, env, dt));
    forall i | 0 <= i < |d.active|
      ensures r.active[i].kind == d.active[i].kind
      ensures r.active[i].status == (if Resolves(d.active[i], dt) then Resolve else d.active[i].status)
    {
      ContestKeepsRest(Worked(d.active[i], env, dt), all, FirstNamed(all));
      WorkKeepsIdentity(d.active[i], env, dt);
    }
    ResolvingRaidsAreCounted(d.active, r.active, dt);
  }

  lemma EnqueuedSnoc(ops: seq<Op>, op: Op, k: EventType)
    requires op.Queue?
    ensures Queued(ops + [op]) == Queued(ops) + 1
    ensures Enqueued(ops + [op], k) == if op.kind == k then Enqueued(ops, k) + [1 + Queued(ops)] else Enqueued(ops, k)
  {
    assert (ops + [op])[..|ops|] == ops;
  }

  lemma EnqueueKeeps(s: EventState, caps: Caps, ops: seq<Op>, op: Op)
    requires Keeps(s, caps, ops) && op.Queue?
    ensures Keeps(Step(s, caps, op), caps, ops + [op])
  {
    hide OfKind, Cap, Enqueued, Queued, ResolvedRaids, Tick;
    var r := Step(s, caps, op);
    var e := WorldEvent(s.nextId, op.kind, Prepare, 0.0, op.duration, op.intensity, op.payload);
    assert r.queue == s.queue + [e];
    EnqueuedSnoc(ops, op, op.kind);
    forall k ensures KeepsKind(r, caps, ops + [op], k) {
      assert KeepsKind(s, caps, ops, k);
      OfKindSnoc(s.queue, e, k);
      EnqueuedSnoc(ops, op, k);
      assert OfKind(s.active, k) + (OfKind(s.queue, k) + [e.id]) == OfKind(s.active, k) + OfKind(s.queue, k) + [e.id];
    }
  }

  lemma TickKeeps(s: EventState, caps: Caps, ops: seq<Op>, op: Op)
    requires Keeps(s, caps, ops) && op.TickOp?
    ensures Keeps(Step(s, caps, op), caps, ops + [op])
  {
    hide Tick, OfKind, Cap, ResolvedRaids, Lively, Drained, Enqueued;
    var r := Tick(s, caps, op.env, op.dt);
    TickKeepsAll(s, caps, op.env, op.dt);
    TickCountsRaids(s, caps, op.env, op.dt);
    TickIsNotQueued(s, caps, ops, op);
    forall k ensures KeepsKind(r, caps, ops + [op], k) {
      assert KeepsKind(s, caps, ops, k);
      TickKeepsKind(s, caps, op.env, op.dt, k);
    }
  }

  lemma TickIsNotQueued(s: EventState, caps: Caps, ops: seq<Op>, op: Op)
    requires op.TickOp?
    ensures Queued(ops + [op]) == Queued(ops) && Tick(s, caps, op.env, op.dt).nextId == s.nextId
    ensures forall k :: Enqueued(ops + [op], k) == Enqueued(ops, k)
  {
    assert (ops + [op])[..|ops|] == ops;
  }

  lemma StartKeeps(caps: Caps)
    ensures Keeps(EventState([], [], 0, 1), caps, [])
  {
  }

  lemma {:induction false} RunKeeps(caps: Caps, ops: seq<Op>)
    ensures Keeps(Run(caps, ops), caps, ops)
  {
    hide Keeps, Step;
    if ops == [] {
      StartKeeps(caps);
    } else {
      var front, op := ops[..|ops| - 1], ops[|ops| - 1];
      RunKeeps(caps, front);
      var s := Run(caps, front);
      assert front + [op] == ops && Run(caps, ops) == Step(s, caps, op);
      if op.Queue? {
        EnqueueKeeps(s, caps, front, op);
      } else {
        TickKeeps(s, caps, front, op);
      }
    }
  }

  /** Taken together the queue and the active list hold exactly the events enqueued. */
  lemma NothingLost(caps: Caps, ops: seq<Op>, kind: EventType)
    ensures multiset(OfKind(Run(caps, ops).active, kind)) + multiset(OfKind(Run(caps, ops).queue, kind)) ==
        multiset(Enqueued(ops, kind))
  {
    RunKeeps(caps, ops);
    assert KeepsKind(Run(caps, ops), caps, ops, kind);
  }

  /** After a tick exactly the first events of each kind, as many as the cap allows, are or have been
      active: since none is ever dropped, a kind at its cap stays there. */
  lemma ActiveAreTheFirst(caps: Caps, ops: seq<Op>, kind: EventType)
    requires ops != [] && ops[|ops| - 1].TickOp?
    ensures var all := Enqueued(ops, kind);
      OfKind(Run(caps, ops).active, kind) == all[..if |all| < Cap(caps, kind) then |all| else Cap(caps, kind)]
  {
    var front := ops[..|ops| - 1];
    RunKeeps(caps, front);
    RunKeeps(caps, ops);
    assert KeepsKind(Run(caps, front), caps, front, kind) && KeepsKind(Run(caps, ops), caps, ops, kind);
    TickKeepsKind(Run(caps, front), caps, ops[|ops| - 1].env, ops[|ops| - 1].dt, kind);
  }

  /** A kind whose cap is none or less never activates. */
  lemma ClosedKindNeverActivates(caps: Caps, ops: seq<Op>, kind: EventType)
    requires kind in caps && caps[kind] <= 0
    ensures OfKind(Run(caps, ops).active, kind) == []
  {
    RunKeeps(caps, ops);
    assert KeepsKind(Run(caps, ops), caps, ops, kind);
  }

  /** A kind with room for all its events has them all active after a tick; without a cap of its own there
      is room for 9999. */
  lemma AmpleCapActivatesAll(caps: Caps, ops: seq<Op>, kind: EventType)
    requires ops != [] && ops[|ops| - 1].TickOp?
    requires |Enqueued(ops, kind)| <= if kind in caps then caps[kind] else 9999
    ensures OfKind(Run(caps, ops).active, kind) == Enqueued(ops, kind)
  {
    ActiveAreTheFirst(caps, ops, kind);
    hide Run, OfKind;
  }

  // ---- how old an event is, and when it resolves -----------------------------------------------------

  /** The time that the ticks among the operations take. */
  function TimeOf(ops: seq<Op>): real {
    if ops == [] then 0.0
    else TimeOf(ops[..|ops| - 1]) + (if ops[|ops| - 1].TickOp? then ops[|ops| - 1].dt else 0.0)
  }

  /** The tick that activated the i-th active event. */
  function Born(caps: Caps, ops: seq<Op>, i: nat): (b: nat)
    requires i < |Run(caps, ops).active|
    ensures b < |ops|
  {
    var front := ops[..|ops| - 1];
    if i < |Run(caps, front).active| then Born(caps, front, i) else |ops| - 1
  }

  /** At some tick from the b-th operation on, the time since then had reached the duration. */
  predicate RanOut(ops: seq<Op>, b: nat, duration: real)
    requires b <= |ops|
  {
    exists m :: b < m <= |ops| && ops[m - 1].TickOp? && TimeOf(ops[b..m]) >= duration
  }

  /** The event is as some operation queued it, but for its progress and its payload. */
  predicate AsQueued(ops: seq<Op>, e: WorldEvent) {
    exists n :: 0 <= n < |ops| && IsQueuedBy(ops, n, e)
  }

  predicate IsQueuedBy(ops: seq<Op>, n: nat, e: WorldEvent)
    requires n < |ops|
  {
    && ops[n].Queue? && e.id == 1 + Queued(ops[..n]) && e.kind == ops[n].kind
    && e.duration == ops[n].duration && e.intensity == ops[n].intensity
  }

  /** What a run says about an active event: when it was activated, how old it is and whether it has
      run out. */
  ghost predicate Ages(caps: Caps, ops: seq<Op>, i: nat)
    requires i < |Run(caps, ops).active|
  {
    var e, b := Run(caps, ops).active[i], Born(caps, ops, i);
    && ops[b].TickOp? && AsQueued(ops, e)
    && e.elapsed == TimeOf(ops[b..])
    && e.status == if RanOut(ops, b, e.duration) then Resolve else Active
  }

  ghost predicate AllAge(caps: Caps, ops: seq<Op>) {
    forall i :: 0 <= i < |Run(caps, ops).active| ==> Ages(caps, ops, i)
  }

  ghost predicate FreshQueue(s: EventState, ops: seq<Op>) {
    forall q :: 0 <= q < |s.queue| ==>
      s.queue[q].status == Prepare && s.queue[q].elapsed == 0.0 && AsQueued(ops, s.queue[q])
  }

  /** A drain leaves active events where they are; every other one comes from the queue. */
  lemma {:induction false} DrainSources(s: EventState, caps: Caps, n: nat)
    requires n <= |s.queue|
    ensures var (active, kept) := Drain(s, caps, n);
      && s.active <= active
      && (forall j :: |s.active| <= j < |active| ==>
            exists q :: 0 <= q < n && active[j] == s.queue[q].(status := Active))
      && (forall j :: 0 <= j < |kept| ==> exists q :: 0 <= q < n && kept[j] == s.queue[q])
  {
    if n > 0 {
      DrainSources(s, caps, n - 1);
      hide OfKind, Cap;
    }
  }

  /** One tick adds its time to an event, and resolves it if that reaches its duration. */
  lemma TickAges(s: EventState, caps: Caps, env: Env, dt: real, i: nat)
    requires Lively(s) && i < |Tick(s, caps, env, dt).active|
    ensures var r := Tick(s, caps, env, dt).active[i];
      if i < |s.active| then Older(s.active[i], r, dt)
      else exists q :: 0 <= q < |s.queue| && Older(s.queue[q].(status := Active), r, dt)
  {
    var d := Drained(s, caps);
    TickKeepsAll(s, caps, env, dt);
    DrainSources(s, caps, |s.queue|);
    DrainIsLively(s, caps, |s.queue|);
    var all := AllTiles(WorkAll(d.active, env, dt));
    EventAges(d.active[i], env, dt, all);
    hide Tick, WorkAll, AllTiles, Drain, Ticked;
    if i < |s.active| {
      assert d.active[i] == s.active[i];
    } else {
      var q :| 0 <= q < |s.queue| && d.active[i] == s.queue[q].(status := Active);
    }
  }

  /** The event a tick of dt later. */
  predicate Older(e: WorldEvent, r: WorldEvent, dt: real) {
    && r.id == e.id && r.kind == e.kind && r.duration == e.duration && r.intensity == e.intensity
    && r.elapsed == e.elapsed + dt
    && r.status == (if e.status == Active && e.elapsed + dt >= e.duration then Resolve else e.status)
  }

  lemma EventAges(e: WorldEvent, env: Env, dt: real, all: seq<Point>)
    ensures Older(e, Ticked(e, env, dt, all), dt)
  {
    ContestKeepsRest(Worked(e, env, dt), all, FirstNamed(all));
    hide Contested, Round3, RaidPressure, MigrationPressure, FirstNamed;
  }

  lemma QueuedBefore(ops: seq<Op>, op: Op, e: WorldEvent)
    requires AsQueued(ops, e)
    ensures AsQueued(ops + [op], e)
  {
    var n :| 0 <= n < |ops| && IsQueuedBy(ops, n, e);
    assert (ops + [op])[..n] == ops[..n];
    assert IsQueuedBy(ops + [op], n, e);
  }

  lemma TimeSnoc(ops: seq<Op>, op: Op, b: nat)
    requires b <= |ops|
    ensures TimeOf((ops + [op])[b..]) == TimeOf(ops[b..]) + (if op.TickOp? then op.dt else 0.0)
    ensures forall m :: b <= m <= |ops| ==> (ops + [op])[b..m] == ops[b..m]
  {
    assert (ops + [op])[b..] == ops[b..] + [op];
    assert (ops[b..] + [op])[..|ops[b..]|] == ops[b..];
  }

  lemma RanOutSnoc(ops: seq<Op>, op: Op, b: nat, duration: real)
    requires b <= |ops|
    ensures RanOut(ops + [op], b, duration) <==>
      RanOut(ops, b, duration) || (op.TickOp? && TimeOf((ops + [op])[b..]) >= duration)
  {
    var more := ops + [op];
    TimeSnoc(ops, op, b);
    assert more[b..|more|] == more[b..];
    if RanOut(ops, b, duration) {
      var m :| b < m <= |ops| && ops[m - 1].TickOp? && TimeOf(ops[b..m]) >= duration;
      assert more[b..m] == ops[b..m] && more[m - 1] == ops[m - 1];
    }
    if RanOut(more, b, duration) {
      var m :| b < m <= |more| && more[m - 1].TickOp? && TimeOf(more[b..m]) >= duration;
      if m <= |ops| { assert more[b..m] == ops[b..m] && more[m - 1] == ops[m - 1]; }
    }
  }

  /** One more operation on an event that is active already. */
  lemma AgesOn(caps: Caps, ops: seq<Op>, op: Op, i: nat)
    requires i < |Run(caps, ops).active| && Ages(caps, ops, i)
    requires i < |Run(caps, ops + [op]).active|
    requires var e, r := Run(caps, ops).active[i], Run(caps, ops + [op]).active[i];
      if op.TickOp? then Older(e, r, op.dt) else r == e
    ensures Ages(caps, ops + [op], i)
  {
    hide TimeOf, RanOut, Run, AsQueued;
    var more, e := ops + [op], Run(caps, ops).active[i];
    assert more[..|ops|] == ops;
    var b := Born(caps, ops, i);
    BornEarlier(caps, ops, op, i);
    hide Born;
    TimeSnoc(ops, op, b);
    RanOutSnoc(ops, op, b, e.duration);
    QueuedBefore(ops, op, e);
    SameOrigin(more, e, Run(caps, more).active[i]);
  }

  lemma BornEarlier(caps: Caps, ops: seq<Op>, op: Op, i: nat)
    requires i < |Run(caps, ops).active| && i < |Run(caps, ops + [op]).active|
    ensures Born(caps, ops + [op], i) == Born(caps, ops, i)
  {
    assert (ops + [op])[..|ops|] == ops;
    hide Run;
  }

  lemma SameOrigin(ops: seq<Op>, e: WorldEvent, r: WorldEvent)
    requires AsQueued(ops, e)
    requires r.id == e.id && r.kind == e.kind && r.duration == e.duration && r.intensity == e.intensity
    ensures AsQueued(ops, r)
  {
    var n :| 0 <= n < |ops| && IsQueuedBy(ops, n, e);
    assert IsQueuedBy(ops, n, r);
  }

  /** The tick that activates an event. */
  lemma AgesFirst(caps: Caps, ops: seq<Op>, op: Op, i: nat, e: WorldEvent)
    requires op.TickOp? && |Run(caps, ops).active| <= i < |Run(caps, ops + [op]).active|
    requires e.status == Active && e.elapsed == 0.0 && AsQueued(ops, e)
    requires Older(e, Run(caps, ops + [op]).active[i], op.dt)
    ensures Ages(caps, ops + [op], i)
  {
    var more, r := ops + [op], Run(caps, ops + [op]).active[i];
    assert more[..|ops|] == ops;
    var b := |ops|;
    assert Born(caps, more, i) == b;
    TimeSnoc(ops, op, b);
    assert ops[b..] == [];
    RanOutSnoc(ops, op, b, e.duration);
    assert !RanOut(ops, b, e.duration);
    QueuedBefore(ops, op, e);
    SameOrigin(more, e, r);
    hide RanOut, Run, Born, AsQueued;
  }

  lemma StepAges(caps: Caps, ops: seq<Op>, op: Op)
    requires Lively(Run(caps, ops)) && FreshQueue(Run(caps, ops), ops)
    requires AllAge(caps, ops)
    ensures FreshQueue(Run(caps, ops + [op]), ops + [op]) && AllAge(caps, ops + [op])
  {
    hide Ages, Run, AsQueued, Tick, Lively;
    var s, more := Run(caps, ops), ops + [op];
    RunSnoc(caps, ops, op);
    var r := Run(caps, more);
    if op.Queue? {
      forall q | 0 <= q < |s.queue| ensures AsQueued(more, s.queue[q]) { QueuedBefore(ops, op, s.queue[q]); }
      QueuesAs(caps, ops, op, r.queue[|s.queue|]);
      forall i | 0 <= i < |r.active| ensures Ages(caps, more, i) { AgesOn(caps, ops, op, i); }
    } else {
      assert r == Tick(s, caps, op.env, op.dt);
      TickQueue(s, caps, op);
      forall q | 0 <= q < |r.queue|
        ensures r.queue[q].status == Prepare && r.queue[q].elapsed == 0.0 && AsQueued(more, r.queue[q])
      {
        var p :| 0 <= p < |s.queue| && r.queue[q] == s.queue[p];
        QueuedBefore(ops, op, s.queue[p]);
      }
      forall i | 0 <= i < |r.active| ensures Ages(caps, more, i) {
        TickAges(s, caps, op.env, op.dt, i);
        if i < |s.active| {
          AgesOn(caps, ops, op, i);
        } else {
          var q :| 0 <= q < |s.queue| && Older(s.queue[q].(status := Active), r.active[i], op.dt);
          SameOrigin(ops, s.queue[q], s.queue[q].(status := Active));
          AgesFirst(caps, ops, op, i, s.queue[q].(status := Active));
        }
      }
    }
  }

  lemma RunSnoc(caps: Caps, ops: seq<Op>, op: Op)
    ensures Run(caps, ops + [op]) == Step(Run(caps, ops), caps, op)
  {
    assert (ops + [op])[..|ops|] == ops;
  }

  lemma TickQueue(s: EventState, caps: Caps, op: Op)
    requires op.TickOp?
    ensures var r := Step(s, caps, op);
      forall q :: 0 <= q < |r.queue| ==> exists p :: 0 <= p < |s.queue| && r.queue[q] == s.queue[p]
  {
    DrainSources(s, caps, |s.queue|);
    hide Drain, WorkAll, AllTiles, ContestAll, Remaining;
  }

  lemma QueuesAs(caps: Caps, ops: seq<Op>, op: Op, e: WorldEvent)
    requires op.Queue?
    requires e == WorldEvent(Run(caps, ops).nextId, op.kind, Prepare, 0.0, op.duration, op.intensity, op.payload)
    ensures AsQueued(ops + [op], e)
  {
    RunKeeps(caps, ops);
    assert (ops + [op])[..|ops|] == ops;
    assert IsQueuedBy(ops + [op], |ops|, e);
  }

  /** Over every run: the age of an active event is the time of the ticks since it was activated, the
      activating one included; it has resolved exactly if at one of them its age had reached its
      duration, and is active otherwise. Its id, kind, duration and intensity are those it was queued
      with. */
  lemma {:induction false} RunAges(caps: Caps, ops: seq<Op>)
    ensures FreshQueue(Run(caps, ops), ops) && AllAge(caps, ops)
  {
    hide Ages, Keeps, Run, FreshQueue, AllAge, Lively;
    if ops == [] {
      NothingAges(caps);
    } else {
      var front, op := ops[..|ops| - 1], ops[|ops| - 1];
      assert front + [op] == ops;
      RunAges(caps, front);
      RunKeeps(caps, front);
      KeepsLively(Run(caps, front), caps, front);
      StepAges(caps, front, op);
    }
  }

  lemma NothingAges(caps: Caps)
    ensures FreshQueue(Run(caps, []), []) && AllAge(caps, [])
  {
  }

  lemma KeepsLively(s: EventState, caps: Caps, ops: seq<Op>)
    requires Keeps(s, caps, ops)
    ensures Lively(s)
  {
  }

  /** The raids among the active events that have run out. */
  function RaidsRunOut(caps: Caps, ops: seq<Op>, n: nat): nat
    requires n <= |Run(caps, ops).active|
  {
    if n == 0 then 0
    else
      var e := Run(caps, ops).active[n - 1];
      RaidsRunOut(caps, ops, n - 1)
      + (if e.kind == BanditRaid && RanOut(ops, Born(caps, ops, n - 1), e.duration) then 1 else 0)
  }

  /** The counter of repelled raids is the number of raids that have run out. */
  lemma RaidsRepelledHaveRunOut(caps: Caps, ops: seq<Op>)
    ensures Run(caps, ops).raidsRepelled == RaidsRunOut(caps, ops, |Run(caps, ops).active|)
  {
    RunKeeps(caps, ops);
    ResolvedHaveRunOut(caps, ops, |Run(caps, ops).active|);
    assert Run(caps, ops).active[..|Run(caps, ops).active|] == Run(caps, ops).active;
  }

  lemma {:induction false} ResolvedHaveRunOut(caps: Caps, ops: seq<Op>, n: nat)
    requires n <= |Run(caps, ops).active|
    ensures ResolvedRaids(Run(caps, ops).active[..n]) == RaidsRunOut(caps, ops, n)
  {
    if n > 0 {
      var active := Run(caps, ops).active;
      ResolvedHaveRunOut(caps, ops, n - 1);
      RunAges(caps, ops);
      assert Ages(caps, ops, n - 1);
      assert active[..n][..n - 1] == active[..n - 1] && active[..n][n - 1] == active[n - 1];
      hide RanOut, Born, Run, AsQueued, TimeOf;
    }
  }

  // ---- pressure is stable -----------------------------------------------------------------------

  /** The facts about an event that decide what a tick makes of its pressure. */
  ghost predicate SamePressureInputs(a: WorldEvent, b: WorldEvent) {
    && a.kind == b.kind && a.intensity == b.intensity && TilesOf(a) == TilesOf(b)
    && a.payload.basePressure == b.payload.basePressure
  }

  lemma {:induction false} SameContest(a: WorldEvent, b: WorldEvent, all: seq<Point>, order: seq<Point>)
    requires SamePressureInputs(a, b) && a.payload.pressure == b.payload.pressure
    ensures Contested(a, all, order).payload.pressure == Contested(b, all, order).payload.pressure
  {
    if order != [] { SameContest(a, b, all, order[..|order| - 1]); }
  }

  /** A base pressure that has been rounded already. */
  ghost predicate Settled(e: WorldEvent) {
    e.payload.basePressure.Some? && Round3(e.payload.basePressure.value) == e.payload.basePressure.value
  }

  lemma RehydratedIsSettled(e: WorldEvent)
    ensures Settled(Rehydrated(e)) && Rehydrated(e).payload.pressure == Rehydrated(e).payload.basePressure
    ensures Settled(e) ==> Rehydrated(e) == e.(payload := e.payload.(pressure := e.payload.basePressure))
  {
    Round3Twice(if e.payload.basePressure.Some? then e.payload.basePressure.value
                else if e.payload.pressure.Some? then e.payload.pressure.value else e.intensity);
    hide Round3;
  }

  lemma HandledIsSettled(e: WorldEvent, env: Env)
    requires Settled(e)
    ensures Settled(Handled(e, env))
  {
    Round3Twice(Clamp(e.intensity * 0.54 + (env.hazard - 1.0) + 0.22, 0.35, 2.6));
    var hazard := if env.hazard - 1.0 > 0.0 then env.hazard - 1.0 else 0.0;
    Round3Twice(Clamp(e.intensity * 0.42 + hazard * 0.5, 0.22, 1.9));
    hide Round3, Clamp;
  }

  lemma HandledAgain(e: WorldEvent, env: Env, d: WorldEvent)
    requires e.payload.pressure == e.payload.basePressure
    requires d == Handled(e, env).(elapsed := d.elapsed, status := d.status)
    ensures Handled(d, env).payload == d.payload && d.payload.pressure == d.payload.basePressure
    ensures Handled(d, env).kind == d.kind && Handled(d, env).intensity == d.intensity
  {
    hide RaidPressure, MigrationPressure, Round3;
    assert RaidPressure(d, env) == RaidPressure(e, env) && MigrationPressure(d, env) == MigrationPressure(e, env) by {
      SamePressures(d, e, env);
    }
  }

  lemma SamePressures(d: WorldEvent, e: WorldEvent, env: Env)
    requires d.intensity == e.intensity
    ensures RaidPressure(d, env) == RaidPressure(e, env) && MigrationPressure(d, env) == MigrationPressure(e, env)
  {
  }

  /** Working on an event again, after whatever the contest did to its pressure, changes nothing that
      the contest looks at: the base is a fixed point, and the targets are set to what they were. */
  lemma WorkingAgain(e: WorldEvent, env: Env, dt: real, dt': real, p: Option<real>)
    ensures var w := Worked(e, env, dt);
      var again := Worked(w.(payload := w.payload.(pressure := p)), env, dt');
      SamePressureInputs(w, again) && w.payload.pressure == again.payload.pressure
  {
    var w := Worked(e, env, dt);
    var pressed := w.(payload := w.payload.(pressure := p));
    RehydratedIsSettled(e);
    HandledIsSettled(Rehydrated(e), env);
    RehydratedIsSettled(pressed);
    hide Handled, Rehydrated, Round3;
    HandledAgain(Rehydrated(e), env, w);
    assert Rehydrated(pressed) == w;
  }

  lemma {:induction false} SameTiles(a: seq<WorldEvent>, b: seq<WorldEvent>)
    requires |a| == |b| && forall i :: 0 <= i < |a| ==> TilesOf(a[i]) == TilesOf(b[i])
    ensures AllTiles(a) == AllTiles(b)
  {
    if a != [] { SameTiles(a[..|a| - 1], b[..|b| - 1]); }
  }

  /** Ticking again in the same weather and scenario, with the same events active, leaves every
      pressure as it was: overlaps do not compound. */
  lemma PressureIsStable(s: EventState, caps: Caps, env: Env, dt: real, dt': real)
    requires Lively(s)
    requires Drained(Tick(s, caps, env, dt), caps).active == Tick(s, caps, env, dt).active
    ensures var once := Tick(s, caps, env, dt);
      var twice := Tick(once, caps, env, dt');
      |twice.active| == |once.active|
      && forall i :: 0 <= i < |once.active| ==> twice.active[i].payload.pressure == once.active[i].payload.pressure
  {
    var d, once := Drained(s, caps), Tick(s, caps, env, dt);
    TickKeepsAll(s, caps, env, dt);
    TickKeepsAll(once, caps, env, dt');
    var w, w' := WorkAll(d.active, env, dt), WorkAll(once.active, env, dt');
    var all := AllTiles(w);
    forall i | 0 <= i < |w| ensures SamePressureInputs(w[i], w'[i]) && w[i].payload.pressure == w'[i].payload.pressure {
      ContestKeepsRest(w[i], all, FirstNamed(all));
      WorkingAgain(d.active[i], env, dt, dt', once.active[i].payload.pressure);
    }
    SameTiles(w, w');
    forall i | 0 <= i < |w|
      ensures Contested(w[i], all, FirstNamed(all)).payload.pressure ==
          Contested(w'[i], all, FirstNamed(all)).payload.pressure
    {
      SameContest(w[i], w'[i], all, FirstNamed(all));
    }
  }

  /** Between enqueues nothing more can activate, so the same active set is what a run of ticks has. */
  lemma TicksAloneActivateNothing(caps: Caps, ops: seq<Op>, env: Env, dt: real)
    requires ops != [] && ops[|ops| - 1].TickOp?
    ensures Drained(Run(caps, ops), caps).active == Run(caps, ops).active
  {
    RunKeeps(caps, ops);
    var s := Run(caps, ops);
    forall kind ensures OfKind(s.queue, kind) != [] ==> |OfKind(s.active, kind)| == Cap(caps, kind) {
      RunKeeps(caps, ops[..|ops| - 1]);
      assert KeepsKind(Run(caps, ops[..|ops| - 1]), caps, ops[..|ops| - 1], kind);
      TickKeepsKind(Run(caps, ops[..|ops| - 1]), caps, ops[|ops| - 1].env, ops[|ops| - 1].dt, kind);
    }
    FullQueueStays(s, caps, |s.queue|);
  }

  lemma {:induction false} InQueueOfKind(q: seq<WorldEvent>, i: nat)
    requires i < |q|
    ensures OfKind(q, q[i].kind) != []
  {
    if i < |q| - 1 { InQueueOfKind(q[..|q| - 1], i); }
  }

  lemma {:induction false} FullQueueStays(s: EventState, caps: Caps, n: nat)
    requires n <= |s.queue|
    requires forall kind :: OfKind(s.queue, kind) != [] ==> |OfKind(s.active, kind)| == Cap(caps, kind)
    ensures Drain(s, caps, n).0 == s.active
  {
    if n > 0 {
      FullQueueStays(s, caps, n - 1);
      InQueueOfKind(s.queue, n - 1);
    }
  }

  /** Overlap is counted per naming, not per event: a raid names its target twice, so it contests
      the tile with itself even when it is alone. */
  lemma LoneRaidContestsItself(e: WorldEvent, env: Env, dt: real)
    requires e.kind == BanditRaid && env.depot.Some?
    ensures var w := Worked(e, env, dt);
      Ticked(e, env, dt, AllTiles([w])).payload.pressure == Some(Round3(RaidPressure(e, env) + 0.12))
  {
    hide Worked, AllTiles, FirstNamed, Contested, TilesOf, RaidPressure, Round3;
    var w, t := Worked(e, env, dt), env.depot.value;
    RaidAimsTwice(e, env, dt);
    TilesOfOne(w);
    NamedTwice(t);
    SelfContest(w, t, RaidPressure(e, env));
  }

  lemma TilesOfOne(w: WorldEvent)
    ensures AllTiles([w]) == TilesOf(w)
  {
    assert [w][..0] == [] && AllTiles([]) == [];
    hide TilesOf;
  }

  lemma RaidAimsTwice(e: WorldEvent, env: Env, dt: real)
    requires e.kind == BanditRaid && env.depot.Some?
    ensures var w, t := Worked(e, env, dt), env.depot.value;
      TilesOf(w) == [t, t] && w.payload.basePressure == Some(RaidPressure(e, env)) && w.kind == BanditRaid
  {
    hide Round3, Clamp;
  }

  lemma SelfContest(w: WorldEvent, t: Point, p: real)
    requires w.kind == BanditRaid && TilesOf(w) == [t, t] && w.payload.basePressure == Some(p)
    ensures Contested(w, [t, t], [t]).payload.pressure == Some(Round3(p + 0.12))
  {
    NamedTwice(t);
    assert [t][..0] == [] && Contested(w, [t, t], []) == w;
    hide Round3, Count, TilesOf;
  }

  lemma NamedTwice(t: Point)
    ensures FirstNamed([t, t]) == [t] && Count([t, t], t) == 2
  {
    assert [t, t][..1] == [t] && [t][..0] == [];
    assert FirstNamed([t]) == [t];
  }

  // ---- base pressures in numbers ------------------------------------------------------------------

  function Between(lo: real, v: real, hi: real): real {
    if v < lo then lo else if v > hi then hi else v
  }

  /** What a tick makes of a raid: its pressure is 0.54 of its intensity plus the hazard less 0.78, from
      0.35 to 2.6, and it aims at the depot, if there is one. */
  lemma RaidBase(e: WorldEvent, env: Env, dt: real)
    requires e.kind == BanditRaid
    ensures var w := Worked(e, env, dt).payload;
      && w.basePressure == Some(Round3(Between(0.35, 0.54 * e.intensity + env.hazard - 0.78, 2.6)))
      && (env.depot.Some? ==> w.targetTile == env.depot && w.targetTiles == [env.depot.value])
      && (env.depot.None? ==> w.targetTile == e.payload.targetTile && w.targetTiles == e.payload.targetTiles)
  {
    hide Round3;
  }

  /** What it makes of a migration with wilds to go to and herbivores to go: 0.42 of the intensity plus
      half of what the hazard is above one, from 0.22 to 1.9. */
  lemma MigrationBase(e: WorldEvent, env: Env, dt: real)
    requires e.kind == AnimalMigration && env.wild.Some? && env.herbivores
    ensures var w := Worked(e, env, dt).payload;
      var rough := if env.hazard > 1.0 then 0.5 * (env.hazard - 1.0) else 0.0;
      && w.basePressure == Some(Round3(Between(0.22, 0.42 * e.intensity + rough, 1.9)))
      && w.targetTile == env.wild && w.targetTiles == e.payload.targetTiles
  {
    hide Round3;
  }

  /** Anything else keeps the base it has, or takes the first that its payload offers, and its targets. */
  lemma OtherBase(e: WorldEvent, env: Env, dt: real)
    requires e.kind == TradeCaravan || (e.kind == AnimalMigration && (env.wild.None? || !env.herbivores))
    ensures var w, was := Worked(e, env, dt).payload, e.payload;
      && w.targetTile == was.targetTile && w.targetTiles == was.targetTiles
      && w.basePressure == Some(Round3(
           match (was.basePressure, was.pressure)
           case (Some(b), _) => b
           case (None, Some(p)) => p
           case (None, None) => e.intensity))
  {
    hide Round3;
  }

  /** Rougher weather and more intense raids never make for less pressure. */
  lemma RaidBaseGrows(e: WorldEvent, env: Env, e': WorldEvent, env': Env, dt: real)
    requires e.kind == BanditRaid && e'.kind == BanditRaid
    requires e.intensity <= e'.intensity && env.hazard <= env'.hazard
    ensures Worked(e, env, dt).payload.basePressure.Some? && Worked(e', env', dt).payload.basePressure.Some?
    ensures 0.35 <= Worked(e, env, dt).payload.basePressure.value
      <= Worked(e', env', dt).payload.basePressure.value <= 2.6
  {
    RaidBase(e, env, dt);
    RaidBase(e', env', dt);
    var v := Between(0.35, 0.54 * e.intensity + env.hazard - 0.78, 2.6);
    var v' := Between(0.35, 0.54 * e'.intensity + env'.hazard - 0.78, 2.6);
    Round3Grows(0.35, v);
    Round3Grows(v, v');
    Round3Grows(v', 2.6);
    assert Round3(0.35) == 0.35 && Round3(2.6) == 2.6;
    hide Worked, Round3, Between;
  }

  // ---- contested pressure in closed form ----------------------------------------------------------

  /** The tile is named more than once, and by this event. */
  predicate Contests(e: WorldEvent, all: seq<Point>, t: Point) {
    Count(all, t) > 1 && t in TilesOf(e)
  }

  lemma {:induction false} UncontestedKeeps(e: WorldEvent, all: seq<Point>, order: seq<Point>)
    requires e.kind == TradeCaravan || forall t :: t in order ==> !Contests(e, all, t)
    ensures Contested(e, all, order) == e
  {
    if order != [] {
      assert order[|order| - 1] in order;
      UncontestedKeeps(e, all, order[..|order| - 1]);
    }
  }

  /** Of the contested tiles an event names only the last one counts: penalties replace each other. */
  lemma {:induction false} LastContestedDecides(e: WorldEvent, all: seq<Point>, order: seq<Point>, i: nat)
    requires e.kind != TradeCaravan && e.payload.basePressure.Some?
    requires i < |order| && Contests(e, all, order[i])
    requires forall j :: i < j < |order| ==> !Contests(e, all, order[j])
    ensures Contested(e, all, order).payload.pressure ==
      Some(Round3(e.payload.basePressure.value + 0.12 * (Count(all, order[i]) - 1) as real))
  {
    var front := order[..|order| - 1];
    if i < |order| - 1 {
      assert front[i] == order[i];
      LastContestedDecides(e, all, front, i);
    }
  }

  lemma LastContested(e: WorldEvent, all: seq<Point>, order: seq<Point>) returns (i: nat)
    requires exists t :: t in order && Contests(e, all, t)
    ensures i < |order| && Contests(e, all, order[i]) && forall j :: i < j < |order| ==> !Contests(e, all, order[j])
  {
    i := |order| - 1;
    while !Contests(e, all, order[i])
      invariant i < |order| && forall j :: i < j < |order| ==> !Contests(e, all, order[j])
      decreases i
    {
      i := i - 1;
    }
  }

  /** A penalty of at least 0.12 is not lost in rounding. */
  lemma PenaltyShows(b: real, n: nat)
    requires n > 0
    ensures Round3(b + 0.12 * n as real) > Round3(b)
  {
    HalfEvenFacts(b * 1000.0, 0);
    HalfEvenFacts((b + 0.12 * n as real) * 1000.0, 0);
    hide RoundHalfEven;
  }

  /** An event that offers its base as its pressure keeps it exactly if it names no contested tile. */
  lemma ContestKeepsBaseIff(e: WorldEvent, all: seq<Point>, order: seq<Point>)
    requires Settled(e) && e.payload.pressure == e.payload.basePressure
    ensures Contested(e, all, order).payload.pressure == e.payload.basePressure <==>
      e.kind == TradeCaravan || forall t :: t in order ==> !Contests(e, all, t)
  {
    if e.kind == TradeCaravan || forall t :: t in order ==> !Contests(e, all, t) {
      UncontestedKeeps(e, all, order);
    } else {
      var i := LastContested(e, all, order);
      LastContestedDecides(e, all, order, i);
      PenaltyShows(e.payload.basePressure.value, Count(all, order[i]) - 1);
    }
  }

  lemma WorkedIsSettled(e: WorldEvent, env: Env, dt: real)
    ensures Settled(Worked(e, env, dt))
    ensures Worked(e, env, dt).payload.pressure == Worked(e, env, dt).payload.basePressure
  {
    RehydratedIsSettled(e);
    HandledIsSettled(Rehydrated(e), env);
    hide Round3, RaidPressure, MigrationPressure, Rehydrated;
  }

  /** After any tick an event's pressure is its base if and only if it is a caravan or names no tile
      that is named more than once, by whatever event. */
  lemma TickKeepsBaseIff(e: WorldEvent, env: Env, dt: real, all: seq<Point>)
    ensures var w := Worked(e, env, dt);
      Ticked(e, env, dt, all).payload.pressure == w.payload.basePressure <==>
      e.kind == TradeCaravan || forall t :: t in TilesOf(w) ==> Count(all, t) <= 1
  {
    var w := Worked(e, env, dt);
    WorkedIsSettled(e, env, dt);
    WorkKeepsIdentity(e, env, dt);
    hide Worked, Settled;
    ContestKeepsBaseIff(w, all, FirstNamed(all));
    forall t ensures t in FirstNamed(all) <==> t in all { FirstNamedAre(all, t); }
    assert forall t :: Count(all, t) > 1 ==> t in all;
    hide TilesOf, FirstNamed, Count;
  }

  /** So an event alone on the list keeps its base if and only if it is a caravan or names no tile twice. */
  lemma LoneEventKeepsBaseIff(e: WorldEvent, env: Env, dt: real)
    ensures var w := Worked(e, env, dt);
      Ticked(e, env, dt, AllTiles([w])).payload.pressure == w.payload.basePressure <==>
      e.kind == TradeCaravan || forall t :: t in TilesOf(w) ==> Count(TilesOf(w), t) <= 1
  {
    TilesOfOne(Worked(e, env, dt));
    TickKeepsBaseIff(e, env, dt, AllTiles([Worked(e, env, dt)]));
  }

  /** How many events name the tile. */
  function EventsNaming(events: seq<WorldEvent>, t: Point): nat {
    if events == [] then 0
    else EventsNaming(events[..|events| - 1], t) + (if t in TilesOf(events[|events| - 1]) then 1 else 0)
  }

  ghost predicate NoneNamesTwice(events: seq<WorldEvent>, t: Point) {
    forall i :: 0 <= i < |events| ==> Count(TilesOf(events[i]), t) <= 1
  }

  /** The overlap is at least the number of events that name the tile, and that number exactly if none
      of them names it twice. */
  lemma {:induction false} OverlapCountsEventsIff(events: seq<WorldEvent>, t: Point)
    ensures Count(AllTiles(events), t) >= EventsNaming(events, t)
    ensures Count(AllTiles(events), t) == EventsNaming(events, t) <==> NoneNamesTwice(events, t)
  {
    if events != [] {
      var front, e := events[..|events| - 1], events[|events| - 1];
      OverlapCountsEventsIff(front, t);
      CountsAdd(AllTiles(front), TilesOf(e), t);
      assert front + [e] == events;
      OneMoreNames(front, e, t);
    }
    hide NoneNamesTwice, TilesOf, Count;
  }

  lemma OneMoreNames(front: seq<WorldEvent>, e: WorldEvent, t: Point)
    ensures NoneNamesTwice(front + [e], t) <==> NoneNamesTwice(front, t) && Count(TilesOf(e), t) <= 1
  {
    var events := front + [e];
    assert events[|front|] == e && forall i :: 0 <= i < |front| ==> events[i] == front[i];
    hide TilesOf, Count;
  }

  lemma CountsAdd(a: seq<Point>, b: seq<Point>, t: Point)
    ensures Count(a + b, t) == Count(a, t) + Count(b, t)
    ensures t in b <==> Count(b, t) >= 1
  {
  }

  /** The pressure as the code inflates it, and as its description does. */
  function Added(b: real, n: nat): real {
    b + 0.12 * n as real
  }

  function Multiplied(b: real, n: nat): real {
    b * (1.0 + 0.12 * n as real)
  }

  function Excess(b: real, n: nat): real {
    n as real * (b - 1.0)
  }

  /** Adding 0.12 per overlap is multiplying by 1 + 0.12 per overlap only without overlap or on a base
      of one; at three decimals, only if overlap times distance from one is at most 0.004. */
  lemma AddingIsMultiplyingIff(b: real, n: nat)
    requires Round3(b) == b
    ensures Added(b, n) == Multiplied(b, n) <==> n == 0 || b == 1.0
    ensures Round3(Added(b, n)) == Round3(Multiplied(b, n)) <==> -0.004 <= Excess(b, n) <= 0.004
  {
    var k := RoundHalfEven(b * 1000.0);
    Scaled(b, n, k);
    ThousandthsAgreeIff(Added(b, n), Multiplied(b, n), Excess(b, n), k + 120 * n, n * (k - 1000));
    hide Round3, Added, Multiplied, Excess;
  }

  lemma Scaled(b: real, n: nat, k: int)
    requires b * 1000.0 == k as real
    ensures Multiplied(b, n) == Added(b, n) + 0.12 * Excess(b, n)
    ensures Added(b, n) * 1000.0 == (k + 120 * n) as real && Excess(b, n) * 1000.0 == (n * (k - 1000)) as real
    ensures Excess(b, n) == 0.0 <==> n == 0 || b == 1.0
  {
    RealProduct(n, k - 1000);
    Sums.ZeroProductIff(n as real, b - 1.0);
    Factored(b, n as real);
  }

  lemma Factored(b: real, x: real)
    ensures b * (1.0 + 0.12 * x) == b + 0.12 * x + 0.12 * (x * (b - 1.0))
    ensures x * (b - 1.0) * 1000.0 == x * (b * 1000.0 - 1000.0)
  {
  }

  lemma ThousandthsAgreeIff(sum: real, product: real, over: real, k: int, d: int)
    requires sum * 1000.0 == k as real && over * 1000.0 == d as real && product == sum + 0.12 * over
    ensures sum == product <==> over == 0.0
    ensures Round3(sum) == Round3(product) <==> -0.004 <= over <= 0.004
  {
    NearestIff(k, d);
    assert product * 1000.0 == k as real + 0.12 * d as real;
    hide RoundHalfEven;
  }

  lemma RealProduct(a: int, b: int)
    ensures (a * b) as real == a as real * b as real
  {
  }

  lemma NearestIff(k: int, d: int)
    ensures RoundHalfEven(k as real) == k
    ensures RoundHalfEven(k as real + 0.12 * d as real) == k <==> -4 <= d <= 4
  {
  }

  /** A raid alone at its depot, as weak as raids get, is pressed to 0.47 where the product is 0.392. */
  lemma AddingIsNotMultiplying(e: WorldEvent, env: Env, dt: real)
    requires e.kind == BanditRaid && env.depot.Some? && e.intensity == 0.0 && env.hazard == 1.0
    ensures var w := Worked(e, env, dt);
      w.payload.basePressure == Some(0.35) && Round3(Multiplied(0.35, 1)) == 0.392
      && Ticked(e, env, dt, AllTiles([w])).payload.pressure == Some(0.47)
  {
    LoneRaidContestsItself(e, env, dt);
    RaidAimsTwice(e, env, dt);
    hide Worked, Ticked, AllTiles;
    assert RaidPressure(e, env) == Round3(0.35);
  }

  // ---- the index of contested tiles -----------------------------------------------------------------

  /** The source's dictionary from tiles to the events that name them, one entry per naming; `order`
      is the order of its keys. */
  datatype TileIndex = TileIndex(named: map<Point, seq<nat>>, order: seq<Point>)

  function AddName(x: TileIndex, t: Point, i: nat): TileIndex {
    if t in x.named then x.(named := x.named[t := x.named[t] + [i]])
    else TileIndex(x.named[t := [i]], x.order + [t])
  }

  /** An event names a tile. */
  datatype Naming = Naming(tile: Point, event: nat)

  function NamingsOf(tiles: seq<Point>, i: nat): seq<Naming> {
    seq(|tiles|, q requires 0 <= q < |tiles| => Naming(tiles[q], i))
  }

  /** All namings in the order of the source's loops. */
  function AllNamings(events: seq<WorldEvent>): seq<Naming> {
    if events == [] then []
    else AllNamings(events[..|events| - 1]) + NamingsOf(TilesOf(events[|events| - 1]), |events| - 1)
  }

  function TilesIn(n: seq<Naming>): seq<Point> {
    seq(|n|, q requires 0 <= q < |n| => n[q].tile)
  }

  /** The events that name the tile, as often as they do. */
  function OwnersOf(n: seq<Naming>, t: Point): seq<nat> {
    if n == [] then []
    else OwnersOf(n[..|n| - 1], t) + (if n[|n| - 1].tile == t then [n[|n| - 1].event] else [])
  }

  /** The index lists exactly the namings, tiles in the order of their first. */
  ghost predicate Lists(x: TileIndex, n: seq<Naming>) {
    && x.order == FirstNamed(TilesIn(n))
    && (forall t :: t in x.named <==> t in TilesIn(n))
    && (forall t :: t in x.named ==> x.named[t] == OwnersOf(n, t))
  }

  lemma {:induction false} OwnersCount(n: seq<Naming>, t: Point)
    ensures |OwnersOf(n, t)| == Count(TilesIn(n), t)
  {
    if n != [] {
      OwnersCount(n[..|n| - 1], t);
      assert TilesIn(n) == TilesIn(n[..|n| - 1]) + [n[|n| - 1].tile];
    }
  }

  lemma {:induction false} OwnersAre(n: seq<Naming>, t: Point, j: nat)
    ensures j in OwnersOf(n, t) <==> Naming(t, j) in n
  {
    if n != [] {
      OwnersAre(n[..|n| - 1], t, j);
      assert n == n[..|n| - 1] + [n[|n| - 1]];
    }
  }

  lemma NoOwner(n: seq<Naming>, t: Point)
    requires t !in TilesIn(n)
    ensures OwnersOf(n, t) == []
  {
    OwnersCount(n, t);
  }

  lemma OneMoreOwner(n: seq<Naming>, w: Naming, u: Point)
    ensures OwnersOf(n + [w], u) == OwnersOf(n, u) + (if w.tile == u then [w.event] else [])
    ensures TilesIn(n + [w]) == TilesIn(n) + [w.tile]
  {
    assert (n + [w])[..|n|] == n;
  }

  lemma OneMoreFirst(tiles: seq<Point>, t: Point)
    ensures FirstNamed(tiles + [t]) == if t in tiles then FirstNamed(tiles) else FirstNamed(tiles) + [t]
  {
    assert (tiles + [t])[..|tiles|] == tiles;
  }

  lemma NamingListed(x: TileIndex, n: seq<Naming>, w: Naming)
    requires Lists(x, n)
    ensures Lists(AddName(x, w.tile, w.event), n + [w])
  {
    hide TilesIn, OwnersOf, FirstNamed;
    var t, y := w.tile, AddName(x, w.tile, w.event);
    OneMoreOwner(n, w, t);
    OneMoreFirst(TilesIn(n), t);
    if t !in TilesIn(n) { NoOwner(n, t); }
    forall u | u in y.named ensures y.named[u] == OwnersOf(n + [w], u) {
      OneMoreOwner(n, w, u);
    }
  }

  lemma {:induction false} NamingsAre(events: seq<WorldEvent>, t: Point, j: nat)
    ensures Naming(t, j) in AllNamings(events) <==> j < |events| && t in TilesOf(events[j])
  {
    if events != [] {
      NamingsAre(events[..|events| - 1], t, j);
      hide TilesOf;
      var tiles, i := TilesOf(events[|events| - 1]), |events| - 1;
      if j == i && t in tiles {
        var q :| 0 <= q < |tiles| && tiles[q] == t;
        assert NamingsOf(tiles, i)[q] == Naming(t, j);
      }
    }
  }

  lemma {:induction false} NamingsCoverTiles(events: seq<WorldEvent>)
    ensures TilesIn(AllNamings(events)) == AllTiles(events)
  {
    if events != [] {
      NamingsCoverTiles(events[..|events| - 1]);
      hide TilesOf;
    }
  }

  lemma FirstNamedAre(tiles: seq<Point>, t: Point)
    ensures t in FirstNamed(tiles) <==> t in tiles
  {
    if tiles != [] { FirstNamedAre(tiles[..|tiles| - 1], t); }
  }

  /** The finished index, tile by tile. */
  lemma IndexIsWhole(x: TileIndex, events: seq<WorldEvent>)
    requires Lists(x, AllNamings(events))
    ensures x.order == FirstNamed(AllTiles(events))
    ensures forall k :: 0 <= k < |x.order| ==> x.order[k] in x.named
  {
    NamingsCoverTiles(events);
    forall k | 0 <= k < |x.order| ensures x.order[k] in x.named {
      FirstNamedAre(AllTiles(events), x.order[k]);
    }
  }

  ghost predicate AreOwners(names: seq<nat>, events: seq<WorldEvent>, t: Point) {
    forall j: nat :: j in names <==> j < |events| && t in TilesOf(events[j])
  }

  lemma ListedOwners(x: TileIndex, events: seq<WorldEvent>, t: Point)
    requires Lists(x, AllNamings(events)) && t in x.named
    ensures |x.named[t]| == Count(AllTiles(events), t)
    ensures AreOwners(x.named[t], events, t)
  {
    NamingsCoverTiles(events);
    OwnersCount(AllNamings(events), t);
    hide TilesOf, AllNamings, OwnersOf, TilesIn, FirstNamed;
    forall j: nat ensures j in x.named[t] <==> j < |events| && t in TilesOf(events[j]) {
      OwnersAre(AllNamings(events), t, j);
      NamingsAre(events, t, j);
    }
  }

  /** What a contested tile does to one of the events that name it. */
  function Pressed(e: WorldEvent, namings: nat): WorldEvent {
    if e.kind == TradeCaravan then e
    else
      var base := if e.payload.basePressure.Some? then e.payload.basePressure.value else e.intensity;
      e.(payload := e.payload.(pressure := Some(Round3(base + 0.12 * (namings - 1) as real))))
  }

  lemma ContestNext(e: WorldEvent, all: seq<Point>, order: seq<Point>, t: Point)
    requires var d := Contested(e, all, order); d == e.(payload := e.payload.(pressure := d.payload.pressure))
    ensures Contested(e, all, order + [t]) ==
      if Count(all, t) > 1 && t in TilesOf(e) then Pressed(Contested(e, all, order), Count(all, t))
      else Contested(e, all, order)
  {
    hide TilesOf, Count, Round3;
    var d := Contested(e, all, order);
    assert (order + [t])[..|order|] == order && (order + [t])[|order|] == t;
    assert d.kind == e.kind && d.intensity == e.intensity && d.payload.basePressure == e.payload.basePressure;
  }

  /** The events as they are once the contested tiles of `order` have been applied. */
  ghost predicate ContestedBy(now: seq<WorldEvent>, was: seq<WorldEvent>, all: seq<Point>, order: seq<Point>) {
    |now| == |was| && forall j :: 0 <= j < |was| ==> now[j] == Contested(was[j], all, order)
  }

  lemma NothingContested(was: seq<WorldEvent>, all: seq<Point>)
    ensures ContestedBy(was, was, all, [])
  {
  }

  lemma AllContested(now: seq<WorldEvent>, was: seq<WorldEvent>, all: seq<Point>)
    requires ContestedBy(now, was, all, FirstNamed(all))
    ensures now == ContestAll(was, all)
  {
    hide Contested, FirstNamed;
  }

  /** Contested tiles rewrite nothing but the pressure. */
  lemma PressedAgain(e: WorldEvent, d: WorldEvent, namings: nat)
    requires d == e.(payload := e.payload.(pressure := d.payload.pressure))
    ensures Pressed(Pressed(d, namings), namings) == Pressed(d, namings)
    ensures e.kind != TradeCaravan ==>
              Pressed(d, namings) == d.(payload := d.payload.(pressure := Pressed(e, namings).payload.pressure))
  {
    hide Round3;
  }

  // ---- the system object -------------------------------------------------------------------------

  /** A counter that starts at zero for every kind. */
  function CountOf(counts: map<EventType, nat>, kind: EventType): nat {
    if kind in counts then counts[kind] else 0
  }

  lemma CountsGrow(counts: map<EventType, nat>, events: seq<WorldEvent>, e: WorldEvent)
    requires forall k :: CountOf(counts, k) == |OfKind(events, k)|
    ensures forall k :: CountOf(counts[e.kind := CountOf(counts, e.kind) + 1], k) == |OfKind(events + [e], k)|
  {
    forall k ensures CountOf(counts[e.kind := CountOf(counts, e.kind) + 1], k) == |OfKind(events + [e], k)| {
      OfKindSnoc(events, e, k);
    }
  }

  class WorldEventSystem {
    const caps: Caps
    var queue: seq<WorldEvent>
    var active: seq<WorldEvent>
    var raidsRepelled: nat
    var nextId: nat

    function View(): EventState
      reads this
    {
      EventState(queue, active, raidsRepelled, nextId)
    }

    constructor (caps: Caps)
      ensures this.caps == caps && View() == EventState([], [], 0, 1)
    {
      this.caps := caps;
      queue, active, raidsRepelled, nextId := [], [], 0, 1;
    }

    method EnqueueEvent(kind: EventType, payload: Payload, duration: real, intensity: real) returns (e: WorldEvent)
      modifies this
      ensures View() == Enqueue(old(View()), kind, payload, duration, intensity)
      ensures queue == old(queue) + [e]
    {
      e := WorldEvent(nextId, kind, Prepare, 0.0, duration, intensity, payload);
      nextId := nextId + 1;
      queue := queue + [e];
    }

    /** Drains the queue into the active list; `counts` is kept up to date instead of recounting. */
    method EnforceConcurrencyCaps()
      modifies this
      ensures View() == Drained(old(View()), caps)
    {
      var counts: map<EventType, nat> := map[];
      for i := 0 to |active|
        invariant View() == old(View())
        invariant forall k :: CountOf(counts, k) == |OfKind(active[..i], k)|
      {
        assert active[..i + 1] == active[..i] + [active[i]];
        CountsGrow(counts, active[..i], active[i]);
        counts := counts[active[i].kind := CountOf(counts, active[i].kind) + 1];
      }
      assert active[..|active|] == active;
      var kept: seq<WorldEvent> := [];
      ghost var s := View();
      for i := 0 to |queue|
        invariant queue == s.queue && raidsRepelled == s.raidsRepelled && nextId == s.nextId
        invariant (active, kept) == Drain(s, caps, i)
        invariant forall k :: CountOf(counts, k) == |OfKind(active, k)|
      {
        var e := queue[i];
        if CountOf(counts, e.kind) >= (if e.kind in caps then caps[e.kind] else 9999) {
          kept := kept + [e];
        } else {
          CountsGrow(counts, active, e.(status := Active));
          active := active + [e.(status := Active)];
          counts := counts[e.kind := CountOf(counts, e.kind) + 1];
        }
      }
      queue := kept;
    }

    /** The per-event part of a tick. */
    method WorkEvent(i: nat, env: Env, dt: real)
      requires i < |active|
      modifies `active, `raidsRepelled
      ensures active == old(active)[i := Worked(old(active)[i], env, dt)]
      ensures var repels := old(active)[i].kind == BanditRaid && Resolves(old(active)[i], dt);
        raidsRepelled == old(raidsRepelled) + (if repels then 1 else 0)
    {
      hide Round3, Clamp;
      var e := Handled(Rehydrated(active[i]), env);
      e := e.(elapsed := e.elapsed + dt);
      if e.status == Active && e.elapsed >= e.duration {
        if e.kind == BanditRaid {
          raidsRepelled := raidsRepelled + 1;
        }
        e := e.(status := Resolve);
      }
      active := active[i := e];
    }

    /** The loop of a tick: works on every active event. */
    method WorkActive(env: Env, dt: real)
      modifies `active, `raidsRepelled
      ensures active == WorkAll(old(active), env, dt)
      ensures raidsRepelled == old(raidsRepelled) + RaidsResolving(old(active), dt)
    {
      ghost var was, raids := active, raidsRepelled;
      for i := 0 to |active|
        invariant |active| == |was| && raidsRepelled == raids + RaidsResolving(was[..i], dt)
        invariant forall j :: 0 <= j < i ==> active[j] == Worked(was[j], env, dt)
        invariant forall j :: i <= j < |active| ==> active[j] == was[j]
      {
        hide Worked, Resolves;
        assert was[..i + 1][..i] == was[..i];
        WorkEvent(i, env, dt);
      }
      assert was[..|was|] == was;
      hide Worked, RaidsResolving, WorkAll;
      assert active == WorkAll(was, env, dt);
    }

    /** The first half of the contested-pressure pass: who names which tile. */
    method IndexTiles() returns (x: TileIndex)
      ensures Lists(x, AllNamings(active))
    {
      x := TileIndex(map[], []);
      for i := 0 to |active|
        invariant Lists(x, AllNamings(active[..i]))
      {
        hide Lists, TilesOf, NamingsOf;
        x := IndexEvent(x, TilesOf(active[i]), i, AllNamings(active[..i]));
        assert active[..i + 1][..i] == active[..i];
      }
      assert active[..|active|] == active;
    }

    method IndexEvent(x0: TileIndex, tiles: seq<Point>, i: nat, ghost n: seq<Naming>) returns (x: TileIndex)
      requires Lists(x0, n)
      ensures Lists(x, n + NamingsOf(tiles, i))
    {
      hide Lists;
      x := x0;
      ghost var more := NamingsOf(tiles, i);
      assert n + more[..0] == n;
      for q := 0 to |tiles|
        invariant Lists(x, n + more[..q])
      {
        NamingListed(x, n + more[..q], Naming(tiles[q], i));
        assert n + more[..q + 1] == n + more[..q] + [Naming(tiles[q], i)];
        x := AddName(x, tiles[q], i);
      }
      assert more[..|tiles|] == more;
    }

    /** The second half: every event that names a contested tile has its pressure rewritten from its
        base; the last such tile wins. */
    method ApplyContestedPressure()
      modifies `active
      ensures active == ContestAll(old(active), AllTiles(old(active)))
    {
      hide AllTiles, AllNamings, FirstNamed, Lists, Count, TilesOf, Contested, ContestedBy, AreOwners;
      ghost var was, all := active, AllTiles(active);
      var x := IndexTiles();
      IndexIsWhole(x, was);
      NothingContested(was, all);
      ghost var done: seq<Point> := [];
      for k := 0 to |x.order|
        invariant done == x.order[..k] && ContestedBy(active, was, all, done)
      {
        var t := x.order[k];
        ListedOwners(x, was, t);
        PressTile(x.named[t], was, all, done, t);
        done := done + [t];
      }
      assert done == x.order;
      AllContested(active, was, all);
    }

    /** One contested tile: the events that name it, one after the other. */
    method PressTile(names: seq<nat>, ghost was: seq<WorldEvent>, ghost all: seq<Point>, ghost order: seq<Point>,
                     t: Point)
      requires ContestedBy(active, was, all, order) && |names| == Count(all, t)
      requires AreOwners(names, was, t)
      modifies `active
      ensures ContestedBy(active, was, all, order + [t])
    {
      ghost var before := active;
      if |names| > 1 {
        for q := 0 to |names|
          invariant |active| == |was|
          invariant forall j :: 0 <= j < |was| ==>
                      active[j] == if j in names[..q] then Pressed(before[j], |names|) else before[j]
        {
          var j := names[q];
          assert j in names && names[..q + 1] == names[..q] + [j];
          ContestKeepsRest(was[j], all, order);
          PressedAgain(was[j], before[j], |names|);
          hide Pressed, Contested;
          active := active[j := Pressed(active[j], |names|)];
        }
        assert names[..|names|] == names;
      }
      forall j | 0 <= j < |was| ensures active[j] == Contested(was[j], all, order + [t]) {
        ContestKeepsRest(was[j], all, order);
        ContestNext(was[j], all, order, t);
      }
    }

    method Update(env: Env, dt: real)
      modifies this
      ensures View() == Tick(old(View()), caps, env, dt)
    {
      hide Drained, WorkAll, AllTiles, Remaining, ContestAll, RaidsResolving;
      EnforceConcurrencyCaps();
      ghost var d := View();
      WorkActive(env, dt);
      assert View() == d.(active := WorkAll(d.active, env, dt),
                          raidsRepelled := d.raidsRepelled + RaidsResolving(d.active, dt));
      ApplyContestedPressure();
      active := Remaining(active);
    }
  }
}
