/** Worker admission for the scans of one query (src/include/scan_budget.hpp, src/packetquapture_extension.cpp).
    Scans register while the query is bound; each then initialises, admits workers and lets them go, in any interleaving.
    Each operation runs under a lock, so it is one step here; whether the database grants a memory reservation is given. */
module ScanBudget {
  import opened Basics
  import MapSum

  // ---------------------------------------------------------------- the budget

  /** The bytes shared by all scans of one kind in a query, and how many one worker takes. */
  datatype BudgetState = BudgetState(limit: nat, worker: nat, used: nat)

  function Slots(b: BudgetState): nat {
    if b.worker == 0 then 0 else b.limit / b.worker
  }

  /** One worker's bytes are taken when they are left and the database reserves them. */
  function Acquired(b: BudgetState, reserved: bool): (BudgetState, bool) {
    if b.worker + b.used > b.limit || !reserved then (b, false)
    else (b.(used := b.used + b.worker), true)
  }

  /** One worker's bytes given back. */
  function Freed(b: BudgetState): BudgetState {
    if b.worker <= b.used then b.(used := b.used - b.worker) else b
  }

  /** Giving a worker's bytes back undoes taking them. */
  lemma ReleaseUndoesAcquire(b: BudgetState)
    ensures Acquired(b, true).1 ==> Freed(Acquired(b, true).0) == b
  {
  }

  class QueryBudget {
    const limit: nat
    const worker: nat
    var used: nat

    constructor (limit: nat, worker: nat)
      ensures View() == BudgetState(limit, worker, 0)
    {
      this.limit, this.worker, used := limit, worker, 0;
    }

    ghost function View(): BudgetState
      reads this
    {
      BudgetState(limit, worker, used)
    }

    method Acquire(reserved: bool) returns (ok: bool)
      requires used <= limit
      modifies this
      ensures (View(), ok) == Acquired(old(View()), reserved) && used <= limit
    {
      if worker > limit - used {
        return false;
      }
      if !reserved {
        return false;
      }
      used := used + worker;
      return true;
    }

    method Release()
      requires worker <= used <= limit
      modifies this
      ensures View() == Freed(old(View())) && used <= limit
    {
      used := used - worker;
    }
  }

  // ---------------------------------------------------------------- one scan

  /** A scan's plan and files and, once it runs, how many workers it may have, how many it admitted, whether the worker
      reserved at its start is still to be handed out, and how many handed-out leases are alive. */
  datatype Scan = Bound(plan: nat, files: nat)
                | Running(plan: nat, files: nat, maxWorkers: nat, admitted: nat, initial: bool, out: nat)

  function Leases(s: Scan): nat {
    if s.Bound? then 0 else s.out + if s.initial then 1 else 0
  }

  /** Admits a worker: the reserved one first, then as many as the budget still grants. */
  function AdmitStep(s: Scan, b: BudgetState, reserved: bool): (Scan, BudgetState, bool)
    requires s.Running?
  {
    if s.admitted >= s.maxWorkers then (s, b, false)
    else if s.initial then (s.(admitted := s.admitted + 1, initial := false, out := s.out + 1), b, true)
    else
      var (after, ok) := Acquired(b, reserved);
      if ok then (s.(admitted := s.admitted + 1, out := s.out + 1), after, true) else (s, b, false)
  }

  class ScanAdmission {
    const budget: QueryBudget
    const plan: nat
    const files: nat
    var maxWorkers: nat
    var admitted: nat
    var initial: bool
    ghost var out: nat

    ghost function View(): Scan
      reads this
    {
      Running(plan, files, maxWorkers, admitted, initial, out)
    }

    constructor (budget: QueryBudget, plan: nat, files: nat, maxWorkers: nat, initial: bool)
      ensures this.budget == budget && View() == Running(plan, files, maxWorkers, 0, initial, 0)
    {
      this.budget, this.plan, this.files := budget, plan, files;
      this.maxWorkers, this.initial, admitted, out := maxWorkers, initial, 0, 0;
    }

    method Admit(reserved: bool) returns (granted: bool)
      requires budget.used <= budget.limit
      modifies this, budget
      ensures (View(), budget.View(), granted) == AdmitStep(old(View()), old(budget.View()), reserved)
      ensures budget.used <= budget.limit
    {
      if admitted >= maxWorkers {
        return false;
      }
      admitted := admitted + 1;
      if initial {
        initial := false;
        out := out + 1;
        return true;
      }
      granted := budget.Acquire(reserved);
      if !granted {
        admitted := admitted - 1;
        return false;
      }
      out := out + 1;
    }
  }

  // ---------------------------------------------------------------- the query

  datatype Plan = Plan(scans: nat, sealed: bool)

  datatype Query = Query(budget: BudgetState, plans: map<nat, Plan>, current: Option<nat>, scans: map<nat, Scan>)

  datatype Step =
    | Register(id: nat, plan: nat, files: nat)
    | Initialise(id: nat, reserved: bool)
    | Admit(id: nat, reserved: bool)
    | Release(id: nat)
    | Close(id: nat)
    | QueryEnd

  function Workers(q: Query, s: Scan): nat {
    var slots := if s.plan in q.plans && q.plans[s.plan].scans > 0 then Slots(q.budget) / q.plans[s.plan].scans else 0;
    Min(Max(1, slots), Max(1, s.files))
  }

  /** Which steps the program can take; a new plan count is made when the last one is sealed or forgotten. */
  predicate Enabled(q: Query, step: Step) {
    match step
    case Register(id, plan, files) =>
      id !in q.scans
      && if q.current.Some? && q.current.value in q.plans && !q.plans[q.current.value].sealed then plan == q.current.value
         else plan !in q.plans
    case Initialise(id, _) => id in q.scans && q.scans[id].Bound? && q.scans[id].plan in q.plans
    case Admit(id, _) => id in q.scans && q.scans[id].Running?
    case Release(id) => id in q.scans && q.scans[id].Running? && q.scans[id].out > 0
    case Close(id) => id in q.scans && q.scans[id].Running?
    case QueryEnd => true
  }

  /** The budget after a scan with files reserves its first worker, and whether it could. */
  function FirstWorker(q: Query, id: nat, reserved: bool): (BudgetState, bool)
    requires id in q.scans
  {
    if q.scans[id].files == 0 then (q.budget, true) else Acquired(q.budget, reserved)
  }

  /** What a step does; a scan that cannot reserve its first worker stops the query. */
  function Next(q: Query, step: Step): Option<Query>
    requires Enabled(q, step)
  {
    match step
    case Register(id, plan, files) =>
      var count := if plan in q.plans then q.plans[plan].scans else 0;
      Some(q.(plans := q.plans[plan := Plan(count + 1, false)], current := Some(plan),
              scans := q.scans[id := Bound(plan, files)]))
    case Initialise(id, reserved) =>
      var s := q.scans[id];
      var (budget, ok) := FirstWorker(q, id, reserved);
      if !ok then None
      else
        Some(q.(budget := budget, plans := q.plans[s.plan := q.plans[s.plan].(sealed := true)],
                scans := q.scans[id := Running(s.plan, s.files, Workers(q, s), 0, s.files > 0, 0)]))
    case Admit(id, reserved) =>
      var (s, budget, _) := AdmitStep(q.scans[id], q.budget, reserved);
      Some(q.(budget := budget, scans := q.scans[id := s]))
    case Release(id) =>
      Some(q.(budget := Freed(q.budget), scans := q.scans[id := q.scans[id].(out := q.scans[id].out - 1)]))
    case Close(id) =>
      var s := q.scans[id];
      if s.initial then Some(q.(budget := Freed(q.budget), scans := q.scans[id := s.(initial := false)])) else Some(q)
    case QueryEnd => Some(q.(current := None))
  }

  // ---------------------------------------------------------------- what every step keeps

  /** A running scan keeps to its share: never more leases alive than workers allowed. */
  predicate Moderate(s: Scan) {
    s.Running? ==>
      && s.maxWorkers >= 1 && s.admitted <= s.maxWorkers && s.out <= s.admitted
      && (s.initial ==> s.admitted == 0)
  }

  ghost predicate Exact(q: Query) {
    && q.budget.used == q.budget.worker * MapSum.Sum(q.scans, Leases)
    && q.budget.used <= q.budget.limit
    && forall id | id in q.scans :: Moderate(q.scans[id])
  }

  lemma LeasesChange(scans: map<nat, Scan>, id: nat, s: Scan)
    ensures MapSum.Sum(scans[id := s], Leases) + (if id in scans then Leases(scans[id]) else 0)
         == MapSum.Sum(scans, Leases) + Leases(s)
  {
    MapSum.SumUpdate(scans, Leases, id, s);
    if id in scans {
      MapSum.SumWithout(scans, Leases, id);
    } else {
      MapSum.SumAbsent(scans, Leases, id);
    }
  }

  lemma OneMore(worker: nat, n: nat)
    ensures worker * (n + 1) == worker * n + worker
  {
  }

  /** The step moves one scan's leases and the budget together. */
  lemma Balanced(q: Query, id: nat, s: Scan, budget: BudgetState, plans: map<nat, Plan>, current: Option<nat>)
    requires Exact(q) && Moderate(s)
    requires budget.limit == q.budget.limit && budget.worker == q.budget.worker && budget.used <= budget.limit
    requires var before := if id in q.scans then Leases(q.scans[id]) else 0;
      || (Leases(s) == before && budget.used == q.budget.used)
      || (Leases(s) == before + 1 && budget.used == q.budget.used + q.budget.worker)
      || (Leases(s) + 1 == before && budget.used + q.budget.worker == q.budget.used)
    ensures Exact(Query(budget, plans, current, q.scans[id := s]))
  {
    hide Leases;
    LeasesChange(q.scans, id, s);
    var n := MapSum.Sum(q.scans, Leases);
    OneMore(q.budget.worker, n);
    if n > 0 {
      OneMore(q.budget.worker, n - 1);
    }
    hide MapSum.Sum;
  }

  lemma HasLease(q: Query, id: nat)
    requires Exact(q) && id in q.scans && Leases(q.scans[id]) > 0
    ensures q.budget.worker <= q.budget.used && Freed(q.budget).used + q.budget.worker == q.budget.used
  {
    hide Leases, Moderate;
    MapSum.SumWithout(q.scans, Leases, id);
    var n := MapSum.Sum(q.scans, Leases);
    hide MapSum.Sum;
    OneMore(q.budget.worker, n - 1);
    assert q.budget.worker * (n - 1) >= 0;
  }

  /** Every step keeps the bytes in use equal to a worker's bytes times the live leases, within the limit, and every
      scan within its own share. */
  lemma StepExact(q: Query, step: Step)
    requires Exact(q) && Enabled(q, step)
    ensures Next(q, step).Some? ==> Exact(Next(q, step).value)
  {
    hide Exact;
    match step {
      case Register(id, plan, files) =>
        SlackExact(q);
        var count := if plan in q.plans then q.plans[plan].scans else 0;
        Balanced(q, id, Bound(plan, files), q.budget, q.plans[plan := Plan(count + 1, false)], Some(plan));
      case Initialise(id, reserved) => InitialiseExact(q, id, reserved);
      case Admit(id, reserved) => AdmitExact(q, id, reserved);
      case Release(id) =>
        SlackExact(q);
        ScanModerate(q, id);
        HasLease(q, id);
        Balanced(q, id, q.scans[id].(out := q.scans[id].out - 1), Freed(q.budget), q.plans, q.current);
      case Close(id) =>
        SlackExact(q);
        ScanModerate(q, id);
        if q.scans[id].initial {
          HasLease(q, id);
          Balanced(q, id, q.scans[id].(initial := false), Freed(q.budget), q.plans, q.current);
        }
      case QueryEnd => EndExact(q);
    }
  }

  lemma EndExact(q: Query)
    requires Exact(q)
    ensures Exact(q.(current := None))
  {
  }

  lemma SlackExact(q: Query)
    requires Exact(q)
    ensures q.budget.used <= q.budget.limit
  {
  }

  lemma ScanModerate(q: Query, id: nat)
    requires Exact(q) && id in q.scans
    ensures Moderate(q.scans[id])
  {
  }

  lemma InitialiseExact(q: Query, id: nat, reserved: bool)
    requires Exact(q) && Enabled(q, Initialise(id, reserved))
    ensures Next(q, Initialise(id, reserved)).Some? ==> Exact(Next(q, Initialise(id, reserved)).value)
  {
    hide Exact, Workers;
    SlackExact(q);
    var s := q.scans[id];
    WorkersPositive(q, s);
    var first := FirstWorker(q, id, reserved);
    if first.1 {
      Balanced(q, id, Running(s.plan, s.files, Workers(q, s), 0, s.files > 0, 0), first.0,
               q.plans[s.plan := q.plans[s.plan].(sealed := true)], q.current);
    }
  }

  lemma WorkersPositive(q: Query, s: Scan)
    ensures Workers(q, s) >= 1
  {
  }

  lemma AdmitExact(q: Query, id: nat, reserved: bool)
    requires Exact(q) && Enabled(q, Admit(id, reserved))
    ensures Next(q, Admit(id, reserved)).Some? && Exact(Next(q, Admit(id, reserved)).value)
  {
    hide Exact;
    SlackExact(q);
    ScanModerate(q, id);
    var after := AdmitStep(q.scans[id], q.budget, reserved);
    Balanced(q, id, after.0, after.1, q.plans, q.current);
  }

  // ---------------------------------------------------------------- with every scan registered first

  /** All scans of the query share one plan that counted them all, each takes at most its share of the slots, and
      there are at least as many slots as scans. */
  ghost predicate Fair(q: Query, n: nat) {
    && n > 0 && |q.scans| == n && q.budget.worker > 0 && Slots(q.budget) >= n
    && (exists plan :: plan in q.plans && q.plans[plan].scans == n && forall id | id in q.scans :: q.scans[id].plan == plan)
    && (forall id | id in q.scans && q.scans[id].Running? :: q.scans[id].maxWorkers <= Slots(q.budget) / n)
  }

  lemma {:induction false} LeasesBounded(scans: map<nat, Scan>, share: nat)
    requires share >= 1
    requires forall id | id in scans :: Moderate(scans[id]) && (scans[id].Running? ==> scans[id].maxWorkers <= share)
    ensures MapSum.Sum(scans, Leases) <= |scans| * share
    decreases |scans|
  {
    if scans != map[] {
      var id :| id in scans;
      MapSum.SumWithout(scans, Leases, id);
      var rest := scans - {id};
      assert rest.Keys == scans.Keys - {id};
      assert |rest| == |rest.Keys| && |scans| == |scans.Keys|;
      LeasesBounded(rest, share);
      assert (|rest| + 1) * share == |rest| * share + share;
    }
  }

  lemma SharesFit(limit: nat, worker: nat, n: nat)
    requires worker > 0 && n > 0 && limit / worker >= n
    ensures worker * ((n - 1) * (limit / worker / n)) + worker <= limit
  {
    var slots := limit / worker;
    var share := slots / n;
    assert share >= 1 by { DivideAtLeast(slots, n); }
    assert n * share <= slots by { DivideUnder(slots, n); }
    assert n * share == (n - 1) * share + share;
    assert (n - 1) * share + 1 <= slots;
    assert worker * slots <= limit by { DivideUnder(limit, worker); }
    Scaled(worker, (n - 1) * share + 1, slots);
    OneMore(worker, (n - 1) * share);
  }

  lemma DivideUnder(a: nat, b: nat)
    requires b > 0
    ensures b * (a / b) <= a
  {
  }

  lemma DivideAtLeast(a: nat, b: nat)
    requires b > 0 && a >= b
    ensures a / b >= 1
  {
  }

  lemma Scaled(k: nat, a: nat, b: nat)
    requires a <= b
    ensures k * a <= k * b
  {
  }

  /** In a fair query the first worker of a scan that has not started always fits. */
  lemma InitialFits(q: Query, n: nat, id: nat)
    requires Exact(q) && Fair(q, n) && id in q.scans && q.scans[id].Bound?
    ensures q.budget.used + q.budget.worker <= q.budget.limit
  {
    var share, others := Slots(q.budget) / n, q.scans - {id};
    assert others.Keys == q.scans.Keys - {id};
    assert |others| == |others.Keys| && |q.scans| == |q.scans.Keys|;
    MapSum.SumWithout(q.scans, Leases, id);
    DivideAtLeast(Slots(q.budget), n);
    LeasesBounded(others, share);
    SharesFit(q.budget.limit, q.budget.worker, n);
    hide MapSum.Sum;
    Scaled(q.budget.worker, MapSum.Sum(q.scans, Leases), (n - 1) * share);
  }

  lemma FairWorkers(q: Query, n: nat, id: nat)
    requires Fair(q, n) && id in q.scans
    ensures Workers(q, q.scans[id]) <= Slots(q.budget) / n
  {
    DivideAtLeast(Slots(q.budget), n);
  }

  predicate Granted(step: Step) {
    !step.Register? && (step.Initialise? ==> step.reserved)
  }

  lemma FairChange(q: Query, n: nat, id: nat, s: Scan, budget: BudgetState, plans: map<nat, Plan>, current: Option<nat>)
    requires Fair(q, n) && id in q.scans && s.plan == q.scans[id].plan
    requires budget.limit == q.budget.limit && budget.worker == q.budget.worker
    requires s.Running? ==> s.maxWorkers <= Slots(q.budget) / n
    requires forall p | p in q.plans :: p in plans && plans[p].scans == q.plans[p].scans
    ensures Fair(Query(budget, plans, current, q.scans[id := s]), n)
  {
    var after := Query(budget, plans, current, q.scans[id := s]);
    assert after.scans.Keys == q.scans.Keys;
    assert |after.scans| == |after.scans.Keys| && |q.scans| == |q.scans.Keys|;
    var plan :| plan in q.plans && q.plans[plan].scans == n && forall i | i in q.scans :: q.scans[i].plan == plan;
    assert plan in after.plans && after.plans[plan].scans == n;
    assert forall i | i in after.scans :: after.scans[i].plan == plan;
  }

  /** With all scans registered before the first initialises, slots for each, and memory granted when a scan starts, no
      step fails: every scan gets its first worker, in every interleaving of starting, admitting and releasing. */
  lemma FairStep(q: Query, n: nat, step: Step)
    requires Exact(q) && Fair(q, n) && Enabled(q, step) && Granted(step)
    ensures Next(q, step).Some? && Fair(Next(q, step).value, n) && Exact(Next(q, step).value)
  {
    hide Exact, Fair, Slots, Workers;
    match step {
      case Initialise(id, reserved) =>
        InitialFits(q, n, id);
        FairWorkers(q, n, id);
        var s := q.scans[id];
        FairChange(q, n, id, Running(s.plan, s.files, Workers(q, s), 0, s.files > 0, 0), FirstWorker(q, id, reserved).0,
                   q.plans[s.plan := q.plans[s.plan].(sealed := true)], q.current);
      case Admit(id, reserved) =>
        var after := AdmitStep(q.scans[id], q.budget, reserved);
        FairShare(q, n, id);
        FairChange(q, n, id, after.0, after.1, q.plans, q.current);
      case Release(id) =>
        FairShare(q, n, id);
        FairChange(q, n, id, q.scans[id].(out := q.scans[id].out - 1), Freed(q.budget), q.plans, q.current);
      case Close(id) =>
        FairShare(q, n, id);
        FairChange(q, n, id, q.scans[id].(initial := false), Freed(q.budget), q.plans, q.current);
      case QueryEnd => FairEnd(q, n);
    }
    StepExact(q, step);
  }

  lemma FairShare(q: Query, n: nat, id: nat)
    requires Fair(q, n) && id in q.scans && q.scans[id].Running?
    ensures q.scans[id].maxWorkers <= Slots(q.budget) / n
  {
  }

  lemma FairEnd(q: Query, n: nat)
    requires Fair(q, n)
    ensures Fair(q.(current := None), n)
  {
    var plan :| plan in q.plans && q.plans[plan].scans == n && forall i | i in q.scans :: q.scans[i].plan == plan;
  }

  // ---------------------------------------------------------------- whole runs

  ghost function Run(q: Query, steps: seq<Step>): Option<Query> {
    if steps == [] then Some(q)
    else
      var before := Run(q, steps[..|steps| - 1]);
      if before.None? || !Enabled(before.value, steps[|steps| - 1]) then None
      else Next(before.value, steps[|steps| - 1])
  }

  /** Every step of the run was possible when it was taken. */
  ghost predicate AllEnabled(q: Query, steps: seq<Step>) {
    forall i | 0 <= i < |steps| :: Run(q, steps[..i]).Some? ==> Enabled(Run(q, steps[..i]).value, steps[i])
  }

  lemma {:induction false} FairRun(q: Query, n: nat, steps: seq<Step>)
    requires Exact(q) && Fair(q, n) && AllEnabled(q, steps)
    requires forall i | 0 <= i < |steps| :: Granted(steps[i])
    ensures Run(q, steps).Some? && Fair(Run(q, steps).value, n) && Exact(Run(q, steps).value)
  {
    hide Exact, Fair, Next, Granted;
    if steps != [] {
      var k := |steps| - 1;
      assert forall i | 0 <= i < k :: steps[..k][..i] == steps[..i];
      FairRun(q, n, steps[..k]);
      FairStep(Run(q, steps[..k]).value, n, steps[k]);
    }
  }

  // ---------------------------------------------------------------- exactly when a start succeeds

  /** Every query reached from an empty one, whatever registers, starts, is admitted, released or closed, has exact
      accounts. */
  lemma {:induction false} RunExact(limit: nat, worker: nat, steps: seq<Step>)
    ensures var run := Run(Query(BudgetState(limit, worker, 0), map[], None, map[]), steps);
      run.Some? ==> Exact(run.value) && run.value.budget.limit == limit && run.value.budget.worker == worker
  {
    var q := Query(BudgetState(limit, worker, 0), map[], None, map[]);
    if steps == [] {
      NoLeases(map[]);
      assert Run(q, steps) == Some(q);
    } else {
      hide Exact, Next, Enabled;
      var n := |steps| - 1;
      RunExact(limit, worker, steps[..n]);
      var before := Run(q, steps[..n]);
      if before.Some? && Enabled(before.value, steps[n]) {
        StepExact(before.value, steps[n]);
        if Run(q, steps).Some? {
          RunKeepsBudget(q, steps);
        }
      }
    }
  }

  lemma RoomInSlots(limit: nat, worker: nat, n: nat)
    requires worker > 0
    ensures worker * n + worker <= limit <==> n < limit / worker
  {
    OneMore(worker, n);
    if n < limit / worker {
      Scaled(worker, n + 1, limit / worker);
      DivideUnder(limit, worker);
    } else {
      Scaled(worker, limit / worker, n);
      assert limit < worker * (limit / worker) + worker;
    }
  }

  /** In every reachable query, with the reservation granted, a scan starts exactly when it has no files or fewer
      leases are alive than there are slots; without the grant, exactly when it has no files. */
  lemma StartsExactly(q: Query, id: nat, reserved: bool)
    requires Exact(q) && Enabled(q, Initialise(id, reserved)) && q.budget.worker > 0
    ensures Next(q, Initialise(id, reserved)).Some? <==>
      q.scans[id].files == 0 || (reserved && MapSum.Sum(q.scans, Leases) < Slots(q.budget))
  {
    RoomInSlots(q.budget.limit, q.budget.worker, MapSum.Sum(q.scans, Leases));
    hide MapSum.Sum;
  }

  /** A worker is admitted exactly when the scan has a place left and its first worker is still to be handed out, or
      the reservation is granted and fewer leases are alive than there are slots. */
  lemma AdmitsExactly(q: Query, id: nat, reserved: bool)
    requires Exact(q) && Enabled(q, Admit(id, reserved)) && q.budget.worker > 0
    ensures AdmitStep(q.scans[id], q.budget, reserved).2 <==>
      && q.scans[id].admitted < q.scans[id].maxWorkers
      && (q.scans[id].initial || (reserved && MapSum.Sum(q.scans, Leases) < Slots(q.budget)))
  {
    RoomInSlots(q.budget.limit, q.budget.worker, MapSum.Sum(q.scans, Leases));
    hide MapSum.Sum;
  }

  // ---------------------------------------------------------------- a scan registered late

  /** The steps of one scan that starts alone and takes every slot. */
  function TakesAll(first: nat, slots: nat): seq<Step> {
    [Register(first, 0, slots), Initialise(first, true)] + seq(slots, _ => Admit(first, true))
  }

  /** That query after `k` workers were admitted. */
  function Taken(limit: nat, worker: nat, first: nat, slots: nat, k: nat): Query {
    Query(BudgetState(limit, worker, worker * Max(1, k)), map[0 := Plan(1, true)], Some(0),
          map[first := Running(0, slots, slots, k, k == 0, k)])
  }

  lemma StartsAlone(limit: nat, worker: nat, first: nat)
    requires worker > 0 && limit / worker >= 1
    ensures var q := Query(BudgetState(limit, worker, 0), map[], None, map[]);
      var slots := limit / worker;
      Run(q, TakesAll(first, slots)[..2]) == Some(Taken(limit, worker, first, slots, 0))
  {
    var q, slots := Query(BudgetState(limit, worker, 0), map[], None, map[]), limit / worker;
    var a, b := Register(first, 0, slots), Initialise(first, true);
    DivideUnder(limit, worker);
    Scaled(worker, 1, slots);
    assert TakesAll(first, slots)[..2] == [a, b];
    assert [a, b][..1] == [a] && [a][..0] == [];
    assert Run(q, []) == Some(q);
    var bound := Next(q, a).value;
    assert Run(q, [a]) == Some(bound);
    assert slots / 1 == slots;
    assert Run(q, [a, b]) == Next(bound, b);
    var started := Next(bound, b).value;
    assert started.plans == map[0 := Plan(1, true)];
    assert started.scans == map[first := Running(0, slots, slots, 0, true, 0)];
  }

  lemma {:induction false} TakesOneByOne(limit: nat, worker: nat, first: nat, k: nat)
    requires worker > 0 && limit / worker >= 1 && k <= limit / worker
    ensures var q := Query(BudgetState(limit, worker, 0), map[], None, map[]);
      var slots := limit / worker;
      Run(q, TakesAll(first, slots)[..2 + k]) == Some(Taken(limit, worker, first, slots, k))
  {
    var q, slots := Query(BudgetState(limit, worker, 0), map[], None, map[]), limit / worker;
    if k == 0 {
      StartsAlone(limit, worker, first);
    } else {
      TakesOneByOne(limit, worker, first, k - 1);
      hide Run;
      var steps := TakesAll(first, slots)[..2 + k];
      assert steps[..1 + k] == TakesAll(first, slots)[..2 + (k - 1)] && steps[1 + k] == Admit(first, true);
      RunOneMore(q, steps);
      TakesOne(limit, worker, first, slots, k);
    }
  }

  lemma RunOneMore(q: Query, steps: seq<Step>)
    requires steps != []
    ensures var n := |steps| - 1;
      var before := Run(q, steps[..n]);
      Run(q, steps) == if before.None? || !Enabled(before.value, steps[n]) then None else Next(before.value, steps[n])
  {
    hide Next, Enabled;
  }

  lemma TakesOne(limit: nat, worker: nat, first: nat, slots: nat, k: nat)
    requires worker > 0 && slots == limit / worker && 0 < k <= slots
    ensures var t := Taken(limit, worker, first, slots, k - 1);
      Enabled(t, Admit(first, true)) && Next(t, Admit(first, true)) == Some(Taken(limit, worker, first, slots, k))
  {
    var t, after := Taken(limit, worker, first, slots, k - 1), Taken(limit, worker, first, slots, k);
    if k > 1 {
      OneMore(worker, k - 1);
      Scaled(worker, k, slots);
      DivideUnder(limit, worker);
    }
    var s := AdmitStep(t.scans[first], t.budget, true).0;
    assert t.scans[first := s] == after.scans;
  }

  /** Whatever the budget, a scan registered after another has started is counted apart, and the first may by then
      hold every slot: the late scan, though it has files and its reservation is granted, cannot start. */
  lemma LateScanFails(limit: nat, worker: nat, first: nat, late: nat, files: nat)
    requires worker > 0 && limit / worker >= 1 && first != late && files > 0
    ensures var q := Query(BudgetState(limit, worker, 0), map[], None, map[]);
      var run := Run(q, TakesAll(first, limit / worker) + [Register(late, 1, files)]);
      && run.Some? && Enabled(run.value, Initialise(late, true)) && Next(run.value, Initialise(late, true)).None?
  {
    var q, slots := Query(BudgetState(limit, worker, 0), map[], None, map[]), limit / worker;
    var steps := TakesAll(first, slots) + [Register(late, 1, files)];
    TakesOneByOne(limit, worker, first, slots);
    hide Run;
    assert steps[..2 + slots] == TakesAll(first, slots) == TakesAll(first, slots)[..2 + slots];
    RunOneMore(q, steps);
    RoomInSlots(limit, worker, slots);
  }

  // ---------------------------------------------------------------- registering first

  /** The query once scans with these files were bound one after another and none has started. */
  function Registered(budget: BudgetState, files: seq<nat>): Query {
    Query(budget, if files == [] then map[] else map[0 := Plan(|files|, false)], if files == [] then None else Some(0),
          map id: nat | 0 <= id < |files| :: Bound(0, files[id]))
  }

  /** Registering the next scan joins the plan of those before it. */
  lemma RegistersOne(budget: BudgetState, files: seq<nat>, more: nat)
    ensures var q := Registered(budget, files);
      Enabled(q, Register(|files|, 0, more))
      && Next(q, Register(|files|, 0, more)) == Some(Registered(budget, files + [more]))
  {
    var q := Registered(budget, files);
    var after := Registered(budget, files + [more]);
    assert q.scans[|files| := Bound(0, more)] == after.scans;
    assert q.plans[0 := Plan(|files| + 1, false)] == after.plans;
  }

  lemma {:induction false} NoLeases(scans: map<nat, Scan>)
    requires forall id | id in scans :: scans[id].Bound?
    ensures MapSum.Sum(scans, Leases) == 0
    decreases |scans|
  {
    if scans != map[] {
      var id :| id in scans;
      MapSum.SumWithout(scans, Leases, id);
      assert |scans - {id}| < |scans| by {
        assert (scans - {id}).Keys == scans.Keys - {id};
        assert |scans - {id}| == |(scans - {id}).Keys| && |scans| == |scans.Keys|;
      }
      NoLeases(scans - {id});
    }
  }

  lemma {:induction false} Numbered(files: seq<nat>)
    ensures |map id: nat | 0 <= id < |files| :: Bound(0, files[id])| == |files|
  {
    var scans := map id: nat | 0 <= id < |files| :: Bound(0, files[id]);
    if files == [] {
      assert scans == map[];
    } else {
      var n := |files| - 1;
      Numbered(files[..n]);
      var fewer := map id: nat | 0 <= id < n :: Bound(0, files[..n][id]);
      assert scans.Keys == fewer.Keys + {n};
      assert |scans| == |scans.Keys| && |fewer| == |fewer.Keys|;
    }
  }

  lemma RegisteredFair(limit: nat, worker: nat, files: seq<nat>)
    requires worker > 0 && 0 < |files| <= limit / worker
    ensures var q := Registered(BudgetState(limit, worker, 0), files); Exact(q) && Fair(q, |files|)
  {
    var q := Registered(BudgetState(limit, worker, 0), files);
    NoLeases(q.scans);
    Numbered(files);
    assert 0 in q.plans && q.plans[0].scans == |files|;
  }

  /** The guarantee: register every scan before the first starts, with at least one slot each; then in every
      interleaving every scan that starts gets its first worker, the bytes in use are exactly those of the live leases
      and within the limit, and no scan holds more leases than its share. */
  lemma AdmissionGuarantee(limit: nat, worker: nat, files: seq<nat>, steps: seq<Step>, id: nat)
    requires worker > 0 && 0 < |files| <= limit / worker
    requires AllEnabled(Registered(BudgetState(limit, worker, 0), files), steps)
    requires forall i | 0 <= i < |steps| :: Granted(steps[i])
    ensures var run := Run(Registered(BudgetState(limit, worker, 0), files), steps);
      && run.Some? && run.value.budget.limit == limit && run.value.budget.worker == worker
      && run.value.budget.used == worker * MapSum.Sum(run.value.scans, Leases) <= limit
      && (id in run.value.scans ==> Leases(run.value.scans[id]) <= Max(1, limit / worker / |files|))
  {
    hide Run, AllEnabled, Granted, Registered;
    var q := Registered(BudgetState(limit, worker, 0), files);
    RegisteredFair(limit, worker, files);
    FairRun(q, |files|, steps);
    RunKeepsBudget(q, steps);
    RegisteredBudget(limit, worker, files);
    var after := Run(q, steps).value;
    if id in after.scans {
      ShareHeld(after, |files|, id);
    }
  }

  lemma RegisteredBudget(limit: nat, worker: nat, files: seq<nat>)
    ensures Registered(BudgetState(limit, worker, 0), files).budget == BudgetState(limit, worker, 0)
  {
  }

  lemma ShareHeld(q: Query, n: nat, id: nat)
    requires Exact(q) && Fair(q, n) && id in q.scans
    ensures Leases(q.scans[id]) <= Max(1, Slots(q.budget) / n)
  {
    hide MapSum.Sum;
    assert Moderate(q.scans[id]);
  }

  lemma {:induction false} RunKeepsBudget(q: Query, steps: seq<Step>)
    requires Run(q, steps).Some?
    ensures Run(q, steps).value.budget.limit == q.budget.limit && Run(q, steps).value.budget.worker == q.budget.worker
  {
    if steps != [] {
      RunKeepsBudget(q, steps[..|steps| - 1]);
    }
  }

  // ---------------------------------------------------------------- row ids

  /** A file's own row id as one of the query's: none when it would not fit in 64 bits. */
  function ScanRowId(localId: U64, file: U64, files: U64): (id: Option<U64>)
    ensures id.Some? <==> localId > 0 && file < files && (localId - 1) * files + file + 1 <= U64_MAX
  {
    if localId == 0 || files == 0 || file >= files then None
    else
      Fits(localId - 1, file, files);
      if localId - 1 > (U64_MAX - (file + 1)) / files then None
      else Some((localId - 1) * files + file + 1)
  }

  lemma Fits(n: nat, file: nat, files: nat)
    requires file < files <= U64_MAX
    ensures n > (U64_MAX - (file + 1)) / files <==> n * files + file + 1 > U64_MAX
  {
    var room := U64_MAX - (file + 1);
    if n <= room / files {
      Scaled(files, n, room / files);
      DivideUnder(room, files);
    } else {
      Scaled(files, room / files + 1, n);
      assert room < files * (room / files) + files;
    }
  }

  /** Different rows of a query never share an id. */
  lemma RowIdsDistinct(n: U64, f: U64, m: U64, g: U64, files: U64)
    requires ScanRowId(n, f, files).Some? && ScanRowId(n, f, files) == ScanRowId(m, g, files)
    ensures n == m && f == g
  {
    var a, b := n - 1, m - 1;
    assert a * files + f == b * files + g;
    if a < b {
      Scaled(files, a + 1, b);
    } else if b < a {
      Scaled(files, b + 1, a);
    }
  }
}
