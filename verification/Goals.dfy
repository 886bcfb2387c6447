/** The durable goal ledger: the manager's transitions, and the planner tick interleaved with
    operator calls. Every manager call runs under one lock, so it is one atomic step; a tick
    is a sequence of such steps with other callers in between. */
module Goals {
  import opened Options
  import opened PyText

  type Id = nat

  datatype TaskState = Ready | Active | Blocked | Completed | Failed | Cancelled

  datatype GoalStatus = Running | Paused | Achieved | Abandoned   // active, paused, completed, cancelled

  datatype Task = Task(
    id: Id, title: string, rationale: string, criteria: seq<string>, planned: bool,
    state: TaskState, updatedAt: int, completedAt: Option<int>)

  datatype Goal = Goal(id: Id, objective: string, status: GoalStatus, updatedAt: int, tasks: seq<Task>)

  datatype Error =
    | BadObjective | BadTask | UnknownGoal | GoalNotActive | UnresolvedWork
    | UnknownTask | InvalidTransition | TerminalGoal
    | NoProposal   // the proposer raised

  datatype Result<T> = Ok(value: T) | Err(error: Error)

  /** `_ALLOWED_TASK_TRANSITIONS` */
  function Allowed(s: TaskState): set<TaskState> {
    match s
    case Ready => {Active, Blocked, Completed, Failed, Cancelled}
    case Active => {Ready, Blocked, Completed, Failed, Cancelled}
    case Blocked => {Ready, Failed, Cancelled}
    case Failed => {Ready, Cancelled}
    case Completed => {}
    case Cancelled => {}
  }

  /** `TERMINAL_TASK_STATES` counts FAILED as resolved. */
  predicate Resolved(s: TaskState) {
    s == Completed || s == Failed || s == Cancelled
  }

  predicate Live(g: Goal) {
    g.status == Running || g.status == Paused
  }

  predicate Ended(g: Goal) {
    g.status == Achieved || g.status == Abandoned
  }

  // ----- input cleaning -----

  function CleanObjective(s: string): Option<string> {
    var v := Strip(s);
    if 1 <= |v| <= 4000 then Some(v) else None
  }

  function CleanCriteria(cs: seq<string>): seq<string> {
    if cs == [] then []
    else
      var c := Strip(cs[|cs| - 1]);
      CleanCriteria(cs[..|cs| - 1]) + (if c == "" then [] else [c])
  }

  predicate TaskTextOk(title: string, rationale: string, criteria: seq<string>) {
    && 1 <= |Strip(title)| <= 240 && |Strip(rationale)| <= 2000
    && 1 <= |CleanCriteria(criteria)| <= 6
    && forall i :: 0 <= i < |CleanCriteria(criteria)| ==> |CleanCriteria(criteria)[i]| <= 400
  }

  datatype PlannedStep = PlannedStep(title: string, rationale: string, criteria: seq<string>)

  /** `_validated_step`, on the texts of a decoded proposal; None where it raises. `criteria`
      is None when it is not a list. */
  function ValidatedStep(title: string, rationale: string, criteria: Option<seq<string>>): Option<PlannedStep> {
    if criteria.None? then None
    else if !(1 <= |Strip(title)| <= 240) || |Strip(rationale)| > 2000 then None
    else
      var cs := CleanCriteria(criteria.value);
      if !(1 <= |cs| <= 6) || exists i :: 0 <= i < |cs| && |cs[i]| > 400 then None
      else Some(PlannedStep(Strip(title), Strip(rationale), cs))
  }

  lemma CleanSnoc(cs: seq<string>, c: string)
    ensures CleanCriteria(cs + [c]) == CleanCriteria(cs) + (if Strip(c) == "" then [] else [Strip(c)])
  {
    hide Strip;
    assert (cs + [c])[..|cs|] == cs;
  }

  lemma CleanNothing()
    ensures CleanCriteria([]) == []
  {
  }

  lemma {:induction false} CleanTwice(cs: seq<string>)
    ensures CleanCriteria(CleanCriteria(cs)) == CleanCriteria(cs)
  {
    hide Strip, CleanCriteria;
    if cs == [] {
      CleanNothing();
    } else {
      var n := |cs| - 1;
      CleanTwice(cs[..n]);
      StripTwice(cs[n]);
      CleanSnoc(CleanCriteria(cs[..n]), Strip(cs[n]));
      CleanSnoc(cs[..n], cs[n]);
      assert cs == cs[..n] + [cs[n]] && CleanCriteria(cs[..n]) + [] == CleanCriteria(cs[..n]);
    }
  }

  /** A proposal that passes the planner's validation is never refused by the manager for its
      text, and is stored exactly as validated: the two sets of checks agree. */
  lemma ValidatedIsAccepted(title: string, rationale: string, criteria: seq<string>)
    ensures ValidatedStep(title, rationale, Some(criteria)).Some? <==> TaskTextOk(title, rationale, criteria)
    ensures var step := ValidatedStep(title, rationale, Some(criteria));
            step.Some? ==>
              && TaskTextOk(step.value.title, step.value.rationale, step.value.criteria)
              && Strip(step.value.title) == step.value.title && Strip(step.value.rationale) == step.value.rationale
              && CleanCriteria(step.value.criteria) == step.value.criteria
  {
    hide Strip, CleanCriteria;
    StripTwice(title);
    StripTwice(rationale);
    CleanTwice(criteria);
  }

  // ----- lookups -----

  /** The index of the first goal with an id, or the number of goals. */
  function GoalIndex(l: seq<Goal>, id: Id): (i: nat)
    ensures i <= |l|
    ensures i < |l| ==> l[i].id == id
    ensures forall j :: 0 <= j < i ==> l[j].id != id
  {
    if l == [] then 0
    else
      var i := GoalIndex(l[..|l| - 1], id);
      if i < |l| - 1 then i else if l[|l| - 1].id == id then |l| - 1 else |l|
  }

  function LiveIndex(l: seq<Goal>): (i: nat)
    ensures i <= |l|
    ensures i < |l| ==> Live(l[i])
    ensures forall j :: 0 <= j < i ==> !Live(l[j])
  {
    if l == [] then 0
    else
      var i := LiveIndex(l[..|l| - 1]);
      if i < |l| - 1 then i else if Live(l[|l| - 1]) then |l| - 1 else |l|
  }

  function TaskIndex(ts: seq<Task>, id: Id): (i: nat)
    ensures i <= |ts|
    ensures i < |ts| ==> ts[i].id == id
    ensures forall j :: 0 <= j < i ==> ts[j].id != id
  {
    if ts == [] then 0
    else
      var i := TaskIndex(ts[..|ts| - 1], id);
      if i < |ts| - 1 then i else if ts[|ts| - 1].id == id then |ts| - 1 else |ts|
  }

  /** The first goal that has a task with an id, or the number of goals. */
  function OwnerIndex(l: seq<Goal>, task: Id): (i: nat)
    ensures i <= |l|
    ensures i < |l| ==> TaskIndex(l[i].tasks, task) < |l[i].tasks|
    ensures forall j :: 0 <= j < i ==> TaskIndex(l[j].tasks, task) == |l[j].tasks|
  {
    if l == [] then 0
    else
      var i := OwnerIndex(l[..|l| - 1], task);
      if i < |l| - 1 then i else if TaskIndex(l[|l| - 1].tasks, task) < |l[|l| - 1].tasks| then |l| - 1 else |l|
  }

  function Unresolved(ts: seq<Task>): nat {
    if ts == [] then 0 else Unresolved(ts[..|ts| - 1]) + (if Resolved(ts[|ts| - 1].state) then 0 else 1)
  }

  // ----- the four transitions of the manager -----

  function EnsurePrimary(l: seq<Goal>, objective: string, id: Id, now: int): Result<(seq<Goal>, Goal)> {
    match CleanObjective(objective)
    case None => Err(BadObjective)
    case Some(text) =>
      if LiveIndex(l) < |l| then Ok((l, l[LiveIndex(l)]))
      else var g := Goal(id, text, Running, now, []); Ok((l + [g], g))
  }

  function AddTask(l: seq<Goal>, goal: Id, title: string, rationale: string, criteria: seq<string>, planned: bool,
                   id: Id, now: int)
    : Result<(seq<Goal>, Task)>
  {
    if !TaskTextOk(title, rationale, criteria) then Err(BadTask)
    else if GoalIndex(l, goal) == |l| then Err(UnknownGoal)
    else
      var i := GoalIndex(l, goal);
      if l[i].status != Running then Err(GoalNotActive)
      else if Unresolved(l[i].tasks) > 0 then Err(UnresolvedWork)
      else
        var t := Task(id, Strip(title), Strip(rationale), CleanCriteria(criteria), planned, Ready, now, None);
        Ok((l[i := l[i].(tasks := l[i].tasks + [t], updatedAt := now)], t))
  }

  function MovedTask(t: Task, s: TaskState, now: int): Task {
    t.(state := s, updatedAt := now, completedAt := if s == Completed then Some(now) else t.completedAt)
  }

  function SetTaskState(l: seq<Goal>, task: Id, s: TaskState, now: int): Result<(seq<Goal>, Task)> {
    var i := OwnerIndex(l, task);
    if i == |l| then Err(UnknownTask)
    else
      var j := TaskIndex(l[i].tasks, task);
      var t := l[i].tasks[j];
      if s != t.state && s !in Allowed(t.state) then Err(InvalidTransition)
      else
        var t' := MovedTask(t, s, now);
        Ok((l[i := l[i].(tasks := l[i].tasks[j := t'], updatedAt := now)], t'))
  }

  function SetGoalStatus(l: seq<Goal>, goal: Id, s: GoalStatus, now: int): Result<(seq<Goal>, Goal)> {
    var i := GoalIndex(l, goal);
    if i == |l| then Err(UnknownGoal)
    else if Ended(l[i]) && s != l[i].status then Err(TerminalGoal)
    else var g := l[i].(status := s, updatedAt := now); Ok((l[i := g], g))
  }

  // ----- what the transitions do, case by case -----

  /** The moves a task may make. */
  predicate Permitted(t: TaskState, s: TaskState) {
    || t == s || t == Ready || t == Active
    || (t == Blocked && (s == Ready || s == Failed || s == Cancelled))
    || (t == Failed && (s == Ready || s == Cancelled))
  }

  lemma PermittedIs(t: TaskState, s: TaskState)
    ensures Permitted(t, s) <==> t == s || s in Allowed(t)
  {
  }

  /** A live goal is one that is active or paused: it is returned, and only without one a goal
      is founded. */
  lemma EnsurePrimaryIs(l: seq<Goal>, objective: string, id: Id, now: int)
    ensures var r, text := EnsurePrimary(l, objective, id, now), Strip(objective);
            && (r.Err? <==> text == "" || |text| > 4000) && (r.Err? ==> r.error == BadObjective)
            && (r.Ok? && (exists g :: g in l && (g.status == Running || g.status == Paused)) ==>
                  && r.value.0 == l && r.value.1 in l && (r.value.1.status == Running || r.value.1.status == Paused))
            && (r.Ok? && (forall g :: g in l ==> g.status == Achieved || g.status == Abandoned) ==>
                  r.value.0 == l + [r.value.1] && r.value.1 == Goal(id, text, Running, now, []))
  {
    hide Strip;
    assert forall i :: 0 <= i < |l| ==> l[i] in l;
    if g :| g in l && (g.status == Running || g.status == Paused) {
      var i :| 0 <= i < |l| && l[i] == g;
    }
  }

  /** The criteria kept are the stripped ones that are not blank. */
  lemma {:induction false} CleanIs(cs: seq<string>, c: string)
    ensures c in CleanCriteria(cs) <==> c != "" && exists i :: 0 <= i < |cs| && Strip(cs[i]) == c
  {
    hide Strip;
    if cs != [] {
      var n := |cs| - 1;
      CleanIs(cs[..n], c);
      assert forall i :: 0 <= i < n ==> cs[..n][i] == cs[i];
    }
  }

  ghost predicate AddedTo(l: seq<Goal>, m: seq<Goal>, i: nat, goal: Id, t: Task, now: int) {
    && i < |l| && l[i].id == goal && l[i].status == Running
    && (forall j :: 0 <= j < |l[i].tasks| ==> IsResolved(l[i].tasks[j]))
    && m == l[i := l[i].(tasks := l[i].tasks + [t], updatedAt := now)]
  }

  predicate IsResolved(t: Task) {
    t.state == Completed || t.state == Failed || t.state == Cancelled
  }

  /** A task is added to an active goal with nothing unresolved; each error says what is wrong. */
  lemma AddTaskIs(l: seq<Goal>, goal: Id, title: string, rationale: string, criteria: seq<string>, planned: bool,
                  id: Id, now: int)
    ensures var r, cs := AddTask(l, goal, title, rationale, criteria, planned, id, now), CleanCriteria(criteria);
            && (r == Err(BadTask) <==>
                || Strip(title) == "" || |Strip(title)| > 240 || |Strip(rationale)| > 2000
                || cs == [] || |cs| > 6 || exists i :: 0 <= i < |cs| && |cs[i]| > 400)
            && (r == Err(UnknownGoal) ==> forall i :: 0 <= i < |l| ==> l[i].id != goal)
            && (r == Err(GoalNotActive) ==> exists i :: 0 <= i < |l| && l[i].id == goal && l[i].status != Running)
            && (r == Err(UnresolvedWork) ==>
                  exists i, j :: 0 <= i < |l| && 0 <= j < |l[i].tasks| && l[i].id == goal && !IsResolved(l[i].tasks[j]))
            && (r.Err? ==> r.error in {BadTask, UnknownGoal, GoalNotActive, UnresolvedWork})
            && (r.Ok? ==>
                  && r.value.1 == Task(id, Strip(title), Strip(rationale), cs, planned, Ready, now, None)
                  && exists i :: AddedTo(l, r.value.0, i, goal, r.value.1, now))
  {
    hide Strip, CleanCriteria, Unresolved;
    var i := GoalIndex(l, goal);
    if i < |l| {
      AnyUnresolved(l[i].tasks);
      assert forall j :: 0 <= j < |l[i].tasks| ==> (IsResolved(l[i].tasks[j]) <==> Resolved(l[i].tasks[j].state));
      var r := AddTask(l, goal, title, rationale, criteria, planned, id, now);
      if r.Ok? { assert AddedTo(l, r.value.0, i, goal, r.value.1, now); }
    }
  }

  /** Task `j` of goal `i` has moved to `s`; a completed one gets its time. */
  ghost predicate MovedTo(l: seq<Goal>, m: seq<Goal>, i: nat, j: nat, s: TaskState, now: int) {
    && i < |l| && j < |l[i].tasks|
    && var t := l[i].tasks[j];
    var moved := t.(state := s, updatedAt := now, completedAt := if s == Completed then Some(now) else t.completedAt);
    m == l[i := l[i].(tasks := l[i].tasks[j := moved], updatedAt := now)]
  }

  /** A task that exists moves exactly when its move is permitted, and nothing else does. */
  lemma SetTaskStateIs(l: seq<Goal>, task: Id, s: TaskState, now: int)
    ensures var r, i := SetTaskState(l, task, s, now), OwnerIndex(l, task);
            if i == |l| then
              r == Err(UnknownTask) && forall a, b :: 0 <= a < |l| && 0 <= b < |l[a].tasks| ==> l[a].tasks[b].id != task
            else
              var j := TaskIndex(l[i].tasks, task);
              && l[i].tasks[j].id == task
              && (r.Ok? <==> Permitted(l[i].tasks[j].state, s)) && (r.Err? ==> r.error == InvalidTransition)
              && (r.Ok? ==> MovedTo(l, r.value.0, i, j, s, now) && r.value.1 == r.value.0[i].tasks[j])
  {
    hide Allowed;
    var i := OwnerIndex(l, task);
    if i < |l| { PermittedIs(l[i].tasks[TaskIndex(l[i].tasks, task)].state, s); }
  }

  /** A goal that exists takes any status, unless it has ended with another one. */
  lemma SetGoalStatusIs(l: seq<Goal>, goal: Id, s: GoalStatus, now: int)
    ensures var r, i := SetGoalStatus(l, goal, s, now), GoalIndex(l, goal);
            if i == |l| then r == Err(UnknownGoal) && forall a :: 0 <= a < |l| ==> l[a].id != goal
            else
              && l[i].id == goal
              && (r.Ok? <==> l[i].status == Running || l[i].status == Paused || l[i].status == s)
              && (r.Err? ==> r.error == TerminalGoal)
              && (r.Ok? ==> r.value.1 == l[i].(status := s, updatedAt := now) && r.value.0 == l[i := r.value.1])
  {
  }

  // ----- the manager -----

  ghost predicate UniqueGoals(l: seq<Goal>) {
    forall i, j :: 0 <= i < j < |l| ==> l[i].id != l[j].id
  }

  ghost predicate UniqueTasks(ts: seq<Task>) {
    forall i, j :: 0 <= i < j < |ts| ==> ts[i].id != ts[j].id
  }

  /** `tuple(updated if item.id == updated.id else item for item in goals)` */
  function Replaced(l: seq<Goal>, g: Goal): seq<Goal> {
    seq(|l|, i requires 0 <= i < |l| => if l[i].id == g.id then g else l[i])
  }

  function ReplacedTask(ts: seq<Task>, t: Task): seq<Task> {
    seq(|ts|, i requires 0 <= i < |ts| => if ts[i].id == t.id then t else ts[i])
  }

  lemma ReplacedIs(l: seq<Goal>, i: nat, g: Goal)
    requires UniqueGoals(l) && i < |l| && l[i].id == g.id
    ensures Replaced(l, g) == l[i := g]
  {
  }

  lemma ReplacedTaskIs(ts: seq<Task>, i: nat, t: Task)
    requires UniqueTasks(ts) && i < |ts| && ts[i].id == t.id
    ensures ReplacedTask(ts, t) == ts[i := t]
  {
  }

  lemma {:induction false} AnyUnresolved(ts: seq<Task>)
    ensures Unresolved(ts) > 0 <==> exists i :: 0 <= i < |ts| && !Resolved(ts[i].state)
  {
    if ts != [] {
      AnyUnresolved(ts[..|ts| - 1]);
      assert ts == ts[..|ts| - 1] + [ts[|ts| - 1]];
    }
  }

  class GoalManager {
    var goals: seq<Goal>

    ghost predicate Valid()
      reads this
    {
      UniqueGoals(goals) && forall i :: 0 <= i < |goals| ==> UniqueTasks(goals[i].tasks)
    }

    method EnsurePrimaryGoal(objective: string, id: Id, now: int) returns (r: Result<Goal>)
      modifies this
      ensures match EnsurePrimary(old(goals), objective, id, now)
              case Err(e) => r == Err(e) && goals == old(goals)
              case Ok(v) => r == Ok(v.1) && goals == v.0
    {
      var text := CleanObjective(objective);
      if text.None? { return Err(BadObjective); }
      var i := LiveIndex(goals);
      if i < |goals| { return Ok(goals[i]); }
      var g := Goal(id, text.value, Running, now, []);
      goals := goals + [g];
      r := Ok(g);
    }

    method AddGoalTask(goal: Id, title: string, rationale: string, criteria: seq<string>, planned: bool, id: Id,
                       now: int)
      returns (r: Result<Task>)
      requires Valid()
      modifies this
      ensures match AddTask(old(goals), goal, title, rationale, criteria, planned, id, now)
              case Err(e) => r == Err(e) && goals == old(goals)
              case Ok(v) => r == Ok(v.1) && goals == v.0
    {
      hide TaskTextOk, CleanCriteria, Strip;
      if !TaskTextOk(title, rationale, criteria) { return Err(BadTask); }
      var i := GoalIndex(goals, goal);
      if i == |goals| { return Err(UnknownGoal); }
      var g := goals[i];
      if g.status != Running { return Err(GoalNotActive); }
      AnyUnresolved(g.tasks);
      if exists j :: 0 <= j < |g.tasks| && !Resolved(g.tasks[j].state) { return Err(UnresolvedWork); }
      var t := Task(id, Strip(title), Strip(rationale), CleanCriteria(criteria), planned, Ready, now, None);
      var updated := g.(tasks := g.tasks + [t], updatedAt := now);
      ReplacedIs(goals, i, updated);
      goals := Replaced(goals, updated);
      r := Ok(t);
    }

    method SetState(task: Id, s: TaskState, now: int) returns (r: Result<Task>)
      requires Valid()
      modifies this
      ensures match SetTaskState(old(goals), task, s, now)
              case Err(e) => r == Err(e) && goals == old(goals)
              case Ok(v) => r == Ok(v.1) && goals == v.0
    {
      hide OwnerIndex, TaskIndex;
      ghost var l := goals;
      for i := 0 to |goals|
        invariant goals == l && forall k :: 0 <= k < i ==> TaskIndex(l[k].tasks, task) == |l[k].tasks|
      {
        var g := goals[i];
        var j := TaskIndex(g.tasks, task);
        if j == |g.tasks| { continue; }
        assert OwnerIndex(l, task) == i;
        var t := g.tasks[j];
        if s != t.state && s !in Allowed(t.state) { return Err(InvalidTransition); }
        var completedAt := if s == Completed then Some(now) else t.completedAt;
        var updatedTask := t.(state := s, updatedAt := now, completedAt := completedAt);
        ReplacedTaskIs(g.tasks, j, updatedTask);
        var updated := g.(tasks := ReplacedTask(g.tasks, updatedTask), updatedAt := now);
        ReplacedIs(goals, i, updated);
        goals := Replaced(goals, updated);
        return Ok(updatedTask);
      }
      r := Err(UnknownTask);
    }

    method SetStatus(goal: Id, s: GoalStatus, now: int) returns (r: Result<Goal>)
      requires Valid()
      modifies this
      ensures match SetGoalStatus(old(goals), goal, s, now)
              case Err(e) => r == Err(e) && goals == old(goals)
              case Ok(v) => r == Ok(v.1) && goals == v.0
    {
      var i := GoalIndex(goals, goal);
      if i == |goals| { return Err(UnknownGoal); }
      var g := goals[i];
      if Ended(g) && s != g.status { return Err(TerminalGoal); }
      var updated := g.(status := s, updatedAt := now);
      ReplacedIs(goals, i, updated);
      goals := Replaced(goals, updated);
      r := Ok(updated);
    }
  }

  // ----- the planner tick interleaved with operator calls -----

  /** Where the single running tick stands: it has seen no goal, it has seen a goal, or it
      has found no unresolved work and is waiting for the model's proposal. */
  datatype Tick = Idle | NoGoal | Saw(goal: Goal) | Proposing(goalId: Id)

  datatype Op =
    | OpEnsure(objective: string, id: Id, now: int)
    | OpAdd(goal: Id, title: string, rationale: string, criteria: seq<string>, id: Id, now: int)
    | OpMove(task: Id, state: TaskState, now: int)
    | OpStatus(goal: Id, status: GoalStatus, now: int)
    | TickLook                                         // active_goal
    | TickEnsure(objective: string, id: Id, now: int)  // ensure_primary
    | TickCheck                                        // has_unresolved_work
    | TickAdd(title: string, rationale: string, criteria: seq<string>, id: Id, now: int)   // the proposal arrives
    | TickFail                                         // the proposer raises

  /** The ledger, the running tick, and how often a failed task of each goal was reopened. */
  datatype System = System(ledger: seq<Goal>, tick: Tick, reopened: multiset<Id>)

  const EMPTY := System([], Idle, multiset{})

  function Keep<T>(l: seq<Goal>, r: Result<(seq<Goal>, T)>): seq<Goal> {
    if r.Ok? then r.value.0 else l
  }

  /** The goal whose failed task this call reopens, if it does. */
  function Reopens(l: seq<Goal>, task: Id, s: TaskState): Option<Id> {
    var i := OwnerIndex(l, task);
    if i < |l| && l[i].tasks[TaskIndex(l[i].tasks, task)].state == Failed && s == Ready then Some(l[i].id) else None
  }

  predicate Enabled(sys: System, op: Op) {
    match op
    case TickLook => sys.tick.Idle?
    case TickEnsure(_, _, _) => sys.tick.NoGoal?
    case TickCheck => sys.tick.Saw?
    case TickAdd(_, _, _, _, _) => sys.tick.Proposing?
    case TickFail => !sys.tick.Idle?
    case _ => true
  }

  /** New ids are fresh. */
  ghost predicate FreshIds(l: seq<Goal>, op: Op) {
    match op
    case OpEnsure(_, id, _) => forall i :: 0 <= i < |l| ==> l[i].id != id
    case TickEnsure(_, id, _) => forall i :: 0 <= i < |l| ==> l[i].id != id
    case OpAdd(_, _, _, _, id, _) => forall i :: 0 <= i < |l| ==> TaskIndex(l[i].tasks, id) == |l[i].tasks|
    case TickAdd(_, _, _, id, _) => forall i :: 0 <= i < |l| ==> TaskIndex(l[i].tasks, id) == |l[i].tasks|
    case _ => true
  }

  function Step(sys: System, op: Op): System
    requires Enabled(sys, op)
  {
    var l := sys.ledger;
    match op
    case OpEnsure(o, id, now) => sys.(ledger := Keep(l, EnsurePrimary(l, o, id, now)))
    case OpAdd(g, t, r, c, id, now) => sys.(ledger := Keep(l, AddTask(l, g, t, r, c, false, id, now)))
    case OpMove(t, s, now) =>
      System(Keep(l, SetTaskState(l, t, s, now)), sys.tick,
             if Reopens(l, t, s).Some? then sys.reopened + multiset{Reopens(l, t, s).value} else sys.reopened)
    case OpStatus(g, s, now) => sys.(ledger := Keep(l, SetGoalStatus(l, g, s, now)))
    case TickLook => sys.(tick := if LiveIndex(l) < |l| then Saw(l[LiveIndex(l)]) else NoGoal)
    case TickEnsure(o, id, now) =>
      var r := EnsurePrimary(l, o, id, now);
      System(Keep(l, r), if r.Ok? then Saw(r.value.1) else Idle, sys.reopened)
    case TickCheck =>
      var g := sys.tick.goal;
      var i := GoalIndex(l, g.id);
      sys.(tick := if g.status != Running || (i < |l| && Unresolved(l[i].tasks) > 0) then Idle else Proposing(g.id))
    case TickAdd(t, r, c, id, now) =>
      System(Keep(l, AddTask(l, sys.tick.goalId, t, r, c, true, id, now)), Idle, sys.reopened)
    case TickFail => sys.(tick := Idle)
  }

  // ----- an undisturbed tick -----

  /** What `tick` is given from outside: the proposal of the model, and fresh ids. */
  datatype TickInput = TickInput(mission: string, proposal: Option<PlannedStep>, goalId: Id, taskId: Id, now: int)

  /** The tick of the step system when no other caller comes in between. */
  function Look(l: seq<Goal>): System {
    Step(System(l, Idle, multiset{}), TickLook)
  }

  function Goaled(l: seq<Goal>, x: TickInput): System {
    if Look(l).tick.NoGoal? then Step(Look(l), TickEnsure(x.mission, x.goalId, x.now)) else Look(l)
  }

  function Checked(l: seq<Goal>, x: TickInput): System {
    if Goaled(l, x).tick.Saw? then Step(Goaled(l, x), TickCheck) else Goaled(l, x)
  }

  function Ticked(l: seq<Goal>, x: TickInput): System {
    var sys := Checked(l, x);
    if !sys.tick.Proposing? then sys
    else if x.proposal.None? then Step(sys, TickFail)
    else
      var step := x.proposal.value;
      Step(sys, TickAdd(step.title, step.rationale, step.criteria, x.taskId, x.now))
  }

  /** The goal a tick works on. */
  lemma GoaledIs(l: seq<Goal>, x: TickInput)
    ensures LiveIndex(l) < |l| ==> Goaled(l, x) == System(l, Saw(l[LiveIndex(l)]), multiset{})
    ensures LiveIndex(l) == |l| ==>
              var r := EnsurePrimary(l, x.mission, x.goalId, x.now);
              if r.Ok? then
                && Goaled(l, x) == System(r.value.0, Saw(r.value.1), multiset{})
                && r.value.0 == l + [r.value.1] && r.value.1.id == x.goalId
                && r.value.1.status == Running && r.value.1.tasks == []
              else r.error == BadObjective && Goaled(l, x) == System(l, Idle, multiset{})
  {
    hide CleanObjective, AddTask, SetTaskState, SetGoalStatus, Reopens, Unresolved, GoalIndex, LiveIndex;
  }

  /** What an undisturbed tick does to the ledger from there. */
  lemma TickedIs(l: seq<Goal>, x: TickInput)
    ensures Goaled(l, x).tick.Idle? ==> Checked(l, x) == Goaled(l, x) && Ticked(l, x) == Goaled(l, x)
    ensures Goaled(l, x).tick.Saw? ==>
              var m, goal := Goaled(l, x).ledger, Goaled(l, x).tick.goal;
              && Checked(l, x) == Step(System(m, Saw(goal), multiset{}), TickCheck)
              && (Checked(l, x).tick.Idle? || (goal.status == Running && Checked(l, x).tick.Proposing?))
              && Ticked(l, x).ledger ==
                 if Checked(l, x).tick.Proposing? && x.proposal.Some?
                 then Keep(m, Planned(m, goal.id, x))
                 else m
  {
    hide AddTask, EnsurePrimary, SetTaskState, SetGoalStatus, Reopens, Unresolved, GoalIndex;
  }

  /** The planner's call of `add_task` with the proposal. */
  function Planned(l: seq<Goal>, goal: Id, x: TickInput): Result<(seq<Goal>, Task)>
    requires x.proposal.Some?
  {
    var step := x.proposal.value;
    AddTask(l, goal, step.title, step.rationale, step.criteria, true, x.taskId, x.now)
  }

  predicate ProposalOk(x: TickInput)
    requires x.proposal.Some?
  {
    TaskTextOk(x.proposal.value.title, x.proposal.value.rationale, x.proposal.value.criteria)
  }

  class InitiativeRuntime {
    const manager: GoalManager
    const enabled: bool
    var lastTask: Option<Task>
    var lastError: Option<Error>

    constructor (manager: GoalManager, enabled: bool)
      ensures this.manager == manager && this.enabled == enabled && lastTask == None && lastError == None
    {
      this.manager, this.enabled, lastTask, lastError := manager, enabled, None, None;
    }

    /** `tick`: an enabled tick takes the ledger where the step system takes it. Undisturbed,
        it can fail only for the mission statement, the proposer, or the proposed text, and
        when it adds a task that task is recorded. */
    method Tick(x: TickInput) returns (r: Result<Option<Task>>)
      requires manager.Valid() && forall i :: 0 <= i < |manager.goals| ==> manager.goals[i].id != x.goalId
      modifies this, manager
      ensures manager.goals == if enabled then Ticked(old(manager.goals), x).ledger else old(manager.goals)
      ensures r.Err? ==> r.error == BadObjective || r.error == NoProposal || r.error == BadTask
      ensures r.Ok? && r.value.Some? <==>
              enabled && Checked(old(manager.goals), x).tick.Proposing? && x.proposal.Some? && ProposalOk(x)
      ensures if r.Ok? && r.value.Some? then lastTask == r.value && lastError == None
              else lastTask == old(lastTask) && lastError == old(lastError)
    {
      hide TaskTextOk, CleanObjective, Strip, CleanCriteria, AddTask, EnsurePrimary, Goaled, Checked, Ticked,
           Unresolved, LiveIndex, GoalIndex, Step, Keep, Planned;
      if !enabled { return Ok(None); }
      GoaledIs(manager.goals, x);
      TickedIs(manager.goals, x);
      var i := LiveIndex(manager.goals);
      var goal;
      if i < |manager.goals| {
        goal := manager.goals[i];
      } else {
        var g := manager.EnsurePrimaryGoal(x.mission, x.goalId, x.now);
        if g.Err? { return Err(g.error); }
        goal := g.value;
      }
      if goal.status != Running { return Ok(None); }
      r := PlanOnce(goal, x);
      if r.Ok? && r.value.Some? { lastTask, lastError := r.value, None; }
    }

    /** `plan_once` on a goal that is in the ledger as it was seen. */
    method PlanOnce(goal: Goal, x: TickInput) returns (r: Result<Option<Task>>)
      requires manager.Valid() && goal in manager.goals && goal.status == Running
      modifies manager
      ensures var sys := Step(System(old(manager.goals), Saw(goal), multiset{}), TickCheck);
              if sys.tick.Idle? then r == Ok(None) && manager.goals == old(manager.goals)
              else if x.proposal.None? then r == Err(NoProposal) && manager.goals == old(manager.goals)
              else
                var added := Planned(old(manager.goals), goal.id, x);
                && (r == if added.Ok? then Ok(Some(added.value.1)) else Err(added.error))
                && (added.Ok? <==> ProposalOk(x))
                && (added.Err? ==> added.error == BadTask)
                && manager.goals == Keep(old(manager.goals), added)
    {
      hide TaskTextOk, Strip, CleanCriteria;
      var i := GoalIndex(manager.goals, goal.id);
      assert i < |manager.goals| && manager.goals[i] == goal;
      AnyUnresolved(manager.goals[i].tasks);
      var tasks := manager.goals[i].tasks;
      if exists j :: 0 <= j < |tasks| && !Resolved(tasks[j].state) { return Ok(None); }
      if x.proposal.None? { return Err(NoProposal); }
      var step := x.proposal.value;
      var t := manager.AddGoalTask(goal.id, step.title, step.rationale, step.criteria, true, x.taskId, x.now);
      r := if t.Ok? then Ok(Some(t.value)) else Err(t.error);
    }
  }

  /** A tick goes on to a proposal exactly when the goal it saw was active and has nothing
      unresolved now. */
  lemma TickCheckIs(sys: System)
    requires sys.tick.Saw?
    ensures var i := GoalIndex(sys.ledger, sys.tick.goal.id);
            Step(sys, TickCheck).tick.Proposing? <==>
            && sys.tick.goal.status == Running
            && (i == |sys.ledger| || forall j :: 0 <= j < |sys.ledger[i].tasks| ==> IsResolved(sys.ledger[i].tasks[j]))
  {
    hide Unresolved;
    var i := GoalIndex(sys.ledger, sys.tick.goal.id);
    if i < |sys.ledger| { AnyUnresolved(sys.ledger[i].tasks); }
  }

  // ----- the invariant -----

  ghost predicate GoalOk(g: Goal, reopened: nat) {
    && UniqueTasks(g.tasks)
    && (forall j :: 0 <= j < |g.tasks| ==> (g.tasks[j].completedAt.Some? <==> g.tasks[j].state == Completed))
    && Unresolved(g.tasks) <= 1 + reopened
  }

  ghost predicate OneLive(l: seq<Goal>) {
    forall i, j :: 0 <= i < j < |l| ==> !(Live(l[i]) && Live(l[j]))
  }

  ghost predicate Inv(sys: System) {
    && UniqueGoals(sys.ledger) && OneLive(sys.ledger)
    && forall i :: 0 <= i < |sys.ledger| ==> GoalOk(sys.ledger[i], sys.reopened[sys.ledger[i].id])
  }

  lemma UnresolvedSnoc(ts: seq<Task>, t: Task)
    ensures Unresolved(ts + [t]) == Unresolved(ts) + (if Resolved(t.state) then 0 else 1)
  {
    assert (ts + [t])[..|ts|] == ts;
  }

  lemma {:induction false} UnresolvedUpdate(ts: seq<Task>, j: nat, t: Task)
    requires j < |ts|
    ensures Unresolved(ts[j := t]) + (if Resolved(ts[j].state) then 0 else 1) ==
            Unresolved(ts) + (if Resolved(t.state) then 0 else 1)
    decreases |ts|
  {
    var n := |ts| - 1;
    if j == n {
      assert ts[j := t][..n] == ts[..n];
    } else {
      UnresolvedUpdate(ts[..n], j, t);
      assert ts[j := t][..n] == ts[..n][j := t];
    }
  }

  /** What a step may do to one goal: end it for good or not, and move its tasks, where
      COMPLETED and CANCELLED are absorbing for tasks, and both terminal statuses for goals. */
  ghost predicate Evolves(g: Goal, h: Goal) {
    && g.id == h.id && (Ended(g) ==> h.status == g.status) && |g.tasks| <= |h.tasks|
    && forall j :: 0 <= j < |g.tasks| ==>
         g.tasks[j].id == h.tasks[j].id
         && (g.tasks[j].state == Completed || g.tasks[j].state == Cancelled ==> h.tasks[j].state == g.tasks[j].state)
  }

  ghost predicate LedgerEvolves(l: seq<Goal>, m: seq<Goal>) {
    |l| <= |m| && forall i :: 0 <= i < |l| ==> Evolves(l[i], m[i])
  }

  lemma AddKeepsGoal(g: Goal, t: Task, now: int, reopened: nat)
    requires GoalOk(g, reopened) && Unresolved(g.tasks) == 0
    requires t.state == Ready && t.completedAt.None? && TaskIndex(g.tasks, t.id) == |g.tasks|
    ensures var h := g.(tasks := g.tasks + [t], updatedAt := now); GoalOk(h, reopened) && Evolves(g, h)
  {
    hide TaskIndex;
    UnresolvedSnoc(g.tasks, t);
  }

  lemma MoveKeepsGoal(g: Goal, j: nat, s: TaskState, now: int, reopened: nat)
    requires GoalOk(g, reopened) && j < |g.tasks|
    requires s == g.tasks[j].state || s in Allowed(g.tasks[j].state)
    ensures var h := g.(tasks := g.tasks[j := MovedTask(g.tasks[j], s, now)], updatedAt := now);
            GoalOk(h, reopened + (if g.tasks[j].state == Failed && s == Ready then 1 else 0)) && Evolves(g, h)
  {
    hide Unresolved;
    UnresolvedUpdate(g.tasks, j, MovedTask(g.tasks[j], s, now));
  }

  lemma StepEnsure(sys: System, o: string, id: Id, now: int)
    requires Inv(sys) && forall i :: 0 <= i < |sys.ledger| ==> sys.ledger[i].id != id
    ensures var l := Keep(sys.ledger, EnsurePrimary(sys.ledger, o, id, now));
            LedgerEvolves(sys.ledger, l) && Inv(sys.(ledger := l))
  {
    hide CleanObjective;
  }

  lemma StepAdd(sys: System, goal: Id, t: string, r: string, c: seq<string>, planned: bool, id: Id, now: int)
    requires Inv(sys)
    requires forall i :: 0 <= i < |sys.ledger| ==> TaskIndex(sys.ledger[i].tasks, id) == |sys.ledger[i].tasks|
    ensures var l := Keep(sys.ledger, AddTask(sys.ledger, goal, t, r, c, planned, id, now));
            LedgerEvolves(sys.ledger, l) && Inv(sys.(ledger := l))
  {
    hide TaskTextOk, Strip, CleanCriteria, TaskIndex, Unresolved, GoalOk;
    var i := GoalIndex(sys.ledger, goal);
    if TaskTextOk(t, r, c) && i < |sys.ledger| && Unresolved(sys.ledger[i].tasks) == 0 {
      var task := Task(id, Strip(t), Strip(r), CleanCriteria(c), planned, Ready, now, None);
      AddKeepsGoal(sys.ledger[i], task, now, sys.reopened[sys.ledger[i].id]);
    }
  }

  lemma StepMove(sys: System, task: Id, s: TaskState, now: int)
    requires Inv(sys)
    ensures var sys' := Step(sys, OpMove(task, s, now));
            LedgerEvolves(sys.ledger, sys'.ledger) && Inv(sys')
  {
    hide TaskIndex, OwnerIndex, Unresolved, GoalOk, Allowed;
    var l := sys.ledger;
    var sys' := Step(sys, OpMove(task, s, now));
    var i := OwnerIndex(l, task);
    if i < |l| {
      var j := TaskIndex(l[i].tasks, task);
      if s == l[i].tasks[j].state || s in Allowed(l[i].tasks[j].state) {
        MoveKeepsGoal(l[i], j, s, now, sys.reopened[l[i].id]);
      } else if Reopens(l, task, s).Some? {
        ReopenAllowed();
      }
      forall k | 0 <= k < |l| ensures GoalOk(sys'.ledger[k], sys'.reopened[sys'.ledger[k].id]) { }
    }
  }

  lemma ReopenAllowed()
    ensures Ready in Allowed(Failed)
  {
  }

  lemma StepStatus(sys: System, goal: Id, s: GoalStatus, now: int)
    requires Inv(sys)
    ensures var l := Keep(sys.ledger, SetGoalStatus(sys.ledger, goal, s, now));
            LedgerEvolves(sys.ledger, l) && Inv(sys.(ledger := l))
  {
    hide Unresolved;
    var i := GoalIndex(sys.ledger, goal);
    if i < |sys.ledger| {
      assert forall k :: 0 <= k < |sys.ledger| && k != i ==> Live(sys.ledger[i]) ==> !Live(sys.ledger[k]);
    }
  }

  lemma StepInv(sys: System, op: Op)
    requires Inv(sys) && Enabled(sys, op) && FreshIds(sys.ledger, op)
    ensures Inv(Step(sys, op)) && LedgerEvolves(sys.ledger, Step(sys, op).ledger)
  {
    hide GoalOk, EnsurePrimary, AddTask, SetTaskState, SetGoalStatus, Reopens, Keep;
    match op {
      case OpEnsure(o, id, now) => StepEnsure(sys, o, id, now);
      case TickEnsure(o, id, now) => StepEnsure(sys, o, id, now);
      case OpAdd(g, t, r, c, id, now) => StepAdd(sys, g, t, r, c, false, id, now);
      case TickAdd(t, r, c, id, now) => StepAdd(sys, sys.tick.goalId, t, r, c, true, id, now);
      case OpMove(t, s, now) => StepMove(sys, t, s, now);
      case OpStatus(g, s, now) => StepStatus(sys, g, s, now);
      case _ =>
    }
  }

  // ----- runs -----

  ghost predicate CanRun(sys: System, ops: seq<Op>)
    decreases |ops|
  {
    ops == [] || (Enabled(sys, ops[0]) && FreshIds(sys.ledger, ops[0]) && CanRun(Step(sys, ops[0]), ops[1..]))
  }

  ghost function Run(sys: System, ops: seq<Op>): System
    requires CanRun(sys, ops)
    decreases |ops|
  {
    if ops == [] then sys else Run(Step(sys, ops[0]), ops[1..])
  }

  lemma EvolvesTransitive(l: seq<Goal>, m: seq<Goal>, n: seq<Goal>)
    requires LedgerEvolves(l, m) && LedgerEvolves(m, n)
    ensures LedgerEvolves(l, n)
  {
    forall i | 0 <= i < |l| ensures Evolves(l[i], n[i]) {
      assert Evolves(l[i], m[i]) && Evolves(m[i], n[i]);
    }
  }

  /** From any reachable ledger, over every interleaving of planner ticks and operator calls:
      goals and tasks are never removed, ended goals and completed or cancelled tasks stay
      as they are, and the invariant holds again. */
  lemma {:induction false} RunInv(sys: System, ops: seq<Op>)
    requires Inv(sys) && CanRun(sys, ops)
    ensures Inv(Run(sys, ops)) && LedgerEvolves(sys.ledger, Run(sys, ops).ledger)
    decreases |ops|
  {
    hide Inv, Step, Enabled, FreshIds, LedgerEvolves;
    if ops == [] {
      EvolvesSame(sys.ledger);
    } else {
      StepInv(sys, ops[0]);
      RunInv(Step(sys, ops[0]), ops[1..]);
      EvolvesTransitive(sys.ledger, Step(sys, ops[0]).ledger, Run(sys, ops).ledger);
    }
  }

  lemma EvolvesSame(l: seq<Goal>)
    ensures LedgerEvolves(l, l)
  {
  }

  /** The guarantees for every ledger reachable from the empty one: at most one goal is active
      or paused; `completed_at` is set exactly for completed tasks; and a goal has at most one
      unresolved task more than its failed tasks were reopened. */
  lemma LedgerGuarantees(ops: seq<Op>)
    requires CanRun(EMPTY, ops)
    ensures var sys := Run(EMPTY, ops);
            && OneLive(sys.ledger)
            && forall i :: 0 <= i < |sys.ledger| ==>
                 && Unresolved(sys.ledger[i].tasks) <= 1 + sys.reopened[sys.ledger[i].id]
                 && forall j :: 0 <= j < |sys.ledger[i].tasks| ==>
                      (sys.ledger[i].tasks[j].completedAt.Some? <==> sys.ledger[i].tasks[j].state == Completed)
  {
    hide Run, CanRun, Unresolved;
    RunInv(EMPTY, ops);
    var sys := Run(EMPTY, ops);
    assert forall i :: 0 <= i < |sys.ledger| ==> GoalOk(sys.ledger[i], sys.reopened[sys.ledger[i].id]);
  }

  // ----- "at most one unresolved task" -----

  ghost predicate AtMostOne(l: seq<Goal>) {
    forall i :: 0 <= i < |l| ==> Unresolved(l[i].tasks) <= 1
  }

  /** The call that breaks it: a failed task is reopened while its goal has other unresolved
      work. A caller can see this before the call. */
  predicate Overlaps(l: seq<Goal>, op: Op) {
    op.OpMove? && Reopens(l, op.task, op.state).Some?
    && Unresolved(l[OwnerIndex(l, op.task)].tasks) > 0
  }

  /** A step keeps "at most one unresolved task per goal" if and only if it is not such a call. */
  lemma AtMostOneIff(sys: System, op: Op)
    requires Inv(sys) && AtMostOne(sys.ledger) && Enabled(sys, op) && FreshIds(sys.ledger, op)
    ensures AtMostOne(Step(sys, op).ledger) <==> !Overlaps(sys.ledger, op)
  {
    hide Inv, AtMostOne, Reopens, AddTask, EnsurePrimary, SetTaskState, SetGoalStatus, Keep, FreshIds;
    var l := sys.ledger;
    match op {
      case OpAdd(g, t, r, c, id, now) => AddOne(l, g, t, r, c, false, id, now);
      case TickAdd(t, r, c, id, now) => AddOne(l, sys.tick.goalId, t, r, c, true, id, now);
      case OpEnsure(o, id, now) => EnsureOne(l, o, id, now);
      case TickEnsure(o, id, now) => EnsureOne(l, o, id, now);
      case OpMove(t, s, now) => MoveOne(sys, t, s, now);
      case OpStatus(g, s, now) => StatusOne(l, g, s, now);
      case _ =>
    }
  }

  lemma NoTasks()
    ensures Unresolved([]) == 0
  {
  }

  lemma EnsureOne(l: seq<Goal>, o: string, id: Id, now: int)
    requires AtMostOne(l)
    ensures AtMostOne(Keep(l, EnsurePrimary(l, o, id, now)))
  {
    hide Unresolved, CleanObjective;
    NoTasks();
  }

  lemma StatusOne(l: seq<Goal>, goal: Id, s: GoalStatus, now: int)
    requires AtMostOne(l)
    ensures AtMostOne(Keep(l, SetGoalStatus(l, goal, s, now)))
  {
    hide Unresolved;
  }

  lemma AddOne(l: seq<Goal>, goal: Id, t: string, r: string, c: seq<string>, planned: bool, id: Id, now: int)
    requires AtMostOne(l)
    ensures AtMostOne(Keep(l, AddTask(l, goal, t, r, c, planned, id, now)))
  {
    hide TaskTextOk, Strip, CleanCriteria, Unresolved;
    var i := GoalIndex(l, goal);
    if i < |l| {
      UnresolvedSnoc(l[i].tasks, Task(id, Strip(t), Strip(r), CleanCriteria(c), planned, Ready, now, None));
    }
  }

  lemma MoveOne(sys: System, task: Id, s: TaskState, now: int)
    requires AtMostOne(sys.ledger)
    ensures AtMostOne(Step(sys, OpMove(task, s, now)).ledger) <==> !Overlaps(sys.ledger, OpMove(task, s, now))
  {
    hide TaskIndex, OwnerIndex, Unresolved;
    var l := sys.ledger;
    var i := OwnerIndex(l, task);
    if i < |l| {
      var j := TaskIndex(l[i].tasks, task);
      UnresolvedUpdate(l[i].tasks, j, MovedTask(l[i].tasks[j], s, now));
      BackToWork(l[i].tasks[j].state, s);
      var m := Step(sys, OpMove(task, s, now)).ledger;
      OthersSame(l, m, i);
    }
  }

  lemma OthersSame(l: seq<Goal>, m: seq<Goal>, i: nat)
    requires AtMostOne(l) && |m| == |l| && i < |l| && m == l[i := m[i]]
    ensures AtMostOne(m) <==> Unresolved(m[i].tasks) <= 1
  {
    hide Unresolved;
  }

  /** The only way from a resolved state back to an unresolved one. */
  lemma BackToWork(t: TaskState, s: TaskState)
    ensures Resolved(t) && !Resolved(s) && s in Allowed(t) <==> t == Failed && s == Ready
  {
  }

  /** No step of the run is such a call. */
  ghost predicate NeverOverlaps(sys: System, ops: seq<Op>)
    requires CanRun(sys, ops)
    decreases |ops|
  {
    ops == [] || (!Overlaps(sys.ledger, ops[0]) && NeverOverlaps(Step(sys, ops[0]), ops[1..]))
  }

  /** "At most one unresolved task per goal" holds in every state of the run. */
  ghost predicate AlwaysAtMostOne(sys: System, ops: seq<Op>)
    requires CanRun(sys, ops)
    decreases |ops|
  {
    AtMostOne(sys.ledger) && (ops == [] || AlwaysAtMostOne(Step(sys, ops[0]), ops[1..]))
  }

  /** Over whole runs: it holds throughout if and only if no failed task is ever reopened
      while its goal has other unresolved work. */
  lemma {:induction false} AlwaysAtMostOneIff(sys: System, ops: seq<Op>)
    requires Inv(sys) && AtMostOne(sys.ledger) && CanRun(sys, ops)
    ensures AlwaysAtMostOne(sys, ops) <==> NeverOverlaps(sys, ops)
    decreases |ops|
  {
    hide Inv, Step, Enabled, FreshIds, AtMostOne, Overlaps;
    if ops != [] {
      StepInv(sys, ops[0]);
      AtMostOneIff(sys, ops[0]);
      if AtMostOne(Step(sys, ops[0]).ledger) {
        AlwaysAtMostOneIff(Step(sys, ops[0]), ops[1..]);
      } else {
        NotAlways(Step(sys, ops[0]), ops[1..]);
      }
    }
  }

  lemma NotAlways(sys: System, ops: seq<Op>)
    requires CanRun(sys, ops) && !AtMostOne(sys.ledger)
    ensures !AlwaysAtMostOne(sys, ops)
  {
  }

  // ----- a run on which it fails -----

  lemma TwoTasks(a: Task, b: Task)
    ensures Unresolved([a]) == (if Resolved(a.state) then 0 else 1)
    ensures Unresolved([a, b]) == (if Resolved(a.state) then 0 else 1) + (if Resolved(b.state) then 0 else 1)
  {
    UnresolvedSnoc([], a);
    UnresolvedSnoc([a], b);
    NoTasks();
    assert [] + [a] == [a] && [a] + [b] == [a, b];
  }

  lemma FirstTask(a: Task, b: Task, other: Id)
    ensures TaskIndex([a], a.id) == 0 == TaskIndex([a, b], a.id)
    ensures other != a.id ==> TaskIndex([a], other) == 1
  {
    assert [a][0] == a && [a, b][0] == a;
  }

  /** The text of the example is clean. */
  lemma CleanText()
    ensures Strip("x") == "x" && Strip("") == "" && CleanCriteria(["x"]) == ["x"]
    ensures CleanObjective("x") == Some("x") && TaskTextOk("x", "", ["x"])
  {
    assert 'x' as int == 120 && "x"[0] == 'x';
    OneWord("x");
  }

  lemma OneWord(s: string)
    requires |s| == 1 && !IsSpace(s[0])
    ensures Strip(s) == s && Strip("") == "" && CleanCriteria([s]) == [s]
  {
    assert [s][..0] == [] && [] + [s] == [s];
  }

  /** The ledger with one goal and the given tasks. */
  function OneGoal(now: int, ts: seq<Task>): seq<Goal> {
    [Goal(0, "x", Running, now, ts)]
  }

  function NewTask(id: Id, now: int): Task {
    Task(id, "x", "", ["x"], false, Ready, now, None)
  }

  lemma AddOnly(now: int, ts: seq<Task>, id: Id)
    requires Unresolved(ts) == 0
    ensures Keep(OneGoal(now, ts), AddTask(OneGoal(now, ts), 0, "x", "", ["x"], false, id, now)) ==
            OneGoal(now, ts + [NewTask(id, now)])
  {
    hide Strip, CleanCriteria, TaskTextOk, Unresolved;
    CleanText();
    var l := OneGoal(now, ts);
    assert l[0].id == 0;
    var g := l[0].(tasks := ts + [NewTask(id, now)], updatedAt := now);
    assert l[0 := g] == OneGoal(now, ts + [NewTask(id, now)]);
  }

  lemma MoveFirst(now: int, ts: seq<Task>, s: TaskState)
    requires ts != [] && TaskIndex(ts, ts[0].id) == 0 && s in Allowed(ts[0].state)
    ensures Keep(OneGoal(now, ts), SetTaskState(OneGoal(now, ts), ts[0].id, s, now)) ==
            OneGoal(now, ts[0 := MovedTask(ts[0], s, now)])
    ensures OwnerIndex(OneGoal(now, ts), ts[0].id) == 0
  {
    hide TaskIndex, Allowed;
    var l := OneGoal(now, ts);
    assert TaskIndex(l[0].tasks, ts[0].id) < |l[0].tasks|;
    assert OwnerIndex(l, ts[0].id) == 0;
  }

  lemma RunFrom(sys: System, ops: seq<Op>, i: nat)
    requires i < |ops| && Enabled(sys, ops[i]) && FreshIds(sys.ledger, ops[i])
    requires CanRun(Step(sys, ops[i]), ops[i + 1..])
    ensures CanRun(sys, ops[i..]) && Run(sys, ops[i..]) == Run(Step(sys, ops[i]), ops[i + 1..])
  {
    hide Step, Enabled, FreshIds;
    assert ops[i..][1..] == ops[i + 1..];
  }

  /** A run from the empty ledger on which it fails: a task fails, a second one is added, and
      the first is reopened. */
  lemma TwoUnresolved(now: int)
    ensures var ops := [OpEnsure("x", 0, now), OpAdd(0, "x", "", ["x"], 1, now), OpMove(1, Failed, now),
                        OpAdd(0, "x", "", ["x"], 2, now), OpMove(1, Ready, now)];
            CanRun(EMPTY, ops) && !AtMostOne(Run(EMPTY, ops).ledger)
  {
    hide Step, Run, CanRun, Unresolved, Enabled, FreshIds;
    var ops := [OpEnsure("x", 0, now), OpAdd(0, "x", "", ["x"], 1, now), OpMove(1, Failed, now),
                OpAdd(0, "x", "", ["x"], 2, now), OpMove(1, Ready, now)];
    var first, second := NewTask(1, now), NewTask(2, now);
    var failed := MovedTask(first, Failed, now);
    var again := MovedTask(failed, Ready, now);
    var s1, s2 := System(OneGoal(now, []), Idle, multiset{}), System(OneGoal(now, [first]), Idle, multiset{});
    var s3 := System(OneGoal(now, [failed]), Idle, multiset{});
    var s4 := System(OneGoal(now, [failed, second]), Idle, multiset{});
    Founding(now);
    Adding(now, [], 1);
    Failing(now, first);
    Adding(now, [failed], 2);
    assert [] + [first] == [first] && [failed] + [second] == [failed, second];
    var s5 := Reopening(now, failed, second);
    TwoTasks(again, second);
    assert s5.ledger[0].tasks == [again, second] && Unresolved(s5.ledger[0].tasks) == 2;
    NoSteps(s5);
    assert ops[5..] == [] && ops[0..] == ops;
    RunFrom(s4, ops, 4);
    RunFrom(s3, ops, 3);
    RunFrom(s2, ops, 2);
    RunFrom(s1, ops, 1);
    RunFrom(EMPTY, ops, 0);
  }

  lemma NoSteps(sys: System)
    ensures CanRun(sys, []) && Run(sys, []) == sys
  {
  }

  lemma Founding(now: int)
    ensures var op := OpEnsure("x", 0, now);
            && Enabled(EMPTY, op) && FreshIds(EMPTY.ledger, op)
            && Step(EMPTY, op) == System(OneGoal(now, []), Idle, multiset{})
  {
    hide Strip, CleanObjective, TaskTextOk, CleanCriteria;
    CleanText();
    assert [] + OneGoal(now, []) == OneGoal(now, []);
  }

  lemma Adding(now: int, ts: seq<Task>, id: Id)
    requires ts == [] || (|ts| == 1 && ts[0].state == Failed && ts[0].id != id)
    ensures var sys, op := System(OneGoal(now, ts), Idle, multiset{}), OpAdd(0, "x", "", ["x"], id, now);
            && Enabled(sys, op) && FreshIds(sys.ledger, op)
            && Step(sys, op) == System(OneGoal(now, ts + [NewTask(id, now)]), Idle, multiset{})
  {
    hide AddTask, Unresolved, TaskIndex;
    NoTasks();
    if ts != [] {
      TwoTasks(ts[0], ts[0]);
      FirstTask(ts[0], ts[0], id);
      assert ts == [ts[0]];
    } else {
      NoTask(id);
    }
    AddOnly(now, ts, id);
  }

  lemma NoTask(id: Id)
    ensures TaskIndex([], id) == 0
  {
  }

  lemma Failing(now: int, first: Task)
    requires first.state == Ready
    ensures var sys, op := System(OneGoal(now, [first]), Idle, multiset{}), OpMove(first.id, Failed, now);
            && Enabled(sys, op) && FreshIds(sys.ledger, op)
            && Step(sys, op) == System(OneGoal(now, [MovedTask(first, Failed, now)]), Idle, multiset{})
  {
    hide SetTaskState, TaskIndex, OwnerIndex;
    FirstTask(first, first, 0);
    MoveFirst(now, [first], Failed);
    assert [first][0 := MovedTask(first, Failed, now)] == [MovedTask(first, Failed, now)];
  }

  lemma Reopening(now: int, failed: Task, other: Task) returns (sys': System)
    requires failed.state == Failed
    ensures var sys, op := System(OneGoal(now, [failed, other]), Idle, multiset{}), OpMove(failed.id, Ready, now);
            && Enabled(sys, op) && FreshIds(sys.ledger, op)
            && sys' == Step(sys, op) && sys'.ledger == OneGoal(now, [MovedTask(failed, Ready, now), other])
  {
    hide SetTaskState, TaskIndex, OwnerIndex, Reopens;
    var ts := [failed, other];
    FirstTask(failed, other, 0);
    ReopenAllowed();
    MoveFirst(now, ts, Ready);
    assert ts[0 := MovedTask(failed, Ready, now)] == [MovedTask(failed, Ready, now), other];
    sys' := Step(System(OneGoal(now, ts), Idle, multiset{}), OpMove(failed.id, Ready, now));
  }
}
