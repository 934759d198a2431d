/**
 * The transfer hub: one live batch shared by uploads and downloads. `TransferHub` is the shared object
 * with its critical sections; the protocol interleaves admissions, task bodies, cancels and the final event.
 */
module Hub {
  import opened Prelude

  datatype Kind = Upload | Download

  /** The fields the hub guards with its lock, and the registry of per-file cancel tokens. */
  datatype HubState = HubState(open: bool, outstanding: nat, total: nat, batch: nat, registry: set<nat>)

  /** Admit `count` files: open a fresh batch if none is live, dropping all registered tokens. */
  function Admitted(h: HubState, count: nat, newBatch: nat): (h': HubState)
  {
    if h.open then h.(outstanding := h.outstanding + count, total := h.total + count)
    else HubState(true, count, count, newBatch, {})
  }

  /** One task finished: saturating decrement, and the batch closes when it drains. */
  function Finished(h: HubState): (r: (HubState, bool))
  {
    var left := if h.outstanding == 0 then 0 else h.outstanding - 1;
    if h.open && left == 0 then (h.(outstanding := left, open := false), true) else (h.(outstanding := left), false)
  }

  class TransferHub {
    var open: bool
    var outstanding: nat
    var total: nat
    var batch: nat
    var registry: set<nat>

    ghost function View(): (h: HubState)
      reads this
    {
      HubState(open, outstanding, total, batch, registry)
    }

    constructor ()
      ensures View() == HubState(false, 0, 0, 0, {})
    {
      open, outstanding, total, batch, registry := false, 0, 0, 0, {};
    }

    method Admit(count: nat, newBatch: nat) returns (isFresh: bool)
      modifies this
      ensures View() == Admitted(old(View()), count, newBatch) && isFresh == !old(open)
    {
      isFresh := !open;
      if isFresh {
        open, outstanding, total, batch := true, 0, 0, newBatch;
        registry := {};
      }
      outstanding := outstanding + count;
      total := total + count;
    }

    method RegisterFile(id: nat)
      modifies this`registry
      ensures View() == old(View()).(registry := old(registry) + {id})
    {
      registry := registry + {id};
    }

    method UnregisterFile(id: nat)
      modifies this`registry
      ensures View() == old(View()).(registry := old(registry) - {id})
    {
      registry := registry - {id};
    }

    method TaskDone() returns (drained: bool)
      modifies this
      ensures (View(), drained) == Finished(old(View()))
    {
      outstanding := if outstanding == 0 then 0 else outstanding - 1;
      drained := open && outstanding == 0;
      if drained { open := false; }
    }
  }

  // ---------------------------------------------------------------- protocol

  /** Program counter of a file task. */
  datatype Stage = Waiting | Registered | SawCancel | Running | Settled | Released | Done

  /** How a task ended: a history value, recorded when the task settles. */
  datatype Outcome = Unsettled | Succeeded | Failed | Skipped

  /** `cancelled` is the task's own token; the batch token cancels it too. */
  datatype Task = Task(batch: nat, kind: Kind, stage: Stage, cancelled: bool, outcome: Outcome)

  datatype Counts = Counts(uploaded: nat, downloaded: nat, failed: nat)

  /** `skipped` is a history count: tasks that left without a progress update because the batch was cancelled. */
  datatype Batch = Batch(cancelled: bool, counts: Counts, skipped: nat, closings: nat, events: seq<Counts>)

  datatype State = State(hub: HubState, batches: seq<Batch>, tasks: map<nat, Task>)

  datatype Label =
    | Admit(ids: set<nat>, kind: Kind)
    | Register(id: nat)
    | CheckFile(id: nat)            // is the file's token cancelled?
    | CheckBatch(id: nat)           // it is; is the batch cancelled too?
    | Finish(id: nat, ok: bool)     // the transfer ended and was counted
    | Unregister(id: nat)
    | TaskDone(id: nat)
    | Emit(b: nat)                  // TransferFinished is sent
    | CancelFile(id: nat)
    | CancelAll

  const NEW_BATCH: Batch := Batch(false, Counts(0, 0, 0), 0, 0, [])

  function At(s: State, id: nat): (st: Option<Stage>) { if id in s.tasks then Some(s.tasks[id].stage) else None }

  predicate Enabled(s: State, l: Label)
  {
    match l
    case Admit(ids, _) => ids != {} && ids !! s.tasks.Keys
    case Register(id) => At(s, id) == Some(Waiting)
    case CheckFile(id) => At(s, id) == Some(Registered) && s.tasks[id].batch < |s.batches|
    case CheckBatch(id) => At(s, id) == Some(SawCancel) && s.tasks[id].batch < |s.batches|
    case Finish(id, _) => At(s, id) == Some(Running) && s.tasks[id].batch < |s.batches|
    case Unregister(id) => At(s, id) == Some(Settled)
    case TaskDone(id) => At(s, id) == Some(Released) && s.hub.batch < |s.batches|
    case Emit(b) => b < |s.batches| && |s.batches[b].events| < s.batches[b].closings
    case CancelFile(id) => id in s.tasks && id in s.hub.registry
    case CancelAll => s.hub.batch < |s.batches|
  }

  function Move(s: State, id: nat, stage: Stage): (s': State)
    requires id in s.tasks
  {
    s.(tasks := s.tasks[id := s.tasks[id].(stage := stage)])
  }

  function Settle(s: State, id: nat, o: Outcome): (s': State)
    requires id in s.tasks
  {
    s.(tasks := s.tasks[id := s.tasks[id].(stage := Settled, outcome := o)])
  }

  function Count(c: Counts, kind: Kind, ok: bool): (c': Counts)
  {
    if !ok then c.(failed := c.failed + 1)
    else if kind == Upload then c.(uploaded := c.uploaded + 1) else c.(downloaded := c.downloaded + 1)
  }

  function UpdateBatch(s: State, b: nat, x: Batch): (s': State)
    requires b < |s.batches|
  {
    s.(batches := s.batches[b := x])
  }

  function Added(ts: map<nat, Task>, ids: set<nat>, t: Task): (ts': map<nat, Task>) { ts + map id | id in ids :: t }

  function Next(s: State, l: Label): (s': State)
  {
    if !Enabled(s, l) then s
    else
      match l
      case Admit(ids, kind) =>
        var hub := Admitted(s.hub, |ids|, |s.batches|);
        State(hub, if s.hub.open then s.batches else s.batches + [NEW_BATCH],
              Added(s.tasks, ids, Task(hub.batch, kind, Waiting, false, Unsettled)))
      case Register(id) => Move(s, id, Registered).(hub := s.hub.(registry := s.hub.registry + {id}))
      case CheckFile(id) =>
        Move(s, id, if s.tasks[id].cancelled || s.batches[s.tasks[id].batch].cancelled then SawCancel else Running)
      case CheckBatch(id) =>
        var b := s.tasks[id].batch;
        var x := s.batches[b];
        UpdateBatch(Settle(s, id, if x.cancelled then Skipped else Failed), b,
                    if x.cancelled then x.(skipped := x.skipped + 1)
                    else x.(counts := Count(x.counts, s.tasks[id].kind, false)))
      case Finish(id, ok) =>
        var b := s.tasks[id].batch;
        var x := s.batches[b];
        UpdateBatch(Settle(s, id, if ok then Succeeded else Failed), b,
          x.(counts := Count(x.counts, s.tasks[id].kind, ok)))
      case Unregister(id) => Move(s, id, Released).(hub := s.hub.(registry := s.hub.registry - {id}))
      case TaskDone(id) =>
        var (hub, drained) := Finished(s.hub);
        var s1 := Move(s, id, Done).(hub := hub);
        var x := s.batches[s.hub.batch];
        if drained then UpdateBatch(s1, s.hub.batch, x.(closings := x.closings + 1)) else s1
      case Emit(b) => UpdateBatch(s, b, s.batches[b].(events := s.batches[b].events + [s.batches[b].counts]))
      case CancelFile(id) => s.(tasks := s.tasks[id := s.tasks[id].(cancelled := true)])
      case CancelAll => UpdateBatch(s, s.hub.batch, s.batches[s.hub.batch].(cancelled := true))
  }

  const INITIAL: State := State(HubState(false, 0, 0, 0, {}), [], map[])

  function Exec(ls: seq<Label>): (s: State)
  {
    if ls == [] then INITIAL else Next(Exec(ls[..|ls| - 1]), ls[|ls| - 1])
  }

  // ---------------------------------------------------------------- invariant

  type Tasks = map<nat, Task>

  function Members(ts: Tasks, b: nat): (ids: set<nat>) { set id | id in ts && ts[id].batch == b }

  /** Tasks of a batch that have not reported completion. */
  function Live(ts: Tasks, b: nat): (ids: set<nat>) { set id | id in ts && ts[id].batch == b && ts[id].stage != Done }

  predicate Counted(st: Stage) { st in {Settled, Released, Done} }

  function SettledIn(ts: Tasks, b: nat): (ids: set<nat>)
  {
    set id | id in ts && ts[id].batch == b && Counted(ts[id].stage)
  }

  function Sum(c: Counts): (n: nat) { c.uploaded + c.downloaded + c.failed }

  /**
   * While a batch is open, outstanding is the number of its unfinished tasks and total the number admitted; nobody
   * else is live.
   */
  ghost predicate HubOk(s: State)
  {
    && (s.hub.open ==>
          s.hub.batch < |s.batches| && s.hub.outstanding == |Live(s.tasks, s.hub.batch)| > 0
          && s.hub.total == |Members(s.tasks, s.hub.batch)|)
    && (forall id | id in s.tasks :: TaskOk(s, id))
  }

  /** A task belongs to a known batch, and an unfinished one to the open batch. */
  ghost predicate TaskOk(s: State, id: nat)
    requires id in s.tasks
  {
    s.tasks[id].batch < |s.batches| && (!Counted(s.tasks[id].stage) ==> s.tasks[id].outcome == Unsettled)
    && (s.tasks[id].stage != Done ==> s.hub.open && s.tasks[id].batch == s.hub.batch)
  }

  predicate HoldsToken(st: Stage) { st in {Registered, SawCancel, Running, Settled} }

  /** The registry holds exactly the tokens of tasks between registration and release. */
  ghost predicate RegistryOk(s: State)
  {
    forall id :: id in s.hub.registry <==> id in s.tasks && HoldsToken(s.tasks[id].stage)
  }

  /**
   * Each settled task was counted once or skipped by a batch cancel; every batch but the open one closed once; events
   * tell the final counts.
   */
  ghost predicate BatchOk(s: State, b: nat)
    requires b < |s.batches|
  {
    var x := s.batches[b];
    && Sum(x.counts) + x.skipped == |SettledIn(s.tasks, b)|
    && (x.skipped > 0 ==> x.cancelled)
    && x.closings == (if s.hub.open && s.hub.batch == b then 0 else 1)
    && |x.events| <= x.closings
    && forall e | e in x.events :: e == x.counts
  }

  ghost predicate Inv(s: State)
  {
    HubOk(s) && RegistryOk(s) && forall b: nat | b < |s.batches| :: BatchOk(s, b)
  }

  /** Adding fresh tasks to batch t.batch, seen from another batch. */
  lemma AddedElsewhere(ts: Tasks, ids: set<nat>, t: Task, c: nat)
    requires ids !! ts.Keys && c != t.batch
    ensures Members(Added(ts, ids, t), c) == Members(ts, c)
    ensures Live(Added(ts, ids, t), c) == Live(ts, c)
    ensures SettledIn(Added(ts, ids, t), c) == SettledIn(ts, c)
  {
  }

  lemma DisjointCount(a: set<nat>, b: set<nat>)
    requires a !! b
    ensures |a + b| == |a| + |b|
  {
  }

  lemma AddedMembers(ts: Tasks, ids: set<nat>, t: Task)
    requires ids !! ts.Keys
    ensures Members(Added(ts, ids, t), t.batch) == Members(ts, t.batch) + ids && Members(ts, t.batch) !! ids
  {
  }

  lemma AddedLive(ts: Tasks, ids: set<nat>, t: Task)
    requires ids !! ts.Keys && t.stage == Waiting
    ensures Live(Added(ts, ids, t), t.batch) == Live(ts, t.batch) + ids && Live(ts, t.batch) !! ids
    ensures SettledIn(Added(ts, ids, t), t.batch) == SettledIn(ts, t.batch)
  {
  }

  /** Adding fresh unsettled tasks to a batch. */
  lemma AddedHere(ts: Tasks, ids: set<nat>, t: Task)
    requires ids !! ts.Keys && t.stage == Waiting
    ensures |Members(Added(ts, ids, t), t.batch)| == |Members(ts, t.batch)| + |ids|
    ensures |Live(Added(ts, ids, t), t.batch)| == |Live(ts, t.batch)| + |ids|
    ensures SettledIn(Added(ts, ids, t), t.batch) == SettledIn(ts, t.batch)
  {
    AddedMembers(ts, ids, t);
    AddedLive(ts, ids, t);
    DisjointCount(Members(ts, t.batch), ids);
    DisjointCount(Live(ts, t.batch), ids);
  }

  /** Replacing one task by another of the same batch. */
  lemma ReplacedSets(ts: Tasks, id: nat, t: Task, c: nat)
    requires id in ts && t.batch == ts[id].batch && ts[id].stage != Done
    ensures var ts' := ts[id := t];
            && Members(ts', c) == Members(ts, c)
            && Live(ts', c) == (if t.stage == Done then Live(ts, c) - {id} else Live(ts, c))
            && (Counted(t.stage) == Counted(ts[id].stage) || c != t.batch ==> SettledIn(ts', c) == SettledIn(ts, c))
            && (Counted(t.stage) && !Counted(ts[id].stage) && c == t.batch ==>
                  SettledIn(ts', c) == SettledIn(ts, c) + {id} && id !in SettledIn(ts, c))
  {
  }

  lemma AdmitTasks(s: State, ids: set<nat>, kind: Kind)
    requires Inv(s) && Enabled(s, Admit(ids, kind))
    ensures var s' := Next(s, Admit(ids, kind)); (forall id | id in s'.tasks :: TaskOk(s', id)) && RegistryOk(s')
  {
    var s' := Next(s, Admit(ids, kind));
    forall id | id in s'.tasks ensures TaskOk(s', id) {
      if id in s.tasks { assert TaskOk(s, id); }
    }
    if !s.hub.open { ClearDropsNothing(s); }
  }

  lemma NewBatchEmpty(s: State, b: nat)
    requires HubOk(s) && b >= |s.batches|
    ensures Members(s.tasks, b) == {} && Live(s.tasks, b) == {} && SettledIn(s.tasks, b) == {}
  {
    forall id | id in s.tasks ensures s.tasks[id].batch != b { assert TaskOk(s, id); }
  }

  lemma AdmitOtherBatch(s: State, ids: set<nat>, kind: Kind, c: nat)
    requires Inv(s) && Enabled(s, Admit(ids, kind)) && c < |s.batches|
    requires c != Next(s, Admit(ids, kind)).hub.batch
    ensures BatchOk(Next(s, Admit(ids, kind)), c)
  {
    var t := Task(Next(s, Admit(ids, kind)).hub.batch, kind, Waiting, false, Unsettled);
    AddedElsewhere(s.tasks, ids, t, c);
    assert BatchOk(s, c);
  }

  lemma AdmitOpenBatch(s: State, ids: set<nat>, kind: Kind)
    requires Inv(s) && Enabled(s, Admit(ids, kind)) && s.hub.open
    ensures BatchOk(Next(s, Admit(ids, kind)), s.hub.batch)
  {
    AddedHere(s.tasks, ids, Task(s.hub.batch, kind, Waiting, false, Unsettled));
    assert BatchOk(s, s.hub.batch);
  }

  lemma AdmitNewBatch(s: State, ids: set<nat>, kind: Kind)
    requires Inv(s) && Enabled(s, Admit(ids, kind)) && !s.hub.open
    ensures BatchOk(Next(s, Admit(ids, kind)), |s.batches|)
  {
    AddedHere(s.tasks, ids, Task(|s.batches|, kind, Waiting, false, Unsettled));
    NewBatchEmpty(s, |s.batches|);
  }

  lemma AdmitBatch(s: State, ids: set<nat>, kind: Kind, c: nat)
    requires Inv(s) && Enabled(s, Admit(ids, kind)) && c < |Next(s, Admit(ids, kind)).batches|
    ensures BatchOk(Next(s, Admit(ids, kind)), c)
  {
    if c != Next(s, Admit(ids, kind)).hub.batch {
      AdmitOtherBatch(s, ids, kind, c);
    } else if s.hub.open {
      AdmitOpenBatch(s, ids, kind);
    } else {
      AdmitNewBatch(s, ids, kind);
    }
  }

  lemma AdmitKeepsInv(s: State, ids: set<nat>, kind: Kind)
    requires Inv(s) && Enabled(s, Admit(ids, kind))
    ensures Inv(Next(s, Admit(ids, kind)))
  {
    var s' := Next(s, Admit(ids, kind));
    AdmitTasks(s, ids, kind);
    if !s.hub.open { NewBatchEmpty(s, |s.batches|); }
    AddedHere(s.tasks, ids, Task(s'.hub.batch, kind, Waiting, false, Unsettled));
    forall c: nat | c < |s'.batches| ensures BatchOk(s', c) { AdmitBatch(s, ids, kind, c); }
  }

  /** Opening a batch clears no live token: with no batch open the registry is already empty. */
  lemma ClearDropsNothing(s: State)
    requires HubOk(s) && RegistryOk(s) && !s.hub.open
    ensures s.hub.registry == {}
  {
    forall id | id in s.tasks ensures !HoldsToken(s.tasks[id].stage) { assert TaskOk(s, id); }
  }

  /** A step that only replaces one unfinished task by another unfinished one of the same batch keeps the hub facts. */
  lemma ReplaceKeepsHub(s: State, s': State, id: nat, t: Task)
    requires HubOk(s) && id in s.tasks && t.batch == s.tasks[id].batch && s.tasks[id].stage != Done && t.stage != Done
    requires !Counted(t.stage) ==> t.outcome == Unsettled
    requires s'.tasks == s.tasks[id := t] && s'.hub == s.hub.(registry := s'.hub.registry)
             && |s'.batches| == |s.batches|
    ensures HubOk(s')
  {
    ReplacedSets(s.tasks, id, t, s.hub.batch);
    forall x | x in s'.tasks ensures TaskOk(s', x) { assert TaskOk(s, x); }
  }

  /** A step that replaces one task without settling it changes nothing for any batch. */
  lemma ReplaceKeepsBatch(s: State, s': State, id: nat, t: Task, b: nat)
    requires b < |s.batches| && BatchOk(s, b) && id in s.tasks && t.batch == s.tasks[id].batch
             && s.tasks[id].stage != Done
    requires Counted(t.stage) == Counted(s.tasks[id].stage)
    requires s'.tasks == s.tasks[id := t] && s'.hub == s.hub.(registry := s'.hub.registry) && s'.batches == s.batches
    ensures BatchOk(s', b)
  {
    ReplacedSets(s.tasks, id, t, b);
  }

  lemma StageKeepsInv(s: State, l: Label)
    requires Inv(s) && Enabled(s, l) && (l.Register? || l.CheckFile? || l.Unregister?)
    ensures Inv(Next(s, l))
  {
    var s', id := Next(s, l), l.id;
    assert TaskOk(s, id);
    ReplaceKeepsHub(s, s', id, s'.tasks[id]);
    forall b: nat | b < |s'.batches| ensures BatchOk(s', b) { ReplaceKeepsBatch(s, s', id, s'.tasks[id], b); }
  }

  lemma CancelFileKeepsInv(s: State, id: nat)
    requires Inv(s) && Enabled(s, CancelFile(id))
    ensures Inv(Next(s, CancelFile(id)))
  {
    var s' := Next(s, CancelFile(id));
    assert HoldsToken(s.tasks[id].stage) && TaskOk(s, id);
    ReplaceKeepsHub(s, s', id, s'.tasks[id]);
    forall b: nat | b < |s'.batches| ensures BatchOk(s', b) { ReplaceKeepsBatch(s, s', id, s'.tasks[id], b); }
  }

  lemma BatchOnlyKeepsInv(s: State, l: Label)
    requires Inv(s) && Enabled(s, l) && (l.CancelAll? || l.Emit?)
    ensures Inv(Next(s, l))
  {
    var s' := Next(s, l);
    forall x | x in s'.tasks ensures TaskOk(s', x) { assert TaskOk(s, x); }
    forall b: nat | b < |s'.batches| ensures BatchOk(s', b) { assert BatchOk(s, b); }
  }

  /** A task settles: one more settled task, one more count or skip, and no other batch notices. */
  lemma SettleBatch(s: State, l: Label, c: nat)
    requires Inv(s) && Enabled(s, l) && (l.CheckBatch? || l.Finish?) && c < |s.batches|
    ensures BatchOk(Next(s, l), c)
  {
    if c == s.tasks[l.id].batch { SettleOwnBatch(s, l); } else { SettleOtherBatch(s, l, c); }
  }

  lemma SettleOwnBatch(s: State, l: Label)
    requires Inv(s) && Enabled(s, l) && (l.CheckBatch? || l.Finish?)
    ensures BatchOk(Next(s, l), s.tasks[l.id].batch)
  {
    var b := s.tasks[l.id].batch;
    assert TaskOk(s, l.id);
    assert BatchOk(s, b);
    SettlesOne(s, l);
    assert Next(s, l).hub == s.hub && s.hub.open && s.hub.batch == b;
  }

  /** One more settled task of the batch, and one more count or skip. */
  lemma SettlesOne(s: State, l: Label)
    requires Enabled(s, l) && (l.CheckBatch? || l.Finish?)
    ensures var b, s' := s.tasks[l.id].batch, Next(s, l);
            && |SettledIn(s'.tasks, b)| == |SettledIn(s.tasks, b)| + 1
            && Sum(s'.batches[b].counts) + s'.batches[b].skipped ==
               Sum(s.batches[b].counts) + s.batches[b].skipped + 1
  {
    ReplacedSets(s.tasks, l.id, Next(s, l).tasks[l.id], s.tasks[l.id].batch);
  }

  lemma SettleOtherBatch(s: State, l: Label, c: nat)
    requires Inv(s) && Enabled(s, l) && (l.CheckBatch? || l.Finish?) && c < |s.batches| && c != s.tasks[l.id].batch
    ensures BatchOk(Next(s, l), c)
  {
    assert BatchOk(s, c);
    ReplacedSets(s.tasks, l.id, Next(s, l).tasks[l.id], c);
  }

  lemma SettleKeepsInv(s: State, l: Label)
    requires Inv(s) && Enabled(s, l) && (l.CheckBatch? || l.Finish?)
    ensures Inv(Next(s, l))
  {
    var s', id := Next(s, l), l.id;
    assert TaskOk(s, id);
    ReplaceKeepsHub(s, s', id, s'.tasks[id]);
    forall c: nat | c < |s'.batches| ensures BatchOk(s', c) { SettleBatch(s, l, c); }
  }

  lemma DoneKeepsHub(s: State, id: nat)
    requires Inv(s) && Enabled(s, TaskDone(id))
    ensures HubOk(Next(s, TaskDone(id)))
  {
    var s', b := Next(s, TaskDone(id)), s.hub.batch;
    assert TaskOk(s, id);
    ReplacedSets(s.tasks, id, s'.tasks[id], b);
    assert id in Live(s.tasks, b) && |Live(s'.tasks, b)| == |Live(s.tasks, b)| - 1;
    forall t | t in s'.tasks ensures TaskOk(s', t) {
      assert TaskOk(s, t);
      if s'.tasks[t].stage != Done { assert t in Live(s'.tasks, b); }
    }
  }

  lemma DoneKeepsBatch(s: State, id: nat, c: nat)
    requires Inv(s) && Enabled(s, TaskDone(id)) && c < |s.batches|
    ensures BatchOk(Next(s, TaskDone(id)), c)
  {
    assert TaskOk(s, id);
    assert BatchOk(s, c);
    ReplacedSets(s.tasks, id, Next(s, TaskDone(id)).tasks[id], c);
  }

  lemma DoneKeepsInv(s: State, id: nat)
    requires Inv(s) && Enabled(s, TaskDone(id))
    ensures Inv(Next(s, TaskDone(id)))
  {
    var s' := Next(s, TaskDone(id));
    DoneKeepsHub(s, id);
    forall c: nat | c < |s'.batches| ensures BatchOk(s', c) { DoneKeepsBatch(s, id, c); }
  }

  lemma StepKeepsInv(s: State, l: Label)
    requires Inv(s)
    ensures Inv(Next(s, l))
  {
    if Enabled(s, l) {
      match l
      case Admit(ids, kind) => AdmitKeepsInv(s, ids, kind);
      case CheckBatch(_) => SettleKeepsInv(s, l);
      case Finish(_, _) => SettleKeepsInv(s, l);
      case TaskDone(id) => DoneKeepsInv(s, id);
      case CancelFile(id) => CancelFileKeepsInv(s, id);
      case CancelAll => BatchOnlyKeepsInv(s, l);
      case Emit(_) => BatchOnlyKeepsInv(s, l);
      case _ => StageKeepsInv(s, l);
    }
  }

  lemma {:induction false} RunKeepsInv(ls: seq<Label>)
    ensures Inv(Exec(ls))
  {
    if ls != [] {
      RunKeepsInv(ls[..|ls| - 1]);
      StepKeepsInv(Exec(ls[..|ls| - 1]), ls[|ls| - 1]);
    }
  }

  /** While open, outstanding is exactly admitted minus finished, and finishing a task never saturates. */
  lemma OutstandingExact(ls: seq<Label>)
    ensures var s := Exec(ls);
            && (s.hub.open ==>
                  s.hub.outstanding == s.hub.total - |Members(s.tasks, s.hub.batch) - Live(s.tasks, s.hub.batch)|)
            && (forall id | id in s.tasks && s.tasks[id].stage == Released :: s.hub.outstanding > 0)
  {
    RunKeepsInv(ls);
    var s := Exec(ls);
    SubsetCount(Live(s.tasks, s.hub.batch), Members(s.tasks, s.hub.batch));
    forall id | id in s.tasks && s.tasks[id].stage == Released ensures s.hub.outstanding > 0 { assert TaskOk(s, id); }
  }

  lemma SubsetCount(a: set<nat>, b: set<nat>)
    requires a <= b
    ensures |b - a| == |b| - |a|
  {
  }

  // ---------------------------------------------------------------- what the counts mean

  /** Tasks of a batch that succeeded, by kind. */
  function Good(ts: Tasks, b: nat, k: Kind): (ids: set<nat>)
  {
    set id | id in ts && ts[id].batch == b && ts[id].kind == k && ts[id].outcome == Succeeded
  }

  function Bad(ts: Tasks, b: nat): (ids: set<nat>)
  {
    set id | id in ts && ts[id].batch == b && ts[id].outcome == Failed
  }

  /** The counts tell exactly how the batch's tasks ended. */
  ghost predicate Exact(ts: Tasks, b: nat, c: Counts)
  {
    c.uploaded == |Good(ts, b, Upload)| && c.downloaded == |Good(ts, b, Download)| && c.failed == |Bad(ts, b)|
  }

  /** Fresh unsettled tasks change no outcome. */
  lemma AddedOutcomes(ts: Tasks, ids: set<nat>, t: Task, c: nat, n: Counts)
    requires ids !! ts.Keys && t.outcome == Unsettled
    ensures Exact(Added(ts, ids, t), c, n) <==> Exact(ts, c, n)
  {
    assert Good(Added(ts, ids, t), c, Upload) == Good(ts, c, Upload);
    assert Good(Added(ts, ids, t), c, Download) == Good(ts, c, Download);
    assert Bad(Added(ts, ids, t), c) == Bad(ts, c);
  }

  /** Nor does a step that keeps the task's outcome, or one of another batch. */
  lemma SameOutcomes(ts: Tasks, id: nat, t: Task, c: nat, n: Counts)
    requires id in ts && t.batch == ts[id].batch && t.kind == ts[id].kind
    requires t.outcome == ts[id].outcome || t.batch != c
    ensures Exact(ts[id := t], c, n) <==> Exact(ts, c, n)
  {
    assert Good(ts[id := t], c, Upload) == Good(ts, c, Upload);
    assert Good(ts[id := t], c, Download) == Good(ts, c, Download);
    assert Bad(ts[id := t], c) == Bad(ts, c);
  }

  lemma GoodAfter(ts: Tasks, id: nat, t: Task, k: Kind)
    requires id in ts && t.batch == ts[id].batch && t.kind == ts[id].kind && ts[id].outcome == Unsettled
    ensures |Good(ts[id := t], t.batch, k)| ==
            |Good(ts, t.batch, k)| + if t.outcome == Succeeded && t.kind == k then 1 else 0
  {
    var before, after := Good(ts, t.batch, k), Good(ts[id := t], t.batch, k);
    assert id !in before;
    assert after == if t.outcome == Succeeded && t.kind == k then before + {id} else before;
  }

  lemma BadAfter(ts: Tasks, id: nat, t: Task)
    requires id in ts && t.batch == ts[id].batch && ts[id].outcome == Unsettled
    ensures |Bad(ts[id := t], t.batch)| == |Bad(ts, t.batch)| + if t.outcome == Failed then 1 else 0
  {
    var before, after := Bad(ts, t.batch), Bad(ts[id := t], t.batch);
    assert id !in before;
    assert after == if t.outcome == Failed then before + {id} else before;
  }

  /** A task that settles is counted once, under its kind and outcome. */
  lemma OneMoreOutcome(ts: Tasks, id: nat, t: Task, n: Counts)
    requires id in ts && t.batch == ts[id].batch && t.kind == ts[id].kind && ts[id].outcome == Unsettled
    requires Exact(ts, t.batch, n) && t.outcome != Unsettled
    ensures Exact(ts[id := t], t.batch, if t.outcome == Skipped then n else Count(n, t.kind, t.outcome == Succeeded))
  {
    GoodAfter(ts, id, t, Upload);
    GoodAfter(ts, id, t, Download);
    BadAfter(ts, id, t);
  }

  lemma NobodyCounted(ts: Tasks, b: nat)
    requires Members(ts, b) == {}
    ensures Exact(ts, b, Counts(0, 0, 0))
  {
    assert Good(ts, b, Upload) <= Members(ts, b) && Good(ts, b, Download) <= Members(ts, b)
      && Bad(ts, b) <= Members(ts, b);
  }

  ghost predicate CountsExact(s: State)
  {
    forall b: nat | b < |s.batches| :: Exact(s.tasks, b, s.batches[b].counts)
  }

  lemma AdmitKeepsExact(s: State, ids: set<nat>, kind: Kind, b: nat)
    requires HubOk(s) && CountsExact(s) && Enabled(s, Admit(ids, kind)) && b < |Next(s, Admit(ids, kind)).batches|
    ensures Exact(Next(s, Admit(ids, kind)).tasks, b, Next(s, Admit(ids, kind)).batches[b].counts)
  {
    var s' := Next(s, Admit(ids, kind));
    if b >= |s.batches| {
      NewBatchEmpty(s, b);
      NobodyCounted(s.tasks, b);
    }
    AddedOutcomes(s.tasks, ids, Task(s'.hub.batch, kind, Waiting, false, Unsettled), b, s'.batches[b].counts);
  }

  lemma SettleKeepsExact(s: State, l: Label, b: nat)
    requires HubOk(s) && CountsExact(s) && Enabled(s, l) && (l.CheckBatch? || l.Finish?) && b < |s.batches|
    ensures Exact(Next(s, l).tasks, b, Next(s, l).batches[b].counts)
  {
    var t := Next(s, l).tasks[l.id];
    assert TaskOk(s, l.id);
    if b == t.batch {
      OneMoreOutcome(s.tasks, l.id, t, s.batches[b].counts);
    } else {
      SameOutcomes(s.tasks, l.id, t, b, s.batches[b].counts);
    }
  }

  lemma OtherKeepsExact(s: State, l: Label, b: nat)
    requires CountsExact(s) && Enabled(s, l) && !l.Admit? && !l.CheckBatch? && !l.Finish? && b < |s.batches|
    ensures Exact(Next(s, l).tasks, b, Next(s, l).batches[b].counts)
  {
    if !l.Emit? && !l.CancelAll? { SameOutcomes(s.tasks, l.id, Next(s, l).tasks[l.id], b, s.batches[b].counts); }
  }

  lemma StepKeepsExact(s: State, l: Label)
    requires HubOk(s) && CountsExact(s)
    ensures CountsExact(Next(s, l))
  {
    if Enabled(s, l) {
      forall b: nat | b < |Next(s, l).batches| ensures Exact(Next(s, l).tasks, b, Next(s, l).batches[b].counts) {
        if l.Admit? {
          AdmitKeepsExact(s, l.ids, l.kind, b);
        } else if l.CheckBatch? || l.Finish? {
          SettleKeepsExact(s, l, b);
        } else {
          OtherKeepsExact(s, l, b);
        }
      }
    }
  }

  /** In every run each batch's counts tell exactly how its tasks ended. */
  lemma {:induction false} RunKeepsExact(ls: seq<Label>)
    ensures CountsExact(Exec(ls))
  {
    if ls != [] {
      RunKeepsExact(ls[..|ls| - 1]);
      RunKeepsInv(ls[..|ls| - 1]);
      StepKeepsExact(Exec(ls[..|ls| - 1]), ls[|ls| - 1]);
    }
  }

  predicate AllDone(ts: Tasks, b: nat) { forall id | id in Members(ts, b) :: ts[id].stage == Done }

  lemma DoneMeansSettled(ts: Tasks, b: nat)
    requires AllDone(ts, b)
    ensures SettledIn(ts, b) == Members(ts, b)
  {
  }

  /** A batch has closed, once, exactly when all its tasks are done. */
  lemma ClosedIffDone(s: State, b: nat)
    requires Inv(s) && b < |s.batches|
    ensures s.batches[b].closings == if AllDone(s.tasks, b) then 1 else 0
  {
    assert BatchOk(s, b);
    if s.hub.open && s.hub.batch == b {
      var id :| id in Live(s.tasks, b);
      assert id in Members(s.tasks, b);
    } else {
      forall id | id in Members(s.tasks, b) ensures s.tasks[id].stage == Done { assert TaskOk(s, id); }
    }
  }

  lemma EventIsExact(s: State, b: nat, e: Counts)
    requires Inv(s) && CountsExact(s) && b < |s.batches| && e in s.batches[b].events
    ensures AllDone(s.tasks, b) && Exact(s.tasks, b, e) && Sum(e) == |Members(s.tasks, b)| - s.batches[b].skipped
  {
    ClosedIffDone(s, b);
    assert BatchOk(s, b);
    DoneMeansSettled(s.tasks, b);
  }

  lemma OneEvent(s: State, b: nat)
    requires Inv(s) && b < |s.batches|
    ensures |s.batches[b].events| <= 1 && (s.batches[b].skipped > 0 ==> s.batches[b].cancelled)
    ensures AllDone(s.tasks, b) <==> |s.batches[b].events| == 1 || Enabled(s, Emit(b))
  {
    ClosedIffDone(s, b);
    assert BatchOk(s, b);
  }

  /**
   * The final event: each batch emits it at most once, only after its last task reported, with exactly the
   * uploads and downloads that succeeded and the tasks that failed, which are all the admitted ones except
   * those skipped by a batch cancel; and once its tasks are all done it was emitted or can be.
   */
  lemma FinishedOnceWithExactCounts(ls: seq<Label>, b: nat)
    requires b < |Exec(ls).batches|
    ensures var s := Exec(ls);
            var x := s.batches[b];
            && |x.events| <= 1
            && (AllDone(s.tasks, b) <==> |x.events| == 1 || Enabled(s, Emit(b)))
            && (forall e | e in x.events ::
                  AllDone(s.tasks, b) && Exact(s.tasks, b, e) && Sum(e) == |Members(s.tasks, b)| - x.skipped)
            && (x.skipped > 0 ==> x.cancelled)
  {
    RunKeepsInv(ls);
    RunKeepsExact(ls);
    OneEvent(Exec(ls), b);
    forall e | e in Exec(ls).batches[b].events
      ensures AllDone(Exec(ls).tasks, b) && Exact(Exec(ls).tasks, b, e)
      ensures Sum(e) == |Members(Exec(ls).tasks, b)| - Exec(ls).batches[b].skipped
    {
      EventIsExact(Exec(ls), b, e);
    }
  }

  // ---------------------------------------------------------------- cancelling one file

  /** Its token was cancelled before the task looked at it: it is not running and will not have succeeded. */
  predicate Doomed(s: State, id: nat)
  {
    id in s.tasks && s.tasks[id].cancelled && s.tasks[id].stage != Waiting && s.tasks[id].stage != Running
    && s.tasks[id].outcome != Succeeded
  }

  lemma StepKeepsDoomed(s: State, l: Label, id: nat)
    requires Doomed(s, id)
    ensures Doomed(Next(s, l), id)
  {
    if Enabled(s, l) && l.Admit? { assert id !in l.ids; }
  }

  lemma CancelDooms(s: State, id: nat)
    requires HubOk(s) && At(s, id) == Some(Registered) && id in s.hub.registry
    ensures Doomed(Next(s, CancelFile(id)), id)
  {
    assert TaskOk(s, id);
  }

  lemma ExecStep(ls: seq<Label>, l: Label)
    ensures Exec(ls + [l]) == Next(Exec(ls), l)
  {
    assert (ls + [l])[..|ls|] == ls;
  }

  lemma {:induction false} DoomedStays(ls: seq<Label>, rest: seq<Label>, id: nat)
    requires Doomed(Exec(ls), id)
    ensures Doomed(Exec(ls + rest), id)
  {
    if rest == [] {
      assert ls + rest == ls;
    } else {
      var init, z := rest[..|rest| - 1], rest[|rest| - 1];
      DoomedStays(ls, init, id);
      assert ls + rest == ls + init + [z];
      ExecStep(ls + init, z);
      StepKeepsDoomed(Exec(ls + init), z, id);
    }
  }

  /** A cancel that reaches a registered task always works: whatever happens afterwards, it never transfers. */
  lemma CancelledNeverRuns(ls: seq<Label>, rest: seq<Label>, id: nat)
    requires At(Exec(ls), id) == Some(Registered) && id in Exec(ls).hub.registry
    ensures Doomed(Exec(ls + [CancelFile(id)] + rest), id)
  {
    RunKeepsInv(ls);
    CancelDooms(Exec(ls), id);
    ExecStep(ls, CancelFile(id));
    DoomedStays(ls + [CancelFile(id)], rest, id);
  }

  // ---------------------------------------------------------------- cancelling the batch

  /** Its batch was cancelled before the task looked at its token: it never runs, and can only end skipped. */
  predicate Called(s: State, id: nat)
  {
    && id in s.tasks && s.tasks[id].batch < |s.batches| && s.batches[s.tasks[id].batch].cancelled
    && s.tasks[id].stage != Running && s.tasks[id].outcome in {Unsettled, Skipped}
    && (Counted(s.tasks[id].stage) ==> s.tasks[id].outcome == Skipped)
  }

  lemma StepKeepsCalled(s: State, l: Label, id: nat)
    requires Called(s, id)
    ensures Called(Next(s, l), id)
  {
    if Enabled(s, l) && l.Admit? { assert id !in l.ids; }
  }

  lemma CancelCalls(s: State, id: nat)
    requires HubOk(s) && id in s.tasks && s.tasks[id].stage in {Waiting, Registered, SawCancel}
    ensures Called(Next(s, CancelAll), id)
  {
    assert TaskOk(s, id);
  }

  lemma {:induction false} CalledStays(ls: seq<Label>, rest: seq<Label>, id: nat)
    requires Called(Exec(ls), id)
    ensures Called(Exec(ls + rest), id)
  {
    if rest == [] {
      assert ls + rest == ls;
    } else {
      var init, z := rest[..|rest| - 1], rest[|rest| - 1];
      CalledStays(ls, init, id);
      assert ls + rest == ls + init + [z];
      ExecStep(ls + init, z);
      StepKeepsCalled(Exec(ls + init), z, id);
    }
  }

  /**
   * A batch cancel reaches every task that has not started: whatever happens afterwards, a task that was waiting,
   * registered or had seen its own cancel never transfers, and if it ends it is skipped, not counted as failed.
   */
  lemma CancelledBatchNeverRuns(ls: seq<Label>, rest: seq<Label>, id: nat)
    requires id in Exec(ls).tasks && Exec(ls).tasks[id].stage in {Waiting, Registered, SawCancel}
    ensures Called(Exec(ls + [CancelAll] + rest), id)
  {
    RunKeepsInv(ls);
    CancelCalls(Exec(ls), id);
    ExecStep(ls, CancelAll);
    CalledStays(ls + [CancelAll], rest, id);
  }

  /** Nobody is turned away without a cancel, and nobody is skipped unless the batch was cancelled. */
  predicate Justified(s: State, id: nat)
    requires id in s.tasks
  {
    && s.tasks[id].batch < |s.batches|
    && var b := s.batches[s.tasks[id].batch].cancelled;
       (s.tasks[id].stage == SawCancel ==> s.tasks[id].cancelled || b) && (s.tasks[id].outcome == Skipped ==> b)
  }

  lemma StepJustified(s: State, l: Label, id: nat)
    requires HubOk(s) && id in Next(s, l).tasks && (id in s.tasks ==> Justified(s, id))
    ensures Justified(Next(s, l), id)
  {
    if id in s.tasks { assert TaskOk(s, id); }
  }

  /** Conversely, in every run only a cancel turns a task away, and only a batch cancel skips one. */
  lemma {:induction false} OnlyCancelTurnsAway(ls: seq<Label>, id: nat)
    requires id in Exec(ls).tasks
    ensures Justified(Exec(ls), id)
  {
    if ls != [] {
      var init := ls[..|ls| - 1];
      RunKeepsInv(init);
      if id in Exec(init).tasks { OnlyCancelTurnsAway(init, id); }
      StepJustified(Exec(init), ls[|ls| - 1], id);
    }
  }

  // ---------------------------------------------------------------- how a task ended

  /** The step ends the task that way: its transfer reported, or once cancelled it found its batch cancelled or not. */
  predicate Ends(s: State, l: Label, id: nat, o: Outcome)
  {
    Enabled(s, l) &&
    match o
    case Unsettled => false
    case Succeeded => l == Finish(id, true)
    case Failed => l == Finish(id, false) || (l == CheckBatch(id) && !s.batches[s.tasks[id].batch].cancelled)
    case Skipped => l == CheckBatch(id) && s.batches[s.tasks[id].batch].cancelled
  }

  predicate EndsAt(ls: seq<Label>, i: nat, id: nat, o: Outcome)
    requires i < |ls|
  {
    Ends(Exec(ls[..i]), ls[i], id, o)
  }

  ghost predicate Ended(ls: seq<Label>, id: nat, o: Outcome) { exists i: nat :: i < |ls| && EndsAt(ls, i, id, o) }

  lemma EarlierEnd(ls: seq<Label>, i: nat, id: nat, o: Outcome)
    requires i < |ls| - 1
    ensures EndsAt(ls, i, id, o) <==> EndsAt(ls[..|ls| - 1], i, id, o)
  {
    assert ls[..|ls| - 1][..i] == ls[..i];
  }

  lemma EndedStep(ls: seq<Label>, id: nat, o: Outcome)
    requires ls != []
    ensures Ended(ls, id, o) <==> Ended(ls[..|ls| - 1], id, o) || EndsAt(ls, |ls| - 1, id, o)
  {
    var init := ls[..|ls| - 1];
    if i: nat :| i < |ls| && EndsAt(ls, i, id, o) && i < |ls| - 1 { EarlierEnd(ls, i, id, o); }
    if i: nat :| i < |init| && EndsAt(init, i, id, o) { EarlierEnd(ls, i, id, o); }
  }

  predicate HasOutcome(s: State, id: nat, o: Outcome) { id in s.tasks && s.tasks[id].outcome == o }

  lemma StepOutcome(s: State, l: Label, id: nat, o: Outcome)
    requires HubOk(s) && o != Unsettled
    ensures HasOutcome(Next(s, l), id, o) <==> HasOutcome(s, id, o) || Ends(s, l, id, o)
  {
    if id in s.tasks { assert TaskOk(s, id); }
  }

  /** The outcomes that the counts tell are what happened: each is there exactly when some step ended the task so. */
  lemma {:induction false} OutcomeIsHowItEnded(ls: seq<Label>, id: nat, o: Outcome)
    requires o != Unsettled
    ensures HasOutcome(Exec(ls), id, o) <==> Ended(ls, id, o)
  {
    if ls != [] {
      var init := ls[..|ls| - 1];
      OutcomeIsHowItEnded(init, id, o);
      RunKeepsInv(init);
      StepOutcome(Exec(init), ls[|ls| - 1], id, o);
      EndedStep(ls, id, o);
    }
  }

  /** Step i cancelled what the predicate is about: the open batch, or a file whose token was registered. */
  predicate CancelsBatch(s: State, l: Label, b: nat) { l.CancelAll? && Enabled(s, l) && s.hub.batch == b }

  predicate CancelsFile(s: State, l: Label, id: nat) { l == CancelFile(id) && Enabled(s, l) }

  ghost predicate BatchWasCancelled(ls: seq<Label>, b: nat)
    decreases |ls|
  {
    ls != [] && (
      var init := ls[..|ls| - 1];
      CancelsBatch(Exec(init), ls[|ls| - 1], b) || BatchWasCancelled(init, b))
  }

  ghost predicate FileWasCancelled(ls: seq<Label>, id: nat)
    decreases |ls|
  {
    ls != [] && (
      var init := ls[..|ls| - 1];
      CancelsFile(Exec(init), ls[|ls| - 1], id) || FileWasCancelled(init, id))
  }

  predicate BatchCancelled(s: State, b: nat) { b < |s.batches| && s.batches[b].cancelled }

  predicate FileCancelled(s: State, id: nat) { id in s.tasks && s.tasks[id].cancelled }

  lemma StepCancels(s: State, l: Label, b: nat, id: nat)
    ensures BatchCancelled(Next(s, l), b) <==> BatchCancelled(s, b) || CancelsBatch(s, l, b)
    ensures FileCancelled(Next(s, l), id) <==> FileCancelled(s, id) || CancelsFile(s, l, id)
  {
  }

  /** A batch or file token is cancelled exactly when a cancel reached it; a fresh batch starts uncancelled. */
  lemma {:induction false} CancelledIff(ls: seq<Label>, b: nat, id: nat)
    ensures BatchCancelled(Exec(ls), b) <==> BatchWasCancelled(ls, b)
    ensures FileCancelled(Exec(ls), id) <==> FileWasCancelled(ls, id)
  {
    if ls != [] {
      CancelledIff(ls[..|ls| - 1], b, id);
      StepCancels(Exec(ls[..|ls| - 1]), ls[|ls| - 1], b, id);
    }
  }

  /** Some step admitted the file as a transfer of that kind into the batch that was open after it. */
  ghost predicate AdmittedAs(ls: seq<Label>, id: nat, kind: Kind, b: nat)
    decreases |ls|
  {
    ls != [] && (
      var init, l := ls[..|ls| - 1], ls[|ls| - 1];
      || (l.Admit? && Enabled(Exec(init), l) && id in l.ids && l.kind == kind && Exec(ls).hub.batch == b)
      || AdmittedAs(init, id, kind, b))
  }

  lemma StepAdmits(s: State, l: Label, id: nat)
    ensures var s' := Next(s, l);
            if l.Admit? && Enabled(s, l) && id in l.ids
            then id in s'.tasks && id !in s.tasks && s'.tasks[id].kind == l.kind && s'.tasks[id].batch == s'.hub.batch
            else
              && (id in s'.tasks <==> id in s.tasks)
              && (id in s.tasks ==> s'.tasks[id].kind == s.tasks[id].kind && s'.tasks[id].batch == s.tasks[id].batch)
  {
  }

  /** A task is what it was admitted as, once. */
  lemma {:induction false} TaskIsAdmitted(ls: seq<Label>, id: nat, kind: Kind, b: nat)
    ensures AdmittedAs(ls, id, kind, b) <==>
            id in Exec(ls).tasks && Exec(ls).tasks[id].kind == kind && Exec(ls).tasks[id].batch == b
  {
    if ls != [] {
      TaskIsAdmitted(ls[..|ls| - 1], id, kind, b);
      StepAdmits(Exec(ls[..|ls| - 1]), ls[|ls| - 1], id);
    }
  }
}
