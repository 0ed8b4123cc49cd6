/**
 Unplug, replug, late completion: a completion that is not a failure belongs to a device that stayed
 present, under the same id and key, from the moment its presence flag was taken.
 */
module LateCompletion {
  import opened Results
  import opened Bytes
  import opened Messages
  import opened Lease
  import opened Urb
  import opened Inventory
  import opened InventoryRefresh
  import opened Server
  import opened ServerSession
  import opened ServerWorld
  import opened ServerRuns
  import opened ServerTrace
  import opened TruthfulRuns

  // ---------------------------------------------------------------- tasks

  lemma FlagForDevice(r: Run, devices: seq<LocalDevice>, l: nat, n: nat, id: DeviceId)
    requires ServerRun(r, devices) && l <= n < |r.states| && id in InvAt(r, l).presence
    ensures var p := InvAt(r, l).presence[id]; p < |InvAt(r, n).tokens| && InvAt(r, n).tokens[p].id == id
  {
    RunWorldOk(r, devices, l);
    RunFlagsFall(r, l, n);
  }

  /** The flag a request took was made for the device it addresses. */
  lemma HeldFlag(r: Run, devices: seq<LocalDevice>, n: nat, sid: nat, o: nat, urb: UrbSubmit, p: nat)
    requires ServerRun(r, devices) && n < |r.states| && Holds(r, n, sid, o, urb, p)
    ensures p < |InvAt(r, n).tokens| && InvAt(r, n).tokens[p].id == urb.deviceId
  {
    var owner :| Admitted(r, n, sid, o, urb, owner, p);
    var i: nat, j: nat, l: nat :| i < j < l < n && TokenChecked(r, i, sid, o, urb, owner) &&
      LeaseChecked(r, j, sid, o, urb, owner) && FlagTaken(r, l, sid, o, urb, owner, p);
    FlagForDevice(r, devices, l, n, urb.deviceId);
  }

  /** Step `n` is the step of task `t` of request `o`, which sees the inventory as it is. */
  ghost predicate Steps(r: Run, n: nat, sid: nat, o: nat, t: Task, answer: UrbComplete, config: Config, sh: Shared) {
    && Runs(r, n, sid, o, t.urb) && r.states[n].sessions[sid].tasks[o] == t && r.actions[n].answer == answer
    && sh == r.states[n].shared && config == r.states[n].config && config.custom == HasCustom(r)
    && Sees(sh.inv, t) && TaskTraced(r, n, sid, o, t)
  }

  lemma FailNow(r: Run, n: nat, sid: nat, o: nat, urb: UrbSubmit)
    requires FailsAt(r, n, sid, o, urb)
    ensures HasFailed(r, n + 1, sid, o, urb) && Genuine(r, n + 1, sid, o, urb, Failed(urb.seqNum))
  {
    assert n < n + 1;
  }

  lemma VouchNow(r: Run, n: nat, sid: nat, o: nat, t: Task, c: UrbComplete)
    requires n < |r.states| && Decides(r, n, sid, o, c) && Sourced(r, n, sid, o, t.urb, c)
    requires Holds(r, n, sid, o, t.urb, t.presence) && Raised(InvAt(r, n), t.presence)
    ensures Genuine(r, n + 1, sid, o, t.urb, c)
  {
    assert Vouched(r, n, sid, o, t.urb, c);
    assert n < n + 1;
  }

  /** A result that is read again after the completer returned it. */
  lemma RereadTraced(r: Run, n: nat, sid: nat, o: nat, t: Task, answer: UrbComplete, config: Config, sh: Shared, c: UrbComplete)
    requires Steps(r, n, sid, o, t, answer, config, sh) && (t.stage.CustomDone? || t.stage.HostDone?)
    requires NextStage(config, sh, t, answer) == Returned(c) && Decides(r, n, sid, o, c)
    ensures Genuine(r, n + 1, sid, o, t.urb, c)
  {
    CheckedStage(config, sh, t, answer, Returned(c));
    if t.urb.deviceId !in sh.inv.present {
      FailNow(r, n, sid, o, t.urb);
    } else if HasCompleted(r, n, sid, o, t.urb, c) {
      assert Sourced(r, n, sid, o, t.urb, c);
      VouchNow(r, n, sid, o, t, c);
    } else {
      FailedBefore(r, n, sid, o, t.urb);
    }
  }

  lemma FailedBefore(r: Run, n: nat, sid: nat, o: nat, urb: UrbSubmit)
    requires HasFailed(r, n, sid, o, urb)
    ensures Genuine(r, n + 1, sid, o, urb, Failed(urb.seqNum))
  {
    HistoryLater(r, n, sid, o, urb, Failed(urb.seqNum));
  }

  lemma LookedUpTraced(r: Run, n: nat, sid: nat, o: nat, t: Task, answer: UrbComplete, config: Config, sh: Shared, c: UrbComplete)
    requires Steps(r, n, sid, o, t, answer, config, sh) && t.stage.Looking?
    requires NextStage(config, sh, t, answer) == Returned(c) && Decides(r, n, sid, o, c)
    ensures Genuine(r, n + 1, sid, o, t.urb, c)
  {
    LookingStage(config, sh, t, answer);
    FoundStage(config, sh, t);
    if t.urb.deviceId in sh.inv.present && sh.inv.present[t.urb.deviceId].backend == Emulated {
      assert FoundEmulated(r, n, sid, o, t.urb);
      assert Sourced(r, n, sid, o, t.urb, c);
      VouchNow(r, n, sid, o, t, c);
    } else {
      FailNow(r, n, sid, o, t.urb);
    }
  }

  lemma ReturnTraced(r: Run, n: nat, sid: nat, o: nat, t: Task, answer: UrbComplete, config: Config, sh: Shared, c: UrbComplete)
    requires Steps(r, n, sid, o, t, answer, config, sh) && !t.stage.Returned? && !t.stage.Unsent?
    requires NextStage(config, sh, t, answer) == Returned(c) && Decides(r, n, sid, o, c)
    ensures Genuine(r, n + 1, sid, o, t.urb, c)
  {
    if t.stage.Looking? {
      LookedUpTraced(r, n, sid, o, t, answer, config, sh, c);
    } else if t.stage.CustomDone? || t.stage.HostDone? {
      RereadTraced(r, n, sid, o, t, answer, config, sh, c);
    } else {
      CheckedStage(config, sh, t, answer, Returned(c));
      FailNow(r, n, sid, o, t.urb);
    }
  }

  /** The completer has returned. */
  lemma CompletedNow(r: Run, n: nat, sid: nat, o: nat, t: Task, answer: UrbComplete, config: Config, sh: Shared)
    requires Steps(r, n, sid, o, t, answer, config, sh) && (t.stage.CustomRunning? || t.stage.HostRunning?)
    ensures HasCompleted(r, n + 1, sid, o, t.urb, answer)
  {
    assert Completes(r, n, sid, o, t.urb, answer);
    assert n < n + 1;
  }

  /** The lookup goes on waiting, or hands the URB to the USB library. */
  lemma LookingTraced(r: Run, n: nat, sid: nat, o: nat, t: Task, answer: UrbComplete, config: Config, sh: Shared, next: Stage)
    requires Steps(r, n, sid, o, t, answer, config, sh) && t.stage.Looking?
    requires next == NextStage(config, sh, t, answer) && !next.Returned?
    ensures StageTraced(r, n + 1, sid, o, t.(stage := next))
  {
    LookingStage(config, sh, t, answer);
    FoundStage(config, sh, t);
    if next.HostStarting? {
      assert FoundHost(r, n, sid, o, t.urb);
      assert n < n + 1;
    }
  }

  lemma RunningTraced(r: Run, n: nat, sid: nat, o: nat, t: Task, answer: UrbComplete, config: Config, sh: Shared, next: Stage)
    requires Steps(r, n, sid, o, t, answer, config, sh) && (t.stage.CustomRunning? || t.stage.HostRunning?)
    requires next == NextStage(config, sh, t, answer)
    ensures StageTraced(r, n + 1, sid, o, t.(stage := next))
  {
    RunningStage(config, sh, t, answer);
    if next == t.stage {
      HistoryLater(r, n, sid, o, t.urb, answer);
      assert StageTraced(r, n + 1, sid, o, t.(stage := next));
    } else {
      CompletedNow(r, n, sid, o, t, answer, config, sh);
      assert StageTraced(r, n + 1, sid, o, t.(stage := next));
    }
  }

  /** A completer that has not returned an answer that fits runs on. */
  lemma RunningStage(config: Config, sh: Shared, t: Task, answer: UrbComplete)
    requires t.stage.CustomRunning? || t.stage.HostRunning?
    ensures NextStage(config, sh, t, answer) ==
            if !Fits(t.urb, answer) then t.stage else if t.stage.CustomRunning? then CustomDone(answer) else HostDone(answer)
  {
  }

  lemma StartedTraced(r: Run, n: nat, sid: nat, o: nat, t: Task, answer: UrbComplete, config: Config, sh: Shared, next: Stage)
    requires Steps(r, n, sid, o, t, answer, config, sh) && (t.stage.Started? || t.stage.HostStarting?)
    requires next == NextStage(config, sh, t, answer) && !next.Returned?
    ensures StageTraced(r, n + 1, sid, o, t.(stage := next))
  {
    HistoryLater(r, n, sid, o, t.urb, answer);
    if next.HostDone? {
      FailNow(r, n, sid, o, t.urb);
    } else if !next.Looking? {
      assert Entrusts(r, n, sid, o, t.urb);
      assert n < n + 1;
    }
  }

  /** A step of a task that does not return yet. */
  lemma WorkTraced(r: Run, n: nat, sid: nat, o: nat, t: Task, answer: UrbComplete, config: Config, sh: Shared, next: Stage)
    requires Steps(r, n, sid, o, t, answer, config, sh) && !t.stage.Returned? && !t.stage.Unsent?
    requires next == NextStage(config, sh, t, answer) && !next.Returned?
    ensures StageTraced(r, n + 1, sid, o, t.(stage := next))
  {
    if t.stage.CustomRunning? || t.stage.HostRunning? {
      RunningTraced(r, n, sid, o, t, answer, config, sh, next);
    } else if t.stage.Looking? {
      LookingTraced(r, n, sid, o, t, answer, config, sh, next);
    } else {
      StartedTraced(r, n, sid, o, t, answer, config, sh, next);
    }
  }

  lemma SameResult(config: Config, sh: Shared, t: Task, answer: UrbComplete)
    requires t.stage.Returned? || t.stage.Unsent?
    ensures NextStage(config, sh, t, answer) == Unsent(t.stage.result)
  {
  }

  lemma ResultTraced(r: Run, n: nat, sid: nat, o: nat, t: Task)
    requires TaskTraced(r, n, sid, o, t) && (t.stage.Returned? || t.stage.Unsent?)
    ensures StageTraced(r, n + 1, sid, o, t.(stage := Unsent(t.stage.result)))
  {
    HistoryLater(r, n, sid, o, t.urb, t.stage.result);
  }

  lemma TaskStepTraced(r: Run, n: nat, sid: nat, o: nat, t: Task, answer: UrbComplete, config: Config, sh: Shared, next: Stage)
    requires Steps(r, n, sid, o, t, answer, config, sh) && next == NextStage(config, sh, t, answer)
    requires next.Returned? && !t.stage.Returned? ==> Decides(r, n, sid, o, next.result)
    ensures TaskTraced(r, n + 1, sid, o, t.(stage := next))
  {
    HoldsLater(r, n, sid, o, t.urb, t.presence);
    if t.stage.Returned? || t.stage.Unsent? {
      SameResult(config, sh, t, answer);
      ResultTraced(r, n, sid, o, t);
      assert StageTraced(r, n + 1, sid, o, t.(stage := next));
    } else if next.Returned? {
      ReturnTraced(r, n, sid, o, t, answer, config, sh, next.result);
      assert StageTraced(r, n + 1, sid, o, t.(stage := next));
    } else {
      WorkTraced(r, n, sid, o, t, answer, config, sh, next);
      assert StageTraced(r, n + 1, sid, o, t.(stage := next));
    }
  }

  ghost predicate TasksTraced(r: Run, n: nat, sid: nat, tasks: map<nat, Task>) {
    forall o :: o in tasks ==> TaskTraced(r, n, sid, o, tasks[o])
  }

  lemma TasksTracedLater(r: Run, n: nat, sid: nat, tasks: map<nat, Task>)
    requires TasksTraced(r, n, sid, tasks)
    ensures TasksTraced(r, n + 1, sid, tasks)
  {
    forall o | o in tasks ensures TaskTraced(r, n + 1, sid, o, tasks[o]) {
      TaskTracedLater(r, n, sid, o, tasks[o]);
    }
  }

  lemma SpawnTraced(r: Run, n: nat, sid: nat, o: nat, urb: UrbSubmit, owner: Fingerprint, p: nat)
    requires Admitted(r, n, sid, o, urb, owner, p)
    ensures TaskTraced(r, n + 1, sid, o, Task(urb, p, Started))
  {
    AdmittedLater(r, n, sid, o, urb, owner, p);
  }

  /** All tasks but that of request `o` stay as they are; that one may go, or become `next`. */
  ghost predicate OnlyChanges(tasks: map<nat, Task>, o: nat, next: Task, after: map<nat, Task>) {
    && (forall k :: k in after && k != o ==> k in tasks && after[k] == tasks[k])
    && (o in after ==> after[o] == next)
  }

  lemma ChangedTraced(r: Run, n: nat, sid: nat, tasks: map<nat, Task>, o: nat, next: Task, after: map<nat, Task>)
    requires TasksTraced(r, n, sid, tasks) && TaskTraced(r, n + 1, sid, o, next) && OnlyChanges(tasks, o, next, after)
    ensures TasksTraced(r, n + 1, sid, after)
  {
    forall k | k in after ensures TaskTraced(r, n + 1, sid, k, after[k]) {
      if k != o {
        TaskTracedLater(r, n, sid, k, after[k]);
      }
    }
  }

  lemma ProgressChanges(config: Config, sh: Shared, s: Session, o: nat, answer: UrbComplete)
    requires o in s.tasks
    ensures OnlyChanges(s.tasks, o, s.tasks[o].(stage := NextStage(config, sh, s.tasks[o], answer)),
              TaskStep(config, sh, s, o, answer).tasks)
  {
  }

  lemma SpawnChanges(s: Session, t: Session)
    requires Spawns(s, t)
    ensures OnlyChanges(s.tasks, Handled(s), Task(s.phase.urb, s.phase.presence, Started), t.tasks)
  {
  }

  /** The task of request `o` works in step `n`. */
  lemma OneTraced(r: Run, devices: seq<LocalDevice>, n: nat, sid: nat, o: nat, next: Stage)
    requires ServerRun(r, devices) && n < |r.actions| && r.actions[n].Progress? && r.actions[n].sid == sid && r.actions[n].origin == o
    requires sid in r.states[n].sessions && o in r.states[n].sessions[sid].tasks
    requires TaskTraced(r, n, sid, o, r.states[n].sessions[sid].tasks[o])
    requires next == NextStage(r.states[n].config, r.states[n].shared, r.states[n].sessions[sid].tasks[o], r.actions[n].answer)
    requires next.Returned? && !r.states[n].sessions[sid].tasks[o].stage.Returned? ==> Decides(r, n, sid, o, next.result)
    ensures TaskTraced(r, n + 1, sid, o, r.states[n].sessions[sid].tasks[o].(stage := next))
  {
    var t, config, sh := r.states[n].sessions[sid].tasks[o], r.states[n].config, r.states[n].shared;
    HeldFlag(r, devices, n, sid, o, t.urb, t.presence);
    RunWorldOk(r, devices, n);
    SeesTruly(sh.inv, t);
    ConfigStays(r, n);
    TaskStepTraced(r, n, sid, o, t, r.actions[n].answer, config, sh, next);
  }

  lemma ReaderTasksTraced(r: Run, n: nat, sid: nat, s: Session, t: Session, a: Action)
    requires TasksTraced(r, n, sid, s.tasks) && Shaped(s, t, a) && !a.Progress?
    requires Spawns(s, t) ==> Admitted(r, n, sid, Handled(s), s.phase.urb, s.phase.owner, s.phase.presence)
    ensures TasksTraced(r, n + 1, sid, t.tasks)
  {
    if Spawns(s, t) {
      SpawnChanges(s, t);
      SpawnTraced(r, n, sid, Handled(s), s.phase.urb, s.phase.owner, s.phase.presence);
      ChangedTraced(r, n, sid, s.tasks, Handled(s), Task(s.phase.urb, s.phase.presence, Started), t.tasks);
    } else {
      assert t.tasks == s.tasks;
      TasksTracedLater(r, n, sid, t.tasks);
    }
  }

  lemma ProgressAfter(config: Config, sh: Shared, s: Session, a: Action)
    requires a.Progress? && Enabled(sh, s, a)
    ensures SessionAfter(config, sh, s, a) == TaskStep(config, sh, s, a.origin, a.answer)
  {
  }

  /** A task that returns in step `n` settles on its result there. */
  lemma DecidesNow(r: Run, n: nat, sid: nat, s: Session, t: Session, a: Action, config: Config, sh: Shared)
    requires n + 1 < |r.states| && sid in r.states[n].sessions && sid in r.states[n + 1].sessions
    requires s == r.states[n].sessions[sid] && t == r.states[n + 1].sessions[sid]
    requires a.Progress? && a.origin in s.tasks && t == TaskStep(config, sh, s, a.origin, a.answer)
    ensures var next := NextStage(config, sh, s.tasks[a.origin], a.answer);
            next.Returned? && !s.tasks[a.origin].stage.Returned? ==> Decides(r, n, sid, a.origin, next.result)
  {
  }

  lemma StepTasksTraced(r: Run, devices: seq<LocalDevice>, n: nat, sid: nat, s: Session, a: Action, t: Session)
    requires ServerRun(r, devices) && n < |r.states| && Moving(r, n, sid, s, a) && TasksTraced(r, n, sid, s.tasks)
    requires t == SessionAfter(r.states[n].config, r.states[n].shared, s, a)
    requires n + 1 < |r.states| && sid in r.states[n + 1].sessions && t == r.states[n + 1].sessions[sid]
    ensures TasksTraced(r, n + 1, sid, t.tasks)
  {
    if a.Progress? {
      ProgressAfter(r.states[n].config, r.states[n].shared, s, a);
      DecidesNow(r, n, sid, s, t, a, r.states[n].config, r.states[n].shared);
      var next := NextStage(r.states[n].config, r.states[n].shared, s.tasks[a.origin], a.answer);
      OneTraced(r, devices, n, sid, a.origin, next);
      ProgressChanges(r.states[n].config, r.states[n].shared, s, a.origin, a.answer);
      ChangedTraced(r, n, sid, s.tasks, a.origin, s.tasks[a.origin].(stage := next), t.tasks);
    } else {
      StepShaped(r.states[n].config, r.states[n].shared, s, a);
      ReaderTasksTraced(r, n, sid, s, t, a);
    }
  }

  // ---------------------------------------------------------------- every run

  ghost predicate SessionTraced(r: Run, n: nat, sid: nat, s: Session) {
    PhaseTraced(r, n, sid, Handled(s), s.principal, s.phase) && TasksTraced(r, n, sid, s.tasks)
  }

  lemma MovedTraced(r: Run, devices: seq<LocalDevice>, n: nat, sid: nat, s: Session, a: Action)
    requires ServerRun(r, devices) && n < |r.states| && Moving(r, n, sid, s, a) && WellFormed(s) && SessionTraced(r, n, sid, s)
    requires n + 1 < |r.states| && sid in r.states[n + 1].sessions
    requires r.states[n + 1].sessions[sid] == SessionAfter(r.states[n].config, r.states[n].shared, s, a)
    ensures SessionTraced(r, n + 1, sid, r.states[n + 1].sessions[sid])
  {
    var t := r.states[n + 1].sessions[sid];
    StepShaped(r.states[n].config, r.states[n].shared, s, a);
    MoveTraced(r, n, sid, s, a);
    StepTasksTraced(r, devices, n, sid, s, a, t);
  }

  lemma StillTraced(r: Run, n: nat, sid: nat, s: Session)
    requires SessionTraced(r, n, sid, s)
    ensures SessionTraced(r, n + 1, sid, s)
  {
    PhaseTracedLater(r, n, sid, Handled(s), s.principal, s.phase);
    TasksTracedLater(r, n, sid, s.tasks);
  }

  lemma ConnectedTraced(r: Run, n: nat, sid: nat)
    ensures SessionTraced(r, n, sid, CONNECTED)
  {
  }

  lemma StepTraced(r: Run, devices: seq<LocalDevice>, n: nat, sid: nat, s: Session, t: Session)
    requires ServerRun(r, devices) && n < |r.actions| && sid in r.states[n].sessions && sid in r.states[n + 1].sessions
    requires s == r.states[n].sessions[sid] && t == r.states[n + 1].sessions[sid]
    requires WellFormed(s) && SessionTraced(r, n, sid, s)
    ensures SessionTraced(r, n + 1, sid, t)
  {
    HowSessionsChange(r, n, sid);
    if Moves(r, n, sid) {
      MovedTraced(r, devices, n, sid, s, r.actions[n]);
    } else {
      StillTraced(r, n, sid, s);
    }
  }

  lemma NextTraced(r: Run, devices: seq<LocalDevice>, n: nat, sid: nat)
    requires ServerRun(r, devices) && n < |r.actions| && sid in r.states[n + 1].sessions
    requires sid in r.states[n].sessions ==> SessionTraced(r, n, sid, r.states[n].sessions[sid])
    ensures SessionTraced(r, n + 1, sid, r.states[n + 1].sessions[sid])
  {
    if sid in r.states[n].sessions {
      RunSessionsOk(r, n);
      StepTraced(r, devices, n, sid, r.states[n].sessions[sid], r.states[n + 1].sessions[sid]);
    } else {
      HowSessionsChange(r, n, sid);
      ConnectedTraced(r, n + 1, sid);
    }
  }

  lemma {:induction false} RunTraced(r: Run, devices: seq<LocalDevice>, n: nat, sid: nat)
    requires ServerRun(r, devices) && n < |r.states| && sid in r.states[n].sessions
    ensures SessionTraced(r, n, sid, r.states[n].sessions[sid])
  {
    if n > 0 {
      if sid in r.states[n - 1].sessions {
        RunTraced(r, devices, n - 1, sid);
      }
      NextTraced(r, devices, n - 1, sid);
    }
  }

  // ---------------------------------------------------------------- main results

  /**
   Every URB that has a task, and so every URB handed to a completer, passed a token check, at which
   its session's principal owned an unexpired token, and then a lease check, at which the principal
   leased the device.
   */
  lemma ExecutedUrbsWereChecked(r: Run, devices: seq<LocalDevice>, n: nat, sid: nat, o: nat)
    requires ServerRun(r, devices) && n < |r.states| && sid in r.states[n].sessions && o in r.states[n].sessions[sid].tasks
    ensures var urb := r.states[n].sessions[sid].tasks[o].urb;
            exists i: nat, j: nat, owner :: i < j < n &&
              TokenChecked(r, i, sid, o, urb, owner) && LeaseChecked(r, j, sid, o, urb, owner)
  {
    RunTraced(r, devices, n, sid);
    var t := r.states[n].sessions[sid].tasks[o];
    assert TaskTraced(r, n, sid, o, t);
    AdmittedChecked(r, n, sid, o, t.urb, t.presence);
  }

  lemma AdmittedChecked(r: Run, n: nat, sid: nat, o: nat, urb: UrbSubmit, p: nat)
    requires Holds(r, n, sid, o, urb, p)
    ensures exists i: nat, j: nat, owner :: i < j < n &&
              TokenChecked(r, i, sid, o, urb, owner) && LeaseChecked(r, j, sid, o, urb, owner)
  {
    var owner :| Admitted(r, n, sid, o, urb, owner, p);
    var i: nat, j: nat, l: nat :| i < j < l < n && TokenChecked(r, i, sid, o, urb, owner) &&
      LeaseChecked(r, j, sid, o, urb, owner) && FlagTaken(r, l, sid, o, urb, owner, p);
    assert i < j < n;
  }

  /**
   The device stayed present, under one id and one key, from step `l`, which took its flag, to step
   `k`, in which the task settled on result `c`.
   */
  ghost predicate StayedPresent(r: Run, l: nat, k: nat, sid: nat, o: nat, urb: UrbSubmit, c: UrbComplete) {
    && l < k < |r.states| && Decides(r, k, sid, o, c)
    && (exists owner, p :: FlagTaken(r, l, sid, o, urb, owner, p))
    && urb.deviceId in InvAt(r, l).present
    && PresentThroughout(r, l, k, urb.deviceId, KeyOf(InvAt(r, l).present[urb.deviceId]))
  }

  lemma VouchedStayed(r: Run, devices: seq<LocalDevice>, k: nat, sid: nat, o: nat, urb: UrbSubmit, c: UrbComplete)
    requires ServerRun(r, devices) && Vouched(r, k, sid, o, urb, c)
    ensures exists l: nat :: StayedPresent(r, l, k, sid, o, urb, c)
  {
    var p :| Holds(r, k, sid, o, urb, p) && Raised(InvAt(r, k), p);
    var owner :| Admitted(r, k, sid, o, urb, owner, p);
    var i: nat, j: nat, l: nat :| i < j < l < k && TokenChecked(r, i, sid, o, urb, owner) &&
      LeaseChecked(r, j, sid, o, urb, owner) && FlagTaken(r, l, sid, o, urb, owner, p);
    RaisedFlagVouches(r, devices, l, k, urb.deviceId);
    assert StayedPresent(r, l, k, sid, o, urb, c);
  }

  /** At step `i` of its handling the submission lacked a principal, the principal's lease or an unexpired token of the principal's. */
  ghost predicate RefusedAt(r: Run, i: nat, sid: nat, o: nat, urb: UrbSubmit) {
    WithoutLease(r, i, sid, o, urb.deviceId) || InactiveAt(r, i, sid, o)
  }

  /** At step `i` of the handling of submission `o` its device is gone. */
  ghost predicate GoneAt(r: Run, i: nat, sid: nat, o: nat, urb: UrbSubmit) {
    Working(r, i, sid, o) && Acts(r, i, sid) && urb.deviceId !in InvAt(r, i).present
  }

  /** The failure of a submission has a reason before state `n`. */
  ghost predicate FailedWithReason(r: Run, n: nat, sid: nat, o: nat, urb: UrbSubmit) {
    exists i: nat :: i < n && (GoneAt(r, i, sid, o, urb) || FailsAt(r, i, sid, o, urb))
  }

  /**
   Step `k` settled on `c`, which is what the completer answered for the device, or the emulator, and
   the device stayed present from step `l` on, which took its flag.
   */
  ghost predicate ServedIn(r: Run, l: nat, k: nat, sid: nat, o: nat, urb: UrbSubmit, c: UrbComplete) {
    StayedPresent(r, l, k, sid, o, urb, c) && Sourced(r, k, sid, o, urb, c)
  }

  /** What a completion may be: a refusal, a failure, each with its reason, or what a completer answered. */
  ghost predicate Accounted(r: Run, n: nat, sid: nat, o: nat, urb: UrbSubmit, c: UrbComplete) {
    || (c == UrbComplete(urb.seqNum, -13, []) && exists i: nat :: i < n && RefusedAt(r, i, sid, o, urb))
    || (c == UrbComplete(urb.seqNum, -1, []) && FailedWithReason(r, n, sid, o, urb))
    || exists l: nat, k: nat :: k < n && ServedIn(r, l, k, sid, o, urb, c)
  }

  lemma SettledAccounted(r: Run, devices: seq<LocalDevice>, i: nat, n: nat, sid: nat, o: nat, urb: UrbSubmit, c: UrbComplete)
    requires ServerRun(r, devices) && i < n && Settled(r, i, sid, o, CompleteUrb(c))
    requires r.states[i].sessions[sid].received[o] == SubmitUrb(urb)
    ensures Accounted(r, n, sid, o, urb, c)
  {
    RunWorldOk(r, devices, i);
    if c == Denied(urb.seqNum) {
      SettledRefusal(r, i, sid, o, urb);
      if !WithoutLease(r, i, sid, o, urb.deviceId) {
        var g: nat :| g < i && InactiveAt(r, g, sid, o);
        assert g < n && RefusedAt(r, g, sid, o, urb);
      } else {
        assert RefusedAt(r, i, sid, o, urb);
      }
    } else {
      SettledFailure(r, i, sid, o, urb, c);
      assert GoneAt(r, i, sid, o, urb);
    }
  }

  lemma SettledFailure(r: Run, i: nat, sid: nat, o: nat, urb: UrbSubmit, c: UrbComplete)
    requires Settled(r, i, sid, o, CompleteUrb(c)) && r.states[i].sessions[sid].received[o] == SubmitUrb(urb)
    requires c != Denied(urb.seqNum)
    ensures c == Failed(urb.seqNum) && urb.deviceId !in InvAt(r, i).presence
  {
  }

  lemma TaskAccounted(r: Run, devices: seq<LocalDevice>, i: nat, n: nat, sid: nat, o: nat, urb: UrbSubmit, c: UrbComplete)
    requires ServerRun(r, devices) && i < n && FromTask(r, i, sid, o, CompleteUrb(c))
    requires o < |r.states[i].sessions[sid].received| && r.states[i].sessions[sid].received[o] == SubmitUrb(urb)
    ensures Accounted(r, n, sid, o, urb, c)
  {
    RunTraced(r, devices, i, sid);
    TaskBelongs(r, devices, i, sid, o);
    HeldIsGenuine(r, i, sid, o, r.states[i].sessions[sid].tasks, c);
    GenuineAccounted(r, devices, i, n, sid, o, urb, c);
  }

  lemma TaskBelongs(r: Run, devices: seq<LocalDevice>, i: nat, sid: nat, o: nat)
    requires IsRun(r) && BootedWith(r.states[0], devices) && i < |r.states|
    requires sid in r.states[i].sessions && o in r.states[i].sessions[sid].tasks
    ensures o < |r.states[i].sessions[sid].received|
    ensures r.states[i].sessions[sid].received[o] == SubmitUrb(r.states[i].sessions[sid].tasks[o].urb)
  {
    RunSessionsOk(r, i);
  }

  lemma HeldIsGenuine(r: Run, i: nat, sid: nat, o: nat, tasks: map<nat, Task>, c: UrbComplete)
    requires TasksTraced(r, i, sid, tasks) && o in tasks && tasks[o].stage == Unsent(c)
    ensures Genuine(r, i, sid, o, tasks[o].urb, c)
  {
    assert TaskTraced(r, i, sid, o, tasks[o]);
  }

  lemma GenuineAccounted(r: Run, devices: seq<LocalDevice>, i: nat, n: nat, sid: nat, o: nat, urb: UrbSubmit, c: UrbComplete)
    requires ServerRun(r, devices) && i < n && Genuine(r, i, sid, o, urb, c)
    ensures Accounted(r, n, sid, o, urb, c)
  {
    if c == Failed(urb.seqNum) && HasFailed(r, i, sid, o, urb) {
      var k: nat :| k < i && FailsAt(r, k, sid, o, urb);
      assert k < n;
    } else {
      var k: nat :| k < i && Vouched(r, k, sid, o, urb, c);
      VouchedStayed(r, devices, k, sid, o, urb, c);
      var l: nat :| StayedPresent(r, l, k, sid, o, urb, c);
      assert k < n && ServedIn(r, l, k, sid, o, urb, c);
    }
  }

  lemma CompletionOfSubmission(r: Run, devices: seq<LocalDevice>, n: nat, sid: nat, e: Reply)
    requires IsRun(r) && BootedWith(r.states[0], devices) && n < |r.states| && sid in r.states[n].sessions
    requires e in r.states[n].sessions[sid].out && e.msg.CompleteUrb?
    ensures e.origin < |r.states[n].sessions[sid].received| && r.states[n].sessions[sid].received[e.origin].SubmitUrb?
  {
    RunSessionsOk(r, n);
    AnswersSameKind(r.states[n].sessions[sid].received[e.origin], e.msg);
  }

  /**
   In every interleaving of submissions, tasks and refreshes, a completion handed to the writer is one
   of three things.  It is a refusal, and the submission lacked a right; it is the failure -1, and the
   device was gone or not served on this platform; or it is exactly what the completer, the USB library
   or the emulator answered for a device that stayed present throughout.
   */
  lemma LateCompletionsAreSafe(r: Run, devices: seq<LocalDevice>, n: nat, sid: nat, e: Reply)
    requires ServerRun(r, devices) && n < |r.states| && sid in r.states[n].sessions
    requires e in r.states[n].sessions[sid].out && e.msg.CompleteUrb?
    ensures var s := r.states[n].sessions[sid];
            && e.origin < |s.received| && s.received[e.origin].SubmitUrb?
            && Accounted(r, n, sid, e.origin, s.received[e.origin].urb, e.msg.complete)
  {
    RepliesAreTrue(r, devices, n, sid, e);
    var s := r.states[n].sessions[sid];
    CompletionOfSubmission(r, devices, n, sid, e);
    var i: nat :| i < n &&
      (Settled(r, i, sid, e.origin, e.msg) || SettledAtOnce(r, i, sid, e.origin, e.msg) || FromTask(r, i, sid, e.origin, e.msg));
    CompletionAccounted(r, devices, i, n, sid, e.origin, s.received[e.origin].urb, e.msg.complete);
  }

  lemma CompletionAccounted(r: Run, devices: seq<LocalDevice>, i: nat, n: nat, sid: nat, o: nat, urb: UrbSubmit, c: UrbComplete)
    requires ServerRun(r, devices) && i < n < |r.states| && sid in r.states[n].sessions
    requires o < |r.states[n].sessions[sid].received| && r.states[n].sessions[sid].received[o] == SubmitUrb(urb)
    requires Settled(r, i, sid, o, CompleteUrb(c)) || SettledAtOnce(r, i, sid, o, CompleteUrb(c)) || FromTask(r, i, sid, o, CompleteUrb(c))
    ensures Accounted(r, n, sid, o, urb, c)
  {
    ReceivedStays(r, devices, i, n, sid);
    RunSessionsOk(r, i);
    assert r.states[i].sessions[sid].received[o] == SubmitUrb(urb);
    if Settled(r, i, sid, o, CompleteUrb(c)) {
      SettledAccounted(r, devices, i, n, sid, o, urb, c);
    } else {
      TaskAccounted(r, devices, i, n, sid, o, urb, c);
    }
  }
}
