/**
 * The owner of background playbacks: at most one unfinished task for each session.
 *
 * Calls and tasks interleave wherever one awaits. The lock is held across an await only while a start waits for its
 * run record; every other critical section is one step, taken when the lock is free.
 */
module ReplayTasks {
  import opened Domain

  datatype Outcome = Running | Complete | Stopped | StepLimit | Failed

  datatype Request = Request(session: int, taskId: int, expectedVersion: int)

  datatype Status = Status(
    request: Request, outcome: Outcome, frames: int, version: Option<int>, startedAt: int, finishedAt: Option<int>)

  /** How a runner ends: with a result, or by raising. */
  datatype RunResult = Finished(outcome: Outcome, frames: int, version: int) | Raised

  /** A task after its runner: it still has to read its start, write its status, and have it recorded. */
  datatype Phase =
    | Executing
    | Resulted(result: RunResult)
    | Concluded(status: Status)
    | Published(status: Status)
    | Done(status: Status)

  datatype Task = Task(request: Request, phase: Phase)

  /** An entry of the manager's dictionary. */
  datatype Owned = Owned(status: Status, stop: bool, task: nat)

  /** A start holding the lock, before and after its run record was inserted. */
  datatype Starting = Asked(request: Request, at: int) | Recorded(request: Request, at: int)

  /** The durable run record of a task id. */
  datatype Record = Record(session: int, outcome: Outcome, frames: int, version: Option<int>, finishedAt: Option<int>)

  /** A stop after its request: it waits for the task it found, and then asks for the session's status. */
  datatype Stop = Waiting(session: int, task: nat) | Answered(session: int, task: nat, status: Status)

  datatype Manager = Manager(
    observed: bool, lock: Option<Starting>, entries: map<int, Owned>, tasks: seq<Task>, records: map<int, Record>,
    stops: seq<Stop>)

  datatype Step =
    | BeginStart(request: Request, at: int)
    | RecordStart(ok: bool)
    | SpawnTask
    | EndRunner(task: nat, result: RunResult)
    | ReadStart(task: nat, at: int)
    | WriteStatus(task: nat)
    | RecordEnd(task: nat, ok: bool)
    | RequestStop(session: int)
    | AnswerStop(stop: nat)
    | RequestClose

  predicate Unfinished(m: Manager, i: nat) {
    i < |m.tasks| && !m.tasks[i].phase.Done?
  }

  predicate Busy(m: Manager, session: int) {
    session in m.entries && Unfinished(m, m.entries[session].task)
  }

  function WithPhase(m: Manager, i: nat, phase: Phase): Manager
    requires i < |m.tasks|
  {
    m.(tasks := m.tasks[i := m.tasks[i].(phase := phase)])
  }

  function Conclusion(r: Request, result: RunResult, current: Status, at: int): Status {
    match result
    case Finished(outcome, frames, version) => Status(r, outcome, frames, Some(version), current.startedAt, Some(at))
    case Raised => Status(r, Failed, current.frames, current.version, current.startedAt, Some(at))
  }

  /** The guarded update of a run record: only from running, and only for the same session. */
  function EndRecord(records: map<int, Record>, s: Status): map<int, Record> {
    var id := s.request.taskId;
    if id in records && records[id].session == s.request.session && records[id].outcome == Running then
      records[id := Record(records[id].session, s.outcome, s.frames, s.version, s.finishedAt)]
    else
      records
  }

  /** One step; a step that is not due does nothing. */
  function Take(m: Manager, step: Step): Manager {
    match step
    case BeginStart(request, at) =>
      if m.lock.Some? || Busy(m, request.session) then m
      else m.(lock := Some(if m.observed then Asked(request, at) else Recorded(request, at)))
    case RecordStart(ok) =>
      if m.lock.None? || !m.lock.value.Asked? then m
      else
        var r := m.lock.value.request;
        if !ok || r.taskId in m.records then m.(lock := None)
        else m.(lock := Some(Recorded(r, m.lock.value.at)),
                records := m.records[r.taskId := Record(r.session, Running, 0, None, None)])
    case SpawnTask =>
      if m.lock.None? || !m.lock.value.Recorded? then m
      else
        var r := m.lock.value.request;
        m.(lock := None,
           tasks := m.tasks + [Task(r, Executing)],
           entries := m.entries[r.session := Owned(Status(r, Running, 0, None, m.lock.value.at, None), false, |m.tasks|)])
    case EndRunner(i, result) =>
      if i >= |m.tasks| || !m.tasks[i].phase.Executing? || (result.Finished? && result.outcome in {Running, Failed}) then m
      else WithPhase(m, i, Resulted(result))
    case ReadStart(i, at) =>
      if m.lock.Some? || i >= |m.tasks| || !m.tasks[i].phase.Resulted? || m.tasks[i].request.session !in m.entries then m
      else
        var r := m.tasks[i].request;
        WithPhase(m, i, Concluded(Conclusion(r, m.tasks[i].phase.result, m.entries[r.session].status, at)))
    case WriteStatus(i) =>
      if m.lock.Some? || i >= |m.tasks| || !m.tasks[i].phase.Concluded? then m
      else
        var s := m.tasks[i].phase.status;
        var session := s.request.session;
        WithPhase(if session in m.entries then m.(entries := m.entries[session := m.entries[session].(status := s)]) else m,
                  i, Published(s))
    case RecordEnd(i, ok) =>
      if i >= |m.tasks| || !m.tasks[i].phase.Published? then m
      else
        var s := m.tasks[i].phase.status;
        WithPhase(if m.observed && ok then m.(records := EndRecord(m.records, s)) else m, i, Done(s))
    case RequestStop(session) =>
      if m.lock.Some? || session !in m.entries then m
      else m.(entries := m.entries[session := m.entries[session].(stop := true)],
              stops := m.stops + [Waiting(session, m.entries[session].task)])
    case AnswerStop(k) =>
      if m.lock.Some? || k >= |m.stops| || !m.stops[k].Waiting? || Unfinished(m, m.stops[k].task) || m.stops[k].session !in m.entries then m
      else
        var w := m.stops[k];
        m.(stops := m.stops[k := Answered(w.session, w.task, m.entries[w.session].status)])
    case RequestClose =>
      if m.lock.Some? then m
      else m.(entries := map session | session in m.entries :: m.entries[session].(stop := true))
  }

  function Execute(observed: bool, steps: seq<Step>): Manager {
    if steps == [] then Manager(observed, None, map[], [], map[], [])
    else Take(Execute(observed, steps[..|steps| - 1]), steps[|steps| - 1])
  }

  // ----- the invariant --------------------------------------------------------------------------

  /** Every unfinished task is the one its session's entry names. */
  ghost predicate Owning(tasks: seq<Task>, entries: map<int, Owned>) {
    forall i: nat :: i < |tasks| && !tasks[i].phase.Done? ==> OwnedBy(tasks[i], i, entries)
  }

  ghost predicate OwnedBy(t: Task, i: nat, entries: map<int, Owned>) {
    t.request.session in entries && entries[t.request.session].task == i
  }

  /** An entry names a task of its session, and carries that task's own status. */
  ghost predicate EntrySound(tasks: seq<Task>, session: int, e: Owned) {
    && e.task < |tasks|
    && tasks[e.task].request.session == session
    && e.status.request == tasks[e.task].request
    && (match tasks[e.task].phase
        case Published(s) => e.status == s
        case Done(s) => e.status == s
        case _ => e.status.outcome == Running)
  }

  ghost predicate EntriesSound(tasks: seq<Task>, entries: map<int, Owned>) {
    forall session :: session in entries ==> EntrySound(tasks, session, entries[session])
  }

  ghost predicate TaskSound(t: Task) {
    match t.phase
    case Concluded(s) => s.request == t.request && s.outcome != Running
    case Published(s) => s.request == t.request && s.outcome != Running
    case Done(s) => s.request == t.request && s.outcome != Running
    case Resulted(Finished(outcome, _, _)) => outcome != Running
    case _ => true
  }

  ghost predicate TasksSound(tasks: seq<Task>) {
    forall i: nat :: i < |tasks| ==> TaskSound(tasks[i])
  }

  /** No task of the session is unfinished. */
  ghost predicate Idle(tasks: seq<Task>, session: int) {
    forall i: nat :: i < |tasks| && tasks[i].request.session == session ==> tasks[i].phase.Done?
  }

  /** A start under way found its session idle, and it still is. */
  ghost predicate StartSound(tasks: seq<Task>, lock: Option<Starting>) {
    lock.Some? ==> Idle(tasks, lock.value.request.session)
  }

  /** A task's own run record: running until the task's end is recorded, and then as the task ended. */
  ghost predicate RecordSound(t: Task, records: map<int, Record>) {
    var r := t.request;
    && r.taskId in records && records[r.taskId].session == r.session
    && (match t.phase
        case Done(s) =>
          || records[r.taskId].outcome == Running
          || records[r.taskId] == Record(r.session, s.outcome, s.frames, s.version, s.finishedAt)
        case _ => records[r.taskId].outcome == Running)
  }

  ghost predicate RecordsSound(tasks: seq<Task>, records: map<int, Record>) {
    && (forall i: nat :: i < |tasks| ==> RecordSound(tasks[i], records))
    && (forall i: nat, j: nat :: i < j < |tasks| ==> tasks[i].request.taskId != tasks[j].request.taskId)
  }

  /** A start that has its record has it to itself. */
  ghost predicate LockSound(lock: Option<Starting>, tasks: seq<Task>, records: map<int, Record>) {
    lock.Some? && lock.value.Recorded? ==>
      var r := lock.value.request;
      && r.taskId in records && records[r.taskId] == Record(r.session, Running, 0, None, None)
      && forall i: nat :: i < |tasks| ==> tasks[i].request.taskId != r.taskId
  }

  ghost predicate Sound(m: Manager) {
    && Owning(m.tasks, m.entries) && StartSound(m.tasks, m.lock)
    && EntriesSound(m.tasks, m.entries) && TasksSound(m.tasks)
    && (m.observed ==> RecordsSound(m.tasks, m.records) && LockSound(m.lock, m.tasks, m.records))
  }

  /** A run record, once there, stays; it leaves running at most once. */
  ghost predicate RecordsOnward(a: map<int, Record>, z: map<int, Record>) {
    forall id :: id in a ==> id in z && z[id].session == a[id].session && (a[id].outcome != Running ==> z[id] == a[id])
  }

  // ----- every step keeps it --------------------------------------------------------------------

  lemma {:induction false} NotBusyIsIdle(m: Manager, session: int)
    requires Owning(m.tasks, m.entries) && !Busy(m, session)
    ensures Idle(m.tasks, session)
  {
    forall i: nat | i < |m.tasks| && m.tasks[i].request.session == session ensures m.tasks[i].phase.Done? {
      assert !m.tasks[i].phase.Done? ==> OwnedBy(m.tasks[i], i, m.entries);
    }
  }

  lemma {:induction false} BeginSound(m: Manager, request: Request, at: int)
    requires Sound(m)
    ensures Sound(Take(m, BeginStart(request, at))) && RecordsOnward(m.records, Take(m, BeginStart(request, at)).records)
  {
    hide Owning, EntriesSound, TasksSound, RecordsSound, Busy, Idle;
    if !Busy(m, request.session) {
      NotBusyIsIdle(m, request.session);
    }
  }

  lemma {:induction false} RecordStartSound(m: Manager, ok: bool)
    requires Sound(m)
    ensures Sound(Take(m, RecordStart(ok))) && RecordsOnward(m.records, Take(m, RecordStart(ok)).records)
  {
    hide Owning, EntriesSound, TasksSound, Idle;
    var z := Take(m, RecordStart(ok));
    if z.records != m.records && m.observed {
      var id := m.lock.value.request.taskId;
      forall i: nat | i < |m.tasks| ensures RecordSound(m.tasks[i], z.records) && m.tasks[i].request.taskId != id {
        assert RecordSound(m.tasks[i], m.records);
      }
    }
  }

  lemma {:induction false} SpawnSound(m: Manager)
    requires Sound(m)
    ensures Sound(Take(m, SpawnTask)) && Take(m, SpawnTask).records == m.records
  {
    if m.lock.Some? && m.lock.value.Recorded? {
      var r := m.lock.value.request;
      var e := Owned(Status(r, Running, 0, None, m.lock.value.at, None), false, |m.tasks|);
      SpawnOwning(m.tasks, m.entries, r, e);
      SpawnEntries(m.tasks, m.entries, r, e);
      if m.observed {
        SpawnRecords(m.tasks, m.records, m.lock);
      }
    }
    hide Owning, EntriesSound, RecordsSound, LockSound, Idle;
  }

  lemma {:induction false} SpawnOwning(tasks: seq<Task>, entries: map<int, Owned>, r: Request, e: Owned)
    requires Owning(tasks, entries) && Idle(tasks, r.session) && e.task == |tasks|
    ensures Owning(tasks + [Task(r, Executing)], entries[r.session := e])
  {
    var all, after := tasks + [Task(r, Executing)], entries[r.session := e];
    forall i: nat | i < |all| && !all[i].phase.Done? ensures OwnedBy(all[i], i, after) {
      assert i < |tasks| ==> OwnedBy(tasks[i], i, entries);
    }
  }

  lemma {:induction false} SpawnEntries(tasks: seq<Task>, entries: map<int, Owned>, r: Request, e: Owned)
    requires EntriesSound(tasks, entries) && e.task == |tasks| && e.status.request == r && e.status.outcome == Running
    ensures EntriesSound(tasks + [Task(r, Executing)], entries[r.session := e])
  {
    var all, after := tasks + [Task(r, Executing)], entries[r.session := e];
    forall session | session in after ensures EntrySound(all, session, after[session]) {
      assert session != r.session ==> EntrySound(tasks, session, entries[session]);
    }
  }

  lemma {:induction false} SpawnRecords(tasks: seq<Task>, records: map<int, Record>, lock: Option<Starting>)
    requires RecordsSound(tasks, records) && LockSound(lock, tasks, records) && lock.Some? && lock.value.Recorded?
    ensures RecordsSound(tasks + [Task(lock.value.request, Executing)], records)
    ensures LockSound(None, tasks + [Task(lock.value.request, Executing)], records)
  {
    var all := tasks + [Task(lock.value.request, Executing)];
    forall i: nat | i < |all| ensures RecordSound(all[i], records) {
      assert i < |tasks| ==> RecordSound(tasks[i], records);
    }
  }

  lemma {:induction false} PhaseOwning(tasks: seq<Task>, entries: map<int, Owned>, after: map<int, Owned>, i: nat, phase: Phase)
    requires Owning(tasks, entries) && i < |tasks| && !tasks[i].phase.Done?
    requires forall session :: session in entries ==> session in after && after[session].task == entries[session].task
    ensures Owning(tasks[i := tasks[i].(phase := phase)], after)
  {
    var z := tasks[i := tasks[i].(phase := phase)];
    forall j: nat | j < |z| && !z[j].phase.Done? ensures OwnedBy(z[j], j, after) {
      assert OwnedBy(tasks[j], j, entries);
    }
  }

  /** A session's entry keeps naming a sound task while another task moves on. */
  lemma {:induction false} EntryKept(tasks: seq<Task>, session: int, e: Owned, i: nat, phase: Phase)
    requires EntrySound(tasks, session, e) && i < |tasks| && e.task != i
    ensures EntrySound(tasks[i := tasks[i].(phase := phase)], session, e)
  {
  }

  /** Moving one task to a later, unfinished phase. */
  lemma {:induction false} PhaseSound(m: Manager, i: nat, phase: Phase)
    requires Sound(m) && i < |m.tasks| && !m.tasks[i].phase.Done? && !m.tasks[i].phase.Published?
    requires !phase.Done? && !phase.Published? && TaskSound(Task(m.tasks[i].request, phase))
    ensures Sound(WithPhase(m, i, phase))
  {
    hide TaskSound, RecordSound;
    var z := WithPhase(m, i, phase);
    PhaseOwning(m.tasks, m.entries, m.entries, i, phase);
    forall session | session in z.entries ensures EntrySound(z.tasks, session, z.entries[session]) {
      assert EntrySound(m.tasks, session, m.entries[session]);
    }
    hide Owning, EntriesSound, EntrySound;
    StillIdle(m, i, phase);
    if m.observed {
      PhaseRecords(m.tasks, m.records, i, phase);
      PhaseLock(m.lock, m.tasks, m.records, i, phase);
    }
  }

  lemma {:induction false} StillIdle(m: Manager, i: nat, phase: Phase)
    requires StartSound(m.tasks, m.lock) && i < |m.tasks| && !m.tasks[i].phase.Done?
    ensures StartSound(m.tasks[i := m.tasks[i].(phase := phase)], m.lock)
  {
  }

  lemma {:induction false} PhaseRecords(tasks: seq<Task>, records: map<int, Record>, i: nat, phase: Phase)
    requires RecordsSound(tasks, records) && i < |tasks| && !tasks[i].phase.Done? && !phase.Done?
    ensures RecordsSound(tasks[i := tasks[i].(phase := phase)], records)
  {
    var z := tasks[i := tasks[i].(phase := phase)];
    forall j: nat | j < |z| ensures RecordSound(z[j], records) {
      assert RecordSound(tasks[j], records);
    }
  }

  lemma {:induction false} PhaseLock(lock: Option<Starting>, tasks: seq<Task>, records: map<int, Record>, i: nat, phase: Phase)
    requires LockSound(lock, tasks, records) && i < |tasks|
    ensures LockSound(lock, tasks[i := tasks[i].(phase := phase)], records)
  {
  }

  lemma {:induction false} EndRunnerSound(m: Manager, i: nat, result: RunResult)
    requires Sound(m)
    ensures Sound(Take(m, EndRunner(i, result))) && Take(m, EndRunner(i, result)).records == m.records
  {
    hide Owning, StartSound, EntriesSound, RecordsSound, LockSound;
    if i < |m.tasks| && m.tasks[i].phase.Executing? && !(result.Finished? && result.outcome in {Running, Failed}) {
      PhaseSound(m, i, Resulted(result));
    }
  }

  lemma {:induction false} ReadStartSound(m: Manager, i: nat, at: int)
    requires Sound(m)
    ensures Sound(Take(m, ReadStart(i, at))) && Take(m, ReadStart(i, at)).records == m.records
  {
    hide Owning, StartSound, EntriesSound, RecordsSound, LockSound;
    if m.lock.None? && i < |m.tasks| && m.tasks[i].phase.Resulted? && m.tasks[i].request.session in m.entries {
      assert TaskSound(m.tasks[i]);
      PhaseSound(m, i, Concluded(Conclusion(m.tasks[i].request, m.tasks[i].phase.result,
                                            m.entries[m.tasks[i].request.session].status, at)));
    }
  }

  /** A finishing task finds its own entry, and writes to no other. */
  lemma {:induction false} WritesOwnEntry(m: Manager, i: nat)
    requires Sound(m) && m.lock.None? && i < |m.tasks| && m.tasks[i].phase.Concluded?
    ensures var session, z := m.tasks[i].request.session, Take(m, WriteStatus(i));
            && session in m.entries && m.entries[session].task == i
            && z.entries == m.entries[session := m.entries[session].(status := m.tasks[i].phase.status)]
  {
    hide StartSound, EntriesSound, RecordsSound, LockSound;
    assert OwnedBy(m.tasks[i], i, m.entries) && TaskSound(m.tasks[i]);
  }

  lemma {:induction false} WriteEntries(tasks: seq<Task>, entries: map<int, Owned>, i: nat, s: Status)
    requires EntriesSound(tasks, entries) && i < |tasks| && s.request == tasks[i].request
    requires s.request.session in entries && entries[s.request.session].task == i
    ensures EntriesSound(tasks[i := tasks[i].(phase := Published(s))],
                         entries[s.request.session := entries[s.request.session].(status := s)])
  {
    var z, session := tasks[i := tasks[i].(phase := Published(s))], s.request.session;
    var after := entries[session := entries[session].(status := s)];
    forall other | other in after ensures EntrySound(z, other, after[other]) {
      assert EntrySound(tasks, other, entries[other]);
      if other != session {
        EntryKept(tasks, other, entries[other], i, Published(s));
      }
    }
  }

  lemma {:induction false} WriteStatusSound(m: Manager, i: nat)
    requires Sound(m)
    ensures Sound(Take(m, WriteStatus(i))) && Take(m, WriteStatus(i)).records == m.records
  {
    hide TaskSound, Owning, EntriesSound, StartSound, RecordsSound, LockSound, TasksSound;
    if m.lock.None? && i < |m.tasks| && m.tasks[i].phase.Concluded? {
      WritesOwnEntry(m, i);
      var z, s := Take(m, WriteStatus(i)), m.tasks[i].phase.status;
      TaskAt(m.tasks, i);
      PublishSound(m.tasks[i], s);
      PhaseOwning(m.tasks, m.entries, z.entries, i, Published(s));
      WriteEntries(m.tasks, m.entries, i, s);
      PhaseTasks(m.tasks, i, Published(s));
      StillIdle(m, i, Published(s));
      if m.observed {
        PhaseRecords(m.tasks, m.records, i, Published(s));
        PhaseLock(m.lock, m.tasks, m.records, i, Published(s));
      }
    }
  }

  lemma {:induction false} TaskAt(tasks: seq<Task>, i: nat)
    requires TasksSound(tasks) && i < |tasks|
    ensures TaskSound(tasks[i])
  {
  }

  lemma {:induction false} PhaseTasks(tasks: seq<Task>, i: nat, phase: Phase)
    requires TasksSound(tasks) && i < |tasks| && TaskSound(tasks[i].(phase := phase))
    ensures TasksSound(tasks[i := tasks[i].(phase := phase)])
  {
    hide TaskSound;
  }

  lemma {:induction false} PublishSound(t: Task, s: Status)
    requires TaskSound(t) && t.phase == Concluded(s)
    ensures s.request == t.request && TaskSound(t.(phase := Published(s)))
  {
  }

  lemma {:induction false} RecordEndSound(m: Manager, i: nat, ok: bool)
    requires Sound(m)
    ensures Sound(Take(m, RecordEnd(i, ok))) && RecordsOnward(m.records, Take(m, RecordEnd(i, ok)).records)
  {
    hide TaskSound, Owning, EntriesSound, StartSound, RecordsSound, LockSound, TasksSound;
    if i < |m.tasks| && m.tasks[i].phase.Published? {
      var s := m.tasks[i].phase.status;
      TaskAt(m.tasks, i);
      EndTask(m.tasks[i], s);
      PhaseOwning(m.tasks, m.entries, m.entries, i, Done(s));
      EndEntries(m.tasks, m.entries, i, s);
      PhaseTasks(m.tasks, i, Done(s));
      StillIdle(m, i, Done(s));
      if m.observed {
        EndRecords(m.tasks, m.records, i, s, ok);
        EndLock(m.lock, m.tasks, m.records, i, s, ok);
      }
    }
  }

  lemma {:induction false} EndTask(t: Task, s: Status)
    requires TaskSound(t) && t.phase == Published(s)
    ensures s.request == t.request && TaskSound(t.(phase := Done(s)))
  {
  }

  lemma {:induction false} EndEntries(tasks: seq<Task>, entries: map<int, Owned>, i: nat, s: Status)
    requires EntriesSound(tasks, entries) && i < |tasks| && tasks[i].phase == Published(s)
    ensures EntriesSound(tasks[i := tasks[i].(phase := Done(s))], entries)
  {
    var z := tasks[i := tasks[i].(phase := Done(s))];
    forall other | other in entries ensures EntrySound(z, other, entries[other]) {
      assert EntrySound(tasks, other, entries[other]);
      if entries[other].task != i {
        EntryKept(tasks, other, entries[other], i, Done(s));
      }
    }
  }

  lemma {:induction false} EndRecords(tasks: seq<Task>, records: map<int, Record>, i: nat, s: Status, ok: bool)
    requires RecordsSound(tasks, records) && i < |tasks| && tasks[i].phase == Published(s) && s.request == tasks[i].request
    ensures RecordsSound(tasks[i := tasks[i].(phase := Done(s))], if ok then EndRecord(records, s) else records)
  {
    var z := tasks[i := tasks[i].(phase := Done(s))];
    var after := if ok then EndRecord(records, s) else records;
    assert RecordSound(tasks[i], records);
    forall j: nat | j < |z| ensures RecordSound(z[j], after) {
      assert RecordSound(tasks[j], records);
      assert j < i ==> tasks[j].request.taskId != tasks[i].request.taskId;
      assert i < j ==> tasks[i].request.taskId != tasks[j].request.taskId;
    }
  }

  lemma {:induction false} EndLock(lock: Option<Starting>, tasks: seq<Task>, records: map<int, Record>, i: nat, s: Status, ok: bool)
    requires LockSound(lock, tasks, records) && i < |tasks| && s.request == tasks[i].request
    ensures LockSound(lock, tasks[i := tasks[i].(phase := Done(s))], if ok then EndRecord(records, s) else records)
  {
  }

  lemma {:induction false} StopSound(m: Manager, step: Step)
    requires Sound(m) && (step.RequestStop? || step.RequestClose?)
    ensures Sound(Take(m, step)) && Take(m, step).records == m.records
  {
    hide TasksSound, StartSound, RecordsSound, LockSound;
    var z := Take(m, step);
    forall j: nat | j < |z.tasks| && !z.tasks[j].phase.Done? ensures OwnedBy(z.tasks[j], j, z.entries) {
      assert OwnedBy(m.tasks[j], j, m.entries);
    }
    forall session | session in z.entries ensures EntrySound(z.tasks, session, z.entries[session]) {
      assert EntrySound(m.tasks, session, m.entries[session]);
    }
  }

  /** An answer changes nothing but the stop it answers. */
  lemma {:induction false} AnswerSound(m: Manager, k: nat)
    requires Sound(m)
    ensures Sound(Take(m, AnswerStop(k))) && Take(m, AnswerStop(k)).records == m.records
  {
    hide Owning, StartSound, EntriesSound, TasksSound, RecordsSound, LockSound, Unfinished;
  }

  lemma {:induction false} TakeSound(m: Manager, step: Step)
    requires Sound(m)
    ensures Sound(Take(m, step)) && RecordsOnward(m.records, Take(m, step).records)
  {
    hide Sound, Take;
    match step
    case BeginStart(request, at) => BeginSound(m, request, at);
    case RecordStart(ok) => RecordStartSound(m, ok);
    case SpawnTask => SpawnSound(m);
    case EndRunner(i, result) => EndRunnerSound(m, i, result);
    case ReadStart(i, at) => ReadStartSound(m, i, at);
    case WriteStatus(i) => WriteStatusSound(m, i);
    case RecordEnd(i, ok) => RecordEndSound(m, i, ok);
    case RequestStop(session) => StopSound(m, step);
    case AnswerStop(k) => AnswerSound(m, k);
    case RequestClose => StopSound(m, step);
  }

  // ----- every interleaving ---------------------------------------------------------------------

  lemma {:induction false} AlwaysSound(observed: bool, steps: seq<Step>)
    ensures Sound(Execute(observed, steps))
  {
    hide Take;
    if steps != [] {
      hide Sound;
      AlwaysSound(observed, steps[..|steps| - 1]);
      TakeSound(Execute(observed, steps[..|steps| - 1]), steps[|steps| - 1]);
    }
  }

  /** At most one unfinished task exists for each session, in every interleaving. */
  lemma {:induction false} SingleOwner(observed: bool, steps: seq<Step>, i: nat, j: nat)
    requires Unfinished(Execute(observed, steps), i) && Unfinished(Execute(observed, steps), j)
    requires Execute(observed, steps).tasks[i].request.session == Execute(observed, steps).tasks[j].request.session
    ensures i == j
  {
    hide Execute, EntriesSound, TasksSound, StartSound, RecordsSound, LockSound;
    AlwaysSound(observed, steps);
    var m := Execute(observed, steps);
    assert OwnedBy(m.tasks[i], i, m.entries) && OwnedBy(m.tasks[j], j, m.entries);
  }

  /** A finishing task writes its status only to its own entry, in every interleaving. */
  lemma {:induction false} OwnEntryOnly(observed: bool, steps: seq<Step>, i: nat)
    requires i < |Execute(observed, steps).tasks| && Execute(observed, steps).tasks[i].phase.Concluded?
    ensures var m, z := Execute(observed, steps), Take(Execute(observed, steps), WriteStatus(i));
            forall session :: session in z.entries ==>
              session in m.entries && (z.entries[session] == m.entries[session] || m.entries[session].task == i)
  {
    hide Execute, Sound;
    AlwaysSound(observed, steps);
    var m := Execute(observed, steps);
    if m.lock.None? {
      WritesOwnEntry(m, i);
    }
  }

  /** The durable record of every run goes from running to one terminal outcome at most once, and is never lost. */
  lemma {:induction false} RecordTerminalOnce(observed: bool, steps: seq<Step>, n: nat)
    requires n <= |steps|
    ensures RecordsOnward(Execute(observed, steps[..n]).records, Execute(observed, steps).records)
    decreases |steps|
  {
    hide Take, Sound;
    if n == |steps| {
      assert steps[..n] == steps;
    } else {
      var front := steps[..|steps| - 1];
      assert front[..n] == steps[..n];
      RecordTerminalOnce(observed, front, n);
      AlwaysSound(observed, front);
      TakeSound(Execute(observed, front), steps[|steps| - 1]);
    }
  }

  /** What the dictionary and, with an observer, the run record tell about a task that is over. */
  lemma {:induction false} FinishedTold(observed: bool, steps: seq<Step>, i: nat)
    requires i < |Execute(observed, steps).tasks| && Execute(observed, steps).tasks[i].phase.Done?
    ensures var m := Execute(observed, steps);
            var r, s := m.tasks[i].request, m.tasks[i].phase.status;
            && s.request == r && s.outcome != Running
            && (r.session in m.entries && m.entries[r.session].task == i ==> m.entries[r.session].status == s)
            && (m.observed ==>
                  && r.taskId in m.records
                  && (m.records[r.taskId].outcome == Running
                      || m.records[r.taskId] == Record(r.session, s.outcome, s.frames, s.version, s.finishedAt)))
  {
    hide Execute, Owning, StartSound, LockSound;
    AlwaysSound(observed, steps);
    var m := Execute(observed, steps);
    var session := m.tasks[i].request.session;
    assert TaskSound(m.tasks[i]);
    if session in m.entries {
      assert EntrySound(m.tasks, session, m.entries[session]);
    }
    if m.observed {
      assert RecordSound(m.tasks[i], m.records);
    }
  }

  // ----- what a stop is answered ----------------------------------------------------------------

  /** Every task comes no later than the one its session's entry names. */
  ghost predicate Newest(tasks: seq<Task>, entries: map<int, Owned>) {
    forall i: nat :: i < |tasks| ==> NotAfterEntry(tasks[i].request.session, i, entries)
  }

  ghost predicate NotAfterEntry(session: int, i: nat, entries: map<int, Owned>) {
    session in entries && i <= entries[session].task
  }

  /** Every stop waits, or waited, for a task of its session. */
  ghost predicate StopsSound(stops: seq<Stop>, tasks: seq<Task>) {
    forall k: nat :: k < |stops| ==> StopSoundAt(stops[k], tasks)
  }

  ghost predicate StopSoundAt(w: Stop, tasks: seq<Task>) {
    w.task < |tasks| && tasks[w.task].request.session == w.session
  }

  ghost predicate SameRequests(a: seq<Task>, z: seq<Task>) {
    |a| <= |z| && forall i :: 0 <= i < |a| ==> z[i].request == a[i].request
  }

  lemma {:induction false} TakeKeepsRequests(m: Manager, step: Step)
    ensures SameRequests(m.tasks, Take(m, step).tasks)
  {
    hide Conclusion, EndRecord, Busy;
  }

  lemma {:induction false} TakeNewest(m: Manager, step: Step)
    requires Newest(m.tasks, m.entries) && EntriesSound(m.tasks, m.entries)
    ensures Newest(Take(m, step).tasks, Take(m, step).entries)
  {
    hide Conclusion, EndRecord, Busy, EntrySound, EntriesSound;
    var z := Take(m, step);
    forall i: nat | i < |z.tasks| ensures NotAfterEntry(z.tasks[i].request.session, i, z.entries) {
      assert i < |m.tasks| ==> NotAfterEntry(m.tasks[i].request.session, i, m.entries);
      if step.SpawnTask? && i < |m.tasks| && m.lock.Some? && m.lock.value.Recorded? {
        assert z.tasks[i] == m.tasks[i];
      }
    }
  }

  lemma {:induction false} TakeStops(m: Manager, step: Step)
    requires StopsSound(m.stops, m.tasks) && EntriesSound(m.tasks, m.entries)
    ensures StopsSound(Take(m, step).stops, Take(m, step).tasks)
  {
    hide Conclusion, EndRecord, Busy;
    var z := Take(m, step);
    TakeKeepsRequests(m, step);
    forall k: nat | k < |z.stops| ensures StopSoundAt(z.stops[k], z.tasks) {
      if k < |m.stops| {
        assert StopSoundAt(m.stops[k], m.tasks);
      } else {
        assert EntrySound(m.tasks, step.session, m.entries[step.session]);
      }
    }
  }

  lemma {:induction false} AlwaysNewest(observed: bool, steps: seq<Step>)
    ensures var m := Execute(observed, steps); Newest(m.tasks, m.entries) && StopsSound(m.stops, m.tasks)
  {
    hide Take;
    if steps != [] {
      hide Newest, StopsSound, Sound;
      var front := steps[..|steps| - 1];
      AlwaysNewest(observed, front);
      AlwaysSound(observed, front);
      EntriesOf(Execute(observed, front));
      TakeNewest(Execute(observed, front), steps[|steps| - 1]);
      TakeStops(Execute(observed, front), steps[|steps| - 1]);
    }
  }

  lemma {:induction false} EntriesOf(m: Manager)
    requires Sound(m)
    ensures EntriesSound(m.tasks, m.entries)
  {
  }

  /** No later playback of the session was started. */
  ghost predicate Last(tasks: seq<Task>, i: nat)
    requires i < |tasks|
  {
    forall j: nat :: i < j < |tasks| ==> tasks[j].request.session != tasks[i].request.session
  }

  /** The entry names a task exactly when no later one of its session was started. */
  lemma {:induction false} NamedExactly(m: Manager, i: nat)
    requires Newest(m.tasks, m.entries) && EntriesSound(m.tasks, m.entries) && i < |m.tasks|
    ensures m.tasks[i].request.session in m.entries
    ensures m.entries[m.tasks[i].request.session].task == i <==> Last(m.tasks, i)
  {
    var session := m.tasks[i].request.session;
    assert NotAfterEntry(session, i, m.entries);
    assert EntrySound(m.tasks, session, m.entries[session]);
    forall j: nat | i < j < |m.tasks| && m.tasks[j].request.session == session ensures i < m.entries[session].task {
      assert NotAfterEntry(m.tasks[j].request.session, j, m.entries);
    }
  }

  /** With run records, the entry shows a finished task's own status exactly when it names that task. */
  lemma {:induction false} ShownExactly(m: Manager, i: nat)
    requires Sound(m) && i < |m.tasks| && m.tasks[i].phase.Done? && m.tasks[i].request.session in m.entries
    ensures var e := m.entries[m.tasks[i].request.session];
            && (e.task == i ==> e.status == m.tasks[i].phase.status)
            && (m.observed && e.status == m.tasks[i].phase.status ==> e.task == i)
  {
    hide Owning, StartSound, LockSound;
    var session := m.tasks[i].request.session;
    var e := m.entries[session];
    assert EntrySound(m.tasks, session, e) && TaskSound(m.tasks[i]);
    if m.observed && e.task != i {
      assert e.status.request == m.tasks[e.task].request;
      assert i < e.task ==> m.tasks[i].request.taskId != m.tasks[e.task].request.taskId;
      assert e.task < i ==> m.tasks[e.task].request.taskId != m.tasks[i].request.taskId;
    }
  }

  /**
   * In every interleaving a stop whose task is over is answered with its session's status as soon as the lock is free;
   * the answer is that task's own status when no later playback of the session was started and, with run records, only
   * then.
   */
  lemma {:induction false} StopAnswersExactly(observed: bool, steps: seq<Step>, k: nat)
    requires var m := Execute(observed, steps);
             m.lock.None? && k < |m.stops| && m.stops[k].Waiting? && !Unfinished(m, m.stops[k].task)
    ensures var m, z := Execute(observed, steps), Take(Execute(observed, steps), AnswerStop(k));
            var i := m.stops[k].task;
            && i < |m.tasks| && m.tasks[i].phase.Done?
            && z.stops[k].Answered? && z.stops[k].task == i && z.stops[k].session == m.tasks[i].request.session
            && (Last(m.tasks, i) ==> z.stops[k].status == m.tasks[i].phase.status)
            && (m.observed && z.stops[k].status == m.tasks[i].phase.status ==> Last(m.tasks, i))
  {
    hide Execute, Sound, Newest, Last;
    var m := Execute(observed, steps);
    AlwaysSound(observed, steps);
    AlwaysNewest(observed, steps);
    EntriesOf(m);
    assert StopSoundAt(m.stops[k], m.tasks);
    NamedExactly(m, m.stops[k].task);
    ShownExactly(m, m.stops[k].task);
  }

  // ----- a stop that answers about another task -------------------------------------------------

  const FIRST_RUN := Request(5, 1, 0)
  const SECOND_RUN := Request(5, 2, 0)

  /** A playback is stopped and ends, and a second one starts before the stop has asked for the status. */
  function Restart(): seq<Step> {
    [BeginStart(FIRST_RUN, 0), RecordStart(true), SpawnTask, RequestStop(5), EndRunner(0, Finished(Stopped, 0, 0)),
     ReadStart(0, 0), WriteStatus(0), RecordEnd(0, true), BeginStart(SECOND_RUN, 1), RecordStart(true), SpawnTask,
     AnswerStop(0)]
  }

  function RestartAt(n: nat): Manager {
    var begun, ended := Status(FIRST_RUN, Running, 0, None, 0, None), Status(FIRST_RUN, Stopped, 0, Some(0), 0, Some(0));
    var again := Status(SECOND_RUN, Running, 0, None, 1, None);
    var running, stopping, stopped := map[5 := Owned(begun, false, 0)], map[5 := Owned(begun, true, 0)], map[5 := Owned(ended, true, 0)];
    var open, closed := Record(5, Running, 0, None, None), Record(5, Stopped, 0, Some(0), Some(0));
    if n == 0 then Manager(true, None, map[], [], map[], [])
    else if n == 1 then Manager(true, Some(Asked(FIRST_RUN, 0)), map[], [], map[], [])
    else if n == 2 then Manager(true, Some(Recorded(FIRST_RUN, 0)), map[], [], map[1 := open], [])
    else if n == 3 then Manager(true, None, running, [Task(FIRST_RUN, Executing)], map[1 := open], [])
    else if n == 4 then Manager(true, None, stopping, [Task(FIRST_RUN, Executing)], map[1 := open], [Waiting(5, 0)])
    else if n == 5 then
      Manager(true, None, stopping, [Task(FIRST_RUN, Resulted(Finished(Stopped, 0, 0)))], map[1 := open], [Waiting(5, 0)])
    else if n == 6 then Manager(true, None, stopping, [Task(FIRST_RUN, Concluded(ended))], map[1 := open], [Waiting(5, 0)])
    else if n == 7 then Manager(true, None, stopped, [Task(FIRST_RUN, Published(ended))], map[1 := open], [Waiting(5, 0)])
    else if n == 8 then Manager(true, None, stopped, [Task(FIRST_RUN, Done(ended))], map[1 := closed], [Waiting(5, 0)])
    else if n == 9 then
      Manager(true, Some(Asked(SECOND_RUN, 1)), stopped, [Task(FIRST_RUN, Done(ended))], map[1 := closed], [Waiting(5, 0)])
    else if n == 10 then
      Manager(true, Some(Recorded(SECOND_RUN, 1)), stopped, [Task(FIRST_RUN, Done(ended))], map[1 := closed, 2 := open], [Waiting(5, 0)])
    else
      Manager(true, None, map[5 := Owned(again, false, 1)], [Task(FIRST_RUN, Done(ended)), Task(SECOND_RUN, Executing)],
              map[1 := closed, 2 := open], [if n == 11 then Waiting(5, 0) else Answered(5, 0, again)])
  }

  lemma {:induction false} RestartTakesEarly(n: nat)
    requires n < 4
    ensures Take(RestartAt(n), Restart()[n]) == RestartAt(n + 1)
  {
  }

  lemma {:induction false} RestartTakesEnd(n: nat)
    requires 4 <= n < 6
    ensures Take(RestartAt(n), Restart()[n]) == RestartAt(n + 1)
  {
  }

  lemma {:induction false} RestartTakesWriting(n: nat)
    requires 6 <= n < 8
    ensures Take(RestartAt(n), Restart()[n]) == RestartAt(n + 1)
  {
  }

  lemma {:induction false} RestartTakesLate(n: nat)
    requires 8 <= n < 12
    ensures Take(RestartAt(n), Restart()[n]) == RestartAt(n + 1)
  {
  }

  lemma {:induction false} RestartRuns(n: nat)
    requires n <= 12
    ensures Execute(true, Restart()[..n]) == RestartAt(n)
  {
    hide Take;
    if n > 0 {
      RestartRuns(n - 1);
      if n <= 4 {
        RestartTakesEarly(n - 1);
      } else if n <= 6 {
        RestartTakesEnd(n - 1);
      } else if n <= 8 {
        RestartTakesWriting(n - 1);
      } else {
        RestartTakesLate(n - 1);
      }
      assert Restart()[..n][..n - 1] == Restart()[..n - 1];
    } else {
      assert Restart()[..0] == [];
    }
  }

  /** A start between the end of a task and the stop's question replaces the entry: the stop is told of a running task. */
  lemma {:induction false} StopCanAnswerRunning()
    ensures var m := Execute(true, Restart());
            && |m.tasks| == 2 && m.tasks[0].request == FIRST_RUN && m.tasks[0].phase.Done?
            && m.tasks[0].phase.status.outcome == Stopped
            && |m.stops| == 1 && m.stops[0].Answered? && m.stops[0].task == 0
            && m.stops[0].status.request == SECOND_RUN && m.stops[0].status.outcome == Running
  {
    hide Execute;
    RestartRuns(12);
    assert Restart()[..12] == Restart();
  }
}
