/**
 The app's `exclusive` section and the two operations that run in it, uploading due
 tasks and deleting a cloud save. Each caller takes the promise in `exclusiveTail`,
 leaves its own there, and runs when the one it took resolves. There is one queue file
 per account, and every queue method, one step each, works on the file of the account
 signed in at that moment. Enqueues, changes and completions from outside the section, and
 changes of account, come between any two steps.
 */
module ClientOrder {
  import opened Wrappers
  import opened SaveKeys
  import opened SyncQueue

  type Id = string
  type Account = string

  datatype Phase = Waiting | Running | Done

  // How far a caller's operation has come. `from` is the account whose queue was read.
  datatype Work =
    | RunDue                                                        // not yet listed
    | Uploading(now: int, left: seq<Task>)                          // when the snapshot was taken, what is left of it
    | Settling(now: int, left: seq<Task>)                           // left[0] was sent, its answer is being stored
    | Delete(scope: Scope)
    | Listed(scope: Scope, from: Account, pending: seq<Task>)
    | Removed(scope: Scope, from: Account, pending: seq<Task>, removed: seq<Task>) // the remote delete is under way
    | Restoring(scope: Scope, from: Account, pending: seq<Task>, removed: seq<Task>, next: nat)
    | Over

  // `previous` and `own` are promises.
  datatype Caller = Caller(previous: nat, own: nat, phase: Phase, work: Work)

  // History of one account's queue since a delete last removed tasks from it: what was enqueued
  // from outside, what a restore put back, the saves of which an entry was completed
  // from outside, what was put there with no entry of its save completed since, and
  // whether another account was signed in to meanwhile.
  datatype Since = Since(account: Account, added: set<Task>, restored: set<Task>, finished: set<Key>, kept: set<Task>, moved: bool)

  // The save and the account an ID was made for.
  datatype Made = Made(key: Key, account: Account)

  datatype Device = Device(
    account: Account,
    queues: map<Account, seq<Task>>,
    made: map<Id, Made>, // every task ID ever made
    carried: set<Id>,    // IDs that a restore put into another queue than they were read from
    since: Since)

  datatype State = State(tail: nat, promises: nat, resolved: set<nat>, callers: seq<Caller>, device: Device)

  datatype Outcome = Completed | Conflicted(revision: nat) | Failed(change: Change)

  datatype Step =
    | Call(work: Work) | Begin(c: nat) | End(c: nat)
    | List(c: nat, now: int) | Skip(c: nat) | Drop(c: nat) | Upload(c: nat) | Settle(c: nat, outcome: Outcome)
    | ListPending(c: nat) | Remove(c: nat) | DeleteSucceeds(c: nat) | DeleteFails(c: nat) | RestoreOne(c: nat)
    | EnqueueOutside(task: Task) | ChangeOutside(id: Id, change: Change) | CompleteOutside(id: Id)
    | SwitchAccount(account: Account)

  const ANONYMOUS: Account := "anonymous"

  function SinceRemoval(account: Account): Since {
    Since(account, {}, {}, {}, {}, false)
  }

  const NEW_DEVICE: Device := Device(ANONYMOUS, map[], map[], {}, SinceRemoval(ANONYMOUS))

  function Initial(): State {
    State(0, 1, {0}, [], NEW_DEVICE) // promise 0 is the resolved one the field starts with
  }

  // ---------- The queue files ----------

  function QueueOf(d: Device, account: Account): seq<Task> {
    if account in d.queues then d.queues[account] else []
  }

  function Current(d: Device): seq<Task> {
    QueueOf(d, d.account)
  }

  function WithQueue(d: Device, q: seq<Task>): Device {
    d.(queues := d.queues[d.account := q])
  }

  function Settled(q: seq<Task>, id: Id, outcome: Outcome): seq<Task> {
    match outcome
    case Completed => Complete(q, id)
    case Conflicted(revision) => Change1(q, id, MarkConflict(revision))
    case Failed(change) => Change1(q, id, change)
  }

  function Ids(q: seq<Task>): set<Id> {
    set t | t in q :: t.id
  }

  // The saves of the entries with this ID.
  function KeysOf(q: seq<Task>, id: Id): set<Key> {
    set t | t in q && t.id == id :: t.key
  }

  // The history follows only the queue that the removal was made in.
  function Put(d: Device, t: Task): Since {
    if d.account == d.since.account then d.since.(kept := d.since.kept + {t}) else d.since
  }

  function Finish(h: Since, keys: set<Key>): Since {
    h.(finished := h.finished + keys, kept := set x | x in h.kept && x.key !in keys)
  }

  function RemovedIn(d: Device, scope: Scope): Device {
    WithQueue(d, Outside(Current(d), scope)).(since := SinceRemoval(d.account))
  }

  function RestoredIn(d: Device, from: Account, t: Task): Device {
    WithQueue(d, Enqueue(Current(d), t))
      .(carried := if d.account == from then d.carried else d.carried + {t.id},
        since := if d.account == d.since.account then Put(d, t).(restored := d.since.restored + {t}) else d.since)
  }

  function AddedIn(d: Device, t: Task): Device {
    WithQueue(d, Enqueue(Current(d), t))
      .(made := d.made[t.id := Made(t.key, d.account)],
        since := if d.account == d.since.account then Put(d, t).(added := d.since.added + {t}) else d.since)
  }

  function CompletedIn(d: Device, id: Id): Device {
    WithQueue(d, Complete(Current(d), id))
      .(since := if d.account == d.since.account then Finish(d.since, KeysOf(Current(d), id)) else d.since)
  }

  function SwitchedTo(d: Device, account: Account): Device {
    d.(account := account, since := d.since.(moved := d.since.moved || account != d.since.account))
  }

  // ---------- Steps ----------

  predicate Runs(s: State, c: nat) {
    c < |s.callers| && s.callers[c].phase == Running
  }

  // runDue passes by terminal tasks and those whose time has not come.
  predicate NextIsDue(s: State, c: nat) {
    && Runs(s, c) && s.callers[c].work.Uploading? && s.callers[c].work.left != []
    && Due(s.callers[c].work.left[0], s.callers[c].work.now)
  }

  predicate Enabled(s: State, step: Step) {
    match step
    case Call(work) => work.RunDue? || work.Delete?
    case Begin(c) => c < |s.callers| && s.callers[c].phase == Waiting && s.callers[c].previous in s.resolved
    case End(c) => Runs(s, c) // returned or thrown: `finally` releases either way
    case List(c, _) => Runs(s, c) && s.callers[c].work.RunDue? && s.device.account != ANONYMOUS
    case Skip(c) => Runs(s, c) && s.callers[c].work.Uploading? && s.callers[c].work.left != [] // not due, or switched off
    case Drop(c) => NextIsDue(s, c) // the local save has moved on
    case Upload(c) => NextIsDue(s, c)
    case Settle(c, _) => Runs(s, c) && s.callers[c].work.Settling? && s.callers[c].work.left != []
    case ListPending(c) => Runs(s, c) && s.callers[c].work.Delete?
    case Remove(c) => Runs(s, c) && s.callers[c].work.Listed?
    case DeleteSucceeds(c) => Runs(s, c) && s.callers[c].work.Removed?
    case DeleteFails(c) => Runs(s, c) && s.callers[c].work.Removed?
    case RestoreOne(c) =>
      Runs(s, c) && s.callers[c].work.Restoring? && s.callers[c].work.next < |s.callers[c].work.pending|
    case EnqueueOutside(task) => task.id !in s.device.made // a new UUID
    case ChangeOutside(_, _) => true
    case CompleteOutside(_) => true // a conflict resolved by hand
    case SwitchAccount(_) => true // login, a refreshed session, logout
  }

  function WithWork(s: State, c: nat, work: Work): State
    requires c < |s.callers|
  {
    s.(callers := s.callers[c := s.callers[c].(work := work)])
  }

  function WithPhase(s: State, c: nat, phase: Phase): State
    requires c < |s.callers|
  {
    s.(callers := s.callers[c := s.callers[c].(phase := phase)])
  }

  function Next(s: State, step: Step): State
    requires Enabled(s, step)
  {
    var d := s.device;
    match step
    case Call(work) =>
      s.(tail := s.promises, promises := s.promises + 1,
         callers := s.callers + [Caller(s.tail, s.promises, Waiting, work)])
    case Begin(c) => WithPhase(s, c, Running)
    case End(c) => WithPhase(s, c, Done).(resolved := s.resolved + {s.callers[c].own})
    case List(c, now) => WithWork(s, c, Uploading(now, Current(d)))
    case Skip(c) => WithWork(s, c, Uploading(s.callers[c].work.now, s.callers[c].work.left[1..]))
    case Drop(c) =>
      WithWork(s, c, Uploading(s.callers[c].work.now, s.callers[c].work.left[1..]))
        .(device := WithQueue(d, Complete(Current(d), s.callers[c].work.left[0].id)))
    case Upload(c) => WithWork(s, c, Settling(s.callers[c].work.now, s.callers[c].work.left))
    case Settle(c, outcome) =>
      WithWork(s, c, Uploading(s.callers[c].work.now, s.callers[c].work.left[1..]))
        .(device := WithQueue(d, Settled(Current(d), s.callers[c].work.left[0].id, outcome)))
    case ListPending(c) =>
      var scope := s.callers[c].work.scope;
      WithWork(s, c, Listed(scope, d.account, Inside(Current(d), scope)))
    case Remove(c) =>
      var w := s.callers[c].work;
      WithWork(s, c, Removed(w.scope, w.from, w.pending, Inside(Current(d), w.scope))).(device := RemovedIn(d, w.scope))
    case DeleteSucceeds(c) => WithWork(s, c, Over)
    case DeleteFails(c) =>
      var w := s.callers[c].work;
      WithWork(s, c, Restoring(w.scope, w.from, w.pending, w.removed, 0))
    case RestoreOne(c) =>
      var w := s.callers[c].work;
      WithWork(s, c, w.(next := w.next + 1)).(device := RestoredIn(d, w.from, w.pending[w.next]))
    case EnqueueOutside(task) => s.(device := AddedIn(d, task))
    case ChangeOutside(id, change) => s.(device := WithQueue(d, Change1(Current(d), id, change)))
    case CompleteOutside(id) => s.(device := CompletedIn(d, id))
    case SwitchAccount(account) => s.(device := SwitchedTo(d, account))
  }

  // A run tries any steps; one that is not enabled does not happen.
  function Run(steps: seq<Step>): State
    decreases |steps|
  {
    if steps == [] then Initial()
    else
      var s, step := Run(steps[..|steps| - 1]), steps[|steps| - 1];
      if Enabled(s, step) then Next(s, step) else s
  }

  // ---------- The section ----------

  // Callers up to the first `done` have finished; after them all but the next wait.
  ghost predicate InOrder(s: State, done: nat) {
    && done <= |s.callers|
    && s.tail == |s.callers| && s.promises == |s.callers| + 1
    && (forall i | 0 <= i < |s.callers| :: s.callers[i].previous == i && s.callers[i].own == i + 1)
    && (forall p | p in s.resolved :: p <= done)
    && (forall i | 0 <= i < done :: s.callers[i].phase == Done)
    && (forall i | done < i < |s.callers| :: s.callers[i].phase == Waiting)
    && (done < |s.callers| ==> s.callers[done].phase != Done)
    && done in s.resolved
  }

  ghost predicate LockInv(s: State) {
    exists done: nat :: InOrder(s, done)
  }

  function DoneAfter(done: nat, step: Step): nat {
    if step.End? then done + 1 else done
  }

  // All steps but calls, entries and exits leave the section as it was.
  ghost predicate SameSection(s: State, t: State) {
    && t.tail == s.tail && t.promises == s.promises && t.resolved == s.resolved && |t.callers| == |s.callers|
    && forall i | 0 <= i < |s.callers| :: t.callers[i] == s.callers[i].(work := t.callers[i].work)
  }

  lemma StepKeepsSection(s: State, step: Step)
    requires Enabled(s, step) && !(step.Call? || step.Begin? || step.End?)
    ensures SameSection(s, Next(s, step))
  {
    hide Current, WithQueue, RemovedIn, RestoredIn, AddedIn, CompletedIn, SwitchedTo, Enqueue, Change1, Complete, Inside, Settled;
  }

  lemma StepKeepsOrder(s: State, done: nat, step: Step)
    requires InOrder(s, done) && Enabled(s, step)
    ensures InOrder(Next(s, step), DoneAfter(done, step))
  {
    if step.Call? || step.Begin? || step.End? {
    } else {
      hide Next;
      StepKeepsSection(s, step);
    }
  }

  // ---------- Tasks ----------

  // Tasks of an account's queue: made, and made for that account unless a restore carried them over.
  predicate Known(d: Device, q: seq<Task>, account: Account) {
    forall t | t in q ::
      t.id in d.made && d.made[t.id].key == t.key && (d.made[t.id].account == account || t.id in d.carried)
  }

  // A task of the set is of the same save with an equal or newer local revision.
  predicate CoveredBy(s: set<Task>, t: Task) {
    exists x :: x in s && x.key == t.key && x.localRevision >= t.localRevision
  }

  predicate Equalled(s: set<Task>, t: Task) {
    exists x :: x in s && x.key == t.key && x.localRevision == t.localRevision
  }

  // Within the scope the queue covers what was kept and holds nothing else.
  predicate Tracks(q: seq<Task>, scope: Scope, kept: set<Task>) {
    && (forall x | x in kept && In(scope, x) :: Covered(q, x))
    && forall u | u in q && In(scope, u) :: Equalled(kept, u)
  }

  // Everything put since the removal was kept, except saves completed from outside.
  predicate Recorded(h: Since) {
    && h.kept <= h.restored + h.added
    && forall x | x in h.restored + h.added && x.key !in h.finished :: x in h.kept
  }

  // The removed tasks have left the queue that the removal was made in.
  predicate Left(d: Device, scope: Scope, from: Account, pending: seq<Task>, removed: seq<Task>) {
    forall t | t in QueueOf(d, d.since.account) && In(scope, t) ::
      t.id !in Ids(removed) && (from == d.since.account ==> t.id !in Ids(pending))
  }

  predicate AllIn(scope: Scope, q: seq<Task>) {
    forall t | t in q :: In(scope, t)
  }

  function Elements(q: seq<Task>): set<Task> {
    set t | t in q
  }

  predicate WorkInv(d: Device, work: Work) {
    match work
    case Listed(scope, from, pending) => Known(d, pending, from) && AllIn(scope, pending)
    case Removed(scope, from, pending, removed) =>
      && Known(d, pending, from) && Known(d, removed, d.since.account)
      && AllIn(scope, pending) && AllIn(scope, removed) && Left(d, scope, from, pending, removed)
      && Tracks(QueueOf(d, d.since.account), scope, d.since.kept) && Recorded(d.since) && d.since.restored == {}
    case Restoring(scope, from, pending, removed, next) =>
      && Known(d, pending, from) && next <= |pending| && AllIn(scope, pending) && AllIn(scope, removed)
      && Tracks(QueueOf(d, d.since.account), scope, d.since.kept) && Recorded(d.since)
      && d.since.restored <= Elements(pending[..next])
      && (!d.since.moved ==> d.since.restored == Elements(pending[..next]))
    case _ => true
  }

  ghost predicate DeviceInv(d: Device) {
    && (forall a :: OnePerKey(QueueOf(d, a)) && Known(d, QueueOf(d, a), a))
    && (!d.since.moved ==> d.account == d.since.account)
  }

  ghost predicate TaskInv(s: State) {
    && DeviceInv(s.device)
    && (forall c | 0 <= c < |s.callers| && s.callers[c].phase == Running :: WorkInv(s.device, s.callers[c].work))
    && forall c | 0 <= c < |s.callers| && s.callers[c].phase == Waiting ::
          s.callers[c].work.RunDue? || s.callers[c].work.Delete?
  }

  ghost predicate Inv(s: State) {
    LockInv(s) && TaskInv(s)
  }

  // Exactly one caller can be running, so a step of one leaves no other to check.
  lemma OnlyRunner(s: State, c: nat, d: nat)
    requires LockInv(s) && Runs(s, c) && Runs(s, d)
    ensures c == d
  {
  }

  // ---------- Every step keeps the invariant of the queues ----------

  lemma RunnerStep(s: State, t: State, c: nat, w: Work)
    requires Inv(s) && Runs(s, c) && t.callers == s.callers[c := s.callers[c].(work := w)]
    requires DeviceInv(t.device) && WorkInv(t.device, w)
    ensures TaskInv(t)
  {
    hide WorkInv, LockInv, DeviceInv;
    forall d | 0 <= d < |t.callers| && t.callers[d].phase == Running
      ensures WorkInv(t.device, t.callers[d].work)
    {
      OnlyRunner(s, c, d);
    }
  }

  // A change from outside, which the running operation must survive.
  lemma OutsideStep(s: State, t: State)
    requires Inv(s) && t.callers == s.callers && DeviceInv(t.device)
    requires forall w: Work | WorkInv(s.device, w) :: WorkInv(t.device, w)
    ensures TaskInv(t)
  {
    hide WorkInv, LockInv, DeviceInv;
  }

  // Nothing that was made or carried is forgotten.
  predicate Grows(d: Device, e: Device) {
    && (forall id | id in d.made :: id in e.made && e.made[id] == d.made[id])
    && d.carried <= e.carried
  }

  lemma StaysKnown(d: Device, e: Device, q: seq<Task>, account: Account)
    requires Known(d, q, account) && Grows(d, e)
    ensures Known(e, q, account)
  {
  }

  lemma WriteKeepsDevice(d: Device, q: seq<Task>, e: Device)
    requires DeviceInv(d) && e.account == d.account && e.queues == d.queues[d.account := q] && Grows(d, e)
    requires OnePerKey(q) && Known(e, q, d.account)
    requires !e.since.moved ==> e.account == e.since.account
    ensures DeviceInv(e)
  {
    hide OnePerKey, Known, Grows;
    forall a
      ensures OnePerKey(QueueOf(e, a)) && Known(e, QueueOf(e, a), a)
    {
      assert OnePerKey(QueueOf(d, a)) && Known(d, QueueOf(d, a), a);
      StaysKnown(d, e, QueueOf(d, a), a);
    }
  }

  lemma EnqueueAdds(q: seq<Task>, t: Task)
    ensures forall u | u in Enqueue(q, t) :: u == t || u in q
  {
  }

  lemma ChangeKnown(d: Device, q: seq<Task>, account: Account, id: Id, c: Change)
    requires Known(d, q, account) && OnePerKey(q)
    ensures Known(d, Change1(q, id, c), account) && OnePerKey(Change1(q, id, c))
    ensures forall u | u in Change1(q, id, c) :: exists v :: v in q && v.id == u.id && v.key == u.key
  {
    var r := Change1(q, id, c);
    forall u | u in r
      ensures exists v :: v in q && v.id == u.id && v.key == u.key
    {
      var j :| 0 <= j < |r| && r[j] == u;
      assert q[j] in q && q[j].id == u.id && q[j].key == u.key;
    }
  }

  lemma SettleKnown(d: Device, q: seq<Task>, account: Account, id: Id, outcome: Outcome)
    requires Known(d, q, account) && OnePerKey(q)
    ensures Known(d, Settled(q, id, outcome), account) && OnePerKey(Settled(q, id, outcome))
  {
    hide Change1, OnePerKey;
    var change := match outcome case Completed => RetryNow(0) case Conflicted(r) => MarkConflict(r) case Failed(c) => c;
    FilterKeepsOnePerKey(q, (t: Task) => t.id != id);
    ChangeKnown(d, q, account, id, change);
  }

  lemma UploadStepKeepsTasks(s: State, step: Step)
    requires Inv(s) && Enabled(s, step)
    requires step.List? || step.Skip? || step.Drop? || step.Upload? || step.Settle?
    ensures TaskInv(Next(s, step))
  {
    hide LockInv, OnePerKey, Complete, Settled, Known;
    var c, t, d := step.c, Next(s, step), s.device;
    if step.Drop? || step.Settle? {
      var id, outcome := s.callers[c].work.left[0].id, if step.Drop? then Completed else step.outcome;
      assert OnePerKey(QueueOf(d, d.account)) && Known(d, QueueOf(d, d.account), d.account);
      SettleKnown(d, Current(d), d.account, id, outcome);
      SettledByCompletion(Current(d), id);
      StaysKnown(d, t.device, Settled(Current(d), id, outcome), d.account);
      WriteKeepsDevice(d, Settled(Current(d), id, outcome), t.device);
    }
    RunnerStep(s, t, c, t.callers[c].work);
  }

  lemma SettledByCompletion(q: seq<Task>, id: Id)
    ensures Settled(q, id, Completed) == Complete(q, id)
  {
  }

  lemma RemovedKeepsDevice(d: Device, scope: Scope)
    requires DeviceInv(d)
    ensures DeviceInv(RemovedIn(d, scope))
  {
    hide OnePerKey;
    var q := Outside(Current(d), scope);
    assert OnePerKey(QueueOf(d, d.account)) && Known(d, QueueOf(d, d.account), d.account);
    FilterKeepsOnePerKey(Current(d), (t: Task) => !In(scope, t));
    WriteKeepsDevice(d, q, RemovedIn(d, scope));
  }

  lemma RemoveKeepsTasks(s: State, c: nat)
    requires Inv(s) && Enabled(s, Remove(c))
    ensures TaskInv(Next(s, Remove(c)))
  {
    hide LockInv, OnePerKey, DeviceInv;
    var t, was, d := Next(s, Remove(c)), s.callers[c].work, s.device;
    RemovedKeepsDevice(d, was.scope);
    CurrentIsKnown(d);
    RunnerStep(s, t, c, t.callers[c].work);
  }

  lemma CurrentIsKnown(d: Device)
    requires DeviceInv(d)
    ensures Known(d, Current(d), d.account) && OnePerKey(Current(d))
  {
    assert OnePerKey(QueueOf(d, d.account)) && Known(d, QueueOf(d, d.account), d.account);
  }

  lemma DeleteStepKeepsTasks(s: State, step: Step)
    requires Inv(s) && Enabled(s, step)
    requires step.ListPending? || step.DeleteSucceeds? || step.DeleteFails?
    ensures TaskInv(Next(s, step))
  {
    hide LockInv, OnePerKey, DeviceInv, Tracks, Recorded;
    var c, t := step.c, Next(s, step);
    if step.ListPending? {
      CurrentIsKnown(s.device);
    }
    RunnerStep(s, t, c, t.callers[c].work);
  }

  // ---------- The queue tracks what was put since the removal ----------

  lemma EnqueueTracks(q: seq<Task>, scope: Scope, kept: set<Task>, t: Task)
    requires OnePerKey(q) && Tracks(q, scope, kept)
    ensures Tracks(Enqueue(q, t), scope, kept + {t})
  {
    hide OnePerKey;
    EnqueueCovers(q, t);
    EnqueueAdds(q, t);
    hide Enqueue, Covered;
    forall u | u in Enqueue(q, t) && In(scope, u)
      ensures Equalled(kept + {t}, u)
    {
      if u != t {
        assert Equalled(kept, u);
      }
    }
  }

  lemma ChangedFrom(q: seq<Task>, id: Id, c: Change, u: Task)
    requires u in Change1(q, id, c)
    ensures exists t :: t in q && t.key == u.key && t.localRevision == u.localRevision
  {
    var r := Change1(q, id, c);
    var j :| 0 <= j < |r| && r[j] == u;
    assert q[j] in q;
  }

  lemma ChangeTracks(q: seq<Task>, scope: Scope, kept: set<Task>, id: Id, c: Change)
    requires Tracks(q, scope, kept)
    ensures Tracks(Change1(q, id, c), scope, kept)
  {
    hide Change1, Covered;
    ChangeCovers(q, id, c);
    forall u | u in Change1(q, id, c) && In(scope, u)
      ensures Equalled(kept, u)
    {
      ChangedFrom(q, id, c, u);
      var t :| t in q && t.key == u.key && t.localRevision == u.localRevision;
      assert Equalled(kept, t);
    }
  }

  lemma CompleteTracks(q: seq<Task>, scope: Scope, h: Since, id: Id)
    requires Tracks(q, scope, h.kept) && OnePerKey(q)
    ensures Tracks(Complete(q, id), scope, Finish(h, KeysOf(q, id)).kept)
  {
    var r, kept := Complete(q, id), Finish(h, KeysOf(q, id)).kept;
    forall x | x in kept && In(scope, x)
      ensures Covered(r, x)
    {
      var u :| u in q && u.key == x.key && u.localRevision >= x.localRevision;
      assert u in r;
    }
    forall u | u in r && In(scope, u)
      ensures Equalled(kept, u)
    {
      var x :| x in h.kept && x.key == u.key && x.localRevision == u.localRevision;
      forall t | t in q && t.id == id
        ensures t.key != u.key
      {
        if t.key == u.key {
          SameKeySameTask(q, t, u);
        }
      }
      assert x in kept;
    }
  }

  lemma SameKeySameTask(q: seq<Task>, t: Task, u: Task)
    requires OnePerKey(q) && t in q && u in q && t.key == u.key
    ensures t == u
  {
  }

  lemma FinishRecords(h: Since, keys: set<Key>)
    requires Recorded(h)
    ensures Recorded(Finish(h, keys))
  {
  }

  lemma RestoredKeepsDevice(d: Device, from: Account, t: Task)
    requires DeviceInv(d) && Known(d, [t], from)
    ensures DeviceInv(RestoredIn(d, from, t)) && Grows(d, RestoredIn(d, from, t))
  {
    hide OnePerKey, Enqueue;
    CurrentIsKnown(d);
    EnqueueKeepsOnePerKey(Current(d), t);
    EnqueueAdds(Current(d), t);
    assert t in [t];
    WriteKeepsDevice(d, Enqueue(Current(d), t), RestoredIn(d, from, t));
  }

  lemma RestoreKeepsWork(d: Device, w: Work)
    requires w.Restoring? && w.next < |w.pending| && WorkInv(d, w) && DeviceInv(d)
    requires Grows(d, RestoredIn(d, w.from, w.pending[w.next]))
    ensures WorkInv(RestoredIn(d, w.from, w.pending[w.next]), w.(next := w.next + 1))
  {
    hide OnePerKey, Enqueue, Covered, Tracks, Known, Grows;
    var t := w.pending[w.next];
    var e := RestoredIn(d, w.from, t);
    StaysKnown(d, e, w.pending, w.from);
    CurrentIsKnown(d);
    assert w.pending[..w.next + 1] == w.pending[..w.next] + [t];
    assert Elements(w.pending[..w.next + 1]) == Elements(w.pending[..w.next]) + {t};
    if d.account == d.since.account {
      EnqueueTracks(Current(d), w.scope, d.since.kept, t);
    }
  }

  lemma RestoreStepKeepsTasks(s: State, c: nat)
    requires Inv(s) && Enabled(s, RestoreOne(c))
    ensures TaskInv(Next(s, RestoreOne(c)))
  {
    var t, w := Next(s, RestoreOne(c)), s.callers[c].work;
    assert WorkInv(s.device, w);
    assert Known(s.device, [w.pending[w.next]], w.from);
    hide LockInv, DeviceInv, WorkInv, RestoredIn, Known;
    RestoredKeepsDevice(s.device, w.from, w.pending[w.next]);
    RestoreKeepsWork(s.device, w);
    RunnerStep(s, t, c, t.callers[c].work);
  }

  lemma AddedKeepsDevice(d: Device, t: Task)
    requires DeviceInv(d) && t.id !in d.made
    ensures DeviceInv(AddedIn(d, t)) && Grows(d, AddedIn(d, t))
  {
    hide OnePerKey, Enqueue;
    CurrentIsKnown(d);
    EnqueueKeepsOnePerKey(Current(d), t);
    EnqueueAdds(Current(d), t);
    WriteKeepsDevice(d, Enqueue(Current(d), t), AddedIn(d, t));
  }

  lemma AddedKeepsWork(d: Device, t: Task, w: Work)
    requires DeviceInv(d) && t.id !in d.made && Grows(d, AddedIn(d, t)) && WorkInv(d, w)
    ensures WorkInv(AddedIn(d, t), w)
  {
    hide OnePerKey, Enqueue, Covered, Tracks, Grows;
    var e := AddedIn(d, t);
    CurrentIsKnown(d);
    EnqueueAdds(Current(d), t);
    if w.Listed? || w.Removed? || w.Restoring? {
      StaysKnown(d, e, w.pending, w.from);
    }
    if w.Removed? {
      StaysKnown(d, e, w.removed, d.since.account);
    }
    if d.account == d.since.account && (w.Removed? || w.Restoring?) {
      EnqueueTracks(Current(d), w.scope, d.since.kept, t);
    }
  }

  lemma EnqueueOutsideKeepsTasks(s: State, task: Task)
    requires Inv(s) && Enabled(s, EnqueueOutside(task))
    ensures TaskInv(Next(s, EnqueueOutside(task)))
  {
    hide LockInv, DeviceInv, WorkInv, AddedIn;
    var t := Next(s, EnqueueOutside(task));
    AddedKeepsDevice(s.device, task);
    forall w: Work | WorkInv(s.device, w)
      ensures WorkInv(t.device, w)
    {
      AddedKeepsWork(s.device, task, w);
    }
    OutsideStep(s, t);
  }

  lemma ChangeKeepsWork(d: Device, id: Id, change: Change, w: Work)
    requires DeviceInv(d) && WorkInv(d, w)
    ensures WorkInv(WithQueue(d, Change1(Current(d), id, change)), w)
  {
    hide OnePerKey, Change1, Tracks, Recorded;
    CurrentIsKnown(d);
    ChangeKnown(d, Current(d), d.account, id, change);
    if d.account == d.since.account && (w.Removed? || w.Restoring?) {
      ChangeTracks(Current(d), w.scope, d.since.kept, id, change);
    }
  }

  lemma ChangeOutsideKeepsTasks(s: State, id: Id, change: Change)
    requires Inv(s)
    ensures TaskInv(Next(s, ChangeOutside(id, change)))
  {
    hide LockInv, WorkInv, Change1, OnePerKey;
    var t, d := Next(s, ChangeOutside(id, change)), s.device;
    CurrentIsKnown(d);
    ChangeKnown(d, Current(d), d.account, id, change);
    WriteKeepsDevice(d, Change1(Current(d), id, change), t.device);
    forall w: Work | WorkInv(d, w)
      ensures WorkInv(t.device, w)
    {
      ChangeKeepsWork(d, id, change, w);
    }
    OutsideStep(s, t);
  }

  lemma CompleteKeepsWork(d: Device, id: Id, w: Work)
    requires DeviceInv(d) && WorkInv(d, w)
    ensures WorkInv(CompletedIn(d, id), w)
  {
    hide OnePerKey, Tracks, Recorded;
    CurrentIsKnown(d);
    if d.account == d.since.account && (w.Removed? || w.Restoring?) {
      CompleteTracks(Current(d), w.scope, d.since, id);
      FinishRecords(d.since, KeysOf(Current(d), id));
    }
  }

  lemma CompleteOutsideKeepsTasks(s: State, id: Id)
    requires Inv(s)
    ensures TaskInv(Next(s, CompleteOutside(id)))
  {
    hide LockInv, WorkInv, OnePerKey;
    var t, d := Next(s, CompleteOutside(id)), s.device;
    CurrentIsKnown(d);
    FilterKeepsOnePerKey(Current(d), (t: Task) => t.id != id);
    WriteKeepsDevice(d, Complete(Current(d), id), t.device);
    forall w: Work | WorkInv(d, w)
      ensures WorkInv(t.device, w)
    {
      CompleteKeepsWork(d, id, w);
    }
    OutsideStep(s, t);
  }

  lemma SwitchKeepsTasks(s: State, account: Account)
    requires Inv(s)
    ensures TaskInv(Next(s, SwitchAccount(account)))
  {
    hide LockInv, OnePerKey, Tracks;
    var t := Next(s, SwitchAccount(account));
    forall a
      ensures OnePerKey(QueueOf(t.device, a)) && Known(t.device, QueueOf(t.device, a), a)
    {
      assert OnePerKey(QueueOf(s.device, a)) && Known(s.device, QueueOf(s.device, a), a);
    }
    OutsideStep(s, t);
  }

  lemma SectionStepKeepsTasks(s: State, step: Step)
    requires Inv(s) && Enabled(s, step) && (step.Call? || step.Begin? || step.End?)
    ensures TaskInv(Next(s, step))
  {
    hide LockInv, DeviceInv;
  }

  lemma StepKeepsInv(s: State, step: Step)
    requires Inv(s) && Enabled(s, step)
    ensures Inv(Next(s, step))
  {
    hide TaskInv, Next, InOrder;
    var done: nat :| InOrder(s, done);
    StepKeepsOrder(s, done, step);
    match step
    case Call(_) => SectionStepKeepsTasks(s, step);
    case Begin(_) => SectionStepKeepsTasks(s, step);
    case End(_) => SectionStepKeepsTasks(s, step);
    case Remove(c) => RemoveKeepsTasks(s, c);
    case RestoreOne(c) => RestoreStepKeepsTasks(s, c);
    case EnqueueOutside(task) => EnqueueOutsideKeepsTasks(s, task);
    case ChangeOutside(id, change) => ChangeOutsideKeepsTasks(s, id, change);
    case CompleteOutside(id) => CompleteOutsideKeepsTasks(s, id);
    case SwitchAccount(account) => SwitchKeepsTasks(s, account);
    case List(_, _) => UploadStepKeepsTasks(s, step);
    case Skip(_) => UploadStepKeepsTasks(s, step);
    case Drop(_) => UploadStepKeepsTasks(s, step);
    case Upload(_) => UploadStepKeepsTasks(s, step);
    case Settle(_, _) => UploadStepKeepsTasks(s, step);
    case _ => DeleteStepKeepsTasks(s, step);
  }

  lemma {:induction false} InvRun(steps: seq<Step>)
    ensures Inv(Run(steps))
    decreases |steps|
  {
    if steps == [] {
      assert InOrder(Initial(), 0);
    } else {
      var s, step := Run(steps[..|steps| - 1]), steps[|steps| - 1];
      InvRun(steps[..|steps| - 1]);
      hide Inv, Next, Enabled;
      if Enabled(s, step) {
        StepKeepsInv(s, step);
      }
    }
  }

  // ---------- Main results, for every run ----------

  // Operations run one at a time, in the order of the calls, even when they throw.
  lemma OneAtATimeInOrder(steps: seq<Step>, c: nat, d: nat)
    requires c < d < |Run(steps).callers| && Run(steps).callers[d].phase != Waiting
    ensures Run(steps).callers[c].phase == Done
  {
    InvRun(steps);
    hide TaskInv;
  }

  // And the section never gets stuck: when nothing runs, whoever waits first can begin.
  lemma NextCallerCanBegin(steps: seq<Step>, c: nat)
    requires var s := Run(steps);
      c < |s.callers| && s.callers[c].phase == Waiting && forall d | 0 <= d < c :: s.callers[d].phase == Done
    ensures Enabled(Run(steps), Begin(c))
  {
    InvRun(steps);
    hide TaskInv;
  }

  // Every account's queue holds at most one task per save.
  lemma OneTaskPerSave(steps: seq<Step>, account: Account)
    ensures OnePerKey(QueueOf(Run(steps).device, account))
  {
    InvRun(steps);
    hide LockInv;
  }

  lemma RunNext(steps: seq<Step>, step: Step)
    ensures Run(steps + [step]) == if Enabled(Run(steps), step) then Next(Run(steps), step) else Run(steps)
  {
    assert (steps + [step])[..|steps|] == steps;
  }

  // ---------- A deleted task and its later uploads ----------

  // The IDs an operation holds.
  function Held(w: Work): set<Id> {
    match w
    case Uploading(_, left) => Ids(left)
    case Settling(_, left) => Ids(left)
    case Listed(_, _, pending) => Ids(pending)
    case Removed(_, _, pending, removed) => Ids(pending) + Ids(removed)
    case Restoring(_, _, pending, removed, _) => Ids(pending) + Ids(removed)
    case _ => {}
  }

  // In some account's queue.
  ghost predicate Queued(d: Device, id: Id) {
    exists a :: id in Ids(QueueOf(d, a))
  }

  // Made, and now in no queue and held by no running operation.
  ghost predicate Gone(s: State, id: Id) {
    id in s.device.made && !Queued(s.device, id) && forall c: nat | Runs(s, c) :: id !in Held(s.callers[c].work)
  }

  predicate Uploads(s: State, d: nat, id: Id) {
    Enabled(s, Upload(d)) && s.callers[d].work.left[0].id == id
  }

  lemma IdsOfDone(q: seq<Task>, id: Id, outcome: Outcome)
    ensures Ids(Settled(q, id, outcome)) <= Ids(q) && Settled(q, id, Completed) == Complete(q, id)
  {
    var change := match outcome case Completed => RetryNow(0) case Conflicted(r) => MarkConflict(r) case Failed(c) => c;
    var r := Change1(q, id, change);
    forall u | u in r
      ensures u.id in Ids(q)
    {
      var j :| 0 <= j < |r| && r[j] == u;
      assert q[j] in q && q[j].id == u.id;
    }
  }

  lemma IdsOfEnqueue(q: seq<Task>, t: Task)
    ensures Ids(Enqueue(q, t)) <= Ids(q) + {t.id}
  {
    EnqueueAdds(q, t);
  }

  lemma IdsOfFilter(q: seq<Task>, scope: Scope)
    ensures Ids(Outside(q, scope)) <= Ids(q) && Ids(Inside(q, scope)) <= Ids(q)
  {
  }

  // A write of the current queue adds nobody else's ID.
  lemma WriteAdds(d: Device, e: Device, added: set<Id>, id: Id)
    requires e.queues == d.queues[d.account := Current(e)] && e.account == d.account && Ids(Current(e)) <= Ids(Current(d)) + added
    ensures Queued(e, id) ==> Queued(d, id) || id in added
  {
    hide Ids;
    if Queued(e, id) {
      var a :| id in Ids(QueueOf(e, a));
      assert QueueOf(e, a) == if a == d.account then Current(e) else QueueOf(d, a);
    }
  }

  lemma QueueGains(s: State, step: Step, id: Id)
    requires Enabled(s, step) && Queued(Next(s, step).device, id)
    ensures Queued(s.device, id) || (step.EnqueueOutside? && id == step.task.id)
      || (step.RestoreOne? && id in Held(s.callers[step.c].work))
  {
    hide Queued, Change1, Complete, Enqueue, Outside, Put, Finish;
    var d, e := s.device, Next(s, step).device;
    match step
    case Drop(c) =>
      IdsOfDone(Current(d), s.callers[c].work.left[0].id, Completed);
      WriteAdds(d, e, {}, id);
    case Settle(c, outcome) =>
      IdsOfDone(Current(d), s.callers[c].work.left[0].id, outcome);
      WriteAdds(d, e, {}, id);
    case Remove(c) =>
      IdsOfFilter(Current(d), s.callers[c].work.scope);
      WriteAdds(d, e, {}, id);
    case RestoreOne(c) =>
      var t := s.callers[c].work.pending[s.callers[c].work.next];
      IdsOfEnqueue(Current(d), t);
      WriteAdds(d, e, {t.id}, id);
    case EnqueueOutside(task) =>
      IdsOfEnqueue(Current(d), task);
      WriteAdds(d, e, {task.id}, id);
    case ChangeOutside(task, change) =>
      IdsOfDone(Current(d), task, Failed(change));
      WriteAdds(d, e, {}, id);
    case CompleteOutside(task) =>
      IdsOfDone(Current(d), task, Completed);
      WriteAdds(d, e, {}, id);
    case SwitchAccount(a) => SwitchAddsNothing(d, a, id);
    case _ =>
  }

  lemma SwitchAddsNothing(d: Device, a: Account, id: Id)
    ensures Queued(SwitchedTo(d, a), id) ==> Queued(d, id)
  {
    hide Ids;
    if Queued(SwitchedTo(d, a), id) {
      var b :| id in Ids(QueueOf(SwitchedTo(d, a), b));
      assert QueueOf(d, b) == QueueOf(SwitchedTo(d, a), b);
    }
  }

  lemma HeldGains(s: State, step: Step, c: nat, id: Id)
    requires Inv(s) && Enabled(s, step) && Runs(Next(s, step), c) && id in Held(Next(s, step).callers[c].work)
    ensures Queued(s.device, id) || (Runs(s, c) && id in Held(s.callers[c].work))
  {
    hide LockInv, DeviceInv, WorkInv, Enqueue, Complete, Change1, Outside, Inside;
    if step.ListPending? || step.Remove? {
      IdsOfFilter(Current(s.device), s.callers[step.c].work.scope);
    }
    assert id in Ids(Current(s.device)) ==> Queued(s.device, id) by {
      assert Current(s.device) == QueueOf(s.device, s.device.account);
    }
  }

  lemma GoneStep(s: State, step: Step, id: Id)
    requires Inv(s) && Enabled(s, step) && Gone(s, id)
    ensures Gone(Next(s, step), id)
  {
    var t := Next(s, step);
    assert id in t.device.made;
    hide Inv, Next, Queued, Held;
    if Queued(t.device, id) {
      QueueGains(s, step, id);
    }
    forall c: nat | Runs(t, c)
      ensures id !in Held(t.callers[c].work)
    {
      if id in Held(t.callers[c].work) {
        HeldGains(s, step, c, id);
      }
    }
  }

  lemma {:induction false} GoneRun(steps: seq<Step>, more: seq<Step>, id: Id)
    requires Gone(Run(steps), id)
    ensures Gone(Run(steps + more), id)
    decreases |more|
  {
    hide Gone, Enabled, Next, Inv;
    if more == [] {
      assert steps + more == steps;
    } else {
      var all, init := steps + more, more[..|more| - 1];
      assert all[..|all| - 1] == steps + init;
      GoneRun(steps, init, id);
      InvRun(steps + init);
      if Enabled(Run(steps + init), more[|more| - 1]) {
        GoneStep(Run(steps + init), more[|more| - 1], id);
      }
    }
  }

  // What a delete that succeeds held and no queue holds is gone.
  lemma SuccessForgets(s: State, c: nat, id: Id)
    requires Inv(s) && Enabled(s, DeleteSucceeds(c)) && id in Held(s.callers[c].work) && !Queued(s.device, id)
    ensures Gone(Next(s, DeleteSucceeds(c)), id)
  {
    hide LockInv, DeviceInv, Queued, Left, Tracks, Recorded;
    var t := Next(s, DeleteSucceeds(c));
    assert WorkInv(s.device, s.callers[c].work);
    forall d: nat | Runs(t, d)
      ensures id !in Held(t.callers[d].work)
    {
      OnlyRunner(s, c, d);
    }
  }

  // The removed tasks are in no queue: not in the one they were removed from, and in others
  // only if a restore once carried them there.
  lemma RemovedIsNotQueued(d: Device, w: Work, id: Id)
    requires DeviceInv(d) && w.Removed? && WorkInv(d, w) && id !in d.carried
    requires id in Ids(w.removed) || (w.from == d.since.account && id in Ids(w.pending))
    ensures !Queued(d, id)
  {
    hide OnePerKey, Tracks, Recorded;
    if Queued(d, id) {
      var a :| id in Ids(QueueOf(d, a));
      assert Known(d, QueueOf(d, a), a);
      var t :| t in QueueOf(d, a) && t.id == id;
    }
  }

  // Once a cloud delete has succeeded, a task it removed, or read from the same queue, is never
  // uploaded, unless an earlier restore had carried it into another account's queue.
  lemma NoUploadAfterDelete(before: seq<Step>, c: nat, id: Id, after: seq<Step>, d: nat)
    requires Enabled(Run(before), DeleteSucceeds(c)) && id !in Run(before).device.carried
    requires var s := Run(before); var w := s.callers[c].work;
      id in Ids(w.removed) || (w.from == s.device.since.account && id in Ids(w.pending))
    ensures !Uploads(Run(before + [DeleteSucceeds(c)] + after), d, id)
  {
    InvRun(before);
    var s := Run(before);
    assert WorkInv(s.device, s.callers[c].work);
    RemovedIsNotQueued(s.device, s.callers[c].work, id);
    DeletedIsNotUploaded(before, c, id, after, d);
  }

  lemma DeletedIsNotUploaded(before: seq<Step>, c: nat, id: Id, after: seq<Step>, d: nat)
    requires Enabled(Run(before), DeleteSucceeds(c)) && id in Held(Run(before).callers[c].work)
    requires !Queued(Run(before).device, id)
    ensures !Uploads(Run(before + [DeleteSucceeds(c)] + after), d, id)
  {
    hide Run, Queued, Inv, Next;
    InvRun(before);
    SuccessForgets(Run(before), c, id);
    RunNext(before, DeleteSucceeds(c));
    GoneRun(before + [DeleteSucceeds(c)], after, id);
  }

  // ---------- What stays queued is uploaded in some run ----------

  // A run goes on: every caller before has finished, and the queues are as they were.
  lemma {:induction false} Drained(steps: seq<Step>, done: nat) returns (more: seq<Step>)
    requires InOrder(Run(steps), done)
    ensures steps <= more && Run(more).device == Run(steps).device && InOrder(Run(more), |Run(more).callers|)
    decreases |Run(steps).callers| - done
  {
    hide Run;
    var s := Run(steps);
    more := steps;
    if done < |s.callers| {
      if s.callers[done].phase == Waiting {
        StepKeepsOrder(s, done, Begin(done));
        RunNext(more, Begin(done));
        more := more + [Begin(done)];
      }
      StepKeepsOrder(Run(more), done, End(done));
      RunNext(more, End(done));
      more := Drained(more + [End(done)], done + 1);
    }
  }

  // The next caller has just entered the section.
  ghost predicate Entered(s: State, n: nat, work: Work) {
    Runs(s, n) && s.callers[n].work == work && InOrder(s, n)
  }

  lemma Enter(steps: seq<Step>, work: Work) returns (more: seq<Step>, n: nat)
    requires work.RunDue? || work.Delete?
    ensures steps <= more && Run(more).device == Run(steps).device && Entered(Run(more), n, work)
  {
    InvRun(steps);
    var done: nat :| InOrder(Run(steps), done);
    hide Run;
    more := Drained(steps, done);
    n := |Run(more).callers|;
    StepKeepsOrder(Run(more), n, Call(work));
    RunNext(more, Call(work));
    more := more + [Call(work)];
    StepKeepsOrder(Run(more), n, Begin(n));
    RunNext(more, Begin(n));
    more := more + [Begin(n)];
  }

  // runDue goes past tasks that are not due.
  lemma {:induction false} Skipped(steps: seq<Step>, n: nat, j: nat) returns (more: seq<Step>)
    requires Runs(Run(steps), n) && Run(steps).callers[n].work.Uploading? && j < |Run(steps).callers[n].work.left|
    ensures steps <= more && Runs(Run(more), n) && Run(more).callers[n].work.Uploading?
    ensures Run(more).callers[n].work.left == Run(steps).callers[n].work.left[j..]
    ensures Run(more).callers[n].work.now == Run(steps).callers[n].work.now
    decreases j
  {
    hide Run;
    more := steps;
    if j > 0 {
      var left := Run(steps).callers[n].work.left;
      RunNext(steps, Skip(n));
      more := Skipped(steps + [Skip(n)], n, j - 1);
      assert left[1..][j - 1..] == left[j..];
    }
  }

  // A retry asked for by hand, and a runDue that has read the queue.
  lemma RetriedAndListed(steps: seq<Step>, account: Account, id: Id) returns (more: seq<Step>, n: nat)
    requires account != ANONYMOUS
    ensures steps <= more && Runs(Run(more), n)
    ensures Run(more).callers[n].work == Uploading(0, Change1(QueueOf(Run(steps).device, account), id, RetryNow(0)))
  {
    hide Run, LockInv, InOrder, Change1;
    more, n := Enter(steps, RunDue);
    RunNext(more, SwitchAccount(account));
    more := more + [SwitchAccount(account)];
    RunNext(more, ChangeOutside(id, RetryNow(0)));
    more := more + [ChangeOutside(id, RetryNow(0))];
    RunNext(more, List(n, 0));
    more := more + [List(n, 0)];
  }

  lemma SignedInIsUploaded(steps: seq<Step>, account: Account, id: Id) returns (more: seq<Step>, n: nat)
    requires account != ANONYMOUS && id in Ids(QueueOf(Run(steps).device, account))
    ensures steps <= more && Uploads(Run(more), n, id)
  {
    RetriedIsDue(QueueOf(Run(steps).device, account), id);
    hide Run, Change1, Ids, QueueOf, Due;
    more, n := RetriedAndListed(steps, account, id);
    var left := Run(more).callers[n].work.left;
    var j :| 0 <= j < |left| && left[j].id == id && Due(left[j], 0);
    more := Skipped(more, n, j);
  }

  lemma RetriedIsDue(q: seq<Task>, id: Id)
    requires id in Ids(q)
    ensures var r := Change1(q, id, RetryNow(0)); exists j :: 0 <= j < |r| && r[j].id == id && Due(r[j], 0)
  {
    var i := IndexOfId(q, id);
    assert i < |q| by {
      var t :| t in q && t.id == id;
      var j :| 0 <= j < |q| && q[j] == t;
    }
    assert Due(Change1(q, id, RetryNow(0))[i], 0);
  }

  lemma OnlyOneInside(q: seq<Task>, t: Task)
    requires OnePerKey(q) && t in q
    ensures Inside(q, OneSave(t.key)) == [t]
  {
    var scope := OneSave(t.key);
    var r := Inside(q, scope);
    FilterKeepsOnePerKey(q, (t: Task) => In(scope, t));
    assert t in r;
    assert OnePerKey(r);
    forall i | 0 <= i < |r|
      ensures r[i] == t
    {
      SameKeySameTask(q, r[i], t);
    }
    assert |r| > 1 ==> r[0].key == r[1].key;
  }

  lemma EnqueueAfterRemoval(q: seq<Task>, t: Task)
    ensures t in Enqueue(Outside(q, OneSave(t.key)), t)
  {
    var r := Outside(q, OneSave(t.key));
    assert forall u | u in r :: u.key != t.key;
  }

  // A delete of one save that lists the tasks of one account.
  lemma ListedIn(steps: seq<Step>, t: Task, account: Account) returns (more: seq<Step>, n: nat)
    requires t in QueueOf(Run(steps).device, account)
    ensures steps <= more && Runs(Run(more), n) && Run(more).callers[n].work == Listed(OneSave(t.key), account, [t])
    ensures Run(more).device == SwitchedTo(Run(steps).device, account)
  {
    OneTaskPerSave(steps, account);
    OnlyOneInside(QueueOf(Run(steps).device, account), t);
    hide Run, LockInv, InOrder, Inside;
    more, n := Enter(steps, Delete(OneSave(t.key)));
    RunNext(more, SwitchAccount(account));
    more := more + [SwitchAccount(account)];
    RunNext(more, ListPending(n));
    more := more + [ListPending(n)];
  }

  // It removes the tasks of another account, fails, and restores into that account's queue.
  lemma CarriedOver(steps: seq<Step>, t: Task, from: Account, to: Account) returns (more: seq<Step>)
    requires t in QueueOf(Run(steps).device, from)
    ensures steps <= more && t in QueueOf(Run(more).device, to)
    ensures from != to ==> t in QueueOf(Run(more).device, from)
  {
    hide Run, Inside, Outside, Enqueue;
    var n;
    more, n := ListedIn(steps, t, from);
    RunNext(more, SwitchAccount(to));
    more := more + [SwitchAccount(to)];
    RunNext(more, Remove(n));
    more := more + [Remove(n)];
    RunNext(more, DeleteFails(n));
    more := more + [DeleteFails(n)];
    EnqueueAfterRemoval(QueueOf(Run(steps).device, to), t);
    RunNext(more, RestoreOne(n));
    more := more + [RestoreOne(n)];
  }

  lemma QueuedIsUploaded(steps: seq<Step>, id: Id) returns (more: seq<Step>, n: nat)
    requires Queued(Run(steps).device, id)
    ensures steps <= more && Uploads(Run(more), n, id)
  {
    hide Run;
    var account :| id in Ids(QueueOf(Run(steps).device, account));
    if account != ANONYMOUS {
      more, n := SignedInIsUploaded(steps, account, id);
    } else {
      var t :| t in QueueOf(Run(steps).device, ANONYMOUS) && t.id == id;
      more := CarriedOver(steps, t, ANONYMOUS, "account");
      more, n := SignedInIsUploaded(more, "account", id);
    }
  }

  // So of the tasks that a successful delete read or removed, exactly those still in some account's
  // queue can be uploaded afterwards.
  lemma UploadedAfterDeleteIff(before: seq<Step>, c: nat, id: Id)
    requires Enabled(Run(before), DeleteSucceeds(c)) && id in Held(Run(before).callers[c].work)
    ensures (exists after: seq<Step>, d: nat :: Uploads(Run(before + [DeleteSucceeds(c)] + after), d, id))
      <==> Queued(Run(before).device, id)
  {
    hide Run, Uploads, Held;
    var deleted := before + [DeleteSucceeds(c)];
    RunNext(before, DeleteSucceeds(c));
    if Queued(Run(before).device, id) {
      var more, d := QueuedIsUploaded(deleted, id);
      assert more == deleted + more[|deleted|..];
      assert Uploads(Run(deleted + more[|deleted|..]), d, id);
    } else {
      forall after: seq<Step>, d: nat
        ensures !Uploads(Run(deleted + after), d, id)
      {
        DeletedIsNotUploaded(before, c, id, after, d);
      }
    }
  }

  // The answer to an upload is recorded in the current queue and nowhere else: a completed upload
  // leaves it, a conflict keeps the server's revision, a failure counts; then the next is taken.
  lemma AnswerIsRecorded(s: State, c: nat, outcome: Outcome, u: Task)
    requires Enabled(s, Settle(c, outcome)) && OnePerKey(Current(s.device))
    requires u in Current(s.device) && u.id == s.callers[c].work.left[0].id
    requires forall v | v in Current(s.device) && v.id == u.id :: v == u
    ensures var t := Next(s, Settle(c, outcome)); var before, after := Current(s.device), Current(t.device);
      && t.device == s.device.(queues := t.device.queues)
      && (forall a | a != s.device.account :: QueueOf(t.device, a) == QueueOf(s.device, a))
      && (forall v: Task | v.id != u.id :: v in after <==> v in before)
      && (outcome.Completed? ==> forall v | v in after :: v.id != u.id)
      && (outcome.Conflicted? ==> u.(conflict := Some(outcome.revision)) in after)
      && (outcome.Failed? ==> Changed(u, outcome.change) in after)
      && t.callers[c].work == Uploading(s.callers[c].work.now, s.callers[c].work.left[1..])
  {
    var q, id := Current(s.device), u.id;
    var r := Current(Next(s, Settle(c, outcome)).device);
    if !outcome.Completed? {
      var i := IndexOfId(q, id);
      assert i < |q| by {
        var j :| 0 <= j < |q| && q[j] == u;
      }
      assert q[i] == u && r[i] in r;
      forall v: Task | v.id != id
        ensures v in r <==> v in q
      {
        if v in q {
          var j :| 0 <= j < |q| && q[j] == v;
          assert r[j] == v;
        }
        if v in r {
          var j :| 0 <= j < |r| && r[j] == v;
          assert j != i ==> q[j] == v;
        }
      }
    }
  }

  // ---------- Failed deletes ----------

  // While a failed delete puts its tasks back, the queue it removed them from covers a task of its
  // scope, removed ones above all, exactly when one of the same save with an equal or newer local
  // revision was put into that queue since the removal, by the restore or from outside, and
  // no entry of that save was completed there after it.
  lemma FailedDeleteCoversIff(steps: seq<Step>, c: nat, t: Task)
    requires var s := Run(steps); Runs(s, c) && s.callers[c].work.Restoring? && In(s.callers[c].work.scope, t)
    ensures var d := Run(steps).device; Covered(QueueOf(d, d.since.account), t) <==> CoveredBy(d.since.kept, t)
  {
    InvRun(steps);
    var s := Run(steps);
    assert WorkInv(s.device, s.callers[c].work);
    var q := QueueOf(s.device, s.device.since.account);
    if Covered(q, t) {
      var u :| u in q && u.key == t.key && u.localRevision >= t.localRevision;
      assert Equalled(s.device.since.kept, u);
    }
  }

  // Once everything read is back, a removed task whose save was not completed from outside
  // is back or superseded exactly when something restored into its queue or enqueued there
  // since covers it. Without a change of account since the removal what was restored there is what was read.
  lemma FailedDeleteRestores(steps: seq<Step>, c: nat, t: Task)
    requires var s := Run(steps);
      Runs(s, c) && s.callers[c].work.Restoring? && s.callers[c].work.next == |s.callers[c].work.pending|
    requires var w := Run(steps).callers[c].work; t in w.removed || t in w.pending
    requires t.key !in Run(steps).device.since.finished
    ensures var s := Run(steps); var h, read := s.device.since, Elements(s.callers[c].work.pending);
      && (Covered(QueueOf(s.device, h.account), t) <==> CoveredBy(h.restored + h.added, t))
      && h.restored <= read && (!h.moved ==> h.restored == read && (t in read ==> Covered(QueueOf(s.device, h.account), t)))
  {
    InvRun(steps);
    var s := Run(steps);
    var w := s.callers[c].work;
    assert WorkInv(s.device, w);
    assert In(w.scope, t);
    FailedDeleteCoversIff(steps, c, t);
    hide Covered, Tracks, Known;
    assert w.pending[..w.next] == w.pending;
  }

  // ---------- Runs that lose tasks ----------

  // The condition on carried IDs is needed: any queued task can be carried into another account's
  // queue, and a delete of the first account then removes and forgets it there only.
  lemma CarriedTaskOutlivesDelete(steps: seq<Step>, t: Task, from: Account, to: Account) returns (more: seq<Step>, n: nat)
    requires t in QueueOf(Run(steps).device, from) && from != to
    ensures steps <= more && Enabled(Run(more), DeleteSucceeds(n)) && Run(more).device.since.account == from
    ensures t in Run(more).callers[n].work.removed && Queued(Run(more).device, t.id)
  {
    hide Run, Inside, Outside;
    more := CarriedOver(steps, t, from, to);
    OneTaskPerSave(more, from);
    OnlyOneInside(QueueOf(Run(more).device, from), t);
    more, n := ListedIn(more, t, from);
    RunNext(more, Remove(n));
    more := more + [Remove(n)];
    assert t.id in Ids(QueueOf(Run(more).device, to));
  }

  // The condition on the account is needed: any queued task is lost to its account when a delete
  // removes it, another account is signed in to, and the delete fails.
  lemma AccountChangeLosesTask(steps: seq<Step>, t: Task, from: Account, to: Account) returns (more: seq<Step>, n: nat)
    requires t in QueueOf(Run(steps).device, from) && from != to
    ensures steps <= more && Runs(Run(more), n)
    ensures var s := Run(more);
      && s.callers[n].work == Restoring(OneSave(t.key), from, [t], [t], 1) && t.key !in s.device.since.finished
      && s.device.since.account == from && !Covered(QueueOf(s.device, from), t)
  {
    hide Run, Inside, Outside, Enqueue, Covered;
    OneTaskPerSave(steps, from);
    OnlyOneInside(QueueOf(Run(steps).device, from), t);
    RemovalUncovers(QueueOf(Run(steps).device, from), t);
    more, n := ListedIn(steps, t, from);
    RunNext(more, Remove(n));
    more := more + [Remove(n)];
    RunNext(more, SwitchAccount(to));
    more := more + [SwitchAccount(to)];
    more := FailedAndRestored(more, n, t);
  }

  // The remote delete fails and the one task read is enqueued again.
  lemma FailedAndRestored(steps: seq<Step>, n: nat, t: Task) returns (more: seq<Step>)
    requires Enabled(Run(steps), DeleteFails(n)) && Run(steps).callers[n].work.pending == [t]
    ensures steps <= more && Runs(Run(more), n)
    ensures var w := Run(steps).callers[n].work;
      && Run(more).callers[n].work == Restoring(w.scope, w.from, [t], w.removed, 1)
      && Run(more).device == RestoredIn(Run(steps).device, w.from, t)
  {
    hide Run, RestoredIn;
    RunNext(steps, DeleteFails(n));
    more := steps + [DeleteFails(n)];
    RunNext(more, RestoreOne(n));
    more := more + [RestoreOne(n)];
  }

  lemma RemovalUncovers(q: seq<Task>, t: Task)
    ensures !Covered(Outside(q, OneSave(t.key)), t)
  {
  }

  // A task enqueued between the reading and the removal is removed unread, and lost.
  lemma UnreadTaskIsLost(steps: seq<Step>, t: Task, newer: Task) returns (more: seq<Step>, n: nat)
    requires t in QueueOf(Run(steps).device, Run(steps).device.account) && newer.id !in Run(steps).device.made
    requires newer.key == t.key && newer.localRevision > t.localRevision
    ensures steps <= more && Runs(Run(more), n)
    ensures var s := Run(more); var h := s.device.since;
      && s.callers[n].work == Restoring(OneSave(t.key), h.account, [t], [newer], 1) && h.account == Run(steps).device.account
      && newer.key !in h.finished && !h.moved && !Covered(QueueOf(s.device, h.account), newer)
  {
    hide Run, Inside, Outside, Enqueue, Covered;
    var account := Run(steps).device.account;
    more, n := ListedIn(steps, t, account);
    var q := QueueOf(Run(more).device, account);
    OneTaskPerSave(more, account);
    ReplacedAndRemoved(q, t, newer);
    RunNext(more, EnqueueOutside(newer));
    more := more + [EnqueueOutside(newer)];
    RunNext(more, Remove(n));
    more := more + [Remove(n)];
    more := FailedAndRestored(more, n, t);
  }

  lemma ReplacedAndRemoved(q: seq<Task>, t: Task, newer: Task)
    requires OnePerKey(q) && t in q && newer.key == t.key && newer.localRevision > t.localRevision
    ensures var r, scope := Enqueue(q, newer), OneSave(t.key);
      Inside(r, scope) == [newer] && !Covered(Enqueue(Outside(r, scope), t), newer)
  {
    var r, scope := Enqueue(q, newer), OneSave(t.key);
    var i := IndexOfKey(q, t.key);
    assert q[i] in q;
    SameKeySameTask(q, q[i], t);
    assert r[i] == newer;
    EnqueueKeepsOnePerKey(q, newer);
    OnlyOneInside(r, newer);
    EnqueueAdds(Outside(r, scope), t);
  }

  // A task already put back is lost when a conflict resolved by hand completes it.
  lemma CompletedTaskIsLost(steps: seq<Step>, t: Task) returns (more: seq<Step>, n: nat)
    requires t in QueueOf(Run(steps).device, Run(steps).device.account)
    ensures steps <= more && Runs(Run(more), n)
    ensures var s := Run(more); var h := s.device.since;
      && s.callers[n].work == Restoring(OneSave(t.key), h.account, [t], [t], 1) && h.account == Run(steps).device.account
      && t.key in h.finished && !h.moved && !Covered(QueueOf(s.device, h.account), t)
  {
    hide Run, Inside, Outside, Enqueue, Complete, Covered;
    var account := Run(steps).device.account;
    var q := QueueOf(Run(steps).device, account);
    OneTaskPerSave(steps, account);
    OnlyOneInside(q, t);
    RestoredAndCompleted(q, t);
    more, n := ListedIn(steps, t, account);
    RunNext(more, Remove(n));
    more := more + [Remove(n)];
    more := FailedAndRestored(more, n, t);
    RunNext(more, CompleteOutside(t.id));
    more := more + [CompleteOutside(t.id)];
  }

  lemma RestoredAndCompleted(q: seq<Task>, t: Task)
    ensures var r := Enqueue(Outside(q, OneSave(t.key)), t);
      t in r && !Covered(Complete(r, t.id), t)
  {
    EnqueueAfterRemoval(q, t);
    EnqueueAdds(Outside(q, OneSave(t.key)), t);
  }
}
