/**
 The queue of uploads a device has still to make. It holds one task per save at
 most, and a newer local revision replaces an older one, never the other way round.
 */
module SyncQueue {
  import opened Wrappers
  import opened SaveKeys
  import opened Bits

  datatype Task = Task(
    id: string, key: Key, localRevision: nat, cloudRevision: nat, checksum: string,
    attempts: nat, nextAttemptAt: int, lastError: Option<string>, terminal: bool, conflict: Option<nat>)

  const NEVER: int := 253402300799999 // 9999-12-31T23:59:59.999Z

  // What removeKey matches: a save, or every save of a ROM.
  datatype Scope = OneSave(key: Key) | WholeRom(rom: string)

  predicate In(scope: Scope, t: Task) {
    match scope
    case OneSave(key) => t.key == key
    case WholeRom(rom) => t.key.rom == rom
  }

  predicate OnePerKey(q: seq<Task>) {
    forall i, j | 0 <= i < j < |q| :: q[i].key != q[j].key
  }

  // findIndex: the first task that matches, or the length.
  function IndexWhere(q: seq<Task>, p: Task -> bool): (i: nat)
    ensures i <= |q| && (i < |q| ==> p(q[i]))
    ensures forall j | 0 <= j < i :: !p(q[j])
  {
    if q == [] || p(q[0]) then 0 else 1 + IndexWhere(q[1..], p)
  }

  function IndexOfKey(q: seq<Task>, key: Key): (i: nat)
    ensures i <= |q| && (i < |q| ==> q[i].key == key)
    ensures forall j | 0 <= j < i :: q[j].key != key
  {
    IndexWhere(q, (t: Task) => t.key == key)
  }

  function IndexOfId(q: seq<Task>, id: string): (i: nat)
    ensures i <= |q| && (i < |q| ==> q[i].id == id)
    ensures forall j | 0 <= j < i :: q[j].id != id
  {
    IndexWhere(q, (t: Task) => t.id == id)
  }

  function Enqueue(q: seq<Task>, t: Task): seq<Task> {
    var i := IndexOfKey(q, t.key);
    if i == |q| then q + [t] else if q[i].localRevision > t.localRevision then q else q[i := t]
  }

  function Filter(q: seq<Task>, keep: Task -> bool): (r: seq<Task>)
    ensures forall t :: t in r <==> t in q && keep(t)
  {
    if q == [] then []
    else
      var rest := Filter(q[..|q| - 1], keep);
      assert q == q[..|q| - 1] + [q[|q| - 1]];
      if keep(q[|q| - 1]) then rest + [q[|q| - 1]] else rest
  }

  function Complete(q: seq<Task>, id: string): seq<Task> {
    Filter(q, (t: Task) => t.id != id)
  }

  function Outside(q: seq<Task>, scope: Scope): seq<Task> {
    Filter(q, (t: Task) => !In(scope, t))
  }

  function Inside(q: seq<Task>, scope: Scope): seq<Task> {
    Filter(q, (t: Task) => In(scope, t))
  }

  datatype Change = MarkConflict(revision: nat) | Retry(error: Option<string>, now: int) | Fail(message: string) | RetryNow(now: int)

  // Seconds to wait after `attempts` failures.
  function Delay(attempts: nat): (d: nat)
    ensures d <= 3600
  {
    var d := Pow2(attempts) * 5;
    if d < 3600 then d else 3600
  }

  function Cut(s: string): (r: string)
    ensures |r| <= 160
  {
    if |s| > 160 then s[..160] else s
  }

  function Changed(t: Task, c: Change): Task {
    match c
    case MarkConflict(revision) => t.(conflict := Some(revision))
    case Retry(error, now) =>
      t.(conflict := None, terminal := false, lastError := if error.Some? then Some(Cut(error.value)) else None,
         attempts := t.attempts + 1, nextAttemptAt := now + 1000 * Delay(t.attempts + 1))
    case Fail(message) => t.(terminal := true, lastError := Some(Cut(message)), nextAttemptAt := NEVER)
    case RetryNow(now) => t.(terminal := false, lastError := None, attempts := 0, nextAttemptAt := now)
  }

  // When runDue takes a task.
  predicate Due(t: Task, now: int) {
    !t.terminal && t.nextAttemptAt <= now
  }

  lemma DelayGrows(attempts: nat)
    requires attempts > 0
    ensures 10 <= Delay(attempts) <= Delay(attempts + 1) <= 3600
  {
  }

  // It doubles from five seconds on, up to an hour.
  lemma DelayDoubles(attempts: nat)
    ensures Delay(0) == 5
    ensures Delay(attempts + 1) == if 2 * Delay(attempts) < 3600 then 2 * Delay(attempts) else 3600
  {
  }

  // What a change leaves alone: whose upload it is, and of what.
  predicate SameUpload(t: Task, u: Task) {
    t.id == u.id && t.key == u.key && t.localRevision == u.localRevision && t.cloudRevision == u.cloudRevision
    && t.checksum == u.checksum
  }

  // A failed attempt is counted, and its error kept to 160 characters; a conflict records the
  // server's revision and nothing else; a retry by hand starts counting again.
  lemma ChangesRecord(t: Task, revision: nat, error: string, now: int)
    ensures var retried, stuck, failed, again :=
        Changed(t, Retry(Some(error), now)), Changed(t, MarkConflict(revision)), Changed(t, Fail(error)), Changed(t, RetryNow(now));
      && SameUpload(t, retried) && SameUpload(t, stuck) && SameUpload(t, failed) && SameUpload(t, again)
      && retried.attempts == t.attempts + 1 && retried.nextAttemptAt == now + 1000 * Delay(t.attempts + 1)
      && retried.conflict == None && !retried.terminal
      && retried.lastError == Some(if |error| > 160 then error[..160] else error)
      && stuck == t.(conflict := stuck.conflict) && stuck.conflict == Some(revision)
      && failed.terminal && failed.attempts == t.attempts && failed.conflict == t.conflict && failed.lastError == retried.lastError
      && again.attempts == 0 && again.lastError == None && again.nextAttemptAt == now && !again.terminal && again.conflict == t.conflict
  {
  }

  // A failed upload waits between ten seconds and an hour, a terminal one for good, and
  // a retry asked for by hand is due at once.
  lemma ChangesScheduleUploads(t: Task, error: Option<string>, message: string, now: int, later: int)
    ensures Due(Changed(t, Retry(error, now)), later) ==> later >= now + 10_000
    ensures later >= now + 3_600_000 ==> Due(Changed(t, Retry(error, now)), later)
    ensures !Due(Changed(t, Fail(message)), later)
    ensures Due(Changed(t, RetryNow(now)), now)
  {
    DelayGrows(t.attempts + 1);
  }

  function Change1(q: seq<Task>, id: string, c: Change): seq<Task> {
    var i := IndexOfId(q, id);
    if i < |q| then q[i := Changed(q[i], c)] else q
  }

  // ---------- What every operation keeps ----------

  lemma {:induction false} FilterKeepsOnePerKey(q: seq<Task>, keep: Task -> bool)
    requires OnePerKey(q)
    ensures OnePerKey(Filter(q, keep))
  {
    if q != [] {
      var p, last := q[..|q| - 1], q[|q| - 1];
      FilterKeepsOnePerKey(p, keep);
      var r := Filter(p, keep);
      forall i | 0 <= i < |r|
        ensures r[i].key != last.key
      {
        assert r[i] in p;
      }
    }
  }

  lemma EnqueueKeepsOnePerKey(q: seq<Task>, t: Task)
    requires OnePerKey(q)
    ensures OnePerKey(Enqueue(q, t))
  {
  }

  lemma OperationsKeepOnePerKey(q: seq<Task>, t: Task, id: string, scope: Scope, c: Change)
    requires OnePerKey(q)
    ensures OnePerKey(Enqueue(q, t)) && OnePerKey(Complete(q, id)) && OnePerKey(Outside(q, scope))
    ensures OnePerKey(Change1(q, id, c))
  {
    EnqueueKeepsOnePerKey(q, t);
    FilterKeepsOnePerKey(q, (t: Task) => t.id != id);
    FilterKeepsOnePerKey(q, (t: Task) => !In(scope, t));
  }

  // The queue holds this upload, or one of the same save with an equal or newer local revision.
  predicate Covered(q: seq<Task>, t: Task) {
    exists u :: u in q && u.key == t.key && u.localRevision >= t.localRevision
  }

  // Enqueueing a task covers it and uncovers nothing.
  lemma EnqueueCovers(q: seq<Task>, t: Task)
    requires OnePerKey(q)
    ensures Covered(Enqueue(q, t), t)
    ensures forall x | Covered(q, x) :: Covered(Enqueue(q, t), x)
  {
    var i, r := IndexOfKey(q, t.key), Enqueue(q, t);
    assert r[i].key == t.key && r[i] in r;
    forall x | Covered(q, x)
      ensures Covered(r, x)
    {
      var u :| u in q && u.key == x.key && u.localRevision >= x.localRevision;
      var j :| 0 <= j < |q| && q[j] == u;
      assert r[j] in r;
    }
  }

  // The save's entry is the new upload unless a newer revision is queued; every other entry stays.
  lemma EnqueueExactly(q: seq<Task>, t: Task, u: Task)
    requires OnePerKey(q)
    ensures var newer := exists v :: v in q && v.key == t.key && v.localRevision > t.localRevision;
      u in Enqueue(q, t) <==> if u.key == t.key && !newer then u == t else u in q
  {
    var i, r := IndexOfKey(q, t.key), Enqueue(q, t);
    assert i < |q| ==> q[i] in q && r[i] in r;
    assert i == |q| ==> r[i] == t && r[i] in r;
    if u in q && u.key != t.key {
      var j :| 0 <= j < |q| && q[j] == u;
      assert r[j] == u;
    }
    if u in r {
      var j :| 0 <= j < |r| && r[j] == u;
      assert j < |q| && j != i ==> q[j] == u;
    }
  }

  // One entry changes, the first with this ID, and only as said.
  lemma ChangeExactly(q: seq<Task>, id: string, c: Change)
    ensures var r := Change1(q, id, c);
      && |r| == |q|
      && (forall i | 0 <= i < |q| && q[i].id != id :: r[i] == q[i])
      && (forall i | 0 <= i < |q| && q[i].id == id ::
            r[i] == if exists j :: 0 <= j < i && q[j].id == id then q[i] else Changed(q[i], c))
  {
  }

  lemma ChangeCovers(q: seq<Task>, id: string, c: Change)
    ensures forall x | Covered(q, x) :: Covered(Change1(q, id, c), x)
  {
    var r := Change1(q, id, c);
    forall x | Covered(q, x)
      ensures Covered(r, x)
    {
      var u :| u in q && u.key == x.key && u.localRevision >= x.localRevision;
      var j :| 0 <= j < |q| && q[j] == u;
      assert r[j] in r;
    }
  }

  // ---------- The program ----------

  // The stored array of tasks.
  class Queue {
    var tasks: seq<Task>

    constructor ()
      ensures tasks == []
    {
      tasks := [];
    }

    method FindIndex(p: Task -> bool) returns (i: nat)
      ensures i == IndexWhere(tasks, p)
    {
      i := 0;
      while i < |tasks| && !p(tasks[i])
        invariant i <= |tasks| && IndexWhere(tasks, p) == i + IndexWhere(tasks[i..], p)
      {
        i := i + 1;
      }
    }

    method EnqueueTask(task: Task)
      requires OnePerKey(tasks)
      modifies this
      ensures tasks == Enqueue(old(tasks), task)
      ensures OnePerKey(tasks) && Covered(tasks, task)
      ensures forall x | Covered(old(tasks), x) :: Covered(tasks, x)
    {
      EnqueueKeepsOnePerKey(tasks, task);
      EnqueueCovers(tasks, task);
      var index := FindIndex((t: Task) => t.key == task.key);
      if index < |tasks| {
        if tasks[index].localRevision > task.localRevision {
          return;
        }
        tasks := tasks[index := task];
      } else {
        tasks := tasks + [task];
      }
    }

    method CompleteTask(id: string)
      modifies this
      ensures tasks == Complete(old(tasks), id)
      ensures forall t :: t in tasks <==> t in old(tasks) && t.id != id
    {
      tasks := Filter(tasks, (t: Task) => t.id != id);
    }

    method ChangeTask(id: string, change: Change)
      modifies this
      ensures tasks == Change1(old(tasks), id, change)
      ensures forall x | Covered(old(tasks), x) :: Covered(tasks, x)
    {
      ChangeCovers(tasks, id, change);
      var index := FindIndex((t: Task) => t.id == id);
      if index < |tasks| {
        tasks := tasks[index := Changed(tasks[index], change)];
      }
    }

    method RemoveKey(scope: Scope)
      modifies this
      ensures tasks == Outside(old(tasks), scope)
      ensures forall t :: t in tasks <==> t in old(tasks) && !In(scope, t)
    {
      tasks := Filter(tasks, (t: Task) => !In(scope, t));
    }

    // restoreTasks: after it every task is back, or superseded.
    method RestoreTasks(pending: seq<Task>)
      requires OnePerKey(tasks)
      modifies this
      ensures tasks == EnqueueAll(old(tasks), pending)
      ensures OnePerKey(tasks) && forall t | t in pending :: Covered(tasks, t)
    {
      hide Enqueue, Covered;
      for i := 0 to |pending|
        invariant OnePerKey(tasks) && EnqueueAll(tasks, pending[i..]) == EnqueueAll(old(tasks), pending)
        invariant forall j | 0 <= j < i :: Covered(tasks, pending[j])
      {
        EnqueueTask(pending[i]);
      }
    }
  }

  // restoreTasks
  function EnqueueAll(q: seq<Task>, pending: seq<Task>): seq<Task>
    decreases |pending|
  {
    if pending == [] then q else EnqueueAll(Enqueue(q, pending[0]), pending[1..])
  }

  lemma {:induction false} EnqueueAllCovers(q: seq<Task>, pending: seq<Task>)
    requires OnePerKey(q)
    ensures forall x | Covered(q, x) || x in pending :: Covered(EnqueueAll(q, pending), x)
    decreases |pending|
  {
    if pending != [] {
      EnqueueKeepsOnePerKey(q, pending[0]);
      EnqueueCovers(q, pending[0]);
      EnqueueAllCovers(Enqueue(q, pending[0]), pending[1..]);
    }
  }

  lemma {:induction false} EnqueueAllAddsOnly(q: seq<Task>, pending: seq<Task>, u: Task)
    requires u in EnqueueAll(q, pending)
    ensures u in q || u in pending
    decreases |pending|
  {
    if pending != [] {
      EnqueueAllAddsOnly(Enqueue(q, pending[0]), pending[1..], u);
    }
  }

  // The delete reads the queue and empties it of the scope in two steps. If the remote delete
  // fails, what it removed is back or superseded exactly when everything removed had
  // been read, up to newer reads: a newer task enqueued between the two steps is lost.
  lemma FailedDeleteRestoresIff(q: seq<Task>, scope: Scope, pending: seq<Task>)
    requires OnePerKey(q) && forall p | p in pending :: In(scope, p)
    ensures (forall t | t in Inside(q, scope) :: Covered(EnqueueAll(Outside(q, scope), pending), t))
        <==> (forall t | t in Inside(q, scope) :: Covered(pending, t))
  {
    var rest := Outside(q, scope);
    FilterKeepsOnePerKey(q, (t: Task) => !In(scope, t));
    EnqueueAllCovers(rest, pending);
    forall t | t in Inside(q, scope)
      ensures Covered(EnqueueAll(rest, pending), t) <==> Covered(pending, t)
    {
      if Covered(pending, t) {
        var p :| p in pending && p.key == t.key && p.localRevision >= t.localRevision;
        assert Covered(EnqueueAll(rest, pending), p);
      }
      if u :| u in EnqueueAll(rest, pending) && u.key == t.key && u.localRevision >= t.localRevision {
        EnqueueAllAddsOnly(rest, pending, u);
        assert In(scope, u);
      }
    }
  }

  // When nothing came between, all of it is restored.
  lemma UndisturbedDeleteRestores(q: seq<Task>, scope: Scope)
    requires OnePerKey(q)
    ensures forall t | t in q :: Covered(EnqueueAll(Outside(q, scope), Inside(q, scope)), t)
  {
    var rest := Outside(q, scope);
    FilterKeepsOnePerKey(q, (t: Task) => !In(scope, t));
    EnqueueAllCovers(rest, Inside(q, scope));
    forall t | t in q
      ensures t in rest ==> Covered(rest, t)
      ensures t in rest || t in Inside(q, scope)
    {
    }
  }
}
