/** The maintenance gate of bot/maintenance.py: its fields, the atomic regions that run
    between two awaits, and the class whose methods are those regions. */
module Gate {
  import opened Common

  /** asyncio tasks and deferred callbacks are only ever compared for identity. */
  type Task = nat
  type Callback = nat

  /** The gate's fields. `writerPending` mirrors `pendingWriter != None` in every reachable state. */
  datatype Core = Core(
    readers: map<Task, nat>,
    writer: Option<Task>,
    pendingWriter: Option<Task>,
    writerPending: bool,
    writerDepth: int,
    handoffs: int,
    poisoned: Option<string>,
    deferred: seq<Callback>)
  {
    predicate Active() {
      poisoned.Some? || writerPending || writer.Some?
    }

    predicate Drained() {
      readers == map[] && handoffs == 0
    }
  }

  const FRESH_CORE := Core(map[], None, None, false, 0, 0, None, [])

  datatype SharedOutcome = SharedPoisoned | Subsumed | Counted | ReaderRefused
  datatype ExclusiveOutcome = ExclusivePoisoned | Reentered | UpgradeRefused | WriterBusy | Intent
  datatype DeferOutcome = DeferRefused | RunAtOnce | Enqueued

  // ---- The atomic regions as functions on the fields ----

  function EnterShared(c: Core, t: Task): (Core, SharedOutcome) {
    if c.poisoned.Some? then (c, SharedPoisoned)
    else if c.writer == Some(t) then (c, Subsumed)
    else if t in c.readers then (c.(readers := c.readers[t := c.readers[t] + 1]), Counted)
    else if c.writerPending || c.writer.Some? then (c, ReaderRefused)
    else (c.(readers := c.readers[t := 1]), Counted)
  }

  function ExitShared(c: Core, t: Task): Core {
    var depth := if t in c.readers then c.readers[t] else 0;
    if depth <= 1 then c.(readers := c.readers - {t})
    else c.(readers := c.readers[t := depth - 1])
  }

  function RequestExclusive(c: Core, t: Task): (Core, ExclusiveOutcome) {
    if c.poisoned.Some? then (c, ExclusivePoisoned)
    else if c.writer == Some(t) then (c.(writerDepth := c.writerDepth + 1), Reentered)
    else if t in c.readers then (c, UpgradeRefused)
    else if c.writerPending || c.writer.Some? then (c, WriterBusy)
    else (c.(writerPending := true, pendingWriter := Some(t)), Intent)
  }

  function TakeAuthority(c: Core, t: Task): Core {
    c.(writer := Some(t), writerDepth := 1, writerPending := false, pendingWriter := None)
  }

  function TryAcquire(c: Core, t: Task): (Core, bool) {
    if c.Drained() then (TakeAuthority(c, t), true) else (c, false)
  }

  predicate MayMint(c: Core, t: Task) {
    t in c.readers || c.writer == Some(t)
  }

  function Mint(c: Core, t: Task): (Core, bool) {
    if MayMint(c, t) then (c.(handoffs := c.handoffs + 1), true) else (c, false)
  }

  function ReturnHandoff(c: Core): Core {
    c.(handoffs := c.handoffs - 1)
  }

  function Defer(c: Core, cb: Callback): (Core, DeferOutcome) {
    if c.poisoned.Some? then (c, DeferRefused)
    else if !c.Active() then (c, RunAtOnce)
    else (c.(deferred := c.deferred + [cb]), Enqueued)
  }

  function PopDeferred(c: Core): (Core, Option<Callback>) {
    if c.deferred == [] then (c, None)
    else (c.(deferred := c.deferred[1..]), Some(c.deferred[0]))
  }

  function TakeAllDeferred(c: Core): (Core, seq<Callback>) {
    (c.(deferred := []), c.deferred)
  }

  function ExitReentrant(c: Core): Core {
    c.(writerDepth := c.writerDepth - 1)
  }

  function Release(c: Core, t: Task): Core {
    var c1 :=
      if c.writer == Some(t) then
        c.(writerDepth := c.writerDepth - 1,
           writer := if c.writerDepth == 1 then None else c.writer)
      else c;
    if c1.pendingWriter == Some(t) then c1.(pendingWriter := None, writerPending := false) else c1
  }

  function Poison(c: Core, reason: string): Core {
    if c.poisoned.None? then c.(poisoned := Some(reason)) else c
  }

  // ---- The class, region by region ----

  class MaintenanceGate {
    var readers: map<Task, nat>
    var writer: Option<Task>
    var pendingWriter: Option<Task>
    var writerDepth: int
    var writerPending: bool
    var handoffs: int
    var poisonedReason: Option<string>
    var deferred: seq<Callback>

    function View(): Core
      reads this
    {
      Core(readers, writer, pendingWriter, writerPending, writerDepth, handoffs, poisonedReason, deferred)
    }

    constructor ()
      ensures View() == FRESH_CORE
    {
      readers := map[];
      writer, pendingWriter := None, None;
      writerDepth, writerPending := 0, false;
      handoffs, poisonedReason, deferred := 0, None, [];
    }

    method PoisonGate(reason: string)
      modifies this
      ensures View() == Poison(old(View()), reason)
    {
      if poisonedReason == None {
        poisonedReason := Some(reason);
      }
    }

    method SharedEnter(task: Task) returns (outcome: SharedOutcome)
      modifies this
      ensures (View(), outcome) == EnterShared(old(View()), task)
    {
      if poisonedReason != None {
        return SharedPoisoned;
      }
      if writer == Some(task) {
        return Subsumed;
      } else if task in readers {
        readers := readers[task := readers[task] + 1];
      } else {
        if writerPending || writer != None {
          return ReaderRefused;
        }
        readers := readers[task := 1];
      }
      return Counted;
    }

    /** The `finally` region of `shared`; `Subsumed` scopes touch nothing. */
    method SharedExit(task: Task, outcome: SharedOutcome)
      requires outcome.Subsumed? || outcome.Counted?
      modifies this
      ensures View() == if outcome.Subsumed? then old(View()) else ExitShared(old(View()), task)
    {
      if outcome.Counted? {
        var depth := if task in readers then readers[task] else 0;
        if depth <= 1 {
          readers := readers - {task};
        } else {
          readers := readers[task := depth - 1];
        }
      }
    }

    method ExclusiveEnter(task: Task) returns (outcome: ExclusiveOutcome)
      modifies this
      ensures (View(), outcome) == RequestExclusive(old(View()), task)
    {
      if poisonedReason != None {
        return ExclusivePoisoned;
      }
      if writer == Some(task) {
        writerDepth := writerDepth + 1;
        return Reentered;
      }
      if task in readers {
        return UpgradeRefused;
      }
      if writerPending || writer != None {
        return WriterBusy;
      }
      writerPending := true;
      pendingWriter := Some(task);
      return Intent;
    }

    /** One pass of the acquisition loop: the writer is installed only on a drained gate. */
    method AcquirePass(task: Task) returns (acquired: bool)
      modifies this
      ensures (View(), acquired) == TryAcquire(old(View()), task)
    {
      acquired := readers == map[] && handoffs == 0;
      if acquired {
        writer := Some(task);
        writerDepth := 1;
        writerPending := false;
        pendingWriter := None;
      }
    }

    /** A failed acquisition takes temporary drain authority, whoever still reads. */
    method TakeDrainAuthority(task: Task)
      modifies this
      ensures View() == TakeAuthority(old(View()), task)
    {
      writer := Some(task);
      writerDepth := 1;
      writerPending := false;
      pendingWriter := None;
    }

    method ReentrantExit()
      modifies this
      ensures View() == ExitReentrant(old(View()))
    {
      writerDepth := writerDepth - 1;
    }

    method HandoffShared(task: Task) returns (lease: SharedLeaseHandoff?)
      modifies this
      ensures (View(), lease != null) == Mint(old(View()), task)
      ensures lease != null ==> fresh(lease) && lease.gate == this && !lease.consumed && !lease.cancelled
    {
      if task !in readers && writer != Some(task) {
        return null;
      }
      handoffs := handoffs + 1;
      lease := new SharedLeaseHandoff(this);
    }

    method DeferCallback(cb: Callback) returns (outcome: DeferOutcome)
      modifies this
      ensures (View(), outcome) == Defer(old(View()), cb)
    {
      if poisonedReason != None {
        return DeferRefused;
      }
      if !(poisonedReason != None || writerPending || writer != None) {
        return RunAtOnce;
      }
      deferred := deferred + [cb];
      return Enqueued;
    }

    method DrainPop() returns (next: Option<Callback>)
      modifies this
      ensures (View(), next) == PopDeferred(old(View()))
    {
      if deferred == [] {
        return None;
      }
      next := Some(deferred[0]);
      deferred := deferred[1..];
    }

    /** Empties the queue and fails the future of every callback that was in it. */
    method RejectDeferred() returns (queued: seq<Callback>, rejected: set<Callback>)
      modifies this
      ensures (View(), queued) == TakeAllDeferred(old(View()))
      ensures forall cb :: cb in rejected <==> cb in old(deferred)
    {
      queued := deferred;
      deferred := [];
      rejected := {};
      for i := 0 to |queued|
        invariant rejected == set k | 0 <= k < i :: queued[k]
      {
        rejected := rejected + {queued[i]};
      }
    }

    method ExclusiveRelease(task: Task)
      modifies this
      ensures View() == Release(old(View()), task)
    {
      if writer == Some(task) {
        writerDepth := writerDepth - 1;
        if writerDepth == 0 {
          writer := None;
        }
      }
      if pendingWriter == Some(task) {
        pendingWriter := None;
        writerPending := false;
      }
    }
  }

  class SharedLeaseHandoff {
    const gate: MaintenanceGate
    var consumed: bool
    var cancelled: bool

    constructor (gate: MaintenanceGate)
      ensures this.gate == gate && !consumed && !cancelled
    {
      this.gate := gate;
      consumed, cancelled := false, false;
    }

    /** Gives the lease back at most once, and never after the child entered it. */
    method Cancel()
      modifies this, gate
      ensures consumed == old(consumed)
      ensures cancelled == (old(cancelled) || !old(consumed))
      ensures gate.View() ==
              if old(consumed) || old(cancelled) then old(gate.View()) else ReturnHandoff(old(gate.View()))
    {
      if consumed || cancelled {
        return;
      }
      cancelled := true;
      gate.handoffs := gate.handoffs - 1;
    }

    method Enter() returns (ok: bool)
      modifies this
      ensures ok == !(old(cancelled) || old(consumed))
      ensures consumed == (old(consumed) || ok) && cancelled == old(cancelled)
    {
      if cancelled || consumed {
        return false;
      }
      consumed := true;
      return true;
    }

    method Exit()
      modifies gate
      ensures gate.View() == ReturnHandoff(old(gate.View()))
    {
      gate.handoffs := gate.handoffs - 1;
    }
  }
}
