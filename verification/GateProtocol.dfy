/** Any number of asyncio tasks sharing one maintenance gate. One event is one region between
    two awaits; each task's open `async with` scopes form a stack. */
module GateProtocol {
  import opened Common
  import opened Gate

  /** Where the task inside `exclusive` (there is at most one) has got to. */
  datatype Phase =
    | Acquiring
    | Body
    | Draining(acquired: bool)
    | Running(acquired: bool, cb: Callback)
    | Releasing(acquired: bool, mark: nat)  // `mark` callbacks had arrived when the drain saw an empty queue

  datatype Ctl = Ctl(task: Task, phase: Phase)
  {
    predicate Acquired() {
      match phase
      case Acquiring => false
      case Body => true
      case Draining(a) => a
      case Running(a, _) => a
      case Releasing(a, _) => a
    }
  }

  datatype Scope = SubsumedScope | CountedScope | LeaseScope(id: nat) | OuterScope | ReentrantScope

  /** The `async with` scopes a task has open, innermost on top. */
  datatype Stack = Bottom | Above(top: Scope, below: Stack)

  datatype Lease = Minted(minter: Task) | Open(minter: Task, holder: Task) | Cancelled | Exited
  {
    predicate Live() { Minted? || Open? }
  }

  /** What became of a callback passed to `defer`: always exactly one of these. */
  datatype Fate = RanAtOnce | Refused | Queued | InProgress | Resolved(ok: bool) | Rejected

  datatype Sys = Sys(
    core: Core,
    stacks: map<Task, Stack>,
    ctl: Option<Ctl>,
    leases: map<nat, Lease>,
    fates: map<Callback, Fate>,
    arrivals: seq<Callback>,    // every callback ever queued, in order
    departures: seq<Callback>)  // every callback ever taken off the queue, in order

  const INIT_SYS := Sys(FRESH_CORE, map[], None, map[], map[], [], [])

  datatype Event =
    | Shared(t: Task)
    | Exclusive(t: Task)
    | Leave(t: Task)
    | Acquire(t: Task)
    | Abandon(t: Task)
    | EndBody(t: Task)
    | Drain(t: Task)
    | Settle(t: Task, ok: bool)
    | LetGo(t: Task)
    | MintLease(t: Task, h: nat)
    | CancelLease(h: nat)
    | EnterLease(t: Task, h: nat)
    | DeferCb(cb: Callback)
    | PoisonIt(reason: string)

  // ---- Stacks ----

  function StackOf(stacks: map<Task, Stack>, t: Task): Stack {
    if t in stacks then stacks[t] else Bottom
  }

  predicate OnTop(s: Sys, t: Task, x: Scope) {
    var st := StackOf(s.stacks, t);
    st.Above? && st.top == x
  }

  function Push(s: Sys, t: Task, x: Scope): Sys {
    s.(stacks := s.stacks[t := Above(x, StackOf(s.stacks, t))])
  }

  function Pop(s: Sys, t: Task): Sys
    requires StackOf(s.stacks, t).Above?
  {
    s.(stacks := s.stacks[t := StackOf(s.stacks, t).below])
  }

  function Count(st: Stack, x: Scope): nat {
    match st
    case Bottom => 0
    case Above(top, below) => Count(below, x) + if top == x then 1 else 0
  }

  function LiveLeases(leases: map<nat, Lease>): set<nat> {
    set h | h in leases && leases[h].Live()
  }

  // ---- Steps ----

  predicate InPhase(s: Sys, t: Task) {
    s.ctl.Some? && s.ctl.value.task == t && OnTop(s, t, OuterScope)
  }

  predicate Enabled(s: Sys, e: Event) {
    match e
    case Shared(_) => true
    case Exclusive(_) => true
    case Leave(t) => StackOf(s.stacks, t).Above? && !OnTop(s, t, OuterScope)
    case Acquire(t) => InPhase(s, t) && s.ctl.value.phase.Acquiring?
    case Abandon(t) => InPhase(s, t) && s.ctl.value.phase.Acquiring?
    case EndBody(t) => InPhase(s, t) && s.ctl.value.phase.Body?
    case Drain(t) => InPhase(s, t) && s.ctl.value.phase.Draining?
    case Settle(t, _) => InPhase(s, t) && s.ctl.value.phase.Running?
    case LetGo(t) => InPhase(s, t) && s.ctl.value.phase.Releasing?
    case MintLease(_, h) => h !in s.leases
    case CancelLease(h) => h in s.leases
    case EnterLease(_, h) => h in s.leases
    case DeferCb(cb) => cb !in s.fates
    case PoisonIt(_) => true
  }

  function StepShared(s: Sys, t: Task): Sys {
    var (c, outcome) := EnterShared(s.core, t);
    match outcome
    case Counted => Push(s.(core := c), t, CountedScope)
    case Subsumed => Push(s.(core := c), t, SubsumedScope)
    case _ => s.(core := c)
  }

  function StepExclusive(s: Sys, t: Task): Sys {
    var (c, outcome) := RequestExclusive(s.core, t);
    match outcome
    case Reentered => Push(s.(core := c), t, ReentrantScope)
    case Intent => Push(s.(core := c, ctl := Some(Ctl(t, Acquiring))), t, OuterScope)
    case _ => s.(core := c)
  }

  function StepLeave(s: Sys, t: Task): Sys
    requires Enabled(s, Leave(t))
  {
    match StackOf(s.stacks, t).top
    case CountedScope => Pop(s.(core := ExitShared(s.core, t)), t)
    case ReentrantScope => Pop(s.(core := ExitReentrant(s.core)), t)
    case LeaseScope(h) => Pop(s.(core := ReturnHandoff(s.core), leases := s.leases[h := Exited]), t)
    case _ => Pop(s, t)
  }

  function StepRelease(s: Sys, t: Task): Sys
    requires InPhase(s, t)
  {
    Pop(s.(core := Release(s.core, t), ctl := None), t)
  }

  /** After the drain come the finaliser, if an acquired writer has one, and the wait for the condition's
      lock; others may run meanwhile. */
  function AfterDrain(s: Sys, t: Task): Sys
    requires InPhase(s, t)
  {
    s.(ctl := Some(s.ctl.value.(phase := Releasing(s.ctl.value.Acquired(), |s.arrivals|))))
  }

  function RejectAll(fates: map<Callback, Fate>, queued: seq<Callback>): map<Callback, Fate> {
    map cb | cb in fates :: if cb in queued then Rejected else fates[cb]
  }

  /** The head of the `finally` block: drain a sound data tree, reject on a poisoned one. */
  function StepSettleQueue(s: Sys, t: Task, acquired: bool): Sys
    requires InPhase(s, t)
  {
    var s1 := s.(ctl := Some(s.ctl.value.(phase := Draining(acquired))));
    if s.core.poisoned.None? then s1
    else
      var (c, queued) := TakeAllDeferred(s.core);
      AfterDrain(s1.(core := c, fates := RejectAll(s.fates, queued), departures := s.departures + queued), t)
  }

  function StepAcquire(s: Sys, t: Task): Sys
    requires InPhase(s, t)
  {
    var (c, acquired) := TryAcquire(s.core, t);
    if acquired then s.(core := c, ctl := Some(s.ctl.value.(phase := Body))) else s.(core := c)
  }

  function StepAbandon(s: Sys, t: Task): Sys
    requires InPhase(s, t)
  {
    StepSettleQueue(s.(core := TakeAuthority(s.core, t)), t, false)
  }

  function StepDrain(s: Sys, t: Task): Sys
    requires Enabled(s, Drain(t))
  {
    var (c, next) := PopDeferred(s.core);
    match next
    case None => AfterDrain(s.(core := c), t)
    case Some(cb) =>
      s.(core := c,
         ctl := Some(s.ctl.value.(phase := Running(s.ctl.value.phase.acquired, cb))),
         fates := s.fates[cb := InProgress],
         departures := s.departures + [cb])
  }

  function StepSettle(s: Sys, t: Task, ok: bool): Sys
    requires Enabled(s, Settle(t, ok))
  {
    var phase := s.ctl.value.phase;
    s.(ctl := Some(s.ctl.value.(phase := Draining(phase.acquired))),
       fates := s.fates[phase.cb := Resolved(ok)])
  }

  function StepMint(s: Sys, t: Task, h: nat): Sys {
    var (c, ok) := Mint(s.core, t);
    if ok then s.(core := c, leases := s.leases[h := Minted(t)]) else s
  }

  function StepCancelLease(s: Sys, h: nat): Sys
    requires h in s.leases
  {
    if s.leases[h].Minted? then s.(core := ReturnHandoff(s.core), leases := s.leases[h := Cancelled]) else s
  }

  function StepEnterLease(s: Sys, t: Task, h: nat): Sys
    requires h in s.leases
  {
    if s.leases[h].Minted? then
      Push(s.(leases := s.leases[h := Open(s.leases[h].minter, t)]), t, LeaseScope(h))
    else s
  }

  function StepDefer(s: Sys, cb: Callback): Sys {
    var (c, outcome) := Defer(s.core, cb);
    match outcome
    case DeferRefused => s.(fates := s.fates[cb := Refused])
    case RunAtOnce => s.(fates := s.fates[cb := RanAtOnce])
    case Enqueued => s.(core := c, fates := s.fates[cb := Queued], arrivals := s.arrivals + [cb])
  }

  function Apply(s: Sys, e: Event): Sys
    requires Enabled(s, e)
  {
    match e
    case Shared(t) => StepShared(s, t)
    case Exclusive(t) => StepExclusive(s, t)
    case Leave(t) => StepLeave(s, t)
    case Acquire(t) => StepAcquire(s, t)
    case Abandon(t) => StepAbandon(s, t)
    case EndBody(t) => StepSettleQueue(s, t, true)
    case Drain(t) => StepDrain(s, t)
    case Settle(t, ok) => StepSettle(s, t, ok)
    case LetGo(t) => StepRelease(s, t)
    case MintLease(t, h) => StepMint(s, t, h)
    case CancelLease(h) => StepCancelLease(s, h)
    case EnterLease(t, h) => StepEnterLease(s, t, h)
    case DeferCb(cb) => StepDefer(s, cb)
    case PoisonIt(reason) => s.(core := Poison(s.core, reason))
  }

  // ---- The invariant ----

  /** A task's reader count is the number of its open counted shared scopes. */
  ghost predicate ReadersInv(readers: map<Task, nat>, stacks: map<Task, Stack>) {
    forall t: Task ::
      Count(StackOf(stacks, t), CountedScope) == if t in readers then readers[t] else 0
  }

  ghost predicate ReadersPositive(readers: map<Task, nat>) {
    forall t: Task :: t in readers ==> readers[t] > 0
  }

  /** A lease is open in exactly one scope of exactly its holder; the counter counts the live ones. */
  ghost predicate LeaseInv(handoffs: int, leases: map<nat, Lease>, stacks: map<Task, Stack>) {
    && handoffs == |LiveLeases(leases)|
    && forall t: Task, h: nat ::
         Count(StackOf(stacks, t), LeaseScope(h)) ==
         if h in leases && leases[h].Open? && leases[h].holder == t then 1 else 0
  }

  /** Subsumed and re-entrant scopes lie above the exclusive scope that subsumes them. */
  predicate Nested(st: Stack) {
    match st
    case Bottom => true
    case Above(top, below) =>
      && Nested(below)
      && (top.SubsumedScope? || top.ReentrantScope? ==> Count(below, OuterScope) > 0)
  }

  ghost predicate OuterInv(stacks: map<Task, Stack>, ctl: Option<Ctl>) {
    && (forall t: Task :: Nested(StackOf(stacks, t)))
    && (forall t: Task ::
          Count(StackOf(stacks, t), OuterScope) == if ctl.Some? && ctl.value.task == t then 1 else 0)
  }

  ghost predicate WriterInv(c: Core, stacks: map<Task, Stack>, ctl: Option<Ctl>, leases: map<nat, Lease>) {
    match ctl
    case None => c.writer.None? && c.pendingWriter.None? && !c.writerPending
    case Some(k) =>
      var st := StackOf(stacks, k.task);
      && k.task !in c.readers
      && (if k.phase.Acquiring? then
            && c.writer.None? && c.pendingWriter == Some(k.task) && c.writerPending
            && Count(st, SubsumedScope) == 0 && Count(st, ReentrantScope) == 0
          else
            && c.writer == Some(k.task) && c.pendingWriter.None? && !c.writerPending
            && c.writerDepth == 1 + Count(st, ReentrantScope))
      && (k.Acquired() ==> c.readers == map[] && LiveMintedBy(leases, k.task))
  }

  ghost predicate LiveMintedBy(leases: map<nat, Lease>, t: Task) {
    forall h :: h in leases && leases[h].Live() ==> leases[h].minter == t
  }

  ghost predicate NoDup(s: seq<Callback>) {
    forall i, j :: 0 <= i < j < |s| ==> s[i] != s[j]
  }

  ghost predicate LedgerInv(deferred: seq<Callback>, poisoned: bool, ctl: Option<Ctl>,
                            fates: map<Callback, Fate>, arrivals: seq<Callback>, departures: seq<Callback>) {
    && arrivals == departures + deferred
    && NoDup(arrivals)
    && (forall cb :: cb in arrivals ==> cb in fates)
    && (forall cb :: cb in fates ==> FateInv(cb, fates[cb], poisoned, ctl, deferred, departures))
    && (ctl.Some? && ctl.value.phase.Running? ==>
          ctl.value.phase.cb in fates && fates[ctl.value.phase.cb].InProgress?)
    && (ctl.Some? && ctl.value.phase.Releasing? ==>
          ctl.value.phase.mark <= |arrivals| && deferred == arrivals[ctl.value.phase.mark..])
  }

  ghost predicate FateInv(cb: Callback, f: Fate, poisoned: bool, ctl: Option<Ctl>,
                          deferred: seq<Callback>, departures: seq<Callback>) {
    && (f.Queued? <==> cb in deferred)
    && (f.InProgress? || f.Resolved? || f.Rejected? <==> cb in departures)
    && (f.InProgress? ==> ctl.Some? && ctl.value.phase.Running? && ctl.value.phase.cb == cb)
    && (f.Rejected? || f.Refused? ==> poisoned)
  }

  ghost predicate Inv(s: Sys) {
    && ReadersInv(s.core.readers, s.stacks)
    && ReadersPositive(s.core.readers)
    && LeaseInv(s.core.handoffs, s.leases, s.stacks)
    && OuterInv(s.stacks, s.ctl)
    && WriterInv(s.core, s.stacks, s.ctl, s.leases)
    && LedgerInv(s.core.deferred, s.core.poisoned.Some?, s.ctl, s.fates, s.arrivals, s.departures)
  }

  // ---- Every step keeps the invariant ----

  lemma {:induction false} NoInnerWithoutOuter(st: Stack)
    requires Nested(st) && Count(st, OuterScope) == 0
    ensures Count(st, SubsumedScope) == 0 && Count(st, ReentrantScope) == 0
  {
    if st.Above? {
      NoInnerWithoutOuter(st.below);
    }
  }

  function Pushed(stacks: map<Task, Stack>, t: Task, x: Scope): map<Task, Stack> {
    stacks[t := Above(x, StackOf(stacks, t))]
  }

  lemma PushedStacks(stacks: map<Task, Stack>, t: Task, x: Scope)
    ensures forall u: Task {:trigger StackOf(Pushed(stacks, t, x), u)} ::
              StackOf(Pushed(stacks, t, x), u) ==
              if u == t then Above(x, StackOf(stacks, t)) else StackOf(stacks, u)
  {
  }

  lemma ReadersAfterPush(r: map<Task, nat>, stacks: map<Task, Stack>, t: Task, x: Scope)
    requires ReadersInv(r, stacks)
    ensures ReadersInv(if x.CountedScope? then r[t := (if t in r then r[t] else 0) + 1] else r,
                       Pushed(stacks, t, x))
  {
    PushedStacks(stacks, t, x);
  }

  lemma LeasesAfterPush(n: int, leases: map<nat, Lease>, stacks: map<Task, Stack>, t: Task, x: Scope)
    requires LeaseInv(n, leases, stacks) && !x.LeaseScope?
    ensures LeaseInv(n, leases, Pushed(stacks, t, x))
  {
    PushedStacks(stacks, t, x);
  }

  lemma OuterAfterPush(stacks: map<Task, Stack>, ctl: Option<Ctl>, t: Task, x: Scope)
    requires OuterInv(stacks, ctl) && !x.OuterScope?
    requires x.SubsumedScope? || x.ReentrantScope? ==> ctl.Some? && ctl.value.task == t
    ensures OuterInv(Pushed(stacks, t, x), ctl)
  {
    PushedStacks(stacks, t, x);
  }

  lemma WriterAfterShared(s: Sys, t: Task)
    requires WriterInv(s.core, s.stacks, s.ctl, s.leases) && OuterInv(s.stacks, s.ctl)
    ensures WriterInv(StepShared(s, t).core, StepShared(s, t).stacks, s.ctl, s.leases)
    ensures EnterShared(s.core, t).1.Subsumed? ==> s.ctl.Some? && s.ctl.value.task == t
  {
  }

  lemma SharedKeepsInv(s: Sys, t: Task)
    requires Inv(s)
    ensures Inv(StepShared(s, t))
  {
    WriterAfterShared(s, t);
    var outcome := EnterShared(s.core, t).1;
    if outcome.Counted? || outcome.Subsumed? {
      var x := if outcome.Counted? then CountedScope else SubsumedScope;
      ReadersAfterPush(s.core.readers, s.stacks, t, x);
      LeasesAfterPush(s.core.handoffs, s.leases, s.stacks, t, x);
      OuterAfterPush(s.stacks, s.ctl, t, x);
    }
  }

  lemma OuterAfterIntent(stacks: map<Task, Stack>, k: Ctl)
    requires OuterInv(stacks, None)
    ensures OuterInv(Pushed(stacks, k.task, OuterScope), Some(k))
  {
    PushedStacks(stacks, k.task, OuterScope);
  }

  lemma ExclusiveKeepsInv(s: Sys, t: Task)
    requires Inv(s)
    ensures Inv(StepExclusive(s, t))
  {
    var outcome := RequestExclusive(s.core, t).1;
    if outcome.Reentered? || outcome.Intent? {
      var x := if outcome.Reentered? then ReentrantScope else OuterScope;
      ReadersAfterPush(s.core.readers, s.stacks, t, x);
      LeasesAfterPush(s.core.handoffs, s.leases, s.stacks, t, x);
      if outcome.Reentered? {
        OuterAfterPush(s.stacks, s.ctl, t, x);
      } else {
        OuterAfterIntent(s.stacks, Ctl(t, Acquiring));
        NoInnerWithoutOuter(StackOf(s.stacks, t));
      }
    }
  }

  lemma LiveAfterUpdate(leases: map<nat, Lease>, h: nat, l: Lease)
    ensures LiveLeases(leases[h := l]) ==
            if l.Live() then LiveLeases(leases) + {h} else LiveLeases(leases) - {h}
  {
  }

  function Popped(stacks: map<Task, Stack>, t: Task): map<Task, Stack>
    requires StackOf(stacks, t).Above?
  {
    stacks[t := StackOf(stacks, t).below]
  }

  lemma PoppedStacks(stacks: map<Task, Stack>, t: Task)
    requires StackOf(stacks, t).Above?
    ensures forall u: Task {:trigger StackOf(Popped(stacks, t), u)} ::
              StackOf(Popped(stacks, t), u) ==
              if u == t then StackOf(stacks, t).below else StackOf(stacks, u)
  {
  }

  lemma ReadersAfterPop(c: Core, stacks: map<Task, Stack>, t: Task)
    requires ReadersInv(c.readers, stacks) && ReadersPositive(c.readers) && StackOf(stacks, t).Above?
    ensures
      var r := if StackOf(stacks, t).top.CountedScope? then ExitShared(c, t).readers else c.readers;
      ReadersInv(r, Popped(stacks, t)) && ReadersPositive(r)
  {
    PoppedStacks(stacks, t);
    if StackOf(stacks, t).top.CountedScope? {
      assert Count(StackOf(stacks, t), CountedScope) > 0;
    }
  }

  lemma OuterAfterPop(stacks: map<Task, Stack>, ctl: Option<Ctl>, t: Task)
    requires OuterInv(stacks, ctl) && StackOf(stacks, t).Above? && !StackOf(stacks, t).top.OuterScope?
    ensures OuterInv(Popped(stacks, t), ctl)
    ensures StackOf(stacks, t).top.ReentrantScope? ==> ctl.Some? && ctl.value.task == t
  {
    PoppedStacks(stacks, t);
    assert Nested(StackOf(stacks, t));
  }

  lemma LeasesAfterPop(n: int, leases: map<nat, Lease>, stacks: map<Task, Stack>, t: Task)
    requires LeaseInv(n, leases, stacks) && StackOf(stacks, t).Above? && !StackOf(stacks, t).top.LeaseScope?
    ensures LeaseInv(n, leases, Popped(stacks, t))
  {
    PoppedStacks(stacks, t);
  }

  lemma OneLessLive(leases: map<nat, Lease>, h: nat)
    requires h in leases && leases[h].Live()
    ensures |LiveLeases(leases[h := Exited])| == |LiveLeases(leases)| - 1
  {
    LiveAfterUpdate(leases, h, Exited);
    SizeAfterRemove(LiveLeases(leases), h);
  }

  /** An open lease scope on top of a stack is that of a lease its task holds. */
  lemma TopLeaseIsHeld(n: int, leases: map<nat, Lease>, stacks: map<Task, Stack>, t: Task, h: nat)
    requires LeaseInv(n, leases, stacks) && StackOf(stacks, t).Above? && StackOf(stacks, t).top == LeaseScope(h)
    ensures h in leases && leases[h].Open? && leases[h].holder == t
    ensures Count(StackOf(stacks, t).below, LeaseScope(h)) == 0
  {
    assert Count(StackOf(stacks, t), LeaseScope(h)) > 0;
  }

  lemma LeasesAfterExit(n: int, leases: map<nat, Lease>, stacks: map<Task, Stack>, t: Task, h: nat)
    requires LeaseInv(n, leases, stacks) && StackOf(stacks, t).Above? && StackOf(stacks, t).top == LeaseScope(h)
    ensures LeaseInv(n - 1, leases[h := Exited], Popped(stacks, t))
  {
    TopLeaseIsHeld(n, leases, stacks, t, h);
    OneLessLive(leases, h);
    PoppedStacks(stacks, t);
  }

  lemma WriterAfterLeave(s: Sys, t: Task)
    requires Enabled(s, Leave(t))
    requires ReadersInv(s.core.readers, s.stacks) && OuterInv(s.stacks, s.ctl)
    requires WriterInv(s.core, s.stacks, s.ctl, s.leases)
    ensures WriterInv(StepLeave(s, t).core, StepLeave(s, t).stacks, s.ctl, StepLeave(s, t).leases)
  {
    if s.ctl.Some? {
      assert Nested(StackOf(s.stacks, t));
      assert Count(StackOf(s.stacks, s.ctl.value.task), OuterScope) == 1;
      if t == s.ctl.value.task {
        assert Count(StackOf(s.stacks, t), CountedScope) == 0;
      }
    }
  }

  lemma ReadersAfterLeave(s: Sys, t: Task)
    requires Enabled(s, Leave(t)) && ReadersInv(s.core.readers, s.stacks) && ReadersPositive(s.core.readers)
    ensures var s1 := StepLeave(s, t);
            ReadersInv(s1.core.readers, s1.stacks) && ReadersPositive(s1.core.readers)
  {
    ReadersAfterPop(s.core, s.stacks, t);
  }

  lemma LeasesAfterLeave(s: Sys, t: Task)
    requires Enabled(s, Leave(t)) && LeaseInv(s.core.handoffs, s.leases, s.stacks)
    ensures var s1 := StepLeave(s, t); LeaseInv(s1.core.handoffs, s1.leases, s1.stacks)
  {
    match StackOf(s.stacks, t).top
    case LeaseScope(h) => LeasesAfterExit(s.core.handoffs, s.leases, s.stacks, t, h);
    case _ => LeasesAfterPop(s.core.handoffs, s.leases, s.stacks, t);
  }

  /** What leaving a scope does not touch. */
  lemma LeaveFrame(s: Sys, t: Task)
    requires Enabled(s, Leave(t))
    ensures var s1 := StepLeave(s, t);
            && s1.stacks == Popped(s.stacks, t) && s1.ctl == s.ctl
            && s1.core.deferred == s.core.deferred && s1.core.poisoned == s.core.poisoned
            && s1.fates == s.fates && s1.arrivals == s.arrivals && s1.departures == s.departures
  {
  }

  lemma LeaveKeepsInv(s: Sys, t: Task)
    requires Inv(s) && Enabled(s, Leave(t))
    ensures Inv(StepLeave(s, t))
  {
    ReadersAfterLeave(s, t);
    LeasesAfterLeave(s, t);
    OuterAfterPop(s.stacks, s.ctl, t);
    WriterAfterLeave(s, t);
    LeaveFrame(s, t);
  }

  lemma OuterAfterRelease(stacks: map<Task, Stack>, k: Ctl)
    requires OuterInv(stacks, Some(k)) && StackOf(stacks, k.task).Above?
    requires StackOf(stacks, k.task).top.OuterScope?
    ensures OuterInv(Popped(stacks, k.task), None)
    ensures Count(StackOf(stacks, k.task), ReentrantScope) == 0
  {
    PoppedStacks(stacks, k.task);
    assert Nested(StackOf(stacks, k.task));
    NoInnerWithoutOuter(StackOf(stacks, k.task).below);
  }

  /** The core after a release: the depth was one, so the writer goes. */
  lemma ReleaseCore(s: Sys, t: Task)
    requires InPhase(s, t) && WriterInv(s.core, s.stacks, s.ctl, s.leases)
    requires !s.ctl.value.phase.Acquiring? && Count(StackOf(s.stacks, t), ReentrantScope) == 0
    ensures StepRelease(s, t).core == s.core.(writer := None, writerDepth := 0)
  {
  }

  lemma ReleaseKeepsInv(s: Sys, t: Task)
    requires Inv(s) && InPhase(s, t) && !s.ctl.value.phase.Acquiring? && !s.ctl.value.phase.Running?
    ensures Inv(StepRelease(s, t))
    ensures StepRelease(s, t).core.writer.None? && StepRelease(s, t).core.writerDepth == 0
  {
    OuterAfterRelease(s.stacks, s.ctl.value);
    ReleaseCore(s, t);
    ReadersAfterPop(s.core, s.stacks, t);
    LeasesAfterPop(s.core.handoffs, s.leases, s.stacks, t);
  }

  lemma AfterDrainKeepsInv(s: Sys, t: Task)
    requires Inv(s) && InPhase(s, t) && s.ctl.value.phase.Draining? && s.core.deferred == []
    ensures Inv(AfterDrain(s, t))
  {
  }

  lemma AcquireKeepsInv(s: Sys, t: Task)
    requires Inv(s) && Enabled(s, Acquire(t))
    ensures Inv(StepAcquire(s, t))
  {
    if s.core.Drained() {
      assert LiveLeases(s.leases) == {};
      assert forall h :: h in s.leases && s.leases[h].Live() ==> h in LiveLeases(s.leases);
    }
  }

  lemma SettleQueueKeepsInv(s: Sys, t: Task, acquired: bool)
    requires InPhase(s, t) && Inv(s.(ctl := Some(s.ctl.value.(phase := Draining(acquired)))))
    ensures Inv(StepSettleQueue(s, t, acquired))
  {
    var s1 := s.(ctl := Some(s.ctl.value.(phase := Draining(acquired))));
    if s.core.poisoned.Some? {
      var (c, queued) := TakeAllDeferred(s.core);
      var s2 := s1.(core := c, fates := RejectAll(s.fates, queued), departures := s.departures + queued);
      AfterDrainKeepsInv(s2, t);
    }
  }

  lemma LedgerAfterPop(deferred: seq<Callback>, poisoned: bool, k: Ctl, fates: map<Callback, Fate>,
                       arrivals: seq<Callback>, departures: seq<Callback>)
    requires LedgerInv(deferred, poisoned, Some(k), fates, arrivals, departures)
    requires k.phase.Draining? && deferred != []
    ensures LedgerInv(deferred[1..], poisoned, Some(k.(phase := Running(k.phase.acquired, deferred[0]))),
                      fates[deferred[0] := InProgress], arrivals, departures + [deferred[0]])
  {
    var cb := deferred[0];
    var d := |departures|;
    assert arrivals[d] == cb;
    forall i | 0 <= i < d
      ensures departures[i] != cb
    {
      assert arrivals[i] == departures[i];
    }
    assert deferred == [cb] + deferred[1..];
    forall i | 0 <= i < |deferred[1..]|
      ensures deferred[1..][i] != cb
    {
      assert arrivals[d + 1 + i] == deferred[1..][i];
    }
  }

  lemma DrainKeepsInv(s: Sys, t: Task)
    requires Inv(s) && Enabled(s, Drain(t))
    ensures Inv(StepDrain(s, t))
  {
    if s.core.deferred == [] {
      AfterDrainKeepsInv(s, t);
    } else {
      LedgerAfterPop(s.core.deferred, s.core.poisoned.Some?, s.ctl.value, s.fates, s.arrivals, s.departures);
    }
  }

  lemma OneMoreLive(leases: map<nat, Lease>, h: nat, t: Task)
    requires h !in leases
    ensures |LiveLeases(leases[h := Minted(t)])| == |LiveLeases(leases)| + 1
  {
    LiveAfterUpdate(leases, h, Minted(t));
    SizeAfterAdd(LiveLeases(leases), h);
  }

  lemma LeasesAfterMint(n: int, leases: map<nat, Lease>, stacks: map<Task, Stack>, t: Task, h: nat)
    requires LeaseInv(n, leases, stacks) && h !in leases
    ensures LeaseInv(n + 1, leases[h := Minted(t)], stacks)
  {
    OneMoreLive(leases, h, t);
  }

  /** Beside an acquired writer only the writer itself may mint. */
  lemma WriterAfterMint(s: Sys, t: Task, h: nat)
    requires WriterInv(s.core, s.stacks, s.ctl, s.leases) && h !in s.leases && MayMint(s.core, t)
    ensures WriterInv(Mint(s.core, t).0, s.stacks, s.ctl, s.leases[h := Minted(t)])
  {
  }

  lemma MintKeepsInv(s: Sys, t: Task, h: nat)
    requires Inv(s) && h !in s.leases
    ensures Inv(StepMint(s, t, h))
  {
    if MayMint(s.core, t) {
      LeasesAfterMint(s.core.handoffs, s.leases, s.stacks, t, h);
      WriterAfterMint(s, t, h);
    }
  }

  lemma LeasesAfterCancel(n: int, leases: map<nat, Lease>, stacks: map<Task, Stack>, h: nat)
    requires LeaseInv(n, leases, stacks) && h in leases && leases[h].Minted?
    ensures LeaseInv(n - 1, leases[h := Cancelled], stacks)
  {
    LiveAfterUpdate(leases, h, Cancelled);
    SizeAfterRemove(LiveLeases(leases), h);
  }

  lemma CancelLeaseKeepsInv(s: Sys, h: nat)
    requires Inv(s) && h in s.leases
    ensures Inv(StepCancelLease(s, h))
  {
    if s.leases[h].Minted? {
      LeasesAfterCancel(s.core.handoffs, s.leases, s.stacks, h);
    }
  }

  lemma LeasesAfterEnter(n: int, leases: map<nat, Lease>, stacks: map<Task, Stack>, t: Task, h: nat)
    requires LeaseInv(n, leases, stacks) && h in leases && leases[h].Minted?
    ensures LeaseInv(n, leases[h := Open(leases[h].minter, t)], Pushed(stacks, t, LeaseScope(h)))
  {
    PushedStacks(stacks, t, LeaseScope(h));
    LiveAfterUpdate(leases, h, Open(leases[h].minter, t));
    assert LiveLeases(leases) + {h} == LiveLeases(leases);
  }

  lemma EnterLeaseKeepsInv(s: Sys, t: Task, h: nat)
    requires Inv(s) && h in s.leases
    ensures Inv(StepEnterLease(s, t, h))
  {
    if s.leases[h].Minted? {
      LeasesAfterEnter(s.core.handoffs, s.leases, s.stacks, t, h);
      ReadersAfterPush(s.core.readers, s.stacks, t, LeaseScope(h));
      OuterAfterPush(s.stacks, s.ctl, t, LeaseScope(h));
    }
  }

  lemma SettleKeepsInv(s: Sys, t: Task, ok: bool)
    requires Inv(s) && Enabled(s, Settle(t, ok))
    ensures Inv(StepSettle(s, t, ok))
  {
  }

  lemma LedgerAfterEnqueue(deferred: seq<Callback>, poisoned: bool, ctl: Option<Ctl>, fates: map<Callback, Fate>,
                           arrivals: seq<Callback>, departures: seq<Callback>, cb: Callback)
    requires LedgerInv(deferred, poisoned, ctl, fates, arrivals, departures) && cb !in fates
    ensures LedgerInv(deferred + [cb], poisoned, ctl, fates[cb := Queued], arrivals + [cb], departures)
  {
    assert cb !in arrivals;
    assert arrivals + [cb] == departures + (deferred + [cb]);
    forall other | other in departures
      ensures other in arrivals
    {
    }
  }

  lemma DeferKeepsInv(s: Sys, cb: Callback)
    requires Inv(s) && cb !in s.fates
    ensures Inv(StepDefer(s, cb))
  {
    if Defer(s.core, cb).1.Enqueued? {
      LedgerAfterEnqueue(s.core.deferred, s.core.poisoned.Some?, s.ctl, s.fates, s.arrivals, s.departures, cb);
    } else {
      LedgerAfterBypass(s.core.deferred, s.core.poisoned.Some?, s.ctl, s.fates, s.arrivals, s.departures, cb,
                        if s.core.poisoned.Some? then Refused else RanAtOnce);
    }
  }

  lemma LedgerAfterBypass(deferred: seq<Callback>, poisoned: bool, ctl: Option<Ctl>, fates: map<Callback, Fate>,
                          arrivals: seq<Callback>, departures: seq<Callback>, cb: Callback, f: Fate)
    requires LedgerInv(deferred, poisoned, ctl, fates, arrivals, departures) && cb !in fates
    requires f.RanAtOnce? || (f.Refused? && poisoned)
    ensures LedgerInv(deferred, poisoned, ctl, fates[cb := f], arrivals, departures)
  {
    assert cb !in departures + deferred;
  }

  lemma {:induction false} StepKeepsInv(s: Sys, e: Event)
    requires Inv(s) && Enabled(s, e)
    ensures Inv(Apply(s, e))
  {
    match e
    case Shared(t) => SharedKeepsInv(s, t);
    case Exclusive(t) => ExclusiveKeepsInv(s, t);
    case Leave(t) => LeaveKeepsInv(s, t);
    case Acquire(t) => AcquireKeepsInv(s, t);
    case Abandon(t) => SettleQueueKeepsInv(s.(core := TakeAuthority(s.core, t)), t, false);
    case EndBody(t) => SettleQueueKeepsInv(s, t, true);
    case Drain(t) => DrainKeepsInv(s, t);
    case Settle(t, ok) => SettleKeepsInv(s, t, ok);
    case LetGo(t) => ReleaseKeepsInv(s, t);
    case MintLease(t, h) => MintKeepsInv(s, t, h);
    case CancelLease(h) => CancelLeaseKeepsInv(s, h);
    case EnterLease(t, h) => EnterLeaseKeepsInv(s, t, h);
    case DeferCb(cb) => DeferKeepsInv(s, cb);
    case PoisonIt(reason) =>
  }

  // ---- Whole runs ----

  ghost predicate IsRun(ss: seq<Sys>, es: seq<Event>) {
    && |ss| == |es| + 1
    && ss[0] == INIT_SYS
    && forall i :: 0 <= i < |es| ==> Enabled(ss[i], es[i]) && ss[i + 1] == Apply(ss[i], es[i])
  }

  lemma {:induction false} RunInv(ss: seq<Sys>, es: seq<Event>, i: nat)
    requires IsRun(ss, es) && i < |ss|
    ensures Inv(ss[i])
  {
    if i == 0 {
      assert LiveLeases(INIT_SYS.leases) == {};
    } else {
      RunInv(ss, es, i - 1);
      StepKeepsInv(ss[i - 1], es[i - 1]);
    }
  }

  ghost predicate Exclusive?(s: Sys, w: Task) {
    s.ctl.Some? && s.ctl.value.task == w && s.ctl.value.Acquired()
  }

  /** While an acquired writer runs its body, drain or finaliser, no task holds a counted shared
      lease, no other task holds a subsumed or re-entrant scope, and every outstanding handoff is
      the writer's own. In every state at most one task is pending or writer. */
  lemma MutualExclusion(ss: seq<Sys>, es: seq<Event>, i: nat, w: Task)
    requires IsRun(ss, es) && i < |ss|
    ensures Exclusive?(ss[i], w) ==>
              && ss[i].core.writer == Some(w)
              && (forall t: Task :: Count(StackOf(ss[i].stacks, t), CountedScope) == 0)
              && (forall t: Task :: t != w ==>
                    && Count(StackOf(ss[i].stacks, t), SubsumedScope) == 0
                    && Count(StackOf(ss[i].stacks, t), ReentrantScope) == 0)
              && LiveMintedBy(ss[i].leases, w)
    ensures ss[i].core.writer.None? || ss[i].core.pendingWriter.None?
    ensures forall t: Task, u: Task ::
              Count(StackOf(ss[i].stacks, t), OuterScope) > 0 && Count(StackOf(ss[i].stacks, u), OuterScope) > 0
              ==> t == u
  {
    RunInv(ss, es, i);
    forall t: Task | t != w && Exclusive?(ss[i], w)
      ensures Count(StackOf(ss[i].stacks, t), SubsumedScope) == 0
      ensures Count(StackOf(ss[i].stacks, t), ReentrantScope) == 0
    {
      NoInnerWithoutOuter(StackOf(ss[i].stacks, t));
    }
  }

  /** Exclusivity starts only with an acquisition pass that found no reader and no handoff; in
      particular a failed acquisition, which drains beside old readers, never reaches a body. */
  lemma ExclusivityStartsDrained(s: Sys, e: Event, w: Task)
    requires Enabled(s, e) && s.core.handoffs == |LiveLeases(s.leases)|
    requires Exclusive?(Apply(s, e), w) && !Exclusive?(s, w)
    ensures e == Acquire(w) && s.core.Drained() && LiveLeases(s.leases) == {}
    ensures Apply(s, e).ctl.value.phase.Body?
  {
    match e {
      case Shared(_) =>
      case Exclusive(_) =>
      case Leave(_) =>
      case Acquire(_) =>
      case Abandon(_) =>
      case EndBody(_) =>
      case Drain(_) =>
      case Settle(_, _) =>
      case LetGo(_) =>
      case MintLease(_, _) =>
      case CancelLease(_) =>
      case EnterLease(_, _) =>
      case DeferCb(_) =>
      case PoisonIt(_) =>
    }
  }

  /** A failed acquisition really does hold writer authority next to a reader. */
  lemma FailedAcquisitionBesideReader() returns (ss: seq<Sys>, es: seq<Event>)
    ensures IsRun(ss, es)
    ensures var s := ss[|ss| - 1]; s.core.writer == Some(2) && 1 in s.core.readers && !Exclusive?(s, 2)
  {
    es := [Shared(1), Exclusive(2), Abandon(2)];
    var s1 := Apply(INIT_SYS, es[0]);
    var s2 := Apply(s1, es[1]);
    var s3 := Apply(s2, es[2]);
    ss := [INIT_SYS, s1, s2, s3];
  }

  // ---- Handoffs ----

  ghost predicate LiveLease(s: Sys, h: nat) {
    h in s.leases && s.leases[h].Live()
  }

  /** The two events that end a handoff: cancelling it, or leaving its scope. */
  ghost predicate EndsLease(s: Sys, e: Event, h: nat) {
    e == CancelLease(h) || (e.Leave? && OnTop(s, e.t, LeaseScope(h)))
  }

  ghost predicate StartsExclusive(s: Sys, s': Sys) {
    exists w: Task :: Exclusive?(s', w) && !Exclusive?(s, w)
  }

  lemma LeaseStep(s: Sys, e: Event, h: nat)
    requires Enabled(s, e) && LiveLease(s, h) && !EndsLease(s, e, h)
    ensures LiveLease(Apply(s, e), h)
  {
  }

  lemma LiveLeaseBlocks(ss: seq<Sys>, es: seq<Event>, k: nat, h: nat)
    requires IsRun(ss, es) && k < |es| && LiveLease(ss[k], h) && !EndsLease(ss[k], es[k], h)
    ensures LiveLease(ss[k + 1], h) && !StartsExclusive(ss[k], ss[k + 1])
  {
    RunInv(ss, es, k);
    LeaseStep(ss[k], es[k], h);
    assert h in LiveLeases(ss[k].leases);
    if w: Task :| Exclusive?(ss[k + 1], w) && !Exclusive?(ss[k], w) {
      ExclusivityStartsDrained(ss[k], es[k], w);
    }
  }

  lemma {:induction false} LeaseStaysLive(ss: seq<Sys>, es: seq<Event>, i: nat, j: nat, h: nat)
    requires IsRun(ss, es) && i <= j < |ss| && LiveLease(ss[i], h)
    requires forall k :: i <= k < j ==> !EndsLease(ss[k], es[k], h)
    ensures LiveLease(ss[j], h)
  {
    if i < j {
      LeaseStaysLive(ss, es, i, j - 1, h);
      LeaseStep(ss[j - 1], es[j - 1], h);
    }
  }

  /** From minting to exit a handoff keeps every task out of exclusivity, whatever its minter
      does meanwhile with its own lease. */
  lemma HandoffBlocksExclusivity(ss: seq<Sys>, es: seq<Event>, i: nat, k: nat, h: nat)
    requires IsRun(ss, es) && i <= k < |es|
    requires LiveLease(ss[i], h)
    requires forall k' :: i <= k' <= k ==> !EndsLease(ss[k'], es[k'], h)
    ensures LiveLease(ss[k + 1], h) && !StartsExclusive(ss[k], ss[k + 1])
  {
    LeaseStaysLive(ss, es, i, k, h);
    LiveLeaseBlocks(ss, es, k, h);
  }

  /** What the exit path of `exclusive` leaves alone. */
  lemma ExitFrame(s: Sys, t: Task, acquired: bool)
    requires InPhase(s, t)
    ensures var s' := StepSettleQueue(s, t, acquired);
            && s'.core.poisoned == s.core.poisoned && s'.core.readers == s.core.readers
            && s'.arrivals == s.arrivals && (s'.ctl.Some? ==> s'.ctl.value.task == t)
  {
  }

  lemma DrainFrame(s: Sys, t: Task)
    requires Enabled(s, Drain(t))
    ensures var s' := StepDrain(s, t);
            && s'.core.poisoned == s.core.poisoned && s'.core.readers == s.core.readers
            && s'.arrivals == s.arrivals && (s'.ctl.Some? ==> s'.ctl.value.task == t)
  {
  }

  lemma PoisonKept(s: Sys, e: Event)
    requires Enabled(s, e) && s.core.poisoned.Some?
    ensures Apply(s, e).core.poisoned == s.core.poisoned && Apply(s, e).arrivals == s.arrivals
  {
    match e
    case Abandon(t) => ExitFrame(s.(core := TakeAuthority(s.core, t)), t, false);
    case EndBody(t) => ExitFrame(s, t, true);
    case Drain(t) => DrainFrame(s, t);
    case Leave(t) => LeaveFrame(s, t);
    case _ =>
  }

  lemma PoisonStep(s: Sys, e: Event)
    requires Enabled(s, e) && s.core.poisoned.Some?
    ensures Apply(s, e).core.readers ==
            if e.Leave? && OnTop(s, e.t, CountedScope) then ExitShared(s.core, e.t).readers else s.core.readers
    ensures Apply(s, e).ctl.Some? ==> s.ctl.Some? && s.ctl.value.task == Apply(s, e).ctl.value.task
  {
    match e
    case Abandon(t) => ExitFrame(s.(core := TakeAuthority(s.core, t)), t, false);
    case EndBody(t) => ExitFrame(s, t, true);
    case Drain(t) => DrainFrame(s, t);
    case Leave(t) =>
    case _ =>
  }

  /** Since `a`, which is poisoned: the poison is the same, reader counts only fell, the only writer is the
      one that was already pending or active, and nothing more was queued. */
  ghost predicate FrozenSince(a: Sys, s: Sys) {
    && s.core.poisoned == a.core.poisoned && s.core.poisoned.Some?
    && (forall t :: t in s.core.readers ==> t in a.core.readers && s.core.readers[t] <= a.core.readers[t])
    && (s.ctl.Some? ==> a.ctl.Some? && a.ctl.value.task == s.ctl.value.task)
    && s.arrivals == a.arrivals
  }

  lemma FrozenStep(a: Sys, s: Sys, e: Event)
    requires FrozenSince(a, s) && Enabled(s, e)
    ensures FrozenSince(a, Apply(s, e))
  {
    PoisonKept(s, e);
    PoisonStep(s, e);
  }

  /** Poison is for ever, and so is the freeze it brings. */
  lemma {:induction false} PoisonFreezesAdmission(ss: seq<Sys>, es: seq<Event>, i: nat, j: nat)
    requires IsRun(ss, es) && i <= j < |ss| && ss[i].core.poisoned.Some?
    ensures FrozenSince(ss[i], ss[j])
  {
    if i < j {
      PoisonFreezesAdmission(ss, es, i, j - 1);
      FrozenStep(ss[i], ss[j - 1], es[j - 1]);
    }
  }

  // ---- Deferred callbacks ----

  /** Conservation: a deferred callback has one fate; the queue is what arrived and has not
      departed, in arrival order and without repeats; rejection and refusal imply poison. */
  lemma DeferredConserved(ss: seq<Sys>, es: seq<Event>, i: nat, cb: Callback)
    requires IsRun(ss, es) && i < |ss|
    ensures ss[i].arrivals == ss[i].departures + ss[i].core.deferred
    ensures NoDup(ss[i].arrivals)
    ensures (exists k :: 0 <= k < i && es[k] == DeferCb(cb)) <==> cb in ss[i].fates
    ensures cb in ss[i].fates ==>
              FateInv(cb, ss[i].fates[cb], ss[i].core.poisoned.Some?, ss[i].ctl, ss[i].core.deferred, ss[i].departures)
  {
    RunInv(ss, es, i);
    DeferredHaveFates(ss, es, i, cb);
  }

  lemma {:induction false} DeferredHaveFates(ss: seq<Sys>, es: seq<Event>, i: nat, cb: Callback)
    requires IsRun(ss, es) && i < |ss|
    ensures (exists k :: 0 <= k < i && es[k] == DeferCb(cb)) <==> cb in ss[i].fates
  {
    if i > 0 {
      DeferredHaveFates(ss, es, i - 1, cb);
      RunInv(ss, es, i - 1);
      FateStep(ss[i - 1], es[i - 1], cb);
    }
  }

  /** The only changes of fate: a new callback gets one, queued becomes running or rejected, running
      becomes resolved. So a callback starts at most once and a final fate stays. */
  lemma FateStep(s: Sys, e: Event, cb: Callback)
    requires Enabled(s, e)
    requires LedgerInv(s.core.deferred, s.core.poisoned.Some?, s.ctl, s.fates, s.arrivals, s.departures)
    ensures cb in Apply(s, e).fates <==> cb in s.fates || e == DeferCb(cb)
    ensures cb in s.fates ==> FateMove(s, e, cb, s.fates[cb], Apply(s, e).fates[cb])
  {
    match e
    case Abandon(t) => ExitFates(s.(core := TakeAuthority(s.core, t)), t, false, cb);
    case EndBody(t) => ExitFates(s, t, true, cb);
    case Drain(t) => DrainFates(s, t, cb);
    case Settle(t, ok) => SettleFates(s, t, ok, cb);
    case _ =>
  }

  predicate FateMove(s: Sys, e: Event, cb: Callback, f: Fate, f': Fate) {
    || f' == f
    || (f.Queued? && f'.InProgress? && e.Drain? && s.core.deferred != [] && s.core.deferred[0] == cb)
    || (f.Queued? && f'.Rejected? && s.core.poisoned.Some?)
    || (f.InProgress? && f'.Resolved? && e.Settle?)
  }

  lemma DrainFates(s: Sys, t: Task, cb: Callback)
    requires Enabled(s, Drain(t))
    requires LedgerInv(s.core.deferred, s.core.poisoned.Some?, s.ctl, s.fates, s.arrivals, s.departures)
    ensures cb in StepDrain(s, t).fates <==> cb in s.fates
    ensures cb in s.fates ==> FateMove(s, Drain(t), cb, s.fates[cb], StepDrain(s, t).fates[cb])
  {
    assert s.core.deferred != [] ==> s.core.deferred[0] in s.core.deferred;
    if s.core.deferred != [] {
      assert s.core.deferred[0] in s.arrivals;
    }
  }

  lemma SettleFates(s: Sys, t: Task, ok: bool, cb: Callback)
    requires Enabled(s, Settle(t, ok))
    requires LedgerInv(s.core.deferred, s.core.poisoned.Some?, s.ctl, s.fates, s.arrivals, s.departures)
    ensures cb in StepSettle(s, t, ok).fates <==> cb in s.fates
    ensures cb in s.fates ==> FateMove(s, Settle(t, ok), cb, s.fates[cb], StepSettle(s, t, ok).fates[cb])
  {
  }

  lemma ExitFates(s: Sys, t: Task, acquired: bool, cb: Callback)
    requires InPhase(s, t)
    requires cb in s.fates ==> (s.fates[cb].Queued? <==> cb in s.core.deferred)
    ensures cb in StepSettleQueue(s, t, acquired).fates <==> cb in s.fates
    ensures cb in s.fates ==>
              var f, f' := s.fates[cb], StepSettleQueue(s, t, acquired).fates[cb];
              f' == f || (f.Queued? && f'.Rejected? && s.core.poisoned.Some?)
  {
  }

  /** The wait for the release starts where the drain, or the rejection, leaves the queue empty. */
  lemma ReleasingEntered(s: Sys, e: Event)
    requires Enabled(s, e) && Apply(s, e).ctl.Some? && Apply(s, e).ctl.value.phase.Releasing?
    ensures Apply(s, e).ctl == s.ctl ||
            (Apply(s, e).core.deferred == [] && Apply(s, e).ctl.value.phase.mark == |Apply(s, e).arrivals|)
  {
    match e
    case Abandon(_) =>
    case EndBody(_) =>
    case Drain(_) =>
    case _ =>
  }

  /** Only a release ends the writer's turn, and it leaves the queue alone. */
  lemma ReleaseStep(s: Sys, e: Event)
    requires Enabled(s, e) && s.ctl.Some? && Apply(s, e).ctl.None?
    ensures e.LetGo? && s.ctl.value.phase.Releasing?
    ensures Apply(s, e).arrivals == s.arrivals && Apply(s, e).core.deferred == s.core.deferred
  {
    match e
    case Abandon(t) =>
    case EndBody(t) =>
    case Drain(t) =>
    case LetGo(t) =>
    case _ =>
  }

  /** What a release leaves queued is exactly what arrived after the writer's drain last saw the queue empty:
      the arrivals while the finaliser ran and the release waited for the lock. */
  lemma ReleaseLeavesLateArrivals(ss: seq<Sys>, es: seq<Event>, k: nat)
    requires IsRun(ss, es) && k < |es|
    requires ss[k].ctl.Some? && ss[k + 1].ctl.None?
    ensures exists k0 :: 0 <= k0 <= k && ss[k0].ctl == ss[k].ctl && ss[k0].core.deferred == []
                      && |ss[k0].arrivals| <= |ss[k + 1].arrivals|
                      && ss[k + 1].core.deferred == ss[k + 1].arrivals[|ss[k0].arrivals|..]
  {
    RunInv(ss, es, k);
    ReleaseStep(ss[k], es[k]);
    var k0 := ReleaseWindowStart(ss, es, k);
  }

  lemma {:induction false} ReleaseWindowStart(ss: seq<Sys>, es: seq<Event>, k: nat) returns (k0: nat)
    requires IsRun(ss, es) && k < |ss|
    requires ss[k].ctl.Some? && ss[k].ctl.value.phase.Releasing?
    ensures k0 <= k && ss[k0].ctl == ss[k].ctl && ss[k0].core.deferred == []
    ensures |ss[k0].arrivals| == ss[k].ctl.value.phase.mark
  {
    ReleasingEntered(ss[k - 1], es[k - 1]);
    if ss[k - 1].ctl == ss[k].ctl {
      k0 := ReleaseWindowStart(ss, es, k - 1);
    } else {
      k0 := k;
    }
  }
}
