/** Who the gate lets in, and what it does with a deferred callback: every answer of a region, over every
    run, told from the scopes that are open and the leases that live, not from the gate's own fields. */
module GateAdmission {
  import opened Common
  import opened Gate
  import opened GateProtocol

  /** `t` holds writer authority: it is inside `exclusive` and past the acquisition. */
  predicate Writer(s: Sys, t: Task) {
    s.ctl.Some? && s.ctl.value.task == t && !s.ctl.value.phase.Acquiring?
  }

  predicate Reader(s: Sys, t: Task) {
    Count(StackOf(s.stacks, t), CountedScope) > 0
  }

  ghost predicate Poisoned(s: Sys) {
    s.core.poisoned.Some?
  }

  ghost predicate Opens(s: Sys, s': Sys, t: Task, x: Scope) {
    s'.stacks == s.stacks[t := Above(x, StackOf(s.stacks, t))]
  }

  lemma ReaderCounted(s: Sys, t: Task)
    requires Inv(s)
    ensures Reader(s, t) <==> t in s.core.readers
    ensures Writer(s, t) <==> s.core.writer == Some(t)
    ensures s.ctl.Some? <==> s.core.writerPending || s.core.writer.Some?
  {
    assert ReadersPositive(s.core.readers);
    assert WriterInv(s.core, s.stacks, s.ctl, s.leases);
  }

  /** A callback is refused on a poisoned gate, runs at once iff no task is inside `exclusive`, and is
      queued otherwise. */
  lemma DeferAnswer(ss: seq<Sys>, es: seq<Event>, i: nat, cb: Callback)
    requires IsRun(ss, es) && i < |es| && es[i] == DeferCb(cb)
    ensures cb in ss[i + 1].fates && ss[i + 1].stacks == ss[i].stacks && ss[i + 1].ctl == ss[i].ctl
    ensures var f := ss[i + 1].fates[cb];
            && (f.Refused? <==> Poisoned(ss[i]))
            && (f.RanAtOnce? <==> !Poisoned(ss[i]) && ss[i].ctl.None?)
            && (f.Queued? <==> !Poisoned(ss[i]) && ss[i].ctl.Some?)
    ensures ss[i + 1].core.deferred == ss[i].core.deferred + if ss[i + 1].fates[cb].Queued? then [cb] else []
  {
    RunInv(ss, es, i);
    ReaderCounted(ss[i], 0);
  }

  /** `shared` is refused, with nothing changed, iff the gate is poisoned or another task is inside
      `exclusive` and this one is not a reader already; the writer's own scope is not counted. */
  lemma SharedAnswer(ss: seq<Sys>, es: seq<Event>, i: nat, t: Task)
    requires IsRun(ss, es) && i < |es| && es[i] == Shared(t)
    ensures var s, s' := ss[i], ss[i + 1];
            if Poisoned(s) || (s.ctl.Some? && !Writer(s, t) && !Reader(s, t)) then s' == s
            else Opens(s, s', t, if Writer(s, t) then SubsumedScope else CountedScope)
  {
    RunInv(ss, es, i);
    ReaderCounted(ss[i], t);
  }

  /** `exclusive` is re-entrant for the writer; it is refused, with nothing changed, to a reader and while
      any task is inside `exclusive`; otherwise the task is the pending writer. */
  lemma ExclusiveAnswer(ss: seq<Sys>, es: seq<Event>, i: nat, t: Task)
    requires IsRun(ss, es) && i < |es| && es[i] == Exclusive(t)
    ensures var s, s' := ss[i], ss[i + 1];
            if Poisoned(s) then s' == s
            else if Writer(s, t) then Opens(s, s', t, ReentrantScope) && s'.ctl == s.ctl
            else if Reader(s, t) || s.ctl.Some? then s' == s
            else Opens(s, s', t, OuterScope) && s'.ctl == Some(Ctl(t, Acquiring))
  {
    RunInv(ss, es, i);
    ReaderCounted(ss[i], t);
  }

  ghost predicate NoReaders(s: Sys) {
    forall t: Task :: !Reader(s, t)
  }

  lemma DrainedIff(s: Sys)
    requires Inv(s)
    ensures s.core.Drained() <==> NoReaders(s) && LiveLeases(s.leases) == {}
  {
    assert s.core.handoffs == |LiveLeases(s.leases)|;
    forall t: Task ensures Reader(s, t) <==> t in s.core.readers {
      ReaderCounted(s, t);
    }
    if NoReaders(s) {
      assert forall t :: t in s.core.readers ==> Reader(s, t);
      assert s.core.readers.Keys == {};
    }
  }

  /** An acquisition pass starts the body iff no scope is counted and no handoff lives. */
  lemma AcquireAnswer(ss: seq<Sys>, es: seq<Event>, i: nat, t: Task)
    requires IsRun(ss, es) && i < |es| && es[i] == Acquire(t)
    ensures var s, s' := ss[i], ss[i + 1];
            if NoReaders(s) && LiveLeases(s.leases) == {} then s'.ctl == Some(Ctl(t, Body)) && s'.stacks == s.stacks
            else s' == s
  {
    RunInv(ss, es, i);
    DrainedIff(ss[i]);
  }

  /** A handoff is minted iff the task is a reader or the writer. */
  lemma MintAnswer(ss: seq<Sys>, es: seq<Event>, i: nat, t: Task, h: nat)
    requires IsRun(ss, es) && i < |es| && es[i] == MintLease(t, h)
    ensures var s, s' := ss[i], ss[i + 1];
            if Reader(s, t) || Writer(s, t) then s'.leases == s.leases[h := Minted(t)] && s'.stacks == s.stacks
            else s' == s
  {
    RunInv(ss, es, i);
    ReaderCounted(ss[i], t);
  }

  /** Only a handoff that was neither entered nor cancelled can be; it then belongs to who entered it. */
  lemma LeaseAnswer(ss: seq<Sys>, es: seq<Event>, i: nat, h: nat)
    requires IsRun(ss, es) && i < |es| && h in ss[i].leases
    ensures var s, s' := ss[i], ss[i + 1];
            && (es[i] == CancelLease(h) ==>
                  var lease := if s.leases[h].Minted? then Cancelled else s.leases[h];
                  s' == s.(core := s'.core, leases := s.leases[h := lease]))
            && (es[i].EnterLease? && es[i].h == h ==>
                  if s.leases[h].Minted? then
                    && s'.leases == s.leases[h := Open(s.leases[h].minter, es[i].t)]
                    && Opens(s, s', es[i].t, LeaseScope(h))
                  else s' == s)
  {
  }

  /** Leaving the update body, or giving up: on a sound tree the queue is kept for the drain; on a poisoned
      one it is emptied and every callback in it is rejected. */
  lemma ExitAnswer(ss: seq<Sys>, es: seq<Event>, i: nat, t: Task, cb: Callback)
    requires IsRun(ss, es) && i < |es| && (es[i] == EndBody(t) || es[i] == Abandon(t))
    ensures var s, s' := ss[i], ss[i + 1];
            && Writer(s', t)
            && (if Poisoned(s) then s'.core.deferred == [] && s'.ctl.value.phase.Releasing?
                else s'.core.deferred == s.core.deferred && s'.ctl.value.phase == Draining(es[i].EndBody?))
            && (cb in s.fates ==>
                  cb in s'.fates &&
                  s'.fates[cb] == if Poisoned(s) && s.fates[cb].Queued? then Rejected else s.fates[cb])
  {
    RunInv(ss, es, i);
  }

  /** One step of the drain: the oldest queued callback starts, or the queue is empty and the release begins. */
  lemma DrainAnswer(ss: seq<Sys>, es: seq<Event>, i: nat, t: Task, cb: Callback)
    requires IsRun(ss, es) && i < |es| && es[i] == Drain(t)
    ensures var s, s' := ss[i], ss[i + 1];
            && s'.arrivals == s.arrivals && s'.stacks == s.stacks && Writer(s', t)
            && (if |s.departures| >= |s.arrivals| then
                  s'.ctl.value.phase == Releasing(s.ctl.value.Acquired(), |s.arrivals|) && s'.fates == s.fates
                else
                  var next := s.arrivals[|s.departures|];
                  && s'.ctl.value.phase == Running(s.ctl.value.Acquired(), next)
                  && s'.fates == s.fates[next := InProgress]
                  && s'.departures == s.departures + [next])
  {
    RunInv(ss, es, i);
  }

  /** A callback that ends settles with its own result, and the drain goes on. */
  lemma SettleAnswer(ss: seq<Sys>, es: seq<Event>, i: nat, t: Task, ok: bool)
    requires IsRun(ss, es) && i < |es| && es[i] == Settle(t, ok)
    ensures var s, s' := ss[i], ss[i + 1];
            && s.ctl.value.phase.cb in s.fates && s.fates[s.ctl.value.phase.cb].InProgress?
            && s' == s.(fates := s.fates[s.ctl.value.phase.cb := Resolved(ok)],
                        ctl := Some(Ctl(t, Draining(s.ctl.value.Acquired()))))
  {
    RunInv(ss, es, i);
  }

  /** Leaving a scope closes the innermost one of that task and no other, and ends its lease; leaving
      `exclusive` itself, after the drain, frees the gate. */
  lemma LeaveAnswer(ss: seq<Sys>, es: seq<Event>, i: nat, t: Task)
    requires IsRun(ss, es) && i < |es| && (es[i] == Leave(t) || es[i] == LetGo(t))
    ensures var s, s' := ss[i], ss[i + 1];
            var st := StackOf(s.stacks, t);
            && st.Above? && s'.stacks == s.stacks[t := st.below]
            && s'.ctl == (if es[i].LetGo? then None else s.ctl)
            && s'.leases == (if st.top.LeaseScope? then s.leases[st.top.id := Exited] else s.leases)
            && s'.fates == s.fates && s'.arrivals == s.arrivals
  {
    RunInv(ss, es, i);
  }

  /** The first reason sticks, and poisoning does nothing else. */
  lemma PoisonAnswer(ss: seq<Sys>, es: seq<Event>, i: nat, reason: string)
    requires IsRun(ss, es) && i < |es| && es[i] == PoisonIt(reason)
    ensures var s := ss[i];
            ss[i + 1] == if Poisoned(s) then s else s.(core := s.core.(poisoned := Some(reason)))
  {
  }

  /** Maintenance counts as active exactly while the gate is poisoned or a task is inside `exclusive`. */
  lemma ActiveIff(ss: seq<Sys>, es: seq<Event>, i: nat)
    requires IsRun(ss, es) && i < |ss|
    ensures ss[i].core.Active() <==> Poisoned(ss[i]) || ss[i].ctl.Some?
  {
    RunInv(ss, es, i);
    ReaderCounted(ss[i], 0);
  }

  /** In any state of the fields, a release gives up exactly what is the task's own, authority at its last depth
      and intent, and leaves another task's alone. */
  lemma ReleaseGivesUpOwn(c: Core, t: Task)
    ensures var r := Release(c, t);
            && r.pendingWriter != Some(t)
            && (if c.pendingWriter == Some(t) then r.pendingWriter.None? && !r.writerPending
                else r.pendingWriter == c.pendingWriter && r.writerPending == c.writerPending)
            && (if c.writer == Some(t) then
                  r.writerDepth == c.writerDepth - 1 && r.writer == if r.writerDepth == 0 then None else Some(t)
                else r.writerDepth == c.writerDepth && r.writer == c.writer)
            && r == c.(writer := r.writer, writerDepth := r.writerDepth, pendingWriter := r.pendingWriter,
                       writerPending := r.writerPending)
  {
  }
}
