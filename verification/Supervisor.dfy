/** The process half of bot/runtime_supervisor.py on POSIX: tracking, coalesced termination, and a
    shutdown that races with new registrations. A PID stands for one child for the whole run. */
module Supervisor {
  import opened Common

  type Pid = nat

  /** `processes` maps a tracked PID to whether its process group was captured. */
  datatype Table = Table(processes: map<Pid, bool>, terminations: map<Pid, nat>, closing: bool)

  datatype TrackOutcome = Tracked | AlreadyTracked | RegistryUnavailable | Closing

  /** The last component says whether the child is sent SIGTERM at once. */
  function Track(t: Table, pid: Pid, captured: bool, registryOk: bool): (Table, TrackOutcome, bool) {
    if pid in t.processes then (t, AlreadyTracked, false)
    else
      var t1 := t.(processes := t.processes[pid := captured]);
      if !registryOk then (t1, RegistryUnavailable, true)
      else if t.closing then (t1, Closing, true)
      else (t1, Tracked, false)
  }

  function Untrack(t: Table, pid: Pid, treeAlive: bool): (Table, bool) {
    if pid in t.processes && treeAlive then (t, false) else (t.(processes := t.processes - {pid}), true)
  }

  /** Joins the termination in flight for `pid`, or starts one under the name `fresh`. */
  function Join(t: Table, pid: Pid, next: nat): (Table, nat) {
    if pid in t.terminations then (t, t.terminations[pid])
    else (t.(terminations := t.terminations[pid := next]), next)
  }

  function Finish(t: Table, pid: Pid, flight: nat, stopped: bool): Table {
    Table(if stopped then t.processes - {pid} else t.processes,
          if pid in t.terminations && t.terminations[pid] == flight then t.terminations - {pid} else t.terminations,
          t.closing)
  }

  class RuntimeSupervisor {
    var processes: map<Pid, bool>
    var terminations: map<Pid, nat>
    var closing: bool

    function View(): Table
      reads this
    {
      Table(processes, terminations, closing)
    }

    constructor ()
      ensures View() == Table(map[], map[], false)
    {
      processes, terminations, closing := map[], map[], false;
    }

    method TrackProcess(pid: Pid, captured: bool, registryOk: bool) returns (outcome: TrackOutcome, signal: bool)
      modifies this
      ensures (View(), outcome, signal) == Track(old(View()), pid, captured, registryOk)
    {
      if pid in processes {
        return AlreadyTracked, false;
      }
      processes := processes[pid := captured];
      if !registryOk {
        return RegistryUnavailable, true;
      }
      if closing {
        return Closing, true;
      }
      return Tracked, false;
    }

    method UntrackProcess(pid: Pid, force: bool, treeAlive: bool) returns (retired: bool)
      modifies this
      ensures (View(), retired) == Untrack(old(View()), pid, treeAlive && !force)
    {
      if pid in processes && !force && treeAlive {
        return false;
      }
      processes := processes - {pid};
      return true;
    }

    method TerminateProcess(pid: Pid, next: nat) returns (flight: nat)
      modifies this
      ensures (View(), flight) == Join(old(View()), pid, next)
    {
      if pid !in terminations {
        terminations := terminations[pid := next];
      }
      flight := terminations[pid];
    }

    /** The `finally` block of the termination task. */
    method FinishTermination(pid: Pid, flight: nat, stopped: bool)
      modifies this
      ensures View() == Finish(old(View()), pid, flight, stopped)
    {
      if stopped {
        var _ := UntrackProcess(pid, true, false);
      }
      if pid in terminations && terminations[pid] == flight {
        terminations := terminations - {pid};
      }
    }

    /** Closes the supervisor and returns the children the stop phase will terminate. */
    method BeginShutdown() returns (snapshot: set<Pid>)
      modifies this
      ensures View() == old(View()).(closing := true) && snapshot == old(View()).processes.Keys
    {
      closing := true;
      snapshot := processes.Keys;
    }
  }

  // ---- Children, callers and termination tasks interleaved ----

  /** A termination task: not yet started, or waiting for the tree it looked up (was its group captured?). */
  datatype Phase = Created | Waiting(captured: bool)

  datatype Flight = Flight(pid: Pid, phase: Phase)

  datatype Call = Call(pid: Pid, flight: nat)

  datatype Sys = Sys(
    table: Table,
    reaped: set<Pid>,            // children whose exit status was collected
    groupGone: set<Pid>,         // children whose process group has no member left
    signalled: set<Pid>,         // children sent a termination signal
    groupSignalled: set<Pid>,    // those whose whole captured group was sent it
    registered: set<Pid>,        // children ever passed to track_process
    flights: map<nat, Flight>,   // termination tasks still running
    results: map<nat, bool>,     // what finished ones returned
    callers: map<nat, Call>,     // who awaits which
    snapshot: set<Pid>,          // the children shutdown found in the table
    joined: map<Pid, nat>)       // the terminations it awaits for them

  const INIT_SYS := Sys(Table(map[], map[], false), {}, {}, {}, {}, {}, map[], map[], map[], {}, map[])

  datatype Event =
    | Reap(pid: Pid)
    | GroupDies(pid: Pid)
    | TrackChild(pid: Pid, captured: bool, registryOk: bool)
    | UntrackChild(pid: Pid)
    | Terminate(caller: nat, pid: Pid, next: nat)
    | Start(flight: nat)
    | Escalate(flight: nat)
    | Settle(flight: nat, stopped: bool)
    | Shutdown
    | ShutdownJoins(pid: Pid, next: nat)

  predicate TreeAlive(s: Sys, pid: Pid, captured: bool) {
    pid !in s.reaped || (captured && pid !in s.groupGone)
  }

  ghost predicate UnusedFrom(s: Sys, n: nat) {
    forall f :: f in s.flights || f in s.results ==> f < n
  }

  ghost predicate Enabled(s: Sys, e: Event) {
    match e
    case Reap(_) => true
    case GroupDies(pid) => pid in s.reaped
    // a group can be captured only while its leader exists
    case TrackChild(pid, captured, _) => captured ==> pid !in s.reaped && pid !in s.groupGone
    case UntrackChild(_) => true
    case Terminate(caller, pid, next) => caller !in s.callers && UnusedFrom(s, next)
    case Start(f) => f in s.flights && s.flights[f].phase.Created?
    case Escalate(f) => f in s.flights && s.flights[f].phase.Waiting?
    case Settle(f, stopped) =>
      && f in s.flights && s.flights[f].phase.Waiting?
      && (stopped ==> !TreeAlive(s, s.flights[f].pid, s.flights[f].phase.captured))
    case Shutdown => !s.table.closing
    case ShutdownJoins(pid, next) => pid in s.snapshot && pid !in s.joined && UnusedFrom(s, next)
  }

  /** To the captured group, whatever became of its leader, or else to the bare leader. */
  function Signal(s: Sys, pid: Pid, captured: bool): Sys {
    if !TreeAlive(s, pid, captured) then s
    else s.(signalled := s.signalled + {pid},
            groupSignalled := if captured then s.groupSignalled + {pid} else s.groupSignalled)
  }

  function StepTrack(s: Sys, pid: Pid, captured: bool, registryOk: bool): Sys {
    var (t, _, signal) := Track(s.table, pid, captured, registryOk);
    var s1 := s.(table := t, registered := s.registered + {pid});
    if signal then Signal(s1, pid, captured) else s1
  }

  function StepUntrack(s: Sys, pid: Pid): Sys {
    var alive := pid in s.table.processes && TreeAlive(s, pid, s.table.processes[pid]);
    s.(table := Untrack(s.table, pid, alive).0)
  }

  function StepTerminate(s: Sys, pid: Pid, next: nat): (Sys, nat) {
    var (t, f) := Join(s.table, pid, next);
    var s1 := s.(table := t);
    if pid in s.table.terminations then (s1, f) else (s1.(flights := s.flights[f := Flight(pid, Created)]), f)
  }

  /** The task looks its child up in the table; one that is not there counts as a bare leader. */
  function StepStart(s: Sys, f: nat): Sys
    requires f in s.flights
  {
    var pid := s.flights[f].pid;
    var captured := pid in s.table.processes && s.table.processes[pid];
    Signal(s.(flights := s.flights[f := Flight(pid, Waiting(captured))]), pid, captured)
  }

  function StepSettle(s: Sys, f: nat, stopped: bool): Sys
    requires f in s.flights
  {
    s.(table := Finish(s.table, s.flights[f].pid, f, stopped),
       flights := s.flights - {f},
       results := s.results[f := stopped])
  }

  ghost function Apply(s: Sys, e: Event): Sys
    requires Enabled(s, e)
  {
    match e
    case Reap(pid) => s.(reaped := s.reaped + {pid})
    case GroupDies(pid) => s.(groupGone := s.groupGone + {pid})
    case TrackChild(pid, captured, registryOk) => StepTrack(s, pid, captured, registryOk)
    case UntrackChild(pid) => StepUntrack(s, pid)
    case Terminate(caller, pid, next) =>
      var (s1, f) := StepTerminate(s, pid, next);
      s1.(callers := s.callers[caller := Call(pid, f)])
    case Start(f) => StepStart(s, f)
    case Escalate(f) => Signal(s, s.flights[f].pid, s.flights[f].phase.captured)
    case Settle(f, stopped) => StepSettle(s, f, stopped)
    case Shutdown => s.(table := s.table.(closing := true), snapshot := s.table.processes.Keys)
    case ShutdownJoins(pid, next) =>
      var (s1, f) := StepTerminate(s, pid, next);
      s1.(joined := s.joined[pid := f])
  }

  // ---- Invariants ----

  /** The tree was sent a termination signal, all of it if its group was captured, or is gone. */
  ghost predicate Told(pid: Pid, captured: bool, s: Sys) {
    (pid in s.signalled && (captured ==> pid in s.groupSignalled)) || !TreeAlive(s, pid, captured)
  }

  /** A running termination is the one in flight for its PID, so there is at most one per PID; one that waits
      has told the tree it looked up. */
  ghost predicate FlightInv(f: nat, s: Sys) {
    f in s.flights ==>
      && f !in s.results
      && s.flights[f].pid in s.table.terminations
      && s.table.terminations[s.flights[f].pid] == f
      && (s.flights[f].phase.Waiting? ==> Told(s.flights[f].pid, s.flights[f].phase.captured, s))
  }

  ghost predicate TerminationInv(pid: Pid, s: Sys) {
    pid in s.table.terminations ==>
      s.table.terminations[pid] in s.flights && s.flights[s.table.terminations[pid]].pid == pid
  }

  /** A caller waits for a task that is running or has returned. */
  ghost predicate CallerInv(c: nat, s: Sys) {
    c in s.callers ==>
      var f := s.callers[c].flight;
      (f in s.flights && s.flights[f].pid == s.callers[c].pid) || f in s.results
  }

  /** A registered child is in the table, or its leader was reaped. */
  ghost predicate ChildInv(pid: Pid, s: Sys) {
    && (pid in s.table.processes ==> pid in s.registered)
    && (pid in s.registered ==> pid in s.table.processes || pid in s.reaped)
  }

  /** Once closing, a registered child is in the shutdown's snapshot, or signalled, or reaped. */
  ghost predicate ClosingInv(pid: Pid, s: Sys) {
    pid in s.registered && s.table.closing ==>
      pid in s.snapshot || pid in s.signalled || pid in s.reaped
  }

  /** The termination shutdown joined for a child is running on that child, or it ended after signalling it. */
  ghost predicate JoinedInv(pid: Pid, s: Sys) {
    pid in s.joined ==>
      var f := s.joined[pid];
      || (f in s.flights && s.flights[f].pid == pid)
      || (f in s.results && pid in s.signalled + s.reaped)
  }

  ghost predicate Inv(s: Sys) {
    && (forall f :: FlightInv(f, s))
    && (forall pid :: TerminationInv(pid, s))
    && (forall c :: CallerInv(c, s))
    && (forall pid :: ChildInv(pid, s))
    && (forall pid :: ClosingInv(pid, s))
    && (forall pid :: JoinedInv(pid, s))
  }

  lemma FlightAfterTerminate(s: Sys, pid: Pid, next: nat, f: nat)
    requires FlightInv(f, s) && TerminationInv(pid, s) && UnusedFrom(s, next)
    ensures FlightInv(f, StepTerminate(s, pid, next).0)
  {
  }

  lemma FlightAfterStart(s: Sys, g: nat, f: nat)
    requires g in s.flights && s.flights[g].phase.Created? && FlightInv(f, s) && FlightInv(g, s)
    ensures FlightInv(f, StepStart(s, g))
  {
  }

  lemma FlightAfterSettle(s: Sys, g: nat, stopped: bool, f: nat)
    requires g in s.flights && FlightInv(f, s) && FlightInv(g, s)
    ensures FlightInv(f, StepSettle(s, g, stopped))
  {
  }

  lemma FlightAfterTrack(s: Sys, pid: Pid, captured: bool, registryOk: bool, f: nat)
    requires FlightInv(f, s)
    ensures FlightInv(f, StepTrack(s, pid, captured, registryOk))
  {
  }

  lemma FlightStep(s: Sys, e: Event, f: nat)
    requires Enabled(s, e)
    requires (forall g :: FlightInv(g, s)) && forall pid :: TerminationInv(pid, s)
    ensures FlightInv(f, Apply(s, e))
  {
    assert FlightInv(f, s);
    match e {
      case Reap(_) =>
      case GroupDies(_) =>
      case TrackChild(pid, captured, registryOk) => FlightAfterTrack(s, pid, captured, registryOk, f);
      case UntrackChild(_) =>
      case Terminate(_, target, next) =>
        assert TerminationInv(target, s);
        FlightAfterTerminate(s, target, next, f);
      case Start(flight) =>
        assert FlightInv(flight, s);
        FlightAfterStart(s, flight, f);
      case Escalate(_) =>
      case Settle(flight, stopped) =>
        assert FlightInv(flight, s);
        FlightAfterSettle(s, flight, stopped, f);
      case Shutdown =>
      case ShutdownJoins(target, next) =>
        assert TerminationInv(target, s);
        FlightAfterTerminate(s, target, next, f);
    }
  }

  lemma TerminationAfterTerminate(s: Sys, target: Pid, next: nat, pid: Pid)
    requires TerminationInv(pid, s) && TerminationInv(target, s) && UnusedFrom(s, next)
    ensures TerminationInv(pid, StepTerminate(s, target, next).0)
  {
  }

  lemma TerminationAfterSettle(s: Sys, f: nat, stopped: bool, pid: Pid)
    requires f in s.flights && TerminationInv(pid, s) && FlightInv(f, s)
    ensures TerminationInv(pid, StepSettle(s, f, stopped))
  {
  }

  lemma TerminationStep(s: Sys, e: Event, pid: Pid)
    requires Inv(s) && Enabled(s, e)
    ensures TerminationInv(pid, Apply(s, e))
  {
    assert TerminationInv(pid, s);
    match e
    case Terminate(_, target, next) =>
      assert TerminationInv(target, s);
      TerminationAfterTerminate(s, target, next, pid);
    case Start(flight) => assert FlightInv(flight, s);
    case Settle(flight, stopped) =>
      assert FlightInv(flight, s);
      TerminationAfterSettle(s, flight, stopped, pid);
    case ShutdownJoins(target, next) =>
      assert TerminationInv(target, s);
      TerminationAfterTerminate(s, target, next, pid);
    case _ =>
  }

  lemma CallerStep(s: Sys, e: Event, c: nat)
    requires Inv(s) && Enabled(s, e)
    ensures CallerInv(c, Apply(s, e))
  {
    assert CallerInv(c, s);
    match e {
      case Reap(_) =>
      case GroupDies(_) =>
      case TrackChild(_, _, _) =>
      case UntrackChild(_) =>
      case Terminate(_, target, _) => assert TerminationInv(target, s);
      case Start(flight) => assert FlightInv(flight, s);
      case Escalate(flight) => assert FlightInv(flight, s);
      case Settle(flight, _) => assert FlightInv(flight, s);
      case Shutdown =>
      case ShutdownJoins(target, _) => assert TerminationInv(target, s);
    }
  }

  lemma ChildAfterTrack(s: Sys, target: Pid, captured: bool, registryOk: bool, pid: Pid)
    requires ChildInv(pid, s)
    ensures ChildInv(pid, StepTrack(s, target, captured, registryOk))
  {
  }

  lemma ChildAfterUntrack(s: Sys, target: Pid, pid: Pid)
    requires ChildInv(pid, s)
    ensures ChildInv(pid, StepUntrack(s, target))
  {
  }

  lemma ChildAfterSettle(s: Sys, f: nat, stopped: bool, pid: Pid)
    requires Enabled(s, Settle(f, stopped)) && ChildInv(pid, s)
    ensures ChildInv(pid, StepSettle(s, f, stopped))
  {
  }

  lemma ChildStep(s: Sys, e: Event, pid: Pid)
    requires Enabled(s, e) && ChildInv(pid, s)
    ensures ChildInv(pid, Apply(s, e))
  {
    match e
    case TrackChild(target, captured, registryOk) => ChildAfterTrack(s, target, captured, registryOk, pid);
    case UntrackChild(target) => ChildAfterUntrack(s, target, pid);
    case Settle(f, stopped) => ChildAfterSettle(s, f, stopped, pid);
    case _ =>
  }

  lemma ClosingAfterTrack(s: Sys, target: Pid, captured: bool, registryOk: bool, pid: Pid)
    requires ChildInv(pid, s) && ClosingInv(pid, s)
    ensures ClosingInv(pid, StepTrack(s, target, captured, registryOk))
  {
  }

  lemma ClosingStep(s: Sys, e: Event, pid: Pid)
    requires Enabled(s, e) && ChildInv(pid, s) && ClosingInv(pid, s)
    ensures ClosingInv(pid, Apply(s, e))
  {
    match e
    case TrackChild(target, captured, registryOk) => ClosingAfterTrack(s, target, captured, registryOk, pid);
    case _ =>
  }

  lemma JoinedStep(s: Sys, e: Event, pid: Pid)
    requires Inv(s) && Enabled(s, e)
    ensures JoinedInv(pid, Apply(s, e))
  {
    assert JoinedInv(pid, s) && TerminationInv(pid, s);
    match e {
      case Reap(_) =>
      case GroupDies(_) =>
      case TrackChild(_, _, _) =>
      case UntrackChild(_) =>
      case Terminate(_, target, _) => assert TerminationInv(target, s);
      case Start(flight) => assert FlightInv(flight, s);
      case Escalate(flight) => assert FlightInv(flight, s);
      case Settle(flight, _) => assert FlightInv(flight, s);
      case Shutdown =>
      case ShutdownJoins(target, _) => assert TerminationInv(target, s);
    }
  }

  lemma StepKeepsInv(s: Sys, e: Event)
    requires Inv(s) && Enabled(s, e)
    ensures Inv(Apply(s, e))
  {
    forall f
      ensures FlightInv(f, Apply(s, e))
    {
      FlightStep(s, e, f);
    }
    forall pid
      ensures TerminationInv(pid, Apply(s, e))
    {
      TerminationStep(s, e, pid);
    }
    forall c
      ensures CallerInv(c, Apply(s, e))
    {
      CallerStep(s, e, c);
    }
    forall pid
      ensures ChildInv(pid, Apply(s, e))
    {
      assert ChildInv(pid, s);
      ChildStep(s, e, pid);
    }
    forall pid
      ensures ClosingInv(pid, Apply(s, e))
    {
      assert ChildInv(pid, s) && ClosingInv(pid, s);
      ClosingStep(s, e, pid);
    }
    forall pid
      ensures JoinedInv(pid, Apply(s, e))
    {
      JoinedStep(s, e, pid);
    }
  }

  ghost predicate IsRun(ss: seq<Sys>, es: seq<Event>) {
    && |ss| == |es| + 1
    && ss[0] == INIT_SYS
    && forall i :: 0 <= i < |es| ==> Enabled(ss[i], es[i]) && ss[i + 1] == Apply(ss[i], es[i])
  }

  lemma {:induction false} RunInv(ss: seq<Sys>, es: seq<Event>, i: nat)
    requires IsRun(ss, es) && i < |ss|
    ensures Inv(ss[i])
  {
    if i > 0 {
      RunInv(ss, es, i - 1);
      StepKeepsInv(ss[i - 1], es[i - 1]);
    }
  }

  // ---- One termination per PID, one answer for all its callers ----

  /** At most one termination runs per PID, and callers for one PID whose terminations still run await
      the same one. */
  lemma OneTerminationPerPid(ss: seq<Sys>, es: seq<Event>, i: nat, f: nat, g: nat, c: nat, d: nat)
    requires IsRun(ss, es) && i < |ss|
    ensures var s := ss[i];
            && (f in s.flights && g in s.flights && s.flights[f].pid == s.flights[g].pid ==> f == g)
            && (c in s.callers && d in s.callers && s.callers[c].pid == s.callers[d].pid &&
                s.callers[c].flight in s.flights && s.callers[d].flight in s.flights
                ==> s.callers[c].flight == s.callers[d].flight)
  {
    RunInv(ss, es, i);
    var s := ss[i];
    assert FlightInv(f, s) && FlightInv(g, s) && CallerInv(c, s) && CallerInv(d, s);
    if c in s.callers && d in s.callers {
      assert FlightInv(s.callers[c].flight, s) && FlightInv(s.callers[d].flight, s);
    }
  }

  lemma ResultStep(s: Sys, e: Event, f: nat)
    requires Enabled(s, e) && f in s.results && f !in s.flights
    ensures f in Apply(s, e).results && Apply(s, e).results[f] == s.results[f]
  {
  }

  /** A termination answers once: its result never changes. */
  lemma {:induction false} OneAnswer(ss: seq<Sys>, es: seq<Event>, i: nat, j: nat, f: nat)
    requires IsRun(ss, es) && i <= j < |ss| && f in ss[i].results
    ensures f in ss[j].results && ss[j].results[f] == ss[i].results[f]
  {
    if i < j {
      OneAnswer(ss, es, i, j - 1, f);
      RunInv(ss, es, j - 1);
      assert FlightInv(f, ss[j - 1]);
      ResultStep(ss[j - 1], es[j - 1], f);
    }
  }

  /** A positive result was given by the step of a waiting task that saw the leader reaped and the group it
      had looked up gone. */
  lemma {:induction false} PositiveAnswer(ss: seq<Sys>, es: seq<Event>, i: nat, f: nat) returns (k: nat)
    requires IsRun(ss, es) && i < |ss| && f in ss[i].results && ss[i].results[f]
    ensures k < i && es[k] == Settle(f, true) && f in ss[k].flights && ss[k].flights[f].phase.Waiting?
    ensures !TreeAlive(ss[k], ss[k].flights[f].pid, ss[k].flights[f].phase.captured)
  {
    k := i - 1;
    if f in ss[k].results {
      OneAnswer(ss, es, k, i, f);
      k := PositiveAnswer(ss, es, k, f);
    } else {
      NewAnswer(ss[k], es[k], f);
    }
  }

  lemma NewAnswer(s: Sys, e: Event, f: nat)
    requires Enabled(s, e) && f !in s.results && f in Apply(s, e).results
    ensures e == Settle(f, Apply(s, e).results[f])
  {
  }

  // ---- Leaving the table ----

  /** A termination of `pid` that waits watches the group the table knows of. */
  ghost predicate GroupInv(f: nat, pid: Pid, s: Sys) {
    f in s.flights && s.flights[f] == Flight(pid, Waiting(false)) && pid in s.table.processes ==>
      !s.table.processes[pid]
  }

  ghost predicate Watched(pid: Pid, s: Sys) {
    forall f :: GroupInv(f, pid, s)
  }

  /** The child is not put on record, with its group, behind the back of a termination that already
      looked it up and found no group. */
  ghost predicate CleanFor(pid: Pid, s: Sys, e: Event) {
    e.TrackChild? && e.pid == pid && e.captured && pid !in s.table.processes ==>
      forall f :: f in s.flights ==> s.flights[f] != Flight(pid, Waiting(false))
  }

  lemma GroupAfterTrack(s: Sys, target: Pid, captured: bool, registryOk: bool, f: nat, pid: Pid)
    requires GroupInv(f, pid, s) && CleanFor(pid, s, TrackChild(target, captured, registryOk))
    ensures GroupInv(f, pid, StepTrack(s, target, captured, registryOk))
  {
  }

  lemma GroupAfterTerminate(s: Sys, target: Pid, next: nat, f: nat, pid: Pid)
    requires GroupInv(f, pid, s)
    ensures GroupInv(f, pid, StepTerminate(s, target, next).0)
  {
  }

  lemma GroupAfterStart(s: Sys, g: nat, f: nat, pid: Pid)
    requires g in s.flights && GroupInv(f, pid, s)
    ensures GroupInv(f, pid, StepStart(s, g))
  {
  }

  lemma GroupAfterSettle(s: Sys, g: nat, stopped: bool, f: nat, pid: Pid)
    requires g in s.flights && GroupInv(f, pid, s)
    ensures GroupInv(f, pid, StepSettle(s, g, stopped))
  {
  }

  lemma GroupStep(s: Sys, e: Event, f: nat, pid: Pid)
    requires Enabled(s, e) && GroupInv(f, pid, s) && CleanFor(pid, s, e)
    ensures GroupInv(f, pid, Apply(s, e))
  {
    match e
    case TrackChild(target, captured, registryOk) => GroupAfterTrack(s, target, captured, registryOk, f, pid);
    case Terminate(_, target, next) => GroupAfterTerminate(s, target, next, f, pid);
    case Start(g) => GroupAfterStart(s, g, f, pid);
    case Settle(g, stopped) => GroupAfterSettle(s, g, stopped, f, pid);
    case ShutdownJoins(target, next) => GroupAfterTerminate(s, target, next, f, pid);
    case _ =>
  }

  lemma WatchedStep(s: Sys, e: Event, pid: Pid)
    requires Enabled(s, e) && Watched(pid, s) && CleanFor(pid, s, e)
    ensures Watched(pid, Apply(s, e))
  {
    forall f ensures GroupInv(f, pid, Apply(s, e)) {
      assert GroupInv(f, pid, s);
      GroupStep(s, e, f, pid);
    }
  }

  /** Only two kinds of step take a child off the table. */
  lemma DepartBy(s: Sys, e: Event, pid: Pid)
    requires Enabled(s, e) && pid in s.table.processes && pid !in Apply(s, e).table.processes
    ensures || e == UntrackChild(pid)
            || (e.Settle? && e.stopped && e.flight in s.flights && s.flights[e.flight].pid == pid)
  {
    match e
    case TrackChild(target, captured, registryOk) => TrackKeeps(s, target, captured, registryOk, pid);
    case _ =>
  }

  lemma TrackKeeps(s: Sys, target: Pid, captured: bool, registryOk: bool, pid: Pid)
    requires pid in s.table.processes
    ensures pid in StepTrack(s, target, captured, registryOk).table.processes
  {
  }

  lemma DepartStep(s: Sys, e: Event, pid: Pid)
    requires Enabled(s, e) && pid in s.table.processes && pid !in Apply(s, e).table.processes
    ensures pid in s.reaped
    ensures e.Settle? ==> e.flight in s.flights && s.flights[e.flight].pid == pid
    ensures (e.Settle? ==> GroupInv(e.flight, pid, s)) ==> !TreeAlive(s, pid, s.table.processes[pid])
  {
    DepartBy(s, e, pid);
  }

  /** Steps from `s` on, from any state. */
  ghost predicate Continues(s: Sys, ss: seq<Sys>, es: seq<Event>) {
    && |ss| == |es| + 1
    && ss[0] == s
    && forall i :: 0 <= i < |es| ==> Enabled(ss[i], es[i]) && ss[i + 1] == Apply(ss[i], es[i])
  }

  ghost predicate CleanUntil(pid: Pid, ss: seq<Sys>, es: seq<Event>, n: nat)
    requires n <= |es| < |ss|
  {
    forall k :: 0 <= k < n ==> CleanFor(pid, ss[k], es[k])
  }

  /** Step i takes `pid` off the table while its leader or its recorded group lives. */
  ghost predicate DepartsAlive(pid: Pid, ss: seq<Sys>, i: nat)
    requires i + 1 < |ss|
  {
    && pid in ss[i].table.processes && pid !in ss[i + 1].table.processes
    && TreeAlive(ss[i], pid, ss[i].table.processes[pid])
  }

  lemma {:induction false} StaysWatched(s: Sys, ss: seq<Sys>, es: seq<Event>, i: nat, pid: Pid)
    requires Continues(s, ss, es) && i < |ss| && Watched(pid, s) && CleanUntil(pid, ss, es, i)
    ensures Watched(pid, ss[i])
  {
    if i > 0 {
      StaysWatched(s, ss, es, i - 1, pid);
      assert CleanFor(pid, ss[i - 1], es[i - 1]);
      WatchedStep(ss[i - 1], es[i - 1], pid);
    }
  }

  lemma WatchedDepartsDead(s: Sys, ss: seq<Sys>, es: seq<Event>, i: nat, pid: Pid)
    requires Continues(s, ss, es) && i < |es| && Watched(pid, s) && CleanUntil(pid, ss, es, i)
    ensures !DepartsAlive(pid, ss, i)
  {
    if DepartsAlive(pid, ss, i) {
      StaysWatched(s, ss, es, i, pid);
      if es[i].Settle? {
        assert GroupInv(es[i].flight, pid, ss[i]);
      }
      DepartStep(ss[i], es[i], pid);
    }
  }

  /** A PID leaves the table only when its leader was reaped, always, and its captured group gone, unless
      this very child was registered late. */
  lemma DepartsOnlyDead(ss: seq<Sys>, es: seq<Event>, i: nat, pid: Pid)
    requires IsRun(ss, es) && i < |es|
    requires pid in ss[i].table.processes && pid !in ss[i + 1].table.processes
    ensures pid in ss[i].reaped
    ensures CleanUntil(pid, ss, es, i) ==> !TreeAlive(ss[i], pid, ss[i].table.processes[pid])
  {
    DepartStep(ss[i], es[i], pid);
    assert Continues(INIT_SYS, ss, es) && Watched(pid, INIT_SYS);
    if CleanUntil(pid, ss, es, i) {
      WatchedDepartsDead(INIT_SYS, ss, es, i, pid);
    }
  }

  /** A late registration does lose the group: once the leader is reaped the termination reports success
      and drops the child although its group lives. */
  lemma LateRegistrationLosesGroup(s: Sys, f: nat)
    requires f in s.flights && s.flights[f].phase == Waiting(false)
    requires s.flights[f].pid in s.table.processes && s.table.processes[s.flights[f].pid]
    requires s.flights[f].pid !in s.groupGone
    ensures var pid := s.flights[f].pid;
            var s1 := Apply(s, Reap(pid));
            && Enabled(s1, Settle(f, true))
            && TreeAlive(s1, pid, true)
            && pid !in Apply(s1, Settle(f, true)).table.processes
  {
  }

  /** No continuation, as long as it registers this child in time, takes it off the table alive. */
  ghost predicate DepartsOnlyDeadFrom(pid: Pid, s: Sys) {
    forall ss: seq<Sys>, es: seq<Event>, i: nat ::
      Continues(s, ss, es) && i < |es| && CleanUntil(pid, ss, es, i) ==> !DepartsAlive(pid, ss, i)
  }

  lemma UnwatchedDepartsAlive(s: Sys, f: nat)
    requires f in s.flights && s.flights[f].phase == Waiting(false)
    requires s.flights[f].pid in s.table.processes && s.table.processes[s.flights[f].pid]
    requires s.flights[f].pid !in s.groupGone
    ensures !DepartsOnlyDeadFrom(s.flights[f].pid, s)
  {
    var pid := s.flights[f].pid;
    LateRegistrationLosesGroup(s, f);
    var es := [Reap(pid), Settle(f, true)];
    var s2 := Apply(s, es[0]);
    var ss := [s, s2, Apply(s2, es[1])];
    assert Continues(s, ss, es) && CleanUntil(pid, ss, es, 1) && DepartsAlive(pid, ss, 1);
  }

  /** The exact condition: a step keeps the promise that a child leaves the table only with its group gone
      iff it does not register this child behind the back of its own termination. */
  lemma DepartsOnlyDeadIffClean(s: Sys, e: Event, pid: Pid)
    requires Enabled(s, e) && Watched(pid, s)
    ensures DepartsOnlyDeadFrom(pid, Apply(s, e)) <==> CleanFor(pid, s, e)
  {
    var s1 := Apply(s, e);
    if CleanFor(pid, s, e) {
      WatchedStep(s, e, pid);
      forall ss: seq<Sys>, es: seq<Event>, i: nat | Continues(s1, ss, es) && i < |es| && CleanUntil(pid, ss, es, i)
        ensures !DepartsAlive(pid, ss, i)
      {
        WatchedDepartsDead(s1, ss, es, i, pid);
      }
    } else {
      var f :| f in s.flights && s.flights[f] == Flight(pid, Waiting(false));
      UnwatchedDepartsAlive(s1, f);
    }
  }

  // ---- Shutdown ----

  /** The terminations shutdown awaits for its snapshot have all returned. */
  ghost predicate StopPhaseOver(s: Sys) {
    && s.table.closing
    && forall pid :: pid in s.snapshot ==> pid in s.joined && s.joined[pid] in s.results
  }

  /** When the stop phase is over, every child ever registered, before or after closing began, was reaped
      or has been sent a termination signal. */
  lemma ShutdownReachesEveryChild(ss: seq<Sys>, es: seq<Event>, i: nat, pid: Pid)
    requires IsRun(ss, es) && i < |ss| && StopPhaseOver(ss[i]) && pid in ss[i].registered
    ensures pid in ss[i].reaped || pid in ss[i].signalled
  {
    RunInv(ss, es, i);
    assert ClosingInv(pid, ss[i]) && JoinedInv(pid, ss[i]);
    if pid in ss[i].snapshot {
      assert FlightInv(ss[i].joined[pid], ss[i]);
    }
  }

  /** What shutdown owes a child still in the table: its termination, if the child was there when closing
      began, or a signal at registration. */
  ghost predicate TreeInv(pid: Pid, s: Sys) {
    && (pid in s.joined ==> pid in s.snapshot)
    && (pid in s.snapshot ==> s.table.closing)
    && (pid in s.table.processes ==>
          && (s.table.closing ==> pid in s.snapshot || Told(pid, s.table.processes[pid], s))
          && (pid in s.joined && s.joined[pid] in s.results ==> Told(pid, s.table.processes[pid], s)))
  }

  lemma ToldStays(s: Sys, target: Pid, group: bool, pid: Pid, captured: bool)
    requires Told(pid, captured, s)
    ensures Told(pid, captured, Signal(s, target, group))
  {
  }

  lemma TreeAfterSignal(s: Sys, target: Pid, group: bool, pid: Pid)
    requires TreeInv(pid, s)
    ensures TreeInv(pid, Signal(s, target, group))
  {
    if pid in s.table.processes && Told(pid, s.table.processes[pid], s) {
      ToldStays(s, target, group, pid, s.table.processes[pid]);
    }
  }

  lemma TreeAfterRecord(s: Sys, target: Pid, captured: bool, registryOk: bool, pid: Pid)
    requires TreeInv(pid, s) && target != pid
    ensures TreeInv(pid, StepTrack(s, target, captured, registryOk))
  {
    var s1 := s.(table := Track(s.table, target, captured, registryOk).0, registered := s.registered + {target});
    assert TreeInv(pid, s1);
    TreeAfterSignal(s1, target, captured, pid);
  }

  lemma TreeAfterTrack(s: Sys, captured: bool, registryOk: bool, pid: Pid)
    requires TreeInv(pid, s)
    ensures TreeInv(pid, StepTrack(s, pid, captured, registryOk))
  {
  }

  lemma TreeAfterStart(s: Sys, f: nat, pid: Pid)
    requires f in s.flights && TreeInv(pid, s)
    ensures TreeInv(pid, StepStart(s, f))
  {
    var target := s.flights[f].pid;
    var captured := target in s.table.processes && s.table.processes[target];
    TreeAfterSignal(s.(flights := s.flights[f := Flight(target, Waiting(captured))]), target, captured, pid);
  }

  lemma TreeAfterSettle(s: Sys, f: nat, stopped: bool, pid: Pid)
    requires Enabled(s, Settle(f, stopped)) && TreeInv(pid, s)
    requires FlightInv(f, s) && GroupInv(f, pid, s) && JoinedInv(pid, s)
    ensures TreeInv(pid, StepSettle(s, f, stopped))
  {
  }

  lemma TreeAfterJoin(s: Sys, target: Pid, next: nat, pid: Pid)
    requires Enabled(s, ShutdownJoins(target, next)) && TreeInv(pid, s) && TerminationInv(target, s)
    requires target in s.table.terminations ==> FlightInv(s.table.terminations[target], s)
    ensures TreeInv(pid, Apply(s, ShutdownJoins(target, next)))
  {
  }

  lemma TreeStep(s: Sys, e: Event, pid: Pid)
    requires Inv(s) && Enabled(s, e) && Watched(pid, s) && TreeInv(pid, s)
    ensures TreeInv(pid, Apply(s, e))
  {
    match e
    case TrackChild(target, captured, registryOk) =>
      if target == pid {
        TreeAfterTrack(s, captured, registryOk, pid);
      } else {
        TreeAfterRecord(s, target, captured, registryOk, pid);
      }
    case Start(f) => TreeAfterStart(s, f, pid);
    case Escalate(f) => TreeAfterSignal(s, s.flights[f].pid, s.flights[f].phase.captured, pid);
    case Settle(f, stopped) =>
      assert FlightInv(f, s) && GroupInv(f, pid, s) && JoinedInv(pid, s);
      TreeAfterSettle(s, f, stopped, pid);
    case ShutdownJoins(target, next) =>
      assert TerminationInv(target, s);
      assert target in s.table.terminations ==> FlightInv(s.table.terminations[target], s);
      TreeAfterJoin(s, target, next, pid);
    case _ =>
  }

  lemma {:induction false} StaysOwed(ss: seq<Sys>, es: seq<Event>, i: nat, pid: Pid)
    requires IsRun(ss, es) && i < |ss| && CleanUntil(pid, ss, es, i)
    ensures Watched(pid, ss[i]) && TreeInv(pid, ss[i])
  {
    if i > 0 {
      StaysOwed(ss, es, i - 1, pid);
      RunInv(ss, es, i - 1);
      assert CleanFor(pid, ss[i - 1], es[i - 1]);
      WatchedStep(ss[i - 1], es[i - 1], pid);
      TreeStep(ss[i - 1], es[i - 1], pid);
    }
  }

  /** The child is still on record as it was, or its tree is gone. */
  ghost predicate KeptOrGone(pid: Pid, captured: bool, s: Sys) {
    (pid in s.table.processes && s.table.processes[pid] == captured) || !TreeAlive(s, pid, captured)
  }

  lemma RecordAfterTrack(s: Sys, target: Pid, captured: bool, registryOk: bool, pid: Pid)
    requires pid in s.table.processes
    ensures var s1 := StepTrack(s, target, captured, registryOk);
            pid in s1.table.processes && s1.table.processes[pid] == s.table.processes[pid]
  {
  }

  lemma RecordStays(s: Sys, e: Event, pid: Pid)
    requires Enabled(s, e) && pid in s.table.processes && pid in Apply(s, e).table.processes
    ensures Apply(s, e).table.processes[pid] == s.table.processes[pid]
  {
    match e
    case TrackChild(target, captured, registryOk) => RecordAfterTrack(s, target, captured, registryOk, pid);
    case _ =>
  }

  lemma GoneStays(s: Sys, e: Event, pid: Pid, captured: bool)
    requires Enabled(s, e) && !TreeAlive(s, pid, captured)
    ensures !TreeAlive(Apply(s, e), pid, captured)
  {
  }

  lemma KeptOrGoneStep(s: Sys, e: Event, pid: Pid, captured: bool)
    requires Enabled(s, e) && Watched(pid, s) && KeptOrGone(pid, captured, s)
    ensures KeptOrGone(pid, captured, Apply(s, e))
  {
    if !TreeAlive(s, pid, captured) {
      GoneStays(s, e, pid, captured);
    } else if pid in Apply(s, e).table.processes {
      RecordStays(s, e, pid);
    } else {
      if e.Settle? {
        assert GroupInv(e.flight, pid, s);
      }
      DepartStep(s, e, pid);
    }
  }

  lemma {:induction false} StaysKeptOrGone(
    ss: seq<Sys>, es: seq<Event>, i0: nat, i: nat, pid: Pid)
    requires IsRun(ss, es) && i0 <= i < |ss| && CleanUntil(pid, ss, es, i) && pid in ss[i0].table.processes
    ensures KeptOrGone(pid, ss[i0].table.processes[pid], ss[i])
  {
    if i0 < i {
      StaysKeptOrGone(ss, es, i0, i - 1, pid);
      StaysOwed(ss, es, i - 1, pid);
      KeptOrGoneStep(ss[i - 1], es[i - 1], pid, ss[i0].table.processes[pid]);
    }
  }

  /** And its whole tree with it: a child ever registered in time, whether still on record or not, has had
      the signal sent to its captured group, whatever became of the leader, or nothing of the tree is left. */
  lemma ShutdownReachesEveryTree(ss: seq<Sys>, es: seq<Event>, i0: nat, i: nat, pid: Pid)
    requires IsRun(ss, es) && i0 <= i < |ss| && StopPhaseOver(ss[i]) && CleanUntil(pid, ss, es, i)
    requires pid in ss[i0].table.processes
    ensures Told(pid, ss[i0].table.processes[pid], ss[i])
  {
    StaysOwed(ss, es, i, pid);
    StaysKeptOrGone(ss, es, i0, i, pid);
  }

  /** The gap as a run: a termination starts, its child is registered with its group, the leader is reaped,
      and the termination drops the child while the group lives. */
  lemma GroupLostInRun() returns (ss: seq<Sys>, es: seq<Event>)
    ensures IsRun(ss, es) && |ss| == 6
    ensures 7 in ss[4].table.processes && ss[4].table.processes[7] && TreeAlive(ss[4], 7, true)
    ensures 7 !in ss[5].table.processes && TreeAlive(ss[5], 7, true)
  {
    es := [Terminate(0, 7, 0), Start(0), TrackChild(7, true, true), Reap(7), Settle(0, true)];
    var s1 := Apply(INIT_SYS, es[0]);
    var s2 := Apply(s1, es[1]);
    var s3 := Apply(s2, es[2]);
    var s4 := Apply(s3, es[3]);
    ss := [INIT_SYS, s1, s2, s3, s4, Apply(s4, es[4])];
  }

  // ---- What each call does ----

  /** What a signal reaches, and only while there is something to reach: the captured group with its leader, or
      the bare leader. */
  ghost predicate Reached(s: Sys, s': Sys, pid: Pid, captured: bool) {
    var alive := pid !in s.reaped || (captured && pid !in s.groupGone);
    && s'.signalled == s.signalled + (if alive then {pid} else {})
    && s'.groupSignalled == s.groupSignalled + (if alive && captured then {pid} else {})
  }

  ghost predicate NotReached(s: Sys, s': Sys) {
    s'.signalled == s.signalled && s'.groupSignalled == s.groupSignalled
  }

  /** Registering a child twice does nothing; a new one is on record from then on with the group captured for
      it, and is signalled at once iff its registration failed or the shutdown has begun. */
  lemma TrackAnswer(s: Sys, pid: Pid, captured: bool, registryOk: bool)
    requires Enabled(s, TrackChild(pid, captured, registryOk))
    ensures var s' := Apply(s, TrackChild(pid, captured, registryOk));
            var outcome := Track(s.table, pid, captured, registryOk).1;
            && s'.registered == s.registered + {pid} && s'.table.closing == s.table.closing
            && s'.table.terminations == s.table.terminations
            && (if pid in s.table.processes then
                  outcome.AlreadyTracked? && s'.table.processes == s.table.processes && NotReached(s, s')
                else
                  && s'.table.processes == s.table.processes[pid := captured]
                  && (if !registryOk then outcome.RegistryUnavailable? && Reached(s, s', pid, captured)
                      else if s.table.closing then outcome.Closing? && Reached(s, s', pid, captured)
                      else outcome.Tracked? && NotReached(s, s')))
  {
  }

  /** A child is taken off the record exactly when its leader was reaped and its captured group is gone, and no
      other child with it. */
  lemma UntrackAnswer(s: Sys, pid: Pid, other: Pid)
    requires pid in s.table.processes
    ensures var s' := Apply(s, UntrackChild(pid));
            && (pid !in s'.table.processes <==> pid in s.reaped && (s.table.processes[pid] ==> pid in s.groupGone))
            && (other != pid ==> (other in s'.table.processes <==> other in s.table.processes))
            && s' == s.(table := s.table.(processes := s'.table.processes))
  {
  }

  /** The answer says whether the child is off the record, which force always achieves. */
  lemma UntrackSays(t: Table, pid: Pid, alive: bool)
    ensures var (t', retired) := Untrack(t, pid, alive);
            (retired <==> pid !in t'.processes) && (!alive ==> retired)
  {
  }

  /** Asking to terminate joins the termination that runs for the PID, or else starts one. */
  lemma TerminateAnswer(s: Sys, caller: nat, pid: Pid, next: nat)
    requires Inv(s) && Enabled(s, Terminate(caller, pid, next))
    ensures var s' := Apply(s, Terminate(caller, pid, next));
            && s'.callers.Keys == s.callers.Keys + {caller} && s'.callers[caller].pid == pid
            && s'.table.processes == s.table.processes
            && var f := s'.callers[caller].flight;
               if exists g :: g in s.flights && s.flights[g].pid == pid then
                 f in s.flights && s.flights[f].pid == pid && s'.flights == s.flights
               else f == next && s'.flights == s.flights[next := Flight(pid, Created)]
  {
    assert TerminationInv(pid, s);
    forall g | g in s.flights && s.flights[g].pid == pid ensures pid in s.table.terminations {
      assert FlightInv(g, s);
    }
  }

  /** A termination that starts signals the tree on record for its PID, or the bare leader if there is none, and
      waits for that; when it escalates it signals it again. It can report success exactly when the leader was
      reaped and the group, if it watches one, is gone. */
  lemma SignalAnswer(s: Sys, f: nat)
    requires f in s.flights
    ensures Enabled(s, Start(f)) ==>
              var s', pid := Apply(s, Start(f)), s.flights[f].pid;
              var captured := pid in s.table.processes && s.table.processes[pid];
              s'.flights == s.flights[f := Flight(pid, Waiting(captured))] && Reached(s, s', pid, captured)
    ensures Enabled(s, Escalate(f)) ==>
              var s' := Apply(s, Escalate(f));
              s'.flights == s.flights && Reached(s, s', s.flights[f].pid, s.flights[f].phase.captured)
    ensures Enabled(s, Settle(f, true)) <==>
              && s.flights[f].phase.Waiting? && s.flights[f].pid in s.reaped
              && (s.flights[f].phase.captured ==> s.flights[f].pid in s.groupGone)
  {
  }

  /** A termination that ends gives its result to whoever awaits it and makes room for the next one; it takes
      its child off the record iff it reports success, and no other child ever. */
  lemma SettleAnswer(s: Sys, f: nat, stopped: bool, other: Pid)
    requires Inv(s) && Enabled(s, Settle(f, stopped))
    ensures var s', pid := Apply(s, Settle(f, stopped)), s.flights[f].pid;
            && f !in s'.flights && s'.results == s.results[f := stopped] && pid !in s'.table.terminations
            && (pid in s'.table.processes <==> pid in s.table.processes && !stopped)
            && (other != pid ==>
                  && (other in s'.table.processes <==> other in s.table.processes)
                  && (other in s'.table.terminations <==> other in s.table.terminations))
  {
    assert FlightInv(f, s);
  }

  /** Shutdown closes the door and takes note of exactly the children then on record; for each it awaits a
      termination of that child, the running one if there is one. */
  lemma ShutdownAnswer(s: Sys, pid: Pid, next: nat)
    requires Inv(s)
    ensures Enabled(s, Shutdown) ==>
              var s' := Apply(s, Shutdown);
              && s'.table.closing && s'.table.processes == s.table.processes
              && (pid in s'.snapshot <==> pid in s.table.processes)
    ensures Enabled(s, ShutdownJoins(pid, next)) ==>
              var s' := Apply(s, ShutdownJoins(pid, next));
              && s'.joined.Keys == s.joined.Keys + {pid} && s'.joined[pid] in s'.flights
              && s'.flights[s'.joined[pid]].pid == pid && s'.flights.Keys <= s.flights.Keys + {next}
  {
    assert TerminationInv(pid, s);
  }
}
