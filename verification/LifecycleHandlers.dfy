/** Stop, pause, resume, complete and delete on one continuous task (bot/lifecycle_macros.py), against a
    child agent that writes the state file while it lives and a scheduler that dispatches it. */
module LifecycleHandlers {
  import opened Common
  import opened LifecycleStates

  /** The lifecycle part of `state.json`. `id` may be missing in old files. */
  datatype Doc = Doc(id: Option<nat>, status: Status, deleteInProgress: bool, referencePending: bool)

  /** What the handlers read and write: the state file and the queue entry. */
  datatype Files = Files(state: Option<Doc>, queued: bool)

  datatype Macro = Stop | Pause | Resume | Complete | Delete

  /** Where the operation that owns the task's lifecycle lock waits. */
  datatype Wait =
    | Draining(macro: Macro, fallback: Doc)  // the child is being terminated
    | Closing(macro: Macro, doc: Doc)        // notices and topic calls before the final write

  predicate Terminal(s: Status) {
    s.Completed? || s.Deleted?
  }

  predicate Resumable(s: Status) {
    s.Stopped? || s.RateLimited? || s.AwaitingInput? || s.Error?
  }

  // ---- The handlers' regions between awaits ----

  /** From the fresh load under the lock to the first await. */
  function Head(f: Files, macro: Macro, doc: Doc): (Files, Option<Wait>) {
    match macro
    case Resume =>
      if Resumable(doc.status) then (f, Some(Closing(Resume, doc))) else (f, None)
    case Delete =>
      if doc.status.Deleted? then (f.(queued := false), None)
      else
        var marked := doc.(deleteInProgress := true);
        (Files(Some(marked), false), Some(Draining(Delete, marked)))
    case Complete =>
      if Terminal(doc.status) then (f, None) else (f.(queued := false), Some(Draining(Complete, doc)))
    case _ =>
      if doc.status.Stopped? then (f.(queued := false), None)
      else if Terminal(doc.status) then (f, None)
      else (f.(queued := false), Some(Draining(macro, doc)))
  }

  /** Reload after the drain: a terminal status that won meanwhile stands, except against delete. */
  function Reload(f: Files, w: Wait): Option<Wait>
    requires w.Draining?
  {
    var doc := if f.state.Some? then f.state.value else w.fallback;
    if w.macro.Delete? || !Terminal(doc.status) then Some(Closing(w.macro, doc)) else None
  }

  function FinalStatus(macro: Macro): Status {
    match macro
    case Resume => Pending
    case Complete => Completed
    case Delete => Deleted
    case _ => Stopped
  }

  /** The final write. Resume reactivates the queue entry first; delete clears its intent marker. */
  function Finish(f: Files, w: Wait): Files
    requires w.Closing?
  {
    var doc := w.doc.(status := FinalStatus(w.macro));
    match w.macro
    case Resume => Files(Some(doc), true)
    case Delete => Files(Some(doc.(deleteInProgress := false, referencePending := false)), false)
    case _ => f.(state := Some(doc))
  }

  /** Delete records in between that its topic reference was sent. */
  function RecordReference(f: Files, w: Wait): (Files, Wait)
    requires w.Closing?
  {
    var doc := w.doc.(referencePending := false);
    (f.(state := Some(doc)), w.(doc := doc))
  }

  class TaskFiles {
    var state: Option<Doc>
    var queued: bool

    function View(): Files
      reads this
    {
      Files(state, queued)
    }

    constructor (f: Files)
      ensures View() == f
    {
      state, queued := f.state, f.queued;
    }

    method StopHead(macro: Macro, doc: Doc) returns (wait: Option<Wait>)
      requires macro.Stop? || macro.Pause?
      modifies this
      ensures (View(), wait) == Head(old(View()), macro, doc)
    {
      if doc.status == Stopped {
        queued := false;
        return None;
      }
      if doc.status == Completed || doc.status == Deleted {
        return None;
      }
      queued := false;
      wait := Some(Draining(macro, doc));
    }

    method CompleteHead(doc: Doc) returns (wait: Option<Wait>)
      modifies this
      ensures (View(), wait) == Head(old(View()), Complete, doc)
    {
      if doc.status == Completed || doc.status == Deleted {
        return None;
      }
      queued := false;
      wait := Some(Draining(Complete, doc));
    }

    method DeleteHead(doc: Doc) returns (wait: Option<Wait>)
      modifies this
      ensures (View(), wait) == Head(old(View()), Delete, doc)
    {
      if doc.status == Deleted {
        queued := false;
        return None;
      }
      var marked := doc.(deleteInProgress := true);
      state := Some(marked);
      queued := false;
      wait := Some(Draining(Delete, marked));
    }

    method ResumeHead(doc: Doc) returns (wait: Option<Wait>)
      ensures (View(), wait) == Head(View(), Resume, doc)
    {
      if doc.status != Stopped && doc.status != RateLimited && doc.status != AwaitingInput && doc.status != Error {
        return None;
      }
      wait := Some(Closing(Resume, doc));
    }

    method ReloadAfterDrain(macro: Macro, fallback: Doc) returns (wait: Option<Wait>)
      ensures wait == Reload(View(), Draining(macro, fallback))
    {
      var doc := fallback;
      if state != None {
        doc := state.value;
      }
      if macro != Delete && (doc.status == Completed || doc.status == Deleted) {
        return None;
      }
      wait := Some(Closing(macro, doc));
    }

    method FinishMacro(macro: Macro, doc: Doc)
      modifies this
      ensures View() == Finish(old(View()), Closing(macro, doc))
    {
      var final := doc;
      match macro {
        case Resume =>
          queued := true;
          final := final.(status := Pending);
        case Complete =>
          final := final.(status := Completed);
        case Delete =>
          final := final.(status := Deleted);
          final := final.(deleteInProgress := false, referencePending := false);
          queued := false;
        case _ =>
          final := final.(status := Stopped);
      }
      state := Some(final);
    }
  }

  // ---- One task, its operations, its child and the scheduler ----

  /** `matched` holds the operations that have picked this task and wait for its lock, with the id they
      saw; `owner` is the one inside the lock (the registry admits one). */
  datatype Sys = Sys(files: Files, child: bool, matched: map<nat, (Macro, Option<nat>)>, owner: Option<Wait>)

  datatype Event =
    | ChildWrites(doc: Doc)
    | ChildExits
    | Dispatch
    | Recreate(doc: Doc)
    | Match(op: nat, macro: Macro)
    | Begin(op: nat)
    | DrainReturns(stopped: bool)
    | ReferenceSent
    | Close
    | Abort

  predicate Environment(e: Event) {
    e.ChildWrites? || e.ChildExits? || e.Dispatch? || e.Recreate?
  }

  /** A status the scheduler may turn into a running step (a rate limit may have expired). */
  predicate Dispatchable(f: Files) {
    f.queued && f.state.Some? && (f.state.value.status.Pending? || f.state.value.status.RateLimited?)
  }

  predicate Enabled(s: Sys, e: Event) {
    match e
    case ChildWrites(_) => s.child
    case ChildExits => s.child
    case Dispatch => Dispatchable(s.files) && !s.child
    case Recreate(doc) =>
      && s.owner.None? && !s.child && doc.status.Pending?
      && (s.files.state.None? || s.files.state.value.status.Deleted?)
    case Match(op, _) => op !in s.matched && s.files.state.Some?
    case Begin(op) => op in s.matched && s.owner.None?
    case DrainReturns(_) => s.owner.Some? && s.owner.value.Draining?
    case ReferenceSent => s.owner.Some? && s.owner.value.Closing? && s.owner.value.macro.Delete?
                          && s.owner.value.doc.referencePending
    case Close => s.owner.Some? && s.owner.value.Closing?
    case Abort => s.owner.Some?
  }

  /** Both ids known and different: the name was reused since the operation matched it. */
  predicate GenerationChanged(expected: Option<nat>, current: Option<nat>) {
    expected.Some? && current.Some? && expected != current
  }

  predicate Proceeds(s: Sys, op: nat)
    requires op in s.matched
  {
    s.files.state.Some? && !GenerationChanged(s.matched[op].1, s.files.state.value.id)
  }

  function Apply(s: Sys, e: Event): Sys
    requires Enabled(s, e)
  {
    match e
    case ChildWrites(doc) => s.(files := s.files.(state := Some(doc)))
    case ChildExits => s.(child := false)
    case Dispatch => s.(child := true, files := s.files.(state := Some(s.files.state.value.(status := Running))))
    case Recreate(doc) => s.(files := Files(Some(doc), true))
    case Match(op, macro) => s.(matched := s.matched[op := (macro, s.files.state.value.id)])
    case Begin(op) =>
      var s1 := s.(matched := s.matched - {op});
      if !Proceeds(s, op) then s1
      else
        var (f, wait) := Head(s.files, s.matched[op].0, s.files.state.value);
        s1.(files := f, owner := wait)
    case DrainReturns(stopped) =>
      if stopped then s.(child := false, owner := Reload(s.files, s.owner.value)) else s.(owner := None)
    case ReferenceSent =>
      var (f, w) := RecordReference(s.files, s.owner.value);
      s.(files := f, owner := Some(w))
    case Close => s.(files := Finish(s.files, s.owner.value), owner := None)
    case Abort => s.(owner := None)
  }

  // ---- Terminal safety ----

  /** Nothing can write the file until someone else acts: no child, and none about to be dispatched. */
  predicate Quiet(s: Sys) {
    !s.child && !Dispatchable(s.files)
  }

  /** The final write of a drained operation meets the file it reloaded, and nobody else can write it.
      Resume does not drain: all that stays is that its own copy was resumable and the file is there. */
  ghost predicate Inv(s: Sys) {
    match s.owner
    case None => true
    case Some(Draining(macro, _)) => !s.files.queued && !macro.Resume?
    case Some(Closing(macro, doc)) =>
      if macro.Resume? then Resumable(doc.status) && s.files.state.Some?
      else
        && (s.files.state.Some? ==> s.files.state.value == doc)
        && !s.child && !s.files.queued
        && (!macro.Delete? ==> !Terminal(doc.status))
  }

  lemma StepKeepsInv(s: Sys, e: Event)
    requires Inv(s) && Enabled(s, e)
    ensures Inv(Apply(s, e))
  {
  }

  /** Completed gives way only to deleted, and deleted to nothing. */
  predicate KeepsTerminal(before: Files, after: Files) {
    before.state.Some? && before.state.value.status in {Completed, Deleted} ==>
      && after.state.Some?
      && (after.state.value.status == before.state.value.status || after.state.value.status == Deleted)
  }

  ghost predicate IsRun(ss: seq<Sys>, es: seq<Event>) {
    && |ss| == |es| + 1
    && ss[0].owner.None?
    && forall i :: 0 <= i < |es| ==> Enabled(ss[i], es[i]) && ss[i + 1] == Apply(ss[i], es[i])
  }

  lemma {:induction false} RunInv(ss: seq<Sys>, es: seq<Event>, i: nat)
    requires IsRun(ss, es) && i < |ss|
    ensures Inv(ss[i])
  {
    if i > 0 {
      RunInv(ss, es, i - 1);
      StepKeepsInv(ss[i - 1], es[i - 1]);
    }
  }

  /** The final write of a resume, on a task that has become terminal since its status check. */
  predicate OvertakenResume(s: Sys, e: Event) {
    e.Close? && s.owner.Some? && s.owner.value.macro.Resume?
    && s.files.state.Some? && s.files.state.value.status in {Completed, Deleted}
  }

  /** Over any interleaving of the five operations with the child, the scheduler and re-creation, a handler
      step overwrites completed with anything but deleted, or overwrites deleted, exactly when it is the
      final write of an overtaken resume; and every operation that runs works on the task id it matched. */
  lemma TerminalSafety(ss: seq<Sys>, es: seq<Event>, i: nat)
    requires IsRun(ss, es) && i < |es| && !Environment(es[i])
    ensures KeepsTerminal(ss[i].files, ss[i + 1].files) <==> !OvertakenResume(ss[i], es[i])
    ensures es[i].Begin? && (ss[i + 1].files != ss[i].files || ss[i + 1].owner.Some?) ==>
              && ss[i].files.state.Some?
              && (ss[i].matched[es[i].op].1.Some? && ss[i].files.state.value.id.Some? ==>
                    ss[i].files.state.value.id == ss[i].matched[es[i].op].1)
  {
    RunInv(ss, es, i);
  }

  /** The status change of a final write is an edge of the transition table, except exactly for complete
      from pending or error and for an overtaken resume. */
  lemma StatusChangesAreEdges(ss: seq<Sys>, es: seq<Event>, i: nat)
    requires IsRun(ss, es) && i < |es| && es[i].Close? && ss[i].files.state.Some?
    ensures var from, to := ss[i].files.state.value.status, ss[i + 1].files.state.value.status;
            from == to || to in Transitions(from) <==>
            && !(ss[i].owner.value.macro.Complete? && (from.Pending? || from.Error?))
            && !(ss[i].owner.value.macro.Resume? && from in {Completed, Deleted})
  {
    RunInv(ss, es, i);
  }

  // ---- When resume is safe ----

  /** Environment events that leave the lock's owner waiting. */
  ghost predicate IsWindow(ss: seq<Sys>, es: seq<Event>) {
    && |ss| == |es| + 1
    && forall i :: 0 <= i < |es| ==> Environment(es[i]) && Enabled(ss[i], es[i]) && ss[i + 1] == Apply(ss[i], es[i])
  }

  ghost predicate CloseStaysSafe(s: Sys)
    requires Enabled(s, Close)
  {
    forall ss: seq<Sys>, es: seq<Event> | IsWindow(ss, es) && ss[0] == s ::
      KeepsTerminal(ss[|es|].files, Finish(ss[|es|].files, s.owner.value))
  }

  /** On a quiet task nobody outside the lock can act while its owner waits. */
  lemma QuietWindowIsEmpty(ss: seq<Sys>, es: seq<Event>)
    requires IsWindow(ss, es) && ss[0].owner.Some? && Quiet(ss[0])
    ensures es == []
  {
    assert |es| > 0 ==> !Enabled(ss[0], es[0]);
  }

  /** In a run: the resume that began at step b on a quiet task still meets, at step k, the file it read. */
  lemma {:induction false} QuietResumeHolds(ss: seq<Sys>, es: seq<Event>, b: nat, k: nat)
    requires IsRun(ss, es) && b < k < |ss| && es[b].Begin? && Quiet(ss[b])
    requires ss[b].matched[es[b].op].0.Resume? && ss[b + 1].owner.Some?
    requires forall m :: b < m < k ==> !es[m].Close? && !es[m].Abort?
    ensures ss[k].files == ss[b].files && Quiet(ss[k])
    ensures ss[k].owner.Some? && ss[k].owner.value.Closing? && ss[k].owner.value.macro.Resume?
    ensures ss[k].files.state.Some? && Resumable(ss[k].files.state.value.status)
  {
    if k > b + 1 {
      QuietResumeHolds(ss, es, b, k - 1);
      assert Enabled(ss[k - 1], es[k - 1]);
    }
  }

  /** So a resume that is overtaken did not begin on a quiet task. */
  lemma OvertakenResumeBeganUnquiet(ss: seq<Sys>, es: seq<Event>, b: nat, c: nat)
    requires IsRun(ss, es) && b < c < |es| && es[b].Begin? && OvertakenResume(ss[c], es[c])
    requires ss[b].matched[es[b].op].0.Resume? && ss[b + 1].owner.Some?
    requires forall m :: b < m < c ==> !es[m].Close? && !es[m].Abort?
    ensures !Quiet(ss[b])
  {
    if Quiet(ss[b]) {
      QuietResumeHolds(ss, es, b, c);
    }
  }

  lemma QuietIff(s: Sys)
    requires s.files.state.Some? && Resumable(s.files.state.value.status)
    ensures Quiet(s) <==> !s.child && !(s.files.queued && s.files.state.value.status == RateLimited)
  {
  }

  /** A resume that has passed its status check is safe, whatever happens before its write, iff the task
      was quiet when it started: the code never drains, so a living child (or a step the scheduler starts
      on an expired rate limit) can still complete the task and be overwritten with pending. */
  lemma ResumeSafeIffQuiet(s: Sys, op: nat)
    requires Enabled(s, Begin(op)) && s.matched[op].0.Resume? && Proceeds(s, op)
    requires Resumable(s.files.state.value.status)
    ensures Enabled(Apply(s, Begin(op)), Close)
    ensures CloseStaysSafe(Apply(s, Begin(op))) <==>
            !s.child && !(s.files.queued && s.files.state.value.status == RateLimited)
  {
    QuietIff(s);
    var w := Apply(s, Begin(op));
    if Quiet(s) {
      forall ss: seq<Sys>, es: seq<Event> | IsWindow(ss, es) && ss[0] == w
        ensures KeepsTerminal(ss[|es|].files, Finish(ss[|es|].files, w.owner.value))
      {
        QuietWindowIsEmpty(ss, es);
      }
    } else {
      var done := s.files.state.value.(status := Completed);
      if s.child {
        var w1 := Apply(w, ChildWrites(done));
        assert IsWindow([w, w1], [ChildWrites(done)]);
        assert !KeepsTerminal(w1.files, Finish(w1.files, w.owner.value));
      } else {
        var w1 := Apply(w, Dispatch);
        var w2 := Apply(w1, ChildWrites(done));
        assert IsWindow([w, w1, w2], [Dispatch, ChildWrites(done)]);
        assert !KeepsTerminal(w2.files, Finish(w2.files, w.owner.value));
      }
    }
  }

  /** A resume of a task in error while its child still lives: the child completes the task, and the final
      write makes it pending again. */
  lemma ResumeOverwritesCompleted() returns (ss: seq<Sys>, es: seq<Event>)
    ensures IsRun(ss, es) && |ss| == 5 && es[3].Close?
    ensures ss[3].files.state.Some? && ss[3].files.state.value.status == Completed
    ensures ss[4].files.state.Some? && ss[4].files.state.value.status == Pending
  {
    var doc := Doc(Some(1), Error, false, false);
    es := [Match(0, Resume), Begin(0), ChildWrites(doc.(status := Completed)), Close];
    var s0 := Sys(Files(Some(doc), true), true, map[], None);
    var s1 := Apply(s0, es[0]);
    var s2 := Apply(s1, es[1]);
    var s3 := Apply(s2, es[2]);
    ss := [s0, s1, s2, s3, Apply(s3, es[3])];
  }

  /** Completing a pending task: a change of status the transition table does not have. */
  lemma CompleteFromPendingIsNoEdge() returns (ss: seq<Sys>, es: seq<Event>)
    ensures IsRun(ss, es) && |ss| == 5 && es[3].Close?
    ensures ss[3].files.state.Some? && ss[4].files.state.Some?
    ensures ss[4].files.state.value.status == Completed
            && Completed !in Transitions(ss[3].files.state.value.status)
  {
    var doc := Doc(Some(1), Pending, false, false);
    es := [Match(0, Complete), Begin(0), DrainReturns(true), Close];
    var s0 := Sys(Files(Some(doc), true), false, map[], None);
    var s1 := Apply(s0, es[0]);
    var s2 := Apply(s1, es[1]);
    var s3 := Apply(s2, es[2]);
    ss := [s0, s1, s2, s3, Apply(s3, es[3])];
  }

  // ---- What each operation comes to ----

  /** One operation that nobody interferes with: begin, drain until the child is gone, final write. */
  function Alone(s: Sys, op: nat): Sys
    requires Enabled(s, Begin(op))
  {
    var s1 := Apply(s, Begin(op));
    var s2 := if s1.owner.Some? && s1.owner.value.Draining? then Apply(s1, DrainReturns(true)) else s1;
    if s2.owner.Some? then Apply(s2, Close) else s2
  }

  /** The task the operation matched is gone, or its name now belongs to another one. */
  predicate Vanished(f: Files, matched: Option<nat>) {
    f.state.None? || (matched.Some? && f.state.value.id.Some? && f.state.value.id != matched)
  }

  /** Which tasks each operation accepts, and what it leaves of them: the file, the queue entry, the child. An
      operation that is refused changes nothing, apart from the queue entry of a task that has already been
      stopped or deleted. */
  lemma AloneOutcome(s: Sys, op: nat)
    requires Enabled(s, Begin(op))
    ensures var macro, matched := s.matched[op].0, s.matched[op].1;
            var f, s' := s.files, Alone(s, op);
            && s'.owner.None? && s'.matched == s.matched - {op}
            && if Vanished(f, matched) then s'.files == f && s'.child == s.child
               else
                 var doc := f.state.value;
                 match macro
                 case Resume =>
                   && s'.child == s.child
                   && s'.files == if doc.status in {Stopped, RateLimited, AwaitingInput, Error}
                                  then Files(Some(doc.(status := Pending)), true) else f
                 case Complete =>
                   if doc.status in {Completed, Deleted} then s'.files == f && s'.child == s.child
                   else s'.files == Files(Some(doc.(status := Completed)), false) && !s'.child
                 case Delete =>
                   if doc.status == Deleted then s'.files == f.(queued := false) && s'.child == s.child
                   else
                     && !s'.child && !s'.files.queued
                     && s'.files.state == Some(Doc(doc.id, Deleted, false, false))
                 case _ =>
                   if doc.status in {Completed, Deleted} then s'.files == f && s'.child == s.child
                   else if doc.status == Stopped then s'.files == f.(queued := false) && s'.child == s.child
                   else s'.files == Files(Some(doc.(status := Stopped)), false) && !s'.child
  {
  }

  /** Before an operation waits for the child, the queue entry is off, and a delete has put its intent on disk,
      so that a crash in between is seen; sending the reference clears only the mark for it, and the delete goes
      on. An operation that aborts leaves the files as they are. */
  lemma WaitsAreRecorded(s: Sys, e: Event)
    requires Enabled(s, e)
    ensures e.Begin? && Apply(s, e).owner.Some? && Apply(s, e).owner.value.Draining? ==>
              && !Apply(s, e).files.queued
              && Apply(s, e).files.state ==
                 if s.matched[e.op].0.Delete? then Some(s.files.state.value.(deleteInProgress := true))
                 else s.files.state
    ensures e.ReferenceSent? ==>
              var doc := s.owner.value.doc.(referencePending := false);
              Apply(s, e) == s.(owner := Some(Closing(Delete, doc)), files := s.files.(state := Some(doc)))
    ensures e.Abort? ==> Apply(s, e) == s.(owner := None)
  {
  }

  /** What the rest of the world can do to one task: a living child writes or exits, a queued pending or
      rate-limited task without a child starts to run, a deleted one is made anew. */
  lemma EnvironmentAnswer(s: Sys, e: Event)
    requires Environment(e) && Enabled(s, e)
    ensures Apply(s, e).owner == s.owner && Apply(s, e).matched == s.matched
    ensures match e
            case ChildWrites(doc) => s.child && Apply(s, e).files == Files(Some(doc), s.files.queued)
            case ChildExits => s.child && !Apply(s, e).child && Apply(s, e).files == s.files
            case Dispatch =>
              && !s.child && s.files.queued && s.files.state.Some?
              && s.files.state.value.status in {Pending, RateLimited}
              && Apply(s, e).child && Apply(s, e).files == Files(Some(s.files.state.value.(status := Running)), true)
            case Recreate(doc) =>
              && s.owner.None? && !s.child && doc.status == Pending && Apply(s, e).files == Files(Some(doc), true)
              && (s.files.state.Some? ==> s.files.state.value.status == Deleted)
            case _ => false
  {
  }

  /** A drain that fails gives up and changes nothing; one that succeeds leaves no child, and the operation
      goes on with the state it finds, or if it is gone with the one it had, unless that has ended meanwhile. */
  lemma DrainAnswer(s: Sys, stopped: bool)
    requires Enabled(s, DrainReturns(stopped))
    ensures var s', w := Apply(s, DrainReturns(stopped)), s.owner.value;
            var doc := if s.files.state.Some? then s.files.state.value else w.fallback;
            && s'.files == s.files && s'.child == (s.child && !stopped)
            && s'.owner == if stopped && (w.macro == Delete || doc.status !in {Completed, Deleted})
                           then Some(Closing(w.macro, doc)) else None
  {
  }
}
