/** The revisioned program of a continuous task (bot/continuous.py): `program.json` is authoritative
    over `state.json` and `plan.md`, which stale writers and a child agent may rewrite. */
module ProgramAuthority {
  import opened Common

  /** A program document; only its identity matters here. */
  type Program = nat

  /** `state.json`: the program it carries, if any, and everything else as one value. */
  datatype Doc = Doc(program: Option<Program>, revision: nat, rest: nat)

  /** `program.json`. A record made from a legacy state has no plan text. */
  datatype Record = Record(revision: nat, program: Program, plan: Option<string>)

  datatype World = World(state: Option<Doc>, sidecar: Option<Record>, plan: Option<string>)

  // ---- The operations, as the worlds between their atomic file replacements ----

  function RepairPlan(w: World, r: Record): World {
    if r.plan.Some? && w.plan != r.plan then w.(plan := r.plan) else w
  }

  /** The record that is authoritative for a state carrying `program`; None is an integrity failure:
      a positive revision without its sidecar. */
  function Authority(w: World, program: Program, revision: nat): Option<Record> {
    if w.sidecar.Some? then w.sidecar
    else if revision > 0 then None
    else Some(Record(0, program, None))
  }

  function Overlaid(w: World, doc: Doc): Option<Doc> {
    if doc.program.None? then Some(doc)
    else
      match Authority(w, doc.program.value, doc.revision)
      case None => None
      case Some(r) => Some(doc.(program := Some(r.program), revision := r.revision))
  }

  function OverlayTrace(w: World, doc: Doc): (t: seq<World>)
    ensures t != [] && t[0] == w
  {
    if doc.program.None? then [w]
    else
      match Authority(w, doc.program.value, doc.revision)
      case None => [w]
      case Some(r) =>
        var w1 := w.(sidecar := Some(r));
        (if w.sidecar.Some? then [w] else [w, w1]) + [RepairPlan(w1, r)]
  }

  function LoadTrace(w: World): (t: seq<World>)
    ensures t != [] && t[0] == w
  {
    if w.state.None? then [w] else OverlayTrace(w, w.state.value)
  }

  datatype Loaded = NoTask | Failed | State(doc: Doc)

  function LoadResult(w: World): Loaded {
    if w.state.None? then NoTask
    else
      match Overlaid(w, w.state.value)
      case None => Failed
      case Some(d) => State(d)
  }

  function SaveTrace(w: World, doc: Doc): (t: seq<World>)
    ensures t != [] && t[0] == w
  {
    var t := OverlayTrace(w, doc);
    match Overlaid(w, doc)
    case None => t
    case Some(d) => t + [Last(t).(state := Some(d))]
  }

  function NextRecord(w: World, doc: Doc, program: Program, plan: string): Record {
    var previous := if w.sidecar.Some? then w.sidecar.value.revision else doc.revision;
    Record(previous + 1, program, Some(plan))
  }

  function UpdateTrace(w: World, doc: Doc, program: Program, plan: string): (t: seq<World>)
    ensures t != [] && t[0] == w
  {
    var r := NextRecord(w, doc, program, plan);
    var w1 := w.(sidecar := Some(r));
    [w, w1] + SaveTrace(RepairPlan(w1, r), doc.(program := Some(program), revision := r.revision))
  }

  function CreateTrace(w: World, program: Program, plan: Option<string>, rest: nat): (t: seq<World>)
    ensures t != [] && t[0] == w
  {
    var doc := Doc(Some(program), 0, rest);
    match plan
    case None => SaveTrace(w, doc)
    case Some(_) => [w] + SaveTrace(w.(sidecar := Some(Record(0, program, plan))), doc)
  }

  // ---- The store, updated in place ----

  class ContinuousStore {
    var state: Option<Doc>
    var sidecar: Option<Record>
    var plan: Option<string>
    ghost var history: seq<World>  // the world after every step so far

    function View(): World
      reads this
    {
      World(state, sidecar, plan)
    }

    ghost predicate Valid()
      reads this
    {
      history != [] && Last(history) == View()
    }

    constructor (w: World)
      ensures Valid() && View() == w
    {
      state, sidecar, plan := w.state, w.sidecar, w.plan;
      history := [w];
    }

    method WriteProgramRecord(r: Record)
      requires Valid()
      modifies this
      ensures Valid() && View() == old(View()).(sidecar := Some(r))
      ensures history == old(history) + [View()]
    {
      sidecar := Some(r);
      history := history + [View()];
    }

    method RepairAuthoritativePlan(r: Record)
      requires Valid()
      modifies this
      ensures Valid() && View() == RepairPlan(old(View()), r)
      ensures history == old(history) + [View()]
    {
      if r.plan != None {
        if plan != r.plan {
          plan := r.plan;
        }
      }
      history := history + [View()];
    }

    /** Returns the state with the authoritative program laid over it, or None when it must not be trusted. */
    method OverlayAuthoritativeProgram(doc: Doc) returns (overlaid: Option<Doc>)
      requires Valid()
      modifies this
      ensures Valid() && overlaid == Overlaid(old(View()), doc)
      ensures history == old(history) + OverlayTrace(old(View()), doc)[1..]
    {
      if doc.program == None {
        return Some(doc);
      }
      var record := sidecar;
      if record == None {
        if doc.revision > 0 {
          return None;
        }
        record := Some(Record(0, doc.program.value, None));
        WriteProgramRecord(record.value);
      }
      RepairAuthoritativePlan(record.value);
      overlaid := Some(doc.(program := Some(record.value.program), revision := record.value.revision));
    }

    method LoadState() returns (r: Loaded)
      requires Valid()
      modifies this
      ensures Valid() && r == LoadResult(old(View()))
      ensures history == old(history) + LoadTrace(old(View()))[1..]
    {
      if state == None {
        return NoTask;
      }
      var d := OverlayAuthoritativeProgram(state.value);
      r := if d == None then Failed else State(d.value);
    }

    method SaveState(doc: Doc) returns (saved: Option<Doc>)
      requires Valid()
      modifies this
      ensures Valid() && saved == Overlaid(old(View()), doc)
      ensures history == old(history) + SaveTrace(old(View()), doc)[1..]
    {
      ghost var t := OverlayTrace(View(), doc);
      saved := OverlayAuthoritativeProgram(doc);
      if saved != None {
        assert Last(old(history) + t[1..]) == Last(t);
        state := saved;
        history := history + [View()];
        assert (t + [View()])[1..] == t[1..] + [View()];
      }
    }

    method UpdateProgram(doc: Doc, program: Program, planText: string) returns (updated: Option<Doc>)
      requires Valid()
      modifies this
      ensures Valid()
      ensures updated == Some(doc.(program := Some(program),
                                   revision := NextRecord(old(View()), doc, program, planText).revision))
      ensures history == old(history) + UpdateTrace(old(View()), doc, program, planText)[1..]
    {
      var previous := if sidecar != None then sidecar.value.revision else doc.revision;
      var record := Record(previous + 1, program, Some(planText));
      WriteProgramRecord(record);
      ghost var w1 := View();
      RepairAuthoritativePlan(record);
      ghost var w2 := View();
      var next := doc.(program := Some(program), revision := record.revision);
      updated := SaveState(next);
      assert ([old(View()), w1] + SaveTrace(w2, next))[1..] == [w1] + ([w2] + SaveTrace(w2, next)[1..]);
    }

    method CreateContinuousTask(program: Program, planText: Option<string>, rest: nat) returns (saved: Option<Doc>)
      requires Valid()
      modifies this
      ensures Valid()
      ensures saved == if planText.Some? then Some(Doc(Some(program), 0, rest))
                       else Overlaid(old(View()), Doc(Some(program), 0, rest))
      ensures history == old(history) + CreateTrace(old(View()), program, planText, rest)[1..]
    {
      if planText != None {
        WriteProgramRecord(Record(0, program, planText));
      }
      ghost var w1 := View();
      saved := SaveState(Doc(Some(program), 0, rest));
      assert [w1] + SaveTrace(w1, Doc(Some(program), 0, rest))[1..] == SaveTrace(w1, Doc(Some(program), 0, rest));
    }
  }

  // ---- Runs: any interleaving, with a crash possible after any step of any operation ----

  datatype Event =
    | Load(after: nat)
    | Save(doc: Doc, after: nat)
    | Update(doc: Doc, program: Program, plan: string, after: nat)
    | Create(program: Program, createPlan: Option<string>, rest: nat, after: nat)
    | ChildWrite(doc: Doc)

  function Cut(t: seq<World>, after: nat): World
    requires t != []
  {
    if after < |t| then t[after] else Last(t)
  }

  function Apply(w: World, e: Event): World {
    match e
    case Load(after) => Cut(LoadTrace(w), after)
    case Save(doc, after) => Cut(SaveTrace(w, doc), after)
    case Update(doc, program, plan, after) => Cut(UpdateTrace(w, doc, program, plan), after)
    case Create(program, plan, rest, after) => Cut(CreateTrace(w, program, plan, rest), after)
    case ChildWrite(doc) => w.(state := Some(doc))
  }

  /** The world after every event of a run. */
  function Run(w: World, es: seq<Event>): World {
    if es == [] then w else Apply(Run(w, es[..|es| - 1]), es[|es| - 1])
  }

  /** Reference: which program a sequence of events has committed, looking at nothing but updates and
      re-creations whose sidecar replacement completed. */
  function Committed(r: Record, es: seq<Event>): Record {
    if es == [] then r
    else
      var before := Committed(r, es[..|es| - 1]);
      match es[|es| - 1]
      case Update(_, program, plan, after) =>
        if after == 0 then before else Record(before.revision + 1, program, Some(plan))
      case Create(program, plan, _, after) =>
        if plan.None? || after == 0 then before else Record(0, program, plan)
      case _ => before
  }

  lemma SidecarStep(w: World, e: Event)
    requires w.sidecar.Some?
    ensures Apply(w, e).sidecar == Some(Committed(w.sidecar.value, [e]))
  {
    assert [e][..0] == [];
  }

  /** Once the sidecar exists it is, after any run, exactly the last committed record. */
  lemma {:induction false} SidecarIsLastCommit(w: World, es: seq<Event>)
    requires w.sidecar.Some?
    ensures Run(w, es).sidecar == Some(Committed(w.sidecar.value, es))
  {
    if es != [] {
      var before, e := es[..|es| - 1], es[|es| - 1];
      SidecarIsLastCommit(w, before);
      SidecarStep(Run(w, before), e);
      assert [e][..0] == [];
    }
  }

  /** Program authority: whatever stale or foreign `state.json` a run leaves behind, loading a state that
      carries a program gives the last committed program and revision, and keeps the rest of the state. */
  lemma LoadsLastCommit(w: World, es: seq<Event>)
    requires w.sidecar.Some?
    requires Run(w, es).state.Some? && Run(w, es).state.value.program.Some?
    ensures var c, now := Committed(w.sidecar.value, es), Run(w, es);
            LoadResult(now) == State(Doc(Some(c.program), c.revision, now.state.value.rest))
  {
    SidecarIsLastCommit(w, es);
  }

  /** An event leaves the revision alone, or is an update and raises it by one, or is a re-creation and
      resets it: nothing else moves it and the sidecar never disappears. */
  lemma RevisionMoves(w: World, e: Event)
    requires w.sidecar.Some?
    ensures Apply(w, e).sidecar.Some?
    ensures var r, r' := w.sidecar.value, Apply(w, e).sidecar.value;
            || r' == r
            || (e.Update? && r'.revision == r.revision + 1 && r'.program == e.program)
            || (e.Create? && r'.revision == 0 && r'.program == e.program)
  {
    SidecarStep(w, e);
    assert [e][..0] == [];
  }

  // ---- All or nothing ----

  /** A crash anywhere in an update is seen by the next load, on any state the child leaves, as the old
      program or as the new one; the completed load also leaves the accepted revision's plan in place. */
  lemma UpdateAllOrNothing(w: World, doc: Doc, program: Program, plan: string, after: nat, child: Doc)
    requires child.program.Some?
    ensures var crashed := Cut(UpdateTrace(w, doc, program, plan), after).(state := Some(child));
            var next := NextRecord(w, doc, program, plan);
            if after == 0 then
              LoadResult(crashed) == LoadResult(w.(state := Some(child)))
            else
              && LoadResult(crashed) == State(Doc(Some(program), next.revision, child.rest))
              && Last(LoadTrace(crashed)).plan == Some(plan)
  {
    var t := UpdateTrace(w, doc, program, plan);
    if after > 0 {
      UpdateTraceCommits(w, doc, program, plan, if after < |t| then after else |t| - 1);
    }
  }

  lemma UpdateTraceCommits(w: World, doc: Doc, program: Program, plan: string, k: nat)
    requires 0 < k < |UpdateTrace(w, doc, program, plan)|
    ensures UpdateTrace(w, doc, program, plan)[k].sidecar == Some(NextRecord(w, doc, program, plan))
  {
  }

  /** After a completed load of a state with a program, `plan.md` is the authoritative record's text. */
  lemma LoadRepairsPlan(w: World)
    requires LoadResult(w).State? && w.state.value.program.Some?
    ensures var w' := Last(LoadTrace(w));
            && w'.sidecar.Some?
            && (w'.sidecar.value.plan.Some? ==> w'.plan == w'.sidecar.value.plan)
            && LoadResult(w).doc.program == Some(w'.sidecar.value.program)
            && LoadResult(w).doc.revision == w'.sidecar.value.revision
  {
  }

  /** After a completed save of a state with a program, `state.json` and `program.json` agree; a save cut
      short leaves the previous `state.json`. */
  lemma SaveAgreesWithSidecar(w: World, doc: Doc, after: nat)
    requires doc.program.Some?
    ensures var w' := Cut(SaveTrace(w, doc), after);
            || w'.state == w.state
            || (&& w'.state.Some? && w'.sidecar.Some? && w'.state.value.rest == doc.rest
                && w'.state.value.program == Some(w'.sidecar.value.program)
                && w'.state.value.revision == w'.sidecar.value.revision)
    ensures Overlaid(w, doc).Some? && after >= |SaveTrace(w, doc)| - 1 ==>
              Cut(SaveTrace(w, doc), after).state == Overlaid(w, doc)
  {
  }

  // ---- A state whose sidecar is gone ----

  /** A state that may not become the authority: it carries a program at a positive revision. */
  predicate Revised(doc: Doc) {
    doc.program.Some? && doc.revision > 0
  }

  /** A load fails exactly on a revised state without its sidecar, and then writes nothing. */
  lemma LoadFailsIffSidecarLost(w: World, k: nat)
    ensures LoadResult(w).Failed? <==> w.sidecar.None? && w.state.Some? && Revised(w.state.value)
    ensures LoadResult(w).NoTask? <==> w.state.None?
    ensures LoadResult(w).Failed? && k < |LoadTrace(w)| ==> LoadTrace(w)[k] == w
  {
  }

  lemma SaveFailsIffSidecarLost(w: World, doc: Doc, k: nat)
    ensures Overlaid(w, doc).None? <==> w.sidecar.None? && Revised(doc)
    ensures Overlaid(w, doc).None? && k < |SaveTrace(w, doc)| ==> SaveTrace(w, doc)[k] == w
  {
  }

  /** Nothing is laid over a state without a program, or over a legacy one, whose program becomes the
      authority at revision zero; any other gets program and revision of the sidecar and keeps the rest. */
  lemma LaidOver(w: World, doc: Doc)
    requires Overlaid(w, doc).Some?
    ensures var d, w' := Overlaid(w, doc).value, Last(OverlayTrace(w, doc));
            && d.rest == doc.rest && w'.state == w.state
            && (if doc.program.None? then d == doc && w' == w
                else if w.sidecar.None? then
                  d == doc && d.revision == 0 && w' == w.(sidecar := Some(Record(0, doc.program.value, None)))
                else
                  && d.program == Some(w.sidecar.value.program) && d.revision == w.sidecar.value.revision
                  && w'.sidecar == w.sidecar
                  && w'.plan == if w.sidecar.value.plan.Some? then w.sidecar.value.plan else w.plan)
  {
  }

  /** The steps that may make a sidecar where there is none: an update, a re-creation, or the load or save of
      a state that carries a program at revision zero. */
  predicate MakesSidecar(w: World, e: Event) {
    match e
    case Load(after) => after > 0 && w.state.Some? && w.state.value.program.Some? && w.state.value.revision == 0
    case Save(doc, after) => after > 0 && doc.program.Some? && doc.revision == 0
    case Update(_, _, _, after) => after > 0
    case Create(_, _, _, after) => after > 0
    case ChildWrite(_) => false
  }

  lemma SidecarAppearsIff(w: World, e: Event)
    requires w.sidecar.None?
    ensures Apply(w, e).sidecar.Some? <==> MakesSidecar(w, e)
    ensures e.Load? && !MakesSidecar(w, e) ==> Apply(w, e) == w
    ensures e.Save? && Revised(e.doc) ==> Apply(w, e) == w
  {
  }

  /** No update, no re-creation, and nobody writes a state that could pass for a legacy one. */
  ghost predicate OnlyRevised(e: Event) {
    match e
    case Load(_) => true
    case Save(doc, _) => Revised(doc)
    case ChildWrite(doc) => Revised(doc)
    case _ => false
  }

  /** So once lost the sidecar of a revised state stays lost, over any such run, and every load refuses. */
  lemma {:induction false} LostSidecarStaysLost(w: World, es: seq<Event>)
    requires w.sidecar.None? && w.state.Some? && Revised(w.state.value)
    requires forall e :: e in es ==> OnlyRevised(e)
    ensures var now := Run(w, es);
            && now.sidecar.None? && now.plan == w.plan && now.state.Some? && Revised(now.state.value)
            && LoadResult(now).Failed?
  {
    if es != [] {
      var before, e := es[..|es| - 1], es[|es| - 1];
      assert OnlyRevised(e);
      LostSidecarStaysLost(w, before);
      SidecarAppearsIff(Run(w, before), e);
    }
  }

  // ---- Completed commits ----

  /** An update that completes leaves the next revision, in all three files. */
  lemma UpdateCompletes(w: World, doc: Doc, program: Program, plan: string)
    ensures var revision := 1 + if w.sidecar.Some? then w.sidecar.value.revision else doc.revision;
            Last(UpdateTrace(w, doc, program, plan)) ==
            World(Some(Doc(Some(program), revision, doc.rest)), Some(Record(revision, program, Some(plan))), Some(plan))
  {
  }

  /** A creation with a plan starts at revision zero whatever was there before; one without a plan keeps the
      sidecar it finds. */
  lemma CreateCompletes(w: World, program: Program, plan: Option<string>, rest: nat)
    ensures var w' := Last(CreateTrace(w, program, plan, rest));
            if plan.Some? || w.sidecar.None? then
              && w'.state == Some(Doc(Some(program), 0, rest)) && w'.sidecar == Some(Record(0, program, plan))
              && w'.plan == if plan.Some? then plan else w.plan
            else
              var r := w.sidecar.value;
              && w'.sidecar == w.sidecar && w'.state == Some(Doc(Some(r.program), r.revision, rest))
              && w'.plan == if r.plan.Some? then r.plan else w.plan
  {
  }
}
