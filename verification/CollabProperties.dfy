/** What holds over every run of calls on one store, failing at any point: memory is the decoded file,
    failures change nothing, statuses only move forward, and names stay unique. */
module CollabProperties {
  import opened Common
  import opened CollabRecords
  import opened CollabStores
  import opened JsonRecovery
  import opened RecoveryProperties
  import Text

  // ---- What one edit does to the records ----

  lemma PutKeepsDistinct(spaces: seq<Workspace>, ws: Workspace)
    requires Distinct(spaces)
    ensures Distinct(Put(spaces, ws))
  {
  }

  lemma WithoutKeepsDistinct(spaces: seq<Workspace>, i: nat)
    requires Distinct(spaces) && i < |spaces|
    ensures Distinct(Without(spaces, i))
  {
  }

  lemma EditOneKeepsDistinct(spaces: seq<Workspace>, req: CollabStores.Request)
    requires Distinct(spaces) && EditOne(spaces, req).Save?
    ensures Distinct(EditOne(spaces, req).spaces)
  {
  }

  lemma EditKeepsDistinct(spaces: seq<Workspace>, req: CollabStores.Request)
    requires Distinct(spaces) && EditOf(spaces, req).Save?
    ensures Distinct(EditOf(spaces, req).spaces)
  {
    match req
    case Add(ws) => PutKeepsDistinct(spaces, ws);
    case Remove(id) => WithoutKeepsDistinct(spaces, IndexOf(spaces, id).value);
    case PurgeClosed => OpenDistinct(spaces);
    case CreatePending(p) => PutKeepsDistinct(spaces, Proposed(p, FreshId(spaces, p)));
    case _ => EditOneKeepsDistinct(spaces, req);
  }

  /** pending and setup come before active, active before closed. */
  function Stage(status: string): nat {
    if status == "closed" then 2 else if status == "pending" || status == "setup" then 0 else 1
  }

  /** From one status to another in any number of calls other than add. */
  predicate Forward(a: string, b: string) {
    a == b || Stage(a) < Stage(b)
  }

  lemma ForwardTransitive(a: string, b: string, c: string)
    requires Forward(a, b) && Forward(b, c)
    ensures Forward(a, c)
  {
  }

  /** If the plain id of a proposal is taken, the one with the suffix it drew is not. */
  predicate SuffixFresh(spaces: seq<Workspace>, req: CollabStores.Request) {
    req.CreatePending? ==>
      var plain := "collab-" + Text.Strip(req.p.name);
      IndexOf(spaces, plain).None? || IndexOf(spaces, plain + "-" + req.p.suffix).None?
  }

  predicate Descends(was: Workspace, ws: Workspace) {
    was.id == ws.id && was.name == ws.name && Forward(was.status, ws.status)
  }

  lemma UpdatedDescends(ws: Workspace, req: CollabStores.Request)
    requires Updated(ws, req).Some?
    ensures Descends(ws, Updated(ws, req).value)
  {
  }

  lemma EditOneOrigin(spaces: seq<Workspace>, req: CollabStores.Request, j: nat)
    requires EditOne(spaces, req).Save? && j < |spaces|
    ensures Descends(spaces[j], EditOne(spaces, req).spaces[j])
  {
    var k := IndexOf(spaces, Target(spaces, req).value).value;
    UpdatedDescends(spaces[k], req);
  }

  /** Every record after an edit other than add is an old one moved forward, or the new proposal. */
  lemma EditOrigin(spaces: seq<Workspace>, req: CollabStores.Request, j: nat) returns (i: Option<nat>)
    requires EditOf(spaces, req).Save? && !req.Add? && SuffixFresh(spaces, req)
    requires j < |EditOf(spaces, req).spaces|
    ensures i.Some? ==> i.value < |spaces| && Descends(spaces[i.value], EditOf(spaces, req).spaces[j])
    ensures i.None? ==> req.CreatePending? && EditOf(spaces, req).spaces[j] == Proposed(req.p, FreshId(spaces, req.p))
  {
    if req.Remove? {
      var k := IndexOf(spaces, req.id).value;
      i := Some(if j < k then j else j + 1);
    } else if req.PurgeClosed? {
      var k := OpenAt(spaces, j);
      i := Some(k);
    } else if req.CreatePending? {
      i := if j < |spaces| then Some(j) else None;
    } else {
      EditOneOrigin(spaces, req, j);
      i := Some(j);
    }
  }

  lemma EditMovesForward(spaces: seq<Workspace>, req: CollabStores.Request, i: nat, j: nat)
    requires EditOf(spaces, req).Save? && !req.Add? && SuffixFresh(spaces, req) && Distinct(spaces)
    requires i < |spaces| && j < |EditOf(spaces, req).spaces| && spaces[i].id == EditOf(spaces, req).spaces[j].id
    ensures Forward(spaces[i].status, EditOf(spaces, req).spaces[j].status)
  {
    var k := EditOrigin(spaces, req, j);
    assert k.Some? ==> k.value == i;
  }

  ghost predicate UniqueNames(spaces: seq<Workspace>) {
    forall i, j :: 0 <= i < j < |spaces| ==> spaces[i].name != spaces[j].name
  }

  lemma NamesDiffer(spaces: seq<Workspace>, req: CollabStores.Request, j: nat, k: nat)
    requires EditOf(spaces, req).Save? && !req.Add? && SuffixFresh(spaces, req)
    requires Distinct(spaces) && UniqueNames(spaces) && j < k < |EditOf(spaces, req).spaces|
    ensures EditOf(spaces, req).spaces[j].name != EditOf(spaces, req).spaces[k].name
  {
    var after := EditOf(spaces, req).spaces;
    EditKeepsDistinct(spaces, req);
    var a := EditOrigin(spaces, req, j);
    var b := EditOrigin(spaces, req, k);
    assert after[j].id != after[k].id;
    if a.Some? && b.Some? {
      assert a.value != b.value;
    }
  }

  /** A name once taken stays with one record: no call other than add makes two records share it. */
  lemma NamesStayUnique(spaces: seq<Workspace>, req: CollabStores.Request)
    requires EditOf(spaces, req).Save? && !req.Add? && SuffixFresh(spaces, req)
    requires Distinct(spaces) && UniqueNames(spaces)
    ensures UniqueNames(EditOf(spaces, req).spaces)
  {
    var after := EditOf(spaces, req).spaces;
    forall j, k | 0 <= j < k < |after| ensures after[j].name != after[k].name {
      NamesDiffer(spaces, req, j, k);
    }
  }

  lemma PutWellFormedIff(spaces: seq<Workspace>, ws: Workspace)
    requires AllWellFormed(spaces)
    ensures AllWellFormed(Put(spaces, ws)) <==> WellFormed(ws)
  {
    var i := IndexOf(spaces, ws.id);
    assert Put(spaces, ws)[if i.Some? then i.value else |spaces|] == ws;
  }

  lemma ProposedWellFormedIff(p: Proposal, id: string)
    requires id != "" && SafeName(Text.Strip(p.name))
    ensures WellFormed(Proposed(p, id)) <==> p.agentName != ""
  {
  }

  lemma EditOneWellFormed(spaces: seq<Workspace>, req: CollabStores.Request)
    requires AllWellFormed(spaces) && EditOne(spaces, req).Save?
    ensures AllWellFormed(EditOne(spaces, req).spaces)
  {
  }

  lemma OpenWellFormed(spaces: seq<Workspace>)
    requires AllWellFormed(spaces)
    ensures AllWellFormed(Open(spaces))
  {
    forall j | 0 <= j < |Open(spaces)| ensures WellFormed(Open(spaces)[j]) {
      var i := OpenAt(spaces, j);
    }
  }

  lemma WithoutWellFormed(spaces: seq<Workspace>, i: nat)
    requires AllWellFormed(spaces) && i < |spaces|
    ensures AllWellFormed(Without(spaces, i))
  {
  }

  /** The validator can only refuse what a caller brings in: a malformed added record, or a proposal
      without an agent name. Every other edit of well-formed records can be persisted. */
  lemma OnlyInputsAreRefused(spaces: seq<Workspace>, req: CollabStores.Request)
    requires Distinct(spaces) && AllWellFormed(spaces)
    requires Precheck(req).None? && EditOf(spaces, req).Save?
    ensures ValidRegistry(ToDoc(EditOf(spaces, req).spaces))
            <==> (match req case Add(ws) => WellFormed(ws) case CreatePending(p) => p.agentName != "" case _ => true)
  {
    var after := EditOf(spaces, req).spaces;
    EditKeepsDistinct(spaces, req);
    AcceptedIffWellFormed(after);
    match req
    case Add(ws) =>
      PutWellFormedIff(spaces, ws);
    case CreatePending(p) =>
      ProposedWellFormedIff(p, FreshId(spaces, p));
      PutWellFormedIff(spaces, Proposed(p, FreshId(spaces, p)));
    case PurgeClosed =>
      OpenWellFormed(spaces);
    case Remove(id) =>
      WithoutWellFormed(spaces, IndexOf(spaces, id).value);
    case _ =>
      EditOneWellFormed(spaces, req);
  }

  // ---- Routing ----

  lemma {:induction false} RouteAt(spaces: seq<Workspace>, key: RouteKey) returns (m: nat)
    requires Route(spaces, key).Some?
    ensures m < |spaces| && spaces[m] == Route(spaces, key).value
    ensures forall j :: m < j < |spaces| ==> !(Routable(spaces[j]) && KeyOf(spaces[j]) == key)
  {
    var last := spaces[|spaces| - 1];
    if Routable(last) && KeyOf(last) == key {
      m := |spaces| - 1;
    } else {
      m := RouteAt(spaces[..|spaces| - 1], key);
    }
  }

  lemma RoutesIffNotShadowed(spaces: seq<Workspace>, i: nat)
    requires Distinct(spaces) && i < |spaces| && Routable(spaces[i])
    ensures Route(spaces, KeyOf(spaces[i])) == Some(spaces[i])
            <==> forall j :: i < j < |spaces| ==> !(Routable(spaces[j]) && KeyOf(spaces[j]) == KeyOf(spaces[i]))
  {
    var key := KeyOf(spaces[i]);
    if Route(spaces, key) == Some(spaces[i]) {
      var m := RouteAt(spaces, key);
      assert m == i;
    } else if forall j :: i < j < |spaces| ==> !(Routable(spaces[j]) && KeyOf(spaces[j]) == key) {
      RouteIsLast(spaces, key, i);
    }
  }

  /** A chat just bound to (or migrated to) a record routes to it iff no later record already holds that
      chat: nothing in the code refuses a chat that is taken, and the last record in insertion order wins. */
  lemma NewChatRoutesIffNotShadowed(spaces: seq<Workspace>, req: CollabStores.Request, i: nat, ws: Workspace)
    requires Distinct(spaces) && (req.BindChat? || req.MigrateChat?)
    requires i < |spaces| && ws.id == spaces[i].id && Routable(ws)
    requires EditOf(spaces, req) == Save(spaces[i := ws], Flag(true))
    ensures Route(EditOf(spaces, req).spaces, KeyOf(ws)) == Some(ws)
            <==> forall j :: i < j < |spaces| ==> !(Routable(spaces[j]) && KeyOf(spaces[j]) == KeyOf(ws))
  {
    var after := spaces[i := ws];
    RoutesIffNotShadowed(after, i);
    assert forall j :: i < j < |spaces| ==> spaces[j] == after[j];
  }

  // ---- Runs ----

  datatype Event =
    | Request(req: CollabStores.Request, env: Env)
    | Damage(raw: nat)  // something corrupts the file between calls
    | Deletion          // or removes it

  function Step(s: Store, site: Site<Registry>, e: Event): Store {
    match e
    case Request(req, env) => Call(s, site, req, env).0
    case Damage(raw) => if s.life.disk.live.Some? then WithLive(s, Some(Corrupt(raw))) else s
    case Deletion => WithLive(s, None)
  }

  function WithLive(s: Store, live: Option<Content<Registry>>): Store {
    s.(life := s.life.(disk := s.life.disk.(live := live)))
  }

  ghost predicate IsRun(ss: seq<Store>, site: Site<Registry>, es: seq<Event>) {
    && |ss| == |es| + 1
    && forall i :: 0 <= i < |es| ==> ss[i + 1] == Step(ss[i], site, es[i])
  }

  /** A store as its constructor leaves it. */
  function Opened(disk: Disk<Registry>, site: Site<Registry>, io: Io): Store {
    var life := AfterLoad(Life(disk, None), site, io);
    Store(life, if life.mem.Some? then FromDoc(life.mem.value) else [])
  }

  /** No guard the call reaches recovers the file and then fails to raise its barrier. */
  ghost predicate GapFree(s: Store, site: Site<Registry>, e: Event) {
    e.Request? && Precheck(e.req).None? && e.env.locked ==>
      var disk := s.life.disk;
      && !GuardGap(disk, site, e.env.io, e.env.bar)
      && (GuardResult(disk, site, e.env.io).MayWrite? && EditOf(s.spaces, e.req).Save? ==>
            !GuardGap(GuardDisk(disk, site, e.env.io, e.env.bar), site, e.env.io2, e.env.bar2))
  }

  /** An unmarked valid file is the one last loaded or written. */
  ghost predicate OnRecord(l: Life<Registry>) {
    Settled(l.disk) ==> l.mem == Some(l.disk.live.value.value)
  }

  /** Memory is what the file last loaded or written decodes to, and an unmarked valid file is that file. */
  ghost predicate Faithful(s: Store) {
    && OnRecord(s.life)
    && s.spaces == (if s.life.mem.Some? then FromDoc(s.life.mem.value) else [])
  }

  lemma FaithfulRecords(s: Store)
    requires Faithful(s)
    ensures Distinct(s.spaces) && AllWellFormed(s.spaces)
  {
    if s.life.mem.Some? {
      DecodedIsWellFormed(s.life.mem.value);
    }
  }

  lemma GuardKeepsRecord(l: Life<Registry>, site: Site<Registry>, io: Io, bar: Barrier)
    requires OnRecord(l) && !GuardGap(l.disk, site, io, bar)
    ensures OnRecord(Life(GuardDisk(l.disk, site, io, bar), l.mem))
  {
    GuardKeepsSeenIffNoGap(l.disk, site, io, bar);
    if Seen(l) {
      assert Seen(Life(l.disk, l.mem));
    }
  }

  lemma PersistKeepsFaithful(s: Store, site: Site<Registry>, spaces: seq<Workspace>, reply: Reply, env: Env)
    requires Faithful(s) && Distinct(spaces) && !GuardGap(s.life.disk, site, env.io2, env.bar2)
    ensures Faithful(Persist(s, site, spaces, reply, env).0)
  {
    GuardKeepsRecord(s.life, site, env.io2, env.bar2);
    if ValidRegistry(ToDoc(spaces)) {
      AcceptedIffWellFormed(spaces);
      RegistryRoundTrip(spaces);
    }
  }

  lemma CallKeepsFaithful(s: Store, site: Site<Registry>, req: CollabStores.Request, env: Env)
    requires Faithful(s) && GapFree(s, site, Event.Request(req, env))
    ensures Faithful(Call(s, site, req, env).0)
  {
    if Precheck(req).None? && env.locked {
      GuardKeepsRecord(s.life, site, env.io, env.bar);
      var s1 := s.(life := Life(GuardDisk(s.life.disk, site, env.io, env.bar), s.life.mem));
      var edit := EditOf(s.spaces, req);
      if GuardResult(s.life.disk, site, env.io).MayWrite? && edit.Save? {
        FaithfulRecords(s);
        EditKeepsDistinct(s.spaces, req);
        PersistKeepsFaithful(s1, site, edit.spaces, edit.reply, env);
      }
    }
  }

  lemma StepKeepsFaithful(s: Store, site: Site<Registry>, e: Event)
    requires Faithful(s) && GapFree(s, site, e)
    ensures Faithful(Step(s, site, e))
  {
    match e
    case Request(req, env) => CallKeepsFaithful(s, site, req, env);
    case Damage(_) =>
    case Deletion =>
  }

  lemma OpenedFaithful(disk: Disk<Registry>, site: Site<Registry>, io: Io)
    requires Answered(LoadOutcome(disk, site, io))
    ensures Faithful(Opened(disk, site, io))
  {
  }

  /** After every call of a run, whatever failed in it, and whatever damaged or removed the file between
      calls: an uncorrupted, unmarked file decodes to exactly the records in memory. */
  lemma {:induction false} MemoryIsDecodedDisk(
    ss: seq<Store>, site: Site<Registry>, es: seq<Event>, disk: Disk<Registry>, io: Io, i: nat)
    requires IsRun(ss, site, es) && i < |ss|
    requires ss[0] == Opened(disk, site, io) && Answered(LoadOutcome(disk, site, io))
    requires forall k :: 0 <= k < i ==> GapFree(ss[k], site, es[k])
    ensures Faithful(ss[i])
    ensures Settled(ss[i].life.disk) ==> FromDoc(ss[i].life.disk.live.value.value) == ss[i].spaces
  {
    if i > 0 {
      MemoryIsDecodedDisk(ss, site, es, disk, io, i - 1);
      StepKeepsFaithful(ss[i - 1], site, es[i - 1]);
    } else {
      OpenedFaithful(disk, site, io);
    }
  }

  /** A process that starts on such a file comes up with the same records. */
  lemma RestartGivesSameRecords(s: Store, site: Site<Registry>, io: Io)
    requires Faithful(s) && Settled(s.life.disk) && io.readLive
    ensures Opened(s.life.disk, site, io).spaces == s.spaces
  {
  }

  /** A guard leaves such a disk as it is: a standing barrier, no file yet, or an unmarked one it can read. */
  predicate Undisturbed(d: Disk<Registry>, io: Io) {
    d.unavailable || (d.live.None? && !d.marker) || (Settled(d) && io.readLive)
  }

  lemma GuardLeaves(d: Disk<Registry>, site: Site<Registry>, io: Io, bar: Barrier)
    requires Undisturbed(d, io)
    ensures GuardDisk(d, site, io, bar) == d
  {
  }

  lemma FailedPersistKeeps(s: Store, site: Site<Registry>, spaces: seq<Workspace>, reply: Reply, env: Env)
    requires !reply.Raised? && Persist(s, site, spaces, reply, env).1.Raised?
    ensures Persist(s, site, spaces, reply, env).0.spaces == s.spaces
    ensures GuardDisk(s.life.disk, site, env.io2, env.bar2) == s.life.disk ==>
              Persist(s, site, spaces, reply, env).0 == s
  {
  }

  lemma EditReplies(spaces: seq<Workspace>, req: CollabStores.Request)
    ensures EditOf(spaces, req).Save? ==> !EditOf(spaces, req).reply.Raised?
  {
  }

  /** A call that raises leaves memory as it was; it leaves the disk as it was too if a barrier stands, if
      there is no file yet, or if the file is unmarked and its guards can read it. */
  lemma FailedCallChangesNothing(s: Store, site: Site<Registry>, req: CollabStores.Request, env: Env)
    requires Call(s, site, req, env).1.Raised?
    ensures Call(s, site, req, env).0.spaces == s.spaces
    ensures Undisturbed(s.life.disk, env.io) && Undisturbed(s.life.disk, env.io2) ==> Call(s, site, req, env).0 == s
  {
    var s1 := s.(life := Life(GuardDisk(s.life.disk, site, env.io, env.bar), s.life.mem));
    var edit := EditOf(s.spaces, req);
    EditReplies(s.spaces, req);
    if edit.Save? && Persist(s1, site, edit.spaces, edit.reply, env).1.Raised? {
      FailedPersistKeeps(s1, site, edit.spaces, edit.reply, env);
    }
    if Undisturbed(s.life.disk, env.io) && Undisturbed(s.life.disk, env.io2) {
      GuardLeaves(s.life.disk, site, env.io, env.bar);
      GuardLeaves(s.life.disk, site, env.io2, env.bar2);
    }
  }

  /** A call that answers with an effect has made it durable: the file decodes to the new records. */
  lemma AnsweredEditIsDurable(s: Store, site: Site<Registry>, req: CollabStores.Request, env: Env)
    requires Distinct(s.spaces) && EditOf(s.spaces, req).Save? && Precheck(req).None?
    requires !Call(s, site, req, env).1.Raised?
    ensures var s' := Call(s, site, req, env).0;
            && s'.spaces == EditOf(s.spaces, req).spaces
            && s'.life.disk.live.Some? && s'.life.disk.live.value.Valid?
            && FromDoc(s'.life.disk.live.value.value) == s'.spaces
  {
    EditKeepsDistinct(s.spaces, req);
    AcceptedIffWellFormed(EditOf(s.spaces, req).spaces);
    if AllWellFormed(EditOf(s.spaces, req).spaces) {
      RegistryRoundTrip(EditOf(s.spaces, req).spaces);
    }
  }

  // ---- Statuses over runs ----

  ghost predicate Has(spaces: seq<Workspace>, id: string, status: string) {
    exists i :: 0 <= i < |spaces| && spaces[i].id == id && spaces[i].status == status
  }

  /** A step keeps the records or puts the edited ones in their place. */
  lemma StepSpaces(s: Store, site: Site<Registry>, e: Event)
    ensures Step(s, site, e).spaces == s.spaces
            || (&& e.Request? && EditOf(s.spaces, e.req).Save?
                && Step(s, site, e).spaces == EditOf(s.spaces, e.req).spaces)
  {
  }

  lemma StepKeepsDistinct(s: Store, site: Site<Registry>, e: Event)
    requires Distinct(s.spaces)
    ensures Distinct(Step(s, site, e).spaces)
  {
    StepSpaces(s, site, e);
    if e.Request? && EditOf(s.spaces, e.req).Save? {
      EditKeepsDistinct(s.spaces, e.req);
    }
  }

  lemma OneStatus(spaces: seq<Workspace>, id: string, a: string, b: string)
    requires Distinct(spaces) && Has(spaces, id, a) && Has(spaces, id, b)
    ensures a == b
  {
    var i :| 0 <= i < |spaces| && spaces[i].id == id && spaces[i].status == a;
    var j :| 0 <= j < |spaces| && spaces[j].id == id && spaces[j].status == b;
    assert i == j;
  }

  lemma EditedStatus(spaces: seq<Workspace>, req: CollabStores.Request, id: string, a: string, b: string)
    requires EditOf(spaces, req).Save? && !req.Add? && SuffixFresh(spaces, req) && Distinct(spaces)
    requires Has(spaces, id, a) && Has(EditOf(spaces, req).spaces, id, b)
    ensures Forward(a, b)
  {
    var after := EditOf(spaces, req).spaces;
    var i :| 0 <= i < |spaces| && spaces[i].id == id && spaces[i].status == a;
    var j :| 0 <= j < |after| && after[j].id == id && after[j].status == b;
    EditMovesForward(spaces, req, i, j);
  }

  /** Not an add, and its fresh id, if it draws one, is fresh. */
  predicate Ordinary(spaces: seq<Workspace>, e: Event) {
    e.Request? ==> !e.req.Add? && SuffixFresh(spaces, e.req)
  }

  lemma StatusStep(s: Store, site: Site<Registry>, e: Event, id: string, a: string, b: string)
    requires Distinct(s.spaces) && Ordinary(s.spaces, e)
    requires Has(s.spaces, id, a) && Has(Step(s, site, e).spaces, id, b)
    ensures Forward(a, b)
  {
    StepSpaces(s, site, e);
    if Step(s, site, e).spaces == s.spaces {
      OneStatus(s.spaces, id, a, b);
    } else {
      EditedStatus(s.spaces, e.req, id, a, b);
    }
  }

  /** The record `id` is there, with the given statuses, on both sides of step k, which is no add. */
  ghost predicate Stays(ss: seq<Store>, es: seq<Event>, id: string, path: seq<string>, k: nat)
    requires k < |es| && |ss| == |es| + 1 && |path| == |ss|
  {
    && Ordinary(ss[k].spaces, es[k])
    && Has(ss[k].spaces, id, path[k]) && Has(ss[k + 1].spaces, id, path[k + 1])
  }

  lemma StayStep(
    ss: seq<Store>, site: Site<Registry>, es: seq<Event>, id: string, path: seq<string>, i: nat, k: nat)
    requires IsRun(ss, site, es) && i <= k < |es| && |path| == |ss|
    requires Distinct(ss[k].spaces) && Stays(ss, es, id, path, k)
    requires Forward(path[i], path[k])
    ensures Distinct(ss[k + 1].spaces) && Forward(path[i], path[k + 1])
  {
    StepKeepsDistinct(ss[k], site, es[k]);
    StatusStep(ss[k], site, es[k], id, path[k], path[k + 1]);
    ForwardTransitive(path[i], path[k], path[k + 1]);
  }

  /** While a record stays in the store and add is not used, its status only moves forward: pending or
      setup, then active, then closed. */
  lemma {:induction false} StatusesMoveForward(
    ss: seq<Store>, site: Site<Registry>, es: seq<Event>, id: string, path: seq<string>, i: nat, j: nat)
    requires IsRun(ss, site, es) && i <= j < |ss| && |path| == |ss|
    requires Distinct(ss[i].spaces)
    requires forall k :: i <= k < j ==> Stays(ss, es, id, path, k)
    ensures Distinct(ss[j].spaces) && Forward(path[i], path[j])
  {
    if i < j {
      StatusesMoveForward(ss, site, es, id, path, i, j - 1);
      StayStep(ss, site, es, id, path, i, j - 1);
    }
  }

  const SOMEONE := Workspace("a", "a", None, "agent", "0", Some("telegram"), None, "intelligent", None, true, None,
    "pending", Null, Null, Null, map[])

  /** Binding the pending record "a" to the chat that "b" already holds: "b" keeps the route. */
  lemma TakenChatIsShadowed()
    ensures var b := SOMEONE.(id := "b", name := "b", chatId := "5", status := "active");
            var edit := EditOf([SOMEONE, b], BindChat("a", ChatRef("telegram", "5"), None));
            && edit.Save? && edit.reply == Flag(true)
            && Route(edit.spaces, (Some("telegram"), "5")) == Some(b)
  {
    var b := SOMEONE.(id := "b", name := "b", chatId := "5", status := "active");
    var req := BindChat("a", ChatRef("telegram", "5"), None);
    var a := SOMEONE.(chatId := "5", status := "active");
    assert IndexOf([SOMEONE, b], "a") == Some(0) by {
      assert [SOMEONE, b][..1] == [SOMEONE];
    }
    assert EditOf([SOMEONE, b], req) == Save([a, b], Flag(true));
    RouteIsLast([a, b], (Some("telegram"), "5"), 1);
  }
}
