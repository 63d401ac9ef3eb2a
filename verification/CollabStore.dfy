/** CollabStore of bot/collaborative.py: an insertion-ordered registry of workspaces with a routing index,
    persisted through the write guard and rolled back when persistence fails. */
module CollabStores {
  import opened Common
  import opened CollabRecords
  import opened JsonRecovery
  import opened RecoveryProperties
  import Text

  datatype ChatRef = ChatRef(platform: string, chatId: string)

  datatype UserId = Number(n: int) | Name(s: string)

  function UserJson(u: UserId): Json {
    match u case Number(n) => Int(n) case Name(s) => Str(s)
  }

  function UserKey(u: UserId): string {
    match u case Number(n) => Decimal(n) case Name(s) => s
  }

  /** Python's == between a stored id and a given one: True and 1.0 equal 1. */
  predicate SameUser(stored: Json, u: UserId) {
    match stored
    case Int(n) => u == Number(n)
    case Bool(b) => u == Number(if b then 1 else 0)
    case Real(x) => u.Number? && x == u.n as real
    case Str(s) => u == Name(s)
    case _ => false
  }

  datatype Role = Owner | Operator | Participant

  function RoleValue(r: Role): string {
    match r case Owner => "owner" case Operator => "operator" case Participant => "participant"
  }

  // ---- Routing ----

  type RouteKey = (Option<string>, string)

  predicate Routable(ws: Workspace) {
    ws.status in {"active", "setup"} && ws.chatId != "" && ws.chatId != "0"
  }

  function KeyOf(ws: Workspace): RouteKey {
    (ws.platform, ws.chatId)
  }

  /** The last routable record, in insertion order, with the given key. */
  function Route(spaces: seq<Workspace>, key: RouteKey): (r: Option<Workspace>)
    ensures r.Some? ==> r.value in spaces && Routable(r.value) && KeyOf(r.value) == key
  {
    if spaces == [] then None
    else
      var ws := spaces[|spaces| - 1];
      if Routable(ws) && KeyOf(ws) == key then Some(ws) else Route(spaces[..|spaces| - 1], key)
  }

  lemma {:induction false} RouteIsLast(spaces: seq<Workspace>, key: RouteKey, i: nat)
    requires i < |spaces| && Routable(spaces[i]) && KeyOf(spaces[i]) == key
    requires forall j :: i < j < |spaces| ==> !(Routable(spaces[j]) && KeyOf(spaces[j]) == key)
    ensures Route(spaces, key) == Some(spaces[i])
  {
    if i < |spaces| - 1 {
      RouteIsLast(spaces[..|spaces| - 1], key, i);
    }
  }

  ghost predicate Agrees(index: map<RouteKey, string>, spaces: seq<Workspace>) {
    && (forall key :: key in index <==> Route(spaces, key).Some?)
    && (forall key :: key in index ==> index[key] == Route(spaces, key).value.id)
  }

  predicate SameRouting(a: Workspace, b: Workspace) {
    a.id == b.id && Routable(a) == Routable(b) && KeyOf(a) == KeyOf(b)
  }

  lemma {:induction false} RoutingUnaffected(a: seq<Workspace>, b: seq<Workspace>, key: RouteKey)
    requires |a| == |b| && forall i :: 0 <= i < |a| ==> SameRouting(a[i], b[i])
    ensures Route(a, key).Some? == Route(b, key).Some?
    ensures Route(a, key).Some? ==> Route(a, key).value.id == Route(b, key).value.id
  {
    if a != [] {
      RoutingUnaffected(a[..|a| - 1], b[..|b| - 1], key);
    }
  }

  /** Editing one record without touching what routing reads leaves a correct index correct. */
  lemma AgreesAfterQuietEdit(index: map<RouteKey, string>, spaces: seq<Workspace>, i: nat, ws: Workspace)
    requires Agrees(index, spaces) && i < |spaces| && SameRouting(spaces[i], ws)
    ensures Agrees(index, spaces[i := ws])
  {
    forall key ensures Route(spaces, key).Some? == Route(spaces[i := ws], key).Some?
      && (Route(spaces, key).Some? ==> Route(spaces, key).value.id == Route(spaces[i := ws], key).value.id)
    {
      RoutingUnaffected(spaces, spaces[i := ws], key);
    }
  }

  /** CollabWorkspace.set_role. */
  function WithRole(ws: Workspace, user: UserId, role: Role): Workspace {
    ws.(roles := ws.roles[UserKey(user) := RoleValue(role)])
  }

  // ---- The dictionary of records, in insertion order ----

  function IndexOf(spaces: seq<Workspace>, id: string): (r: Option<nat>)
    ensures r.Some? ==> r.value < |spaces| && spaces[r.value].id == id
    ensures r.None? ==> forall i :: 0 <= i < |spaces| ==> spaces[i].id != id
  {
    if spaces == [] then None
    else if spaces[|spaces| - 1].id == id then Some(|spaces| - 1)
    else IndexOf(spaces[..|spaces| - 1], id)
  }

  function Put(spaces: seq<Workspace>, ws: Workspace): seq<Workspace> {
    var i := IndexOf(spaces, ws.id);
    if i.Some? then spaces[i.value := ws] else spaces + [ws]
  }

  function Without(spaces: seq<Workspace>, i: nat): seq<Workspace>
    requires i < |spaces|
  {
    spaces[..i] + spaces[i + 1..]
  }

  function Open(spaces: seq<Workspace>): (r: seq<Workspace>)
    ensures |r| <= |spaces|
  {
    if spaces == [] then []
    else
      var ws := spaces[|spaces| - 1];
      Open(spaces[..|spaces| - 1]) + if ws.status == "closed" then [] else [ws]
  }

  /** The ids purge_closed collects. */
  function ClosedIds(spaces: seq<Workspace>): (ids: seq<string>)
    ensures |ids| + |Open(spaces)| == |spaces|
  {
    if spaces == [] then []
    else
      var ws := spaces[|spaces| - 1];
      ClosedIds(spaces[..|spaces| - 1]) + if ws.status == "closed" then [ws.id] else []
  }

  lemma {:induction false} ClosedIdAt(spaces: seq<Workspace>, k: nat) returns (i: nat)
    requires k < |ClosedIds(spaces)|
    ensures i < |spaces| && spaces[i].id == ClosedIds(spaces)[k] && spaces[i].status == "closed"
  {
    var rest := spaces[..|spaces| - 1];
    if k < |ClosedIds(rest)| {
      i := ClosedIdAt(rest, k);
    } else {
      i := |spaces| - 1;
    }
  }

  lemma {:induction false} ClosedIdsExact(spaces: seq<Workspace>, i: nat)
    requires Distinct(spaces) && i < |spaces|
    ensures spaces[i].id in ClosedIds(spaces) <==> spaces[i].status == "closed"
  {
    var rest := spaces[..|spaces| - 1];
    if i < |rest| {
      ClosedIdsExact(rest, i);
    } else if spaces[i].id in ClosedIds(rest) {
      var k :| 0 <= k < |ClosedIds(rest)| && ClosedIds(rest)[k] == spaces[i].id;
      var j := ClosedIdAt(rest, k);
      assert false;
    }
  }

  lemma {:induction false} ClosedIdsDistinct(spaces: seq<Workspace>, k: nat, l: nat)
    requires Distinct(spaces) && k < l < |ClosedIds(spaces)|
    ensures ClosedIds(spaces)[k] != ClosedIds(spaces)[l]
  {
    var rest := spaces[..|spaces| - 1];
    if l < |ClosedIds(rest)| {
      ClosedIdsDistinct(rest, k, l);
    } else {
      var j := ClosedIdAt(rest, k);
    }
  }

  /** The records left once the keys in `gone` are deleted. */
  function Dropping(spaces: seq<Workspace>, gone: seq<string>): (r: seq<Workspace>) {
    if spaces == [] then []
    else
      var ws := spaces[|spaces| - 1];
      Dropping(spaces[..|spaces| - 1], gone) + if ws.id in gone then [] else [ws]
  }

  lemma {:induction false} DroppingNothing(spaces: seq<Workspace>)
    ensures Dropping(spaces, []) == spaces
  {
    if spaces != [] {
      DroppingNothing(spaces[..|spaces| - 1]);
      assert spaces == spaces[..|spaces| - 1] + [spaces[|spaces| - 1]];
    }
  }

  lemma {:induction false} DropElsewhere(spaces: seq<Workspace>, gone: seq<string>, id: string)
    requires forall i :: 0 <= i < |spaces| ==> spaces[i].id != id
    ensures Dropping(spaces, gone + [id]) == Dropping(spaces, gone)
  {
    if spaces != [] {
      DropElsewhere(spaces[..|spaces| - 1], gone, id);
    }
  }

  lemma DropBeforeLast<T>(s: seq<T>, x: T, i: nat)
    requires i < |s|
    ensures (s + [x])[..i] + (s + [x])[i + 1..] == s[..i] + s[i + 1..] + [x]
  {
  }

  lemma WithoutBeforeLast(kept: seq<Workspace>, ws: Workspace, id: string)
    requires ws.id != id
    ensures IndexOf(kept + [ws], id) == IndexOf(kept, id)
    ensures var i := IndexOf(kept, id); i.Some? ==> Without(kept + [ws], i.value) == Without(kept, i.value) + [ws]
  {
    assert (kept + [ws])[..|kept|] == kept;
    var i := IndexOf(kept, id);
    if i.Some? {
      DropBeforeLast(kept, ws, i.value);
    }
  }

  lemma DroppingLast(spaces: seq<Workspace>, gone: seq<string>)
    requires spaces != []
    ensures var ws, kept := spaces[|spaces| - 1], Dropping(spaces[..|spaces| - 1], gone);
            Dropping(spaces, gone) == if ws.id in gone then kept else kept + [ws]
  {
  }

  lemma DropThisLast(kept: seq<Workspace>, ws: Workspace)
    ensures IndexOf(kept + [ws], ws.id) == Some(|kept|) && Without(kept + [ws], |kept|) == kept
  {
  }

  /** Deleting one more key. */
  lemma {:induction false} DropOne(spaces: seq<Workspace>, gone: seq<string>, i: nat)
    requires Distinct(spaces) && i < |spaces| && spaces[i].id !in gone
    ensures var kept := Dropping(spaces, gone);
            var j := IndexOf(kept, spaces[i].id);
            j.Some? && Without(kept, j.value) == Dropping(spaces, gone + [spaces[i].id])
  {
    var ws, rest, id := spaces[|spaces| - 1], spaces[..|spaces| - 1], spaces[i].id;
    var kept := Dropping(rest, gone);
    DroppingLast(spaces, gone);
    DroppingLast(spaces, gone + [id]);
    if i == |rest| {
      DropElsewhere(rest, gone, id);
      DropThisLast(kept, ws);
    } else {
      assert rest[i].id == id != ws.id;
      DropOne(rest, gone, i);
      WithoutBeforeLast(kept, ws, id);
    }
  }

  /** One step of the deletion loop. */
  lemma {:induction false} DropNext(spaces: seq<Workspace>, k: nat)
    requires Distinct(spaces) && k < |ClosedIds(spaces)|
    ensures var ids := ClosedIds(spaces);
            var kept := Dropping(spaces, ids[..k]);
            var j := IndexOf(kept, ids[k]);
            j.Some? && Without(kept, j.value) == Dropping(spaces, ids[..k + 1])
  {
    var ids := ClosedIds(spaces);
    var from := ClosedIdAt(spaces, k);
    forall j | 0 <= j < k ensures ids[j] != ids[k] {
      ClosedIdsDistinct(spaces, j, k);
    }
    DropOne(spaces, ids[..k], from);
    assert ids[..k + 1] == ids[..k] + [ids[k]];
  }

  lemma {:induction false} DroppingClosed(spaces: seq<Workspace>, gone: seq<string>)
    requires forall i :: 0 <= i < |spaces| ==> (spaces[i].id in gone <==> spaces[i].status == "closed")
    ensures Dropping(spaces, gone) == Open(spaces)
  {
    if spaces != [] {
      DroppingClosed(spaces[..|spaces| - 1], gone);
    }
  }

  lemma {:induction false} OpenAt(spaces: seq<Workspace>, k: nat) returns (i: nat)
    requires k < |Open(spaces)|
    ensures i < |spaces| && spaces[i] == Open(spaces)[k] && spaces[i].status != "closed"
  {
    var rest := spaces[..|spaces| - 1];
    if k < |Open(rest)| {
      i := OpenAt(rest, k);
    } else {
      i := |spaces| - 1;
    }
  }

  lemma {:induction false} OpenDistinct(spaces: seq<Workspace>)
    requires Distinct(spaces)
    ensures Distinct(Open(spaces))
  {
    if spaces != [] {
      var rest := spaces[..|spaces| - 1];
      OpenDistinct(rest);
      forall k | 0 <= k < |Open(rest)| ensures Open(rest)[k].id != spaces[|spaces| - 1].id {
        var i := OpenAt(rest, k);
      }
    }
  }

  lemma {:induction false} OpenAll(spaces: seq<Workspace>)
    requires |Open(spaces)| == |spaces|
    ensures Open(spaces) == spaces
  {
    if spaces != [] {
      OpenAll(spaces[..|spaces| - 1]);
    }
  }

  predicate NameTaken(spaces: seq<Workspace>, name: string) {
    exists i :: 0 <= i < |spaces| && spaces[i].name == name
  }

  // ---- Requests, and what each does to the records ----

  predicate NameChar(c: char) {
    'a' <= c <= 'z' || '0' <= c <= '9' || c == '-'
  }

  /** [a-z0-9][a-z0-9-]{0,63} */
  predicate SafeName(s: string) {
    1 <= |s| <= 64 && s[0] != '-' && forall i :: 0 <= i < |s| ==> NameChar(s[i])
  }

  datatype Proposal = Proposal(
    name: string, displayName: string, agentName: string, parent: Option<string>, inheritMemory: bool,
    creator: UserId, platform: string, expectedPlatform: Option<string>, now: Json, suffix: string)

  datatype Request =
    | Add(ws: Workspace)
    | Remove(id: string)
    | Close(id: string)
    | PurgeClosed
    | CreatePending(p: Proposal)
    | FinalizeSetup(id: string, parent: Option<string>, inheritMemory: bool)
    | MigrateChat(from: ChatRef, to: ChatRef)
    | BindChat(id: string, chat: ChatRef, creator: Option<UserId>)
    | SetRole(id: string, user: UserId, role: Role)
    | SetMode(id: string, mode: string)
    | SetInviteLink(id: string, link: string)

  datatype Error = Storage | ValueError
  datatype Reply = Done | Flag(b: bool) | Count(n: nat) | Made(ws: Workspace) | Raised(error: Error)

  /** What the body of a mutation does: nothing, raise, or change the records and then persist them. */
  datatype Edit = Keep(reply: Reply) | Save(spaces: seq<Workspace>, reply: Reply)

  /** Answers given before the store is even locked. */
  function Precheck(req: Request): Option<Reply> {
    match req
    case CreatePending(p) =>
      if !SafeName(Text.Strip(p.name)) || p.creator == Number(0) then Some(Raised(ValueError)) else None
    case MigrateChat(from, to) =>
      if from.platform != to.platform || to.chatId == "" || to.chatId == "0" then Some(Flag(false)) else None
    case _ => None
  }

  function Proposed(p: Proposal, id: string): Workspace {
    Workspace(id, Text.Strip(p.name), Some(p.displayName), p.agentName, "0", Some(p.platform), p.expectedPlatform,
      "intelligent", p.parent, p.inheritMemory, None, "pending", p.now, UserJson(p.creator), UserJson(p.creator),
      map[UserKey(p.creator) := "owner"])
  }

  function FreshId(spaces: seq<Workspace>, p: Proposal): string {
    var id := "collab-" + Text.Strip(p.name);
    if IndexOf(spaces, id).Some? then id + "-" + p.suffix else id
  }

  predicate Bindable(ws: Workspace, chat: ChatRef, creator: Option<UserId>) {
    && ws.status == "pending" && ws.chatId == "0"
    && (ws.expectedPlatform.Some? ==> ws.expectedPlatform.value == chat.platform)
    && (creator.Some? && !ws.expectedCreator.Null? ==> SameUser(ws.expectedCreator, creator.value))
  }

  /** The record a request leaves in place of the one it found; None is a refusal. */
  function Updated(ws: Workspace, req: Request): Option<Workspace> {
    match req
    case Close(_) => Some(ws.(status := "closed"))
    case FinalizeSetup(_, parent, inherit) =>
      if ws.status == "setup" then Some(ws.(parent := parent, inheritMemory := inherit, status := "active")) else None
    case MigrateChat(_, to) => Some(ws.(chatId := to.chatId))
    case BindChat(_, chat, creator) =>
      if Bindable(ws, chat, creator)
      then Some(ws.(platform := Some(chat.platform), chatId := chat.chatId, status := "active")) else None
    case SetRole(_, user, role) => Some(WithRole(ws, user, role))
    case SetMode(_, mode) => if mode in MODES then Some(ws.(mode := mode)) else None
    case SetInviteLink(_, link) => Some(ws.(inviteLink := Some(link)))
    case _ => None
  }

  /** The id a single-record request works on. */
  function Target(spaces: seq<Workspace>, req: Request): Option<string> {
    match req
    case Close(id) => Some(id)
    case FinalizeSetup(id, _, _) => Some(id)
    case MigrateChat(from, _) =>
      var r := Route(spaces, (Some(from.platform), from.chatId));
      if r.Some? then Some(r.value.id) else None
    case BindChat(id, _, _) => Some(id)
    case SetRole(id, _, _) => Some(id)
    case SetMode(id, _) => Some(id)
    case SetInviteLink(id, _) => Some(id)
    case _ => None
  }

  function EditOne(spaces: seq<Workspace>, req: Request): Edit {
    var id := Target(spaces, req);
    var i := if id.Some? then IndexOf(spaces, id.value) else None;
    if i.None? then Keep(Flag(false))
    else
      var ws := Updated(spaces[i.value], req);
      if ws.None? then Keep(Flag(false)) else Save(spaces[i.value := ws.value], Flag(true))
  }

  function EditOf(spaces: seq<Workspace>, req: Request): Edit {
    match req
    case Add(ws) => Save(Put(spaces, ws), Done)
    case Remove(id) =>
      var i := IndexOf(spaces, id);
      if i.None? then Keep(Flag(false)) else Save(Without(spaces, i.value), Flag(true))
    case PurgeClosed =>
      var kept := Open(spaces);
      if |kept| == |spaces| then Keep(Count(0)) else Save(kept, Count(|spaces| - |kept|))
    case CreatePending(p) =>
      if NameTaken(spaces, Text.Strip(p.name)) then Keep(Raised(ValueError))
      else
        var ws := Proposed(p, FreshId(spaces, p));
        Save(Put(spaces, ws), Made(ws))
    case _ => EditOne(spaces, req)
  }

  // ---- One call against memory and disk ----

  datatype Store = Store(life: Life<Registry>, spaces: seq<Workspace>)

  /** What the environment does to a call: whether its lock is granted, the I/O of its two guards, and
      whether the replace of the file lands. */
  datatype Env = Env(locked: bool, io: Io, bar: Barrier, io2: Io, bar2: Barrier, landed: bool)

  function Persist(s: Store, site: Site<Registry>, spaces: seq<Workspace>, reply: Reply, env: Env): (Store, Reply) {
    var disk := GuardDisk(s.life.disk, site, env.io2, env.bar2);
    var refused := s.(life := Life(disk, s.life.mem));
    if !GuardResult(s.life.disk, site, env.io2).MayWrite? then (refused, Raised(Storage))
    else if !ValidRegistry(ToDoc(spaces)) then (refused, Raised(ValueError))
    else if !env.landed then (refused, Raised(Storage))
    else
      var doc: Registry := ToDoc(spaces);
      (Store(Life(disk.(live := Some(Content.Valid(doc))), Some(doc)), spaces), reply)
  }

  function Call(s: Store, site: Site<Registry>, req: Request, env: Env): (Store, Reply) {
    var early := Precheck(req);
    if early.Some? then (s, early.value)
    else if !env.locked then (s, Raised(Storage))
    else
      var s1 := s.(life := Life(GuardDisk(s.life.disk, site, env.io, env.bar), s.life.mem));
      if !GuardResult(s.life.disk, site, env.io).MayWrite? then (s1, Raised(Storage))
      else
        match EditOf(s.spaces, req)
        case Keep(reply) => (s1, reply)
        case Save(spaces, reply) => Persist(s1, site, spaces, reply, env)
  }

  lemma EditsOne(spaces: seq<Workspace>, req: Request, i: nat, ws: Workspace)
    requires i < |spaces| && Target(spaces, req).Some? && IndexOf(spaces, Target(spaces, req).value) == Some(i)
    requires Updated(spaces[i], req) == Some(ws)
    ensures EditOf(spaces, req) == Save(spaces[i := ws], Flag(true)) && ws.id == spaces[i].id
  {
  }

  lemma CallSaves(s: Store, site: Site<Registry>, req: Request, env: Env)
    requires Precheck(req).None? && env.locked && GuardResult(s.life.disk, site, env.io).MayWrite?
    requires EditOf(s.spaces, req).Save?
    ensures var edit := EditOf(s.spaces, req);
            var s1 := s.(life := Life(GuardDisk(s.life.disk, site, env.io, env.bar), s.life.mem));
            Call(s, site, req, env) == Persist(s1, site, edit.spaces, edit.reply, env)
  {
  }

  // ---- The store, updated in place ----

  class CollabStore {
    const file: JsonFile<Registry>
    var workspaces: seq<Workspace>
    var chatMap: map<RouteKey, string>
    ghost var seen: Option<Registry>  // the registry last loaded or written

    ghost predicate Valid()
      reads this, file
    {
      && file.Valid()
      && Distinct(workspaces) && (forall i :: 0 <= i < |workspaces| ==> workspaces[i].id != "")
      && Agrees(chatMap, workspaces)
    }

    ghost function View(): Store
      reads this, file
    {
      Store(Life(file.View(), seen), workspaces)
    }

    constructor (file: JsonFile<Registry>)
      requires file.Valid()
      ensures Valid() && this.file == file && View() == Store(Life(file.View(), None), [])
    {
      this.file := file;
      workspaces, chatMap, seen := [], map[], None;
    }

    method RebuildChatMap()
      modifies this`chatMap
      ensures Agrees(chatMap, workspaces)
    {
      chatMap := map[];
      for i := 0 to |workspaces|
        invariant Agrees(chatMap, workspaces[..i])
      {
        var ws := workspaces[i];
        assert workspaces[..i + 1][..i] == workspaces[..i];
        if Routable(ws) {
          chatMap := chatMap[KeyOf(ws) := ws.id];
        }
      }
      assert workspaces[..|workspaces|] == workspaces;
    }

    method Load(io: Io) returns (loaded: bool)
      requires Valid() && workspaces == [] && seen.None?
      modifies this, file
      ensures Valid() && View().life == AfterLoad(old(View()).life, file.site, io)
      ensures loaded == Answered(LoadOutcome(old(file.View()), file.site, io))
      ensures workspaces == if seen.Some? then FromDoc(seen.value) else []
    {
      ghost var before := file.View();
      ghost var history := file.history;
      var o := file.LoadJsonWithRecovery(io);
      LastOfTail(history, LoadTrace(before, file.site, io));
      match o {
        case Missing =>
        case Loaded(doc) => Adopt(doc);
        case Recovered(doc, _) => Adopt(doc);
        case _ => return false;
      }
      return true;
    }

    method Adopt(doc: Registry)
      requires file.Valid()
      modifies this
      ensures Valid() && workspaces == FromDoc(doc) && seen == Some(doc)
    {
      DecodedIsWellFormed(doc);
      workspaces, seen := FromDoc(doc), Some(doc);
      RebuildChatMap();
    }

    // -- Persistence, with rollback --

    method WriteUnlocked(io: Io, bar: Barrier, landed: bool) returns (error: Option<Error>)
      requires file.Valid()
      modifies file, this`seen
      ensures file.Valid()
      ensures error.None? ==> ValidRegistry(ToDoc(workspaces)) && seen == Some(ToDoc(workspaces))
      ensures error.Some? ==> seen == old(seen)
      ensures Persist(old(View()), file.site, workspaces, Done, Env(true, io, bar, io, bar, landed))
              == (View(), if error.Some? then Raised(error.value) else Done)
    {
      var guard := file.GuardJsonWrite(io, bar);
      if !guard.MayWrite? {
        return Some(Storage);
      }
      var data := ToDoc(workspaces);
      if !ValidRegistry(data) {
        return Some(ValueError);
      }
      if !landed {
        return Some(Storage);
      }
      file.Replace(data);
      seen := Some(data);
      return None;
    }

    /** The end of a mutation: persist the edited records, or put back the ones from before. */
    method CommitOrRollBack(before: seq<Workspace>, reply: Reply, env: Env) returns (r: Reply)
      requires file.Valid() && Distinct(workspaces) && Agrees(chatMap, workspaces)
      requires Distinct(before) && forall i :: 0 <= i < |before| ==> before[i].id != ""
      modifies this, file
      ensures Valid()
      ensures (View(), r) == Persist(old(View()).(spaces := before), file.site, old(workspaces), reply, env)
    {
      var error := WriteUnlocked(env.io2, env.bar2, env.landed);
      if error.Some? {
        workspaces := before;
        RebuildChatMap();
        return Raised(error.value);
      }
      AcceptedIffWellFormed(workspaces);
      return reply;
    }

    method BeginMutation(env: Env) returns (ok: bool)
      requires Valid()
      modifies file
      ensures Valid()
      ensures !env.locked ==> !ok && View() == old(View())
      ensures env.locked ==>
                && file.View() == GuardDisk(old(file.View()), file.site, env.io, env.bar)
                && ok == GuardResult(old(file.View()), file.site, env.io).MayWrite?
    {
      if !env.locked {
        return false;
      }
      var guard := file.GuardJsonWrite(env.io, env.bar);
      return guard.MayWrite?;
    }

    /** A record is edited, the index rebuilt, and both persisted. */
    method CommitRecord(i: nat, ws: Workspace, env: Env) returns (r: Reply)
      requires Valid() && i < |workspaces| && ws.id == workspaces[i].id
      modifies this, file
      ensures Valid()
      ensures (View(), r) == Persist(old(View()), file.site, old(workspaces)[i := ws], Flag(true), env)
    {
      var before := workspaces;
      workspaces := workspaces[i := ws];
      RebuildChatMap();
      r := CommitOrRollBack(before, Flag(true), env);
    }

    /** A record is stored under its id, the index rebuilt, and both persisted. */
    method CommitPut(ws: Workspace, reply: Reply, env: Env) returns (r: Reply)
      requires Valid()
      modifies this, file
      ensures Valid()
      ensures (View(), r) == Persist(old(View()), file.site, Put(old(workspaces), ws), reply, env)
    {
      var before := workspaces;
      workspaces := Put(workspaces, ws);
      RebuildChatMap();
      r := CommitOrRollBack(before, reply, env);
    }

    /** An edited record without the rebuild, for fields routing does not read. */
    method CommitQuietly(i: nat, ws: Workspace, env: Env) returns (r: Reply)
      requires Valid() && i < |workspaces| && SameRouting(workspaces[i], ws)
      modifies this, file
      ensures Valid()
      ensures (View(), r) == Persist(old(View()), file.site, old(workspaces)[i := ws], Flag(true), env)
    {
      var before := workspaces;
      AgreesAfterQuietEdit(chatMap, workspaces, i, ws);
      workspaces := workspaces[i := ws];
      r := CommitOrRollBack(before, Flag(true), env);
    }

    method Collides(name: string) returns (b: bool)
      ensures b == NameTaken(workspaces, name)
    {
      for i := 0 to |workspaces|
        invariant forall k :: 0 <= k < i ==> workspaces[k].name != name
      {
        if workspaces[i].name == name {
          return true;
        }
      }
      return false;
    }

    // -- The public operations --

    method Add(ws: Workspace, env: Env) returns (r: Reply)
      requires Valid()
      modifies this, file
      ensures Valid() && (View(), r) == Call(old(View()), file.site, Request.Add(ws), env)
    {
      var ok := BeginMutation(env);
      if !ok {
        return Raised(Storage);
      }
      r := CommitPut(ws, Done, env);
    }

    method Remove(id: string, env: Env) returns (r: Reply)
      requires Valid()
      modifies this, file
      ensures Valid() && (View(), r) == Call(old(View()), file.site, Request.Remove(id), env)
    {
      var ok := BeginMutation(env);
      if !ok {
        return Raised(Storage);
      }
      var before := workspaces;
      var i := IndexOf(workspaces, id);
      if i.None? {
        return Flag(false);
      }
      workspaces := Without(workspaces, i.value);
      RebuildChatMap();
      r := CommitOrRollBack(before, Flag(true), env);
    }

    method Close(id: string, env: Env) returns (r: Reply)
      requires Valid()
      modifies this, file
      ensures Valid() && (View(), r) == Call(old(View()), file.site, Request.Close(id), env)
    {
      var ok := BeginMutation(env);
      if !ok {
        return Raised(Storage);
      }
      var i := IndexOf(workspaces, id);
      if i.None? {
        return Flag(false);
      }
      var ws := workspaces[i.value].(status := "closed");
      EditsOne(workspaces, Request.Close(id), i.value, ws);
      CallSaves(old(View()), file.site, Request.Close(id), env);
      r := CommitRecord(i.value, ws, env);
    }

    method CollectClosed() returns (closedIds: seq<string>)
      ensures closedIds == ClosedIds(workspaces)
    {
      closedIds := [];
      for i := 0 to |workspaces|
        invariant closedIds == ClosedIds(workspaces[..i])
      {
        assert workspaces[..i + 1][..i] == workspaces[..i];
        if workspaces[i].status == "closed" {
          closedIds := closedIds + [workspaces[i].id];
        }
      }
      assert workspaces[..|workspaces|] == workspaces;
    }

    method DeleteClosed(closedIds: seq<string>)
      requires Distinct(workspaces) && closedIds == ClosedIds(workspaces)
      modifies this`workspaces
      ensures workspaces == Open(old(workspaces))
    {
      ghost var before := workspaces;
      DroppingNothing(before);
      for k := 0 to |closedIds|
        invariant workspaces == Dropping(before, closedIds[..k])
      {
        DropNext(before, k);
        var i := IndexOf(workspaces, closedIds[k]);
        workspaces := Without(workspaces, i.value);
      }
      assert closedIds[..|closedIds|] == closedIds;
      forall i | 0 <= i < |before| ensures before[i].id in closedIds <==> before[i].status == "closed" {
        ClosedIdsExact(before, i);
      }
      DroppingClosed(before, closedIds);
    }

    method PurgeClosed(env: Env) returns (r: Reply)
      requires Valid()
      modifies this, file
      ensures Valid() && (View(), r) == Call(old(View()), file.site, Request.PurgeClosed, env)
    {
      var ok := BeginMutation(env);
      if !ok {
        return Raised(Storage);
      }
      var before := workspaces;
      var closedIds := CollectClosed();
      DeleteClosed(closedIds);
      OpenDistinct(before);
      if closedIds != [] {
        RebuildChatMap();
        r := CommitOrRollBack(before, Count(|closedIds|), env);
      } else {
        OpenAll(before);
        r := Count(0);
      }
    }

    method UnusedId(p: Proposal) returns (id: string)
      ensures id == FreshId(workspaces, p)
    {
      id := "collab-" + Text.Strip(p.name);
      if IndexOf(workspaces, id).Some? {
        id := id + "-" + p.suffix;
      }
    }

    method CreatePending(p: Proposal, env: Env) returns (r: Reply)
      requires Valid()
      modifies this, file
      ensures Valid() && (View(), r) == Call(old(View()), file.site, Request.CreatePending(p), env)
    {
      var name := Text.Strip(p.name);
      if !SafeName(name) || p.creator == Number(0) {
        return Raised(ValueError);
      }
      r := CreateLocked(name, p, env);
    }

    /** The part of create_pending under the store's lock. */
    method CreateLocked(name: string, p: Proposal, env: Env) returns (r: Reply)
      requires Valid() && name == Text.Strip(p.name) && Precheck(Request.CreatePending(p)).None?
      modifies this, file
      ensures Valid() && (View(), r) == Call(old(View()), file.site, Request.CreatePending(p), env)
    {
      var ok := BeginMutation(env);
      if !ok {
        return Raised(Storage);
      }
      var collides := Collides(name);
      if collides {
        return Raised(ValueError);
      }
      var id := UnusedId(p);
      var ws := Proposed(p, id);
      CallSaves(old(View()), file.site, Request.CreatePending(p), env);
      r := CommitPut(ws, Made(ws), env);
    }

    method FinalizeSetup(id: string, parent: Option<string>, inheritMemory: bool, env: Env) returns (r: Reply)
      requires Valid()
      modifies this, file
      ensures Valid()
      ensures (View(), r) == Call(old(View()), file.site, Request.FinalizeSetup(id, parent, inheritMemory), env)
    {
      var ok := BeginMutation(env);
      if !ok {
        return Raised(Storage);
      }
      var i := IndexOf(workspaces, id);
      if i.None? || workspaces[i.value].status != "setup" {
        return Flag(false);
      }
      var ws := workspaces[i.value].(parent := parent, inheritMemory := inheritMemory, status := "active");
      EditsOne(workspaces, Request.FinalizeSetup(id, parent, inheritMemory), i.value, ws);
      CallSaves(old(View()), file.site, Request.FinalizeSetup(id, parent, inheritMemory), env);
      r := CommitRecord(i.value, ws, env);
    }

    method MigrateChatId(from: ChatRef, to: ChatRef, env: Env) returns (r: Reply)
      requires Valid()
      modifies this, file
      ensures Valid() && (View(), r) == Call(old(View()), file.site, MigrateChat(from, to), env)
    {
      if from.platform != to.platform || to.chatId == "" || to.chatId == "0" {
        return Flag(false);
      }
      var ok := BeginMutation(env);
      if !ok {
        return Raised(Storage);
      }
      var key := (Some(from.platform), from.chatId);
      if key !in chatMap || chatMap[key] == "" {
        return Flag(false);
      }
      var i := IndexOf(workspaces, chatMap[key]);
      if i.None? {
        return Flag(false);
      }
      var ws := workspaces[i.value].(chatId := to.chatId);
      EditsOne(workspaces, MigrateChat(from, to), i.value, ws);
      CallSaves(old(View()), file.site, MigrateChat(from, to), env);
      r := CommitRecord(i.value, ws, env);
    }

    method UpdateChatId(id: string, chat: ChatRef, creator: Option<UserId>, env: Env) returns (r: Reply)
      requires Valid()
      modifies this, file
      ensures Valid() && (View(), r) == Call(old(View()), file.site, BindChat(id, chat, creator), env)
    {
      var ok := BeginMutation(env);
      if !ok {
        return Raised(Storage);
      }
      var i := IndexOf(workspaces, id);
      if i.None? {
        return Flag(false);
      }
      var ws := workspaces[i.value];
      if ws.status != "pending" || ws.chatId != "0" {
        return Flag(false);
      }
      if ws.expectedPlatform.Some? && ws.expectedPlatform.value != chat.platform {
        return Flag(false);
      }
      if creator.Some? && !ws.expectedCreator.Null? && !SameUser(ws.expectedCreator, creator.value) {
        return Flag(false);
      }
      ws := ws.(platform := Some(chat.platform), chatId := chat.chatId, status := "active");
      EditsOne(workspaces, BindChat(id, chat, creator), i.value, ws);
      CallSaves(old(View()), file.site, BindChat(id, chat, creator), env);
      r := CommitRecord(i.value, ws, env);
    }

    method UpdateRoles(id: string, user: UserId, role: Role, env: Env) returns (r: Reply)
      requires Valid()
      modifies this, file
      ensures Valid() && (View(), r) == Call(old(View()), file.site, SetRole(id, user, role), env)
    {
      var ok := BeginMutation(env);
      if !ok {
        return Raised(Storage);
      }
      var i := IndexOf(workspaces, id);
      if i.None? {
        return Flag(false);
      }
      var ws := WithRole(workspaces[i.value], user, role);
      EditsOne(workspaces, SetRole(id, user, role), i.value, ws);
      CallSaves(old(View()), file.site, SetRole(id, user, role), env);
      r := CommitQuietly(i.value, ws, env);
    }

    method UpdateInteractionMode(id: string, mode: string, env: Env) returns (r: Reply)
      requires Valid()
      modifies this, file
      ensures Valid() && (View(), r) == Call(old(View()), file.site, SetMode(id, mode), env)
    {
      var ok := BeginMutation(env);
      if !ok {
        return Raised(Storage);
      }
      var i := IndexOf(workspaces, id);
      if i.None? || mode !in MODES {
        return Flag(false);
      }
      var ws := workspaces[i.value].(mode := mode);
      EditsOne(workspaces, SetMode(id, mode), i.value, ws);
      CallSaves(old(View()), file.site, SetMode(id, mode), env);
      r := CommitQuietly(i.value, ws, env);
    }

    method UpdateInviteLink(id: string, link: string, env: Env) returns (r: Reply)
      requires Valid()
      modifies this, file
      ensures Valid() && (View(), r) == Call(old(View()), file.site, SetInviteLink(id, link), env)
    {
      var ok := BeginMutation(env);
      if !ok {
        return Raised(Storage);
      }
      var i := IndexOf(workspaces, id);
      if i.None? {
        return Flag(false);
      }
      var ws := workspaces[i.value].(inviteLink := Some(link));
      EditsOne(workspaces, SetInviteLink(id, link), i.value, ws);
      CallSaves(old(View()), file.site, SetInviteLink(id, link), env);
      r := CommitQuietly(i.value, ws, env);
    }

    // -- Lookup --

    /** The index answers like a scan for the last routable record with that key. */
    method GetByChatId(chat: ChatRef) returns (r: Option<Workspace>)
      requires Valid()
      ensures r == Route(workspaces, (Some(chat.platform), chat.chatId))
    {
      var key := (Some(chat.platform), chat.chatId);
      if key !in chatMap || chatMap[key] == "" {
        return None;
      }
      var i := IndexOf(workspaces, chatMap[key]);
      return if i.Some? then Some(workspaces[i.value]) else None;
    }
  }
}
