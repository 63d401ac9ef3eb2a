/** What each request of the collaborative store accepts and what it changes, record by record, and when a
    call raises. */
module CollabOutcomes {
  import opened Common
  import opened CollabRecords
  import opened CollabStores
  import opened CollabProperties
  import opened JsonRecovery
  import opened RecoveryProperties
  import Text

  // ---- Decoding, field by field ----

  /** A member that is there is read into its own field. */
  lemma MembersAreRead(e: Entry)
    requires ValidEntry(e)
    ensures var p, ws := e.payload, FromPayload(e);
            && p.id == Some(Str(ws.id)) && ws.id == e.key
            && p.name == Some(Str(ws.name)) && p.agentName == Some(Str(ws.agentName))
            && (p.status.Some? ==> p.status == Some(Str(ws.status)))
            && (p.interactionMode.Some? ==> p.interactionMode == Some(Str(ws.mode)))
            && (p.inheritMemory.Some? ==> p.inheritMemory == Some(Bool(ws.inheritMemory)))
            && (p.createdAt.Some? ==> p.createdAt == Some(ws.createdAt))
            && (p.createdBy.Some? ==> p.createdBy == Some(ws.createdBy))
            && (p.expectedCreatorId.Some? ==> p.expectedCreatorId == Some(ws.expectedCreator))
            && (p.roles.Some? ==> p.roles == Some(RolesJson(ws.roles)))
  {
    if e.payload.roles.Some? {
      var j := e.payload.roles.value;
      assert RolesJson(AsRoles(j)).fields == j.fields;
    }
  }

  lemma OptionalMembersAreRead(e: Entry)
    requires ValidEntry(e)
    ensures var p, ws := e.payload, FromPayload(e);
            && (p.displayName.Some? ==> p.displayName == Some(OptStr(ws.displayName)))
            && (p.platform.Some? ==> p.platform == Some(OptStr(ws.platform)))
            && (p.expectedPlatform.Some? ==> p.expectedPlatform == Some(OptStr(ws.expectedPlatform)))
            && (p.parentWorkspace.Some? ==> p.parentWorkspace == Some(OptStr(ws.parent)))
            && (p.inviteLink.Some? ==> p.inviteLink == Some(OptStr(ws.inviteLink)))
            && (p.chatId.Some? && p.chatId.value.Str? ==> p.chatId == Some(Str(ws.chatId)))
  {
  }

  /** A record of which only the required members were written. */
  lemma DefaultsAreRead(e: Entry)
    requires ValidEntry(e)
    ensures var p, ws := e.payload, FromPayload(e);
            && (p.displayName.None? ==> ws.displayName == Some(ws.name))
            && (p.chatId.None? || p.chatId == Some(Null) ==> ws.chatId == "0")
            && (p.platform.None? ==> ws.platform == Some("telegram"))
            && (p.expectedPlatform.None? ==> ws.expectedPlatform.None?)
            && (p.interactionMode.None? ==> ws.mode == "intelligent")
            && (p.parentWorkspace.None? ==> ws.parent.None?)
            && (p.inheritMemory.None? ==> ws.inheritMemory)
            && (p.inviteLink.None? ==> ws.inviteLink.None?)
            && (p.status.None? ==> ws.status == "active")
            && (p.createdAt.None? ==> ws.createdAt == Int(0)) && (p.createdBy.None? ==> ws.createdBy == Int(0))
            && (p.expectedCreatorId.None? ==> ws.expectedCreator == Null)
            && (p.roles.None? ==> ws.roles == map[])
  {
  }

  predicate TextOrNull(m: Option<Json>) {
    m.None? || m.value.Null? || m.value.Str?
  }

  predicate ScalarOrNull(m: Option<Json>) {
    m.None? || m.value.Null? || m.value.Str? || m.value.Int? || m.value.Bool?
  }

  /** Exactly these entries are admitted: the key repeated as the id, a name and an agent, and every other member
      either missing, as older versions left it, or of its own kind. */
  lemma AdmittedIff(e: Entry)
    ensures var p := e.payload;
            ValidEntry(e) <==>
            && e.key != "" && p.id == Some(Str(e.key))
            && p.name.Some? && p.name.value.Str? && p.name.value.s != ""
            && p.agentName.Some? && p.agentName.value.Str? && p.agentName.value.s != ""
            && TextOrNull(p.displayName) && TextOrNull(p.platform) && TextOrNull(p.expectedPlatform)
            && TextOrNull(p.parentWorkspace) && TextOrNull(p.inviteLink)
            && (p.status.None? || p.status.value in
                  {Str("pending"), Str("setup"), Str("active"), Str("closed")})
            && (p.interactionMode.None? || p.interactionMode.value in {Str("intelligent"), Str("passive")})
            && (p.inheritMemory.None? || p.inheritMemory.value.Bool?)
            && ScalarOrNull(p.chatId) && ScalarOrNull(p.createdBy) && ScalarOrNull(p.expectedCreatorId)
            && (p.roles.None? ||
                (p.roles.value.Obj? && forall k :: k in p.roles.value.fields ==>
                   p.roles.value.fields[k] in {Str("owner"), Str("operator"), Str("participant")}))
  {
  }

  // ---- Numbers as text ----

  function ValueOf(s: string): int {
    if s == "" then 0 else 10 * ValueOf(s[..|s| - 1]) + (s[|s| - 1] as int - '0' as int)
  }

  /** A number's digits are decimal digits without a leading zero, and denote it. */
  lemma {:induction false} DigitsDenote(n: nat)
    ensures var s := Digits(n);
            && s != "" && ValueOf(s) == n && (|s| > 1 ==> s[0] != '0')
            && forall i :: 0 <= i < |s| ==> '0' <= s[i] <= '9'
    decreases n
  {
    var last := [(n % 10) as char + '0'];
    if n < 10 {
      assert last[..0] == "";
    } else {
      DigitsDenote(n / 10);
      var rest := Digits(n / 10);
      assert (rest + last)[..|rest|] == rest;
      assert n >= 10 ==> n / 10 > 0;
      NoLeadingZero(n / 10);
    }
  }

  lemma {:induction false} NoLeadingZero(n: nat)
    ensures n > 0 ==> Digits(n)[0] != '0'
    decreases n
  {
    if n >= 10 {
      NoLeadingZero(n / 10);
    }
  }

  /** The other forms a chat id may have: a text is read as it is, a boolean as Python prints it. */
  lemma OtherChatIsRead(e: Entry)
    requires ValidEntry(e) && e.payload.chatId.Some?
    ensures match e.payload.chatId.value
            case Str(s) => FromPayload(e).chatId == s
            case Bool(b) => FromPayload(e).chatId == if b then "True" else "False"
            case _ => true
  {
  }

  /** A chat id that was written as a number is read as its decimal text, with its sign. */
  lemma NumericChatIsRead(e: Entry, n: int)
    requires ValidEntry(e) && e.payload.chatId == Some(Int(n))
    ensures var s := FromPayload(e).chatId;
            if n < 0 then s != "" && s[0] == '-' && ValueOf(s[1..]) == -n
            else s != "" && s[0] != '-' && ValueOf(s) == n
  {
    if n < 0 {
      DigitsDenote(-n);
    } else {
      DigitsDenote(n);
    }
  }

  // ---- What each request changes ----

  /** The record with that id, of which there is at most one, is at i. */
  predicate At(spaces: seq<Workspace>, id: string, i: nat) {
    i < |spaces| && spaces[i].id == id
  }

  ghost predicate Unknown(spaces: seq<Workspace>, id: string) {
    forall i :: 0 <= i < |spaces| ==> spaces[i].id != id
  }

  /** The answer, with exactly this record in the place of the old one. */
  predicate Replaces(spaces: seq<Workspace>, req: CollabStores.Request, i: nat, ws: Workspace)
    requires i < |spaces|
  {
    EditOf(spaces, req) == Save(spaces[i := ws], Flag(true))
  }

  predicate Refuses(spaces: seq<Workspace>, req: CollabStores.Request) {
    EditOf(spaces, req) == Keep(Flag(false))
  }

  lemma IndexAt(spaces: seq<Workspace>, id: string, i: nat)
    requires Distinct(spaces) && At(spaces, id, i)
    ensures IndexOf(spaces, id) == Some(i)
  {
  }

  /** The requests that name a record refuse an id nobody has. */
  lemma UnknownIsRefused(spaces: seq<Workspace>, req: CollabStores.Request, id: string)
    requires Unknown(spaces, id)
    ensures Refuses(spaces, Remove(id)) && Refuses(spaces, CollabStores.Close(id))
    ensures forall parent, inherit :: Refuses(spaces, FinalizeSetup(id, parent, inherit))
    ensures forall chat, creator :: Refuses(spaces, BindChat(id, chat, creator))
    ensures forall user, role :: Refuses(spaces, SetRole(id, user, role))
    ensures forall mode :: Refuses(spaces, SetMode(id, mode))
    ensures forall link :: Refuses(spaces, SetInviteLink(id, link))
  {
  }

  /** Closing, and leaving setup, move the status and what was asked for; a record in any other status does
      not leave setup. */
  lemma StatusOutcome(spaces: seq<Workspace>, i: nat, parent: Option<string>, inherit: bool)
    requires Distinct(spaces) && i < |spaces|
    ensures var ws, id := spaces[i], spaces[i].id;
            && Replaces(spaces, CollabStores.Close(id), i, ws.(status := "closed"))
            && (if ws.status == "setup" then
                  Replaces(spaces, FinalizeSetup(id, parent, inherit), i,
                           ws.(status := "active", parent := parent, inheritMemory := inherit))
                else Refuses(spaces, FinalizeSetup(id, parent, inherit)))
  {
    IndexAt(spaces, spaces[i].id, i);
  }

  /** The creator a bind comes from is the one the record expects: if both are given, the same text, or the
      same number, where Python takes True for 1 and 7.0 for 7. */
  predicate CreatorFits(expected: Json, creator: Option<UserId>) {
    match (expected, creator)
    case (_, None) => true
    case (Null, _) => true
    case (Str(s), Some(Name(t))) => s == t
    case (Int(n), Some(Number(m))) => n == m
    case (Bool(b), Some(Number(m))) => m == if b then 1 else 0
    case (Real(x), Some(Number(m))) => x == m as real
    case _ => false
  }

  /** A chat is bound exactly to a pending record without one, on the platform it expects, by the creator it
      expects. */
  lemma BindOutcome(spaces: seq<Workspace>, i: nat, chat: ChatRef, creator: Option<UserId>)
    requires Distinct(spaces) && i < |spaces|
    ensures var ws, req := spaces[i], BindChat(spaces[i].id, chat, creator);
            if && ws.status == "pending" && ws.chatId == "0"
               && (ws.expectedPlatform == None || ws.expectedPlatform == Some(chat.platform))
               && CreatorFits(ws.expectedCreator, creator)
            then
              Replaces(spaces, req, i,
                       ws.(status := "active", platform := Some(chat.platform), chatId := chat.chatId))
            else Refuses(spaces, req)
  {
    IndexAt(spaces, spaces[i].id, i);
  }

  /** A role is set for one user and no other; a mode only if it is one of the two; a link as given. */
  lemma SettingOutcome(spaces: seq<Workspace>, i: nat, user: UserId, role: Role, mode: string, link: string)
    requires Distinct(spaces) && i < |spaces|
    ensures var ws, id := spaces[i], spaces[i].id;
            var key := match user case Name(s) => s case Number(n) => Decimal(n);
            var value := match role case Owner => "owner" case Operator => "operator" case Participant => "participant";
            && Replaces(spaces, SetRole(id, user, role), i, ws.(roles := ws.roles[key := value]))
            && (if mode == "intelligent" || mode == "passive" then
                  Replaces(spaces, SetMode(id, mode), i, ws.(mode := mode))
                else Refuses(spaces, SetMode(id, mode)))
            && Replaces(spaces, SetInviteLink(id, link), i, ws.(inviteLink := Some(link)))
  {
    IndexAt(spaces, spaces[i].id, i);
  }

  /** A record takes part in routing. */
  predicate Routes(ws: Workspace, chat: ChatRef) {
    && (ws.status == "active" || ws.status == "setup") && ws.chatId !in {"", "0"}
    && ws.platform == Some(chat.platform) && ws.chatId == chat.chatId
  }

  lemma RoutesIff(ws: Workspace, chat: ChatRef)
    ensures Routes(ws, chat) <==> Routable(ws) && KeyOf(ws) == (Some(chat.platform), chat.chatId)
  {
  }

  lemma {:induction false} NoRoute(spaces: seq<Workspace>, chat: ChatRef, to: ChatRef)
    requires forall j :: 0 <= j < |spaces| ==> !Routes(spaces[j], chat)
    ensures Route(spaces, (Some(chat.platform), chat.chatId)).None? && Refuses(spaces, MigrateChat(chat, to))
  {
    var r := Route(spaces, (Some(chat.platform), chat.chatId));
    if r.Some? {
      RoutesIff(r.value, chat);
    }
  }

  lemma {:induction false} LastRoute(spaces: seq<Workspace>, chat: ChatRef, to: ChatRef, i: nat)
    requires Distinct(spaces) && i < |spaces| && Routes(spaces[i], chat)
    requires forall j :: i < j < |spaces| ==> !Routes(spaces[j], chat)
    ensures Route(spaces, (Some(chat.platform), chat.chatId)) == Some(spaces[i])
    ensures Replaces(spaces, MigrateChat(chat, to), i, spaces[i].(chatId := to.chatId))
  {
    RoutesIff(spaces[i], chat);
    forall j | i < j < |spaces| ensures !(Routable(spaces[j]) && KeyOf(spaces[j]) == KeyOf(spaces[i])) {
      RoutesIff(spaces[j], chat);
    }
    RouteIsLast(spaces, KeyOf(spaces[i]), i);
    IndexAt(spaces, spaces[i].id, i);
  }

  /** A lookup, or a migration of a chat, finds the last record that routes it, and no other; one that no record
      routes is not found. */
  lemma RouteOutcome(spaces: seq<Workspace>, chat: ChatRef, to: ChatRef, i: nat)
    requires Distinct(spaces)
    ensures (forall j :: 0 <= j < |spaces| ==> !Routes(spaces[j], chat)) ==>
              Route(spaces, (Some(chat.platform), chat.chatId)).None? && Refuses(spaces, MigrateChat(chat, to))
    ensures i < |spaces| && Routes(spaces[i], chat) && (forall j :: i < j < |spaces| ==> !Routes(spaces[j], chat)) ==>
              && Route(spaces, (Some(chat.platform), chat.chatId)) == Some(spaces[i])
              && Replaces(spaces, MigrateChat(chat, to), i, spaces[i].(chatId := to.chatId))
  {
    if forall j :: 0 <= j < |spaces| ==> !Routes(spaces[j], chat) {
      NoRoute(spaces, chat, to);
    }
    if i < |spaces| && Routes(spaces[i], chat) && forall j :: i < j < |spaces| ==> !Routes(spaces[j], chat) {
      LastRoute(spaces, chat, to, i);
    }
  }

  // ---- Requests on the whole store ----

  /** An added record replaces the one with its id, in its place, or comes last; a removed one leaves the others
      in their order. */
  lemma AddRemoveOutcome(spaces: seq<Workspace>, ws: Workspace, i: nat)
    requires Distinct(spaces)
    ensures Unknown(spaces, ws.id) ==> EditOf(spaces, Add(ws)) == Save(spaces + [ws], Done)
    ensures At(spaces, ws.id, i) ==>
              && EditOf(spaces, Add(ws)) == Save(spaces[i := ws], Done)
              && EditOf(spaces, Remove(ws.id)) == Save(spaces[..i] + spaces[i + 1..], Flag(true))
  {
    if At(spaces, ws.id, i) {
      IndexAt(spaces, ws.id, i);
    }
  }

  /** The open records, in their order, are what a purge keeps. */
  lemma {:induction false} OpenAre(spaces: seq<Workspace>, ws: Workspace)
    ensures Open(spaces + [ws]) == if ws.status == "closed" then Open(spaces) else Open(spaces) + [ws]
    ensures ws in Open(spaces) <==> ws in spaces && ws.status != "closed"
    decreases |spaces|
  {
    assert (spaces + [ws])[..|spaces|] == spaces;
    if spaces != [] {
      OpenAre(spaces[..|spaces| - 1], ws);
      assert spaces == spaces[..|spaces| - 1] + [spaces[|spaces| - 1]];
    }
  }

  /** A purge with nothing closed does nothing; otherwise it answers how many it dropped, all of them closed. */
  lemma PurgeOutcome(spaces: seq<Workspace>)
    ensures if forall ws :: ws in spaces ==> ws.status != "closed" then EditOf(spaces, PurgeClosed) == Keep(Count(0))
            else EditOf(spaces, PurgeClosed) == Save(Open(spaces), Count(|spaces| - |Open(spaces)|)) &&
                 |Open(spaces)| < |spaces|
  {
    if |Open(spaces)| == |spaces| {
      OpenAll(spaces);
      forall ws | ws in spaces ensures ws.status != "closed" {
        OpenAre(spaces, ws);
      }
    } else if forall ws :: ws in spaces ==> ws.status != "closed" {
      AllOpen(spaces);
    }
  }

  lemma {:induction false} AllOpen(spaces: seq<Workspace>)
    requires forall ws :: ws in spaces ==> ws.status != "closed"
    ensures Open(spaces) == spaces
  {
    if spaces != [] {
      AllOpen(spaces[..|spaces| - 1]);
    }
  }

  /** A lower-case letter or digit, then up to 63 of those and hyphens. */
  predicate NameFits(s: string) {
    && 0 < |s| < 65
    && (forall i :: 0 <= i < |s| ==> 'a' <= s[i] <= 'z' || '0' <= s[i] <= '9' || (i > 0 && s[i] == '-'))
  }

  /** A proposal is refused if its trimmed name does not fit, if its creator is nobody, or if the name is taken;
      otherwise its record waits for a chat, under an id nobody has, with its creator as owner. */
  lemma ProposalOutcome(spaces: seq<Workspace>, p: Proposal)
    requires SuffixFresh(spaces, CreatePending(p))
    ensures var name, req := Text.Strip(p.name), CreatePending(p);
            var creator := match p.creator case Name(s) => Str(s) case Number(n) => Int(n);
            var key := match p.creator case Name(s) => s case Number(n) => Decimal(n);
            && (Precheck(req) == Some(Raised(ValueError)) <==> !NameFits(name) || p.creator == Number(0))
            && (Precheck(req).None? <==> NameFits(name) && p.creator != Number(0))
            && (if exists i :: 0 <= i < |spaces| && spaces[i].name == name then
                  EditOf(spaces, req) == Keep(Raised(ValueError))
                else
                  var edit := EditOf(spaces, req);
                  && edit.Save? && edit.reply.Made? && edit.spaces == spaces + [edit.reply.ws]
                  && var ws := edit.reply.ws;
                     && Unknown(spaces, ws.id)
                     && ws.id == (if Unknown(spaces, "collab-" + name) then "collab-" + name
                                  else "collab-" + name + "-" + p.suffix)
                     && ws == Workspace(ws.id, name, Some(p.displayName), p.agentName, "0", Some(p.platform),
                                        p.expectedPlatform, "intelligent", p.parent, p.inheritMemory, None, "pending",
                                        p.now, creator, creator, map[key := "owner"]))
  {
    NameFitsIff(Text.Strip(p.name));
    UnknownIff(spaces, "collab-" + Text.Strip(p.name));
    UnknownIff(spaces, FreshId(spaces, p));
  }

  lemma UnknownIff(spaces: seq<Workspace>, id: string)
    ensures Unknown(spaces, id) <==> IndexOf(spaces, id).None?
  {
  }

  lemma NameFitsIff(s: string)
    ensures SafeName(s) <==> NameFits(s)
  {
  }

  /** A migration to another platform, or to no chat, is refused before anything is read; only it and proposals
      are checked so early. */
  lemma EarlyOutcome(req: CollabStores.Request)
    ensures match req
            case MigrateChat(from, to) =>
              if from.platform != to.platform || to.chatId in {"", "0"} then Precheck(req) == Some(Flag(false))
              else Precheck(req).None?
            case CreatePending(_) => true
            case _ => Precheck(req).None?
  {
  }

  // ---- When a call raises ----

  /** The guard lets the write through. */
  predicate Passes(d: Disk<Registry>, site: Site<Registry>, io: Io) {
    GuardResult(d, site, io).MayWrite?
  }

  /** Nothing but what the guards themselves did to the files. */
  ghost predicate OnlyDisk(s: Store, s': Store, disk: Disk<Registry>) {
    s'.spaces == s.spaces && s'.life.mem == s.life.mem && s'.life.disk == disk
  }

  /** A call answers with its own reply, and has then done what it says, unless the lock, either guard or the
      replace of the file fails, which is a storage error, or the validator refuses the new records. */
  lemma CallOutcome(s: Store, site: Site<Registry>, req: CollabStores.Request, env: Env)
    requires Precheck(req).None?
    ensures var (s', reply) := Call(s, site, req, env);
            var between := GuardDisk(s.life.disk, site, env.io, env.bar);
            var after := GuardDisk(between, site, env.io2, env.bar2);
            var edit := EditOf(s.spaces, req);
            if !env.locked then s' == s && reply == Raised(Storage)
            else if !Passes(s.life.disk, site, env.io) then reply == Raised(Storage) && OnlyDisk(s, s', between)
            else if edit.Keep? then reply == edit.reply && OnlyDisk(s, s', between)
            else if !Passes(between, site, env.io2) then reply == Raised(Storage) && OnlyDisk(s, s', after)
            else if !ValidRegistry(ToDoc(edit.spaces)) then reply == Raised(ValueError) && OnlyDisk(s, s', after)
            else if !env.landed then reply == Raised(Storage) && OnlyDisk(s, s', after)
            else reply == edit.reply && s'.spaces == edit.spaces
                 && s'.life.disk.live.Some? && s'.life.disk.live.value.Valid? && s'.life.mem.Some?
                 && s'.life.disk.live.value.value == ToDoc(edit.spaces) && s'.life.mem.value == ToDoc(edit.spaces)
  {
  }

  lemma EarlyAnswerChangesNothing(s: Store, site: Site<Registry>, req: CollabStores.Request, env: Env)
    requires Precheck(req).Some?
    ensures Call(s, site, req, env) == (s, Precheck(req).value)
  {
  }
}
