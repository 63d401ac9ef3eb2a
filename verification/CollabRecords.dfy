/** Collaborative workspace records of bot/collaborative.py and their JSON form: to_dict, from_dict and the
    validator that decides whether a registry may be loaded or persisted. */
module CollabRecords {
  import opened Common

  datatype Json =
    | Null
    | Bool(b: bool)
    | Int(n: int)
    | Real(x: real)
    | Str(s: string)
    | Arr(items: seq<Json>)
    | Obj(fields: map<string, Json>)

  /** A JSON object by the members the code reads or writes; None is an absent member, and the rest of the
      object is ignored. */
  datatype Payload = Payload(
    id: Option<Json>,
    name: Option<Json>,
    displayName: Option<Json>,
    agentName: Option<Json>,
    chatId: Option<Json>,
    platform: Option<Json>,
    expectedPlatform: Option<Json>,
    interactionMode: Option<Json>,
    parentWorkspace: Option<Json>,
    inheritMemory: Option<Json>,
    inviteLink: Option<Json>,
    status: Option<Json>,
    createdAt: Option<Json>,
    createdBy: Option<Json>,
    expectedCreatorId: Option<Json>,
    roles: Option<Json>)

  /** A decoded registry file: the entries of its top-level object, in file order. */
  datatype Entry = Entry(key: string, payload: Payload)

  datatype Workspace = Workspace(
    id: string,
    name: string,
    displayName: Option<string>,
    agentName: string,
    chatId: string,
    platform: Option<string>,
    expectedPlatform: Option<string>,
    mode: string,
    parent: Option<string>,
    inheritMemory: bool,
    inviteLink: Option<string>,
    status: string,
    createdAt: Json,
    createdBy: Json,
    expectedCreator: Json,
    roles: map<string, string>)

  const STATUSES := {"pending", "setup", "active", "closed"}
  const MODES := {"intelligent", "passive"}
  const ROLES := {"owner", "operator", "participant"}

  // ---- Numbers as text ----

  function Digits(n: nat): string {
    var last := [(n % 10) as char + '0'];
    if n < 10 then last else Digits(n / 10) + last
  }

  function Decimal(n: int): string {
    if n < 0 then "-" + Digits(-n) else Digits(n)
  }

  // ---- to_dict ----

  function OptStr(o: Option<string>): Json {
    if o.Some? then Str(o.value) else Null
  }

  function RolesJson(roles: map<string, string>): Json {
    Obj(map k | k in roles :: Str(roles[k]))
  }

  function ToPayload(ws: Workspace): Payload {
    Payload(
      Some(Str(ws.id)),
      Some(Str(ws.name)),
      Some(OptStr(ws.displayName)),
      Some(Str(ws.agentName)),
      Some(Str(ws.chatId)),
      Some(OptStr(ws.platform)),
      Some(OptStr(ws.expectedPlatform)),
      Some(Str(ws.mode)),
      Some(OptStr(ws.parent)),
      Some(Bool(ws.inheritMemory)),
      Some(OptStr(ws.inviteLink)),
      Some(Str(ws.status)),
      Some(ws.createdAt),
      Some(ws.createdBy),
      Some(ws.expectedCreator),
      Some(RolesJson(ws.roles)))
  }

  function ToDoc(spaces: seq<Workspace>): (doc: seq<Entry>)
    ensures |doc| == |spaces|
    ensures forall i :: 0 <= i < |doc| ==> doc[i] == Entry(spaces[i].id, ToPayload(spaces[i]))
  {
    seq(|spaces|, i requires 0 <= i < |spaces| => Entry(spaces[i].id, ToPayload(spaces[i])))
  }

  // ---- The validator ----

  function Field(member: Option<Json>, default: Json): Json {
    if member.Some? then member.value else default
  }

  predicate NonEmptyStr(member: Option<Json>) {
    member.Some? && member.value.Str? && member.value.s != ""
  }

  predicate StrOrNull(member: Option<Json>) {
    var j := Field(member, Null);
    j.Null? || j.Str?
  }

  /** A string or an integer; Python counts booleans among the integers. */
  predicate Scalar(j: Json) {
    j.Str? || j.Int? || j.Bool?
  }

  predicate StrIn(j: Json, allowed: set<string>) {
    j.Str? && j.s in allowed
  }

  predicate ValidRoles(j: Json) {
    j.Obj? && forall k :: k in j.fields ==> StrIn(j.fields[k], ROLES)
  }

  predicate TextsValid(p: Payload) {
    && NonEmptyStr(p.name) && NonEmptyStr(p.agentName)
    && StrOrNull(p.displayName) && StrOrNull(p.platform) && StrOrNull(p.expectedPlatform)
    && StrOrNull(p.parentWorkspace) && StrOrNull(p.inviteLink)
  }

  predicate ChoicesValid(p: Payload) {
    && StrIn(Field(p.status, Str("active")), STATUSES)
    && StrIn(Field(p.interactionMode, Str("intelligent")), MODES)
    && Field(p.inheritMemory, Bool(true)).Bool?
    && ValidRoles(Field(p.roles, Obj(map[])))
  }

  predicate NumbersValid(p: Payload) {
    && (var c := Field(p.chatId, Str("0")); c.Null? || Scalar(c))
    && (var c := Field(p.createdBy, Null); c.Null? || Scalar(c))
    && (var c := Field(p.expectedCreatorId, Null); c.Null? || Scalar(c))
  }

  predicate ValidEntry(e: Entry) {
    && e.key != "" && Field(e.payload.id, Null) == Str(e.key)
    && TextsValid(e.payload) && ChoicesValid(e.payload) && NumbersValid(e.payload)
  }

  /** A JSON object cannot hold one key twice. */
  predicate ValidRegistry(doc: seq<Entry>) {
    && (forall i :: 0 <= i < |doc| ==> ValidEntry(doc[i]))
    && (forall i, j :: 0 <= i < j < |doc| ==> doc[i].key != doc[j].key)
  }

  type Registry = doc: seq<Entry> | ValidRegistry(doc) witness []

  // ---- from_dict ----

  function PyStr(j: Json): string
    requires j.Null? || Scalar(j)
  {
    match j
    case Null => "0"  // from_dict maps null to "0" itself
    case Bool(b) => if b then "True" else "False"
    case Int(n) => Decimal(n)
    case Str(s) => s
  }

  function AsOpt(j: Json): Option<string> {
    if j.Str? then Some(j.s) else None
  }

  function AsRoles(j: Json): map<string, string>
    requires ValidRoles(j)
  {
    map k | k in j.fields :: j.fields[k].s
  }

  function FromPayload(e: Entry): Workspace
    requires ValidEntry(e)
  {
    var p := e.payload;
    Workspace(
      p.id.value.s,
      p.name.value.s,
      AsOpt(Field(p.displayName, p.name.value)),
      p.agentName.value.s,
      PyStr(Field(p.chatId, Str("0"))),
      AsOpt(Field(p.platform, Str("telegram"))),
      AsOpt(Field(p.expectedPlatform, Null)),
      Field(p.interactionMode, Str("intelligent")).s,
      AsOpt(Field(p.parentWorkspace, Null)),
      Field(p.inheritMemory, Bool(true)).b,
      AsOpt(Field(p.inviteLink, Null)),
      Field(p.status, Str("active")).s,
      Field(p.createdAt, Int(0)),
      Field(p.createdBy, Int(0)),
      Field(p.expectedCreatorId, Null),
      AsRoles(Field(p.roles, Obj(map[]))))
  }

  function FromDoc(doc: Registry): (spaces: seq<Workspace>)
    ensures |spaces| == |doc|
    ensures forall i :: 0 <= i < |spaces| ==> spaces[i] == FromPayload(doc[i])
  {
    seq(|doc|, i requires 0 <= i < |doc| => FromPayload(doc[i]))
  }

  // ---- What can be persisted, and the round trip ----

  ghost predicate WellFormed(ws: Workspace) {
    && ws.id != "" && ws.name != "" && ws.agentName != ""
    && ws.status in STATUSES && ws.mode in MODES
    && (forall k :: k in ws.roles ==> ws.roles[k] in ROLES)
    && (ws.createdBy.Null? || Scalar(ws.createdBy))
    && (ws.expectedCreator.Null? || Scalar(ws.expectedCreator))
  }

  ghost predicate Distinct(spaces: seq<Workspace>) {
    forall i, j :: 0 <= i < j < |spaces| ==> spaces[i].id != spaces[j].id
  }

  ghost predicate AllWellFormed(spaces: seq<Workspace>) {
    forall i :: 0 <= i < |spaces| ==> WellFormed(spaces[i])
  }

  lemma RolesAcceptedIff(roles: map<string, string>)
    ensures ValidRoles(RolesJson(roles)) <==> forall k :: k in roles ==> roles[k] in ROLES
    ensures ValidRoles(RolesJson(roles)) ==> AsRoles(RolesJson(roles)) == roles
  {
    var j := RolesJson(roles);
    forall k | k in roles ensures StrIn(j.fields[k], ROLES) <==> roles[k] in ROLES {
    }
  }

  lemma EntryAcceptedIff(ws: Workspace)
    ensures ValidEntry(Entry(ws.id, ToPayload(ws))) <==> WellFormed(ws)
  {
    RolesAcceptedIff(ws.roles);
  }

  /** The serialised registry passes the validator iff every record is well formed. */
  lemma AcceptedIffWellFormed(spaces: seq<Workspace>)
    requires Distinct(spaces)
    ensures ValidRegistry(ToDoc(spaces)) <==> AllWellFormed(spaces)
  {
    var doc := ToDoc(spaces);
    forall i | 0 <= i < |spaces| ensures ValidEntry(doc[i]) <==> WellFormed(spaces[i]) {
      EntryAcceptedIff(spaces[i]);
    }
  }

  lemma EntryRoundTrip(ws: Workspace)
    requires WellFormed(ws)
    ensures var e := Entry(ws.id, ToPayload(ws)); ValidEntry(e) && FromPayload(e) == ws
  {
    EntryAcceptedIff(ws);
    RolesAcceptedIff(ws.roles);
  }

  /** Saving and loading gives back every record, in order, with every field. */
  lemma RegistryRoundTrip(spaces: seq<Workspace>)
    requires Distinct(spaces) && AllWellFormed(spaces)
    ensures ValidRegistry(ToDoc(spaces)) && FromDoc(ToDoc(spaces)) == spaces
  {
    AcceptedIffWellFormed(spaces);
    forall i | 0 <= i < |spaces| ensures FromDoc(ToDoc(spaces))[i] == spaces[i] {
      EntryRoundTrip(spaces[i]);
    }
  }

  /** Whatever the validator lets in decodes to distinct, well-formed records: legacy payloads with missing
      or null fields included. */
  lemma DecodedIsWellFormed(doc: Registry)
    ensures Distinct(FromDoc(doc)) && AllWellFormed(FromDoc(doc))
  {
    forall i | 0 <= i < |doc| ensures FromDoc(doc)[i].id == doc[i].key && WellFormed(FromDoc(doc)[i]) {
      assert ValidEntry(doc[i]);
    }
  }

  /** A legacy registry is normalised by one load and save, and reads the same ever after. */
  lemma NormalisedOnce(doc: Registry)
    ensures ValidRegistry(ToDoc(FromDoc(doc))) && FromDoc(ToDoc(FromDoc(doc))) == FromDoc(doc)
  {
    DecodedIsWellFormed(doc);
    RegistryRoundTrip(FromDoc(doc));
  }
}
