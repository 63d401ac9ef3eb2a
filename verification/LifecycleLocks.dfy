/** The per-name lock registry of bot/lifecycle_macros.py: entries are created on first use, counted
    while anyone owns or waits, and dropped by the last one out. */
module LifecycleLocks {
  import opened Common

  /** An entry object: its asyncio lock (held by at most one operation) and its user count. */
  datatype Entry = Entry(users: int, holder: Option<nat>)

  /** `heap` holds every entry object ever created; a position in it is an object reference, so two
      entries made for the same name at different times differ. */
  datatype Table = Table(registry: map<string, nat>, heap: seq<Entry>)

  predicate NoDangling(t: Table) {
    forall n :: n in t.registry ==> t.registry[n] < |t.heap|
  }

  function EnterTable(t: Table, name: string): (Table, nat)
    requires NoDangling(t)
  {
    var (t1, e) :=
      if name in t.registry then (t, t.registry[name])
      else (Table(t.registry[name := |t.heap|], t.heap + [Entry(0, None)]), |t.heap|);
    (t1.(heap := t1.heap[e := t1.heap[e].(users := t1.heap[e].users + 1)]), e)
  }

  function AcquireTable(t: Table, e: nat, op: nat): (Table, bool)
    requires e < |t.heap|
  {
    if t.heap[e].holder.Some? then (t, false)
    else (t.(heap := t.heap[e := t.heap[e].(holder := Some(op))]), true)
  }

  /** The `finally` block, after the body (`acquired`) or after a cancelled wait. */
  function LeaveTable(t: Table, name: string, e: nat, acquired: bool): Table
    requires e < |t.heap|
  {
    var entry := Entry(t.heap[e].users - 1, if acquired then None else t.heap[e].holder);
    Table(if entry.users == 0 && name in t.registry && t.registry[name] == e then t.registry - {name} else t.registry,
          t.heap[e := entry])
  }

  class LifecycleLockRegistry {
    var registry: map<string, nat>
    var heap: seq<Entry>

    function View(): Table
      reads this
    {
      Table(registry, heap)
    }

    constructor ()
      ensures View() == Table(map[], [])
    {
      registry, heap := map[], [];
    }

    method Enter(name: string) returns (entry: nat)
      requires NoDangling(View())
      modifies this
      ensures (View(), entry) == EnterTable(old(View()), name)
    {
      if name in registry {
        entry := registry[name];
      } else {
        entry := |heap|;
        heap := heap + [Entry(0, None)];
        registry := registry[name := entry];
      }
      heap := heap[entry := heap[entry].(users := heap[entry].users + 1)];
    }

    method Acquire(entry: nat, op: nat) returns (acquired: bool)
      requires entry < |heap|
      modifies this
      ensures (View(), acquired) == AcquireTable(old(View()), entry, op)
    {
      acquired := heap[entry].holder == None;
      if acquired {
        heap := heap[entry := heap[entry].(holder := Some(op))];
      }
    }

    method Leave(name: string, entry: nat, acquired: bool)
      requires entry < |heap|
      modifies this
      ensures View() == LeaveTable(old(View()), name, entry, acquired)
    {
      if acquired {
        heap := heap[entry := heap[entry].(holder := None)];
      }
      heap := heap[entry := heap[entry].(users := heap[entry].users - 1)];
      if heap[entry].users == 0 && name in registry && registry[name] == entry {
        registry := registry - {name};
      }
    }
  }

  // ---- Any number of operations on any names ----

  /** One operation between the entry and the exit of `_lifecycle_task_lock`. */
  datatype Ticket = Ticket(name: string, entry: nat, owns: bool)

  datatype Sys = Sys(table: Table, live: map<nat, Ticket>)

  const INIT_SYS := Sys(Table(map[], []), map[])

  datatype Event = EnterName(name: string, op: nat) | TryAcquire(op: nat) | Exit(op: nat)

  ghost predicate Enabled(s: Sys, e: Event) {
    match e
    case EnterName(_, op) => op !in s.live && NoDangling(s.table)
    case TryAcquire(op) => op in s.live && !s.live[op].owns && s.live[op].entry < |s.table.heap|
    case Exit(op) => op in s.live && s.live[op].entry < |s.table.heap|
  }

  ghost function Apply(s: Sys, e: Event): Sys
    requires Enabled(s, e)
  {
    match e
    case EnterName(name, op) =>
      var (t, entry) := EnterTable(s.table, name);
      Sys(t, s.live[op := Ticket(name, entry, false)])
    case TryAcquire(op) =>
      var (t, ok) := AcquireTable(s.table, s.live[op].entry, op);
      Sys(t, s.live[op := s.live[op].(owns := ok)])
    case Exit(op) =>
      Sys(LeaveTable(s.table, s.live[op].name, s.live[op].entry, s.live[op].owns), s.live - {op})
  }

  ghost function UsersOf(live: map<nat, Ticket>, name: string): set<nat> {
    set op | op in live && live[op].name == name
  }

  /** The entry of a registered name counts the name's operations, of which there is at least one, and
      its lock is held by nobody else. */
  ghost predicate NameInv(n: string, t: Table, live: map<nat, Ticket>) {
    n in t.registry ==>
      && t.registry[n] < |t.heap|
      && var entry := t.heap[t.registry[n]];
         && entry.users == |UsersOf(live, n)| > 0
         && (entry.holder.Some? ==> entry.holder.value in live && live[entry.holder.value].name == n)
  }

  /** An operation refers to the registered entry of its name, and owns its lock iff it holds it. */
  ghost predicate TicketInv(op: nat, t: Table, live: map<nat, Ticket>) {
    op in live ==>
      && live[op].name in t.registry
      && live[op].entry == t.registry[live[op].name] < |t.heap|
      && (live[op].owns <==> t.heap[live[op].entry].holder == Some(op))
  }

  ghost predicate Distinct(registry: map<string, nat>) {
    forall n, m :: n in registry && m in registry && registry[n] == registry[m] ==> n == m
  }

  ghost predicate Inv(s: Sys) {
    && (forall n :: NameInv(n, s.table, s.live))
    && (forall op :: TicketInv(op, s.table, s.live))
    && Distinct(s.table.registry)
  }

  lemma UsersAfterEnter(live: map<nat, Ticket>, op: nat, t: Ticket)
    requires op !in live
    ensures |UsersOf(live[op := t], t.name)| == |UsersOf(live, t.name)| + 1
    ensures forall n :: n != t.name ==> UsersOf(live[op := t], n) == UsersOf(live, n)
  {
    assert UsersOf(live[op := t], t.name) == UsersOf(live, t.name) + {op};
    SizeAfterAdd(UsersOf(live, t.name), op);
  }

  lemma UsersAfterExit(live: map<nat, Ticket>, op: nat)
    requires op in live
    ensures |UsersOf(live - {op}, live[op].name)| == |UsersOf(live, live[op].name)| - 1
    ensures forall n :: n != live[op].name ==> UsersOf(live - {op}, n) == UsersOf(live, n)
  {
    assert UsersOf(live - {op}, live[op].name) == UsersOf(live, live[op].name) - {op};
    SizeAfterRemove(UsersOf(live, live[op].name), op);
  }

  lemma OnlyUser(live: map<nat, Ticket>, op: nat)
    requires op in live && |UsersOf(live, live[op].name)| == 1
    ensures forall other :: other in live && live[other].name == live[op].name ==> other == op
  {
    var users := UsersOf(live, live[op].name);
    SizeAfterRemove(users, op);
    forall other | other in live && live[other].name == live[op].name
      ensures other == op
    {
      assert other in users;
      assert users - {op} == {};
    }
  }

  lemma EnterKeepsInv(s: Sys, name: string, op: nat)
    requires Inv(s) && Enabled(s, EnterName(name, op))
    ensures Inv(Apply(s, EnterName(name, op)))
  {
    var s1 := Apply(s, EnterName(name, op));
    assert NameInv(name, s.table, s.live);
    UsersAfterEnter(s.live, op, s1.live[op]);
    if name !in s.table.registry {
      forall other
        ensures other !in UsersOf(s.live, name)
      {
        assert TicketInv(other, s.table, s.live);
      }
      assert UsersOf(s.live, name) == {};
    }
    forall n
      ensures NameInv(n, s1.table, s1.live)
    {
      assert NameInv(n, s.table, s.live);
    }
    forall other
      ensures TicketInv(other, s1.table, s1.live)
    {
      assert TicketInv(other, s.table, s.live);
    }
  }

  lemma AcquireKeepsInv(s: Sys, op: nat)
    requires Inv(s) && Enabled(s, TryAcquire(op))
    ensures Inv(Apply(s, TryAcquire(op)))
  {
    var s1 := Apply(s, TryAcquire(op));
    assert TicketInv(op, s.table, s.live);
    forall n
      ensures NameInv(n, s1.table, s1.live)
    {
      assert NameInv(n, s.table, s.live);
      assert UsersOf(s1.live, n) == UsersOf(s.live, n);
    }
    forall other
      ensures TicketInv(other, s1.table, s1.live)
    {
      assert TicketInv(other, s.table, s.live);
    }
  }

  lemma ExitKeepsInv(s: Sys, op: nat)
    requires Inv(s) && Enabled(s, Exit(op))
    ensures Inv(Apply(s, Exit(op)))
  {
    var s1 := Apply(s, Exit(op));
    assert TicketInv(op, s.table, s.live);
    assert NameInv(s.live[op].name, s.table, s.live);
    UsersAfterExit(s.live, op);
    if |UsersOf(s.live, s.live[op].name)| == 1 {
      OnlyUser(s.live, op);
    }
    forall n
      ensures NameInv(n, s1.table, s1.live)
    {
      assert NameInv(n, s.table, s.live);
    }
    forall other
      ensures TicketInv(other, s1.table, s1.live)
    {
      assert TicketInv(other, s.table, s.live);
    }
  }

  ghost predicate IsRun(ss: seq<Sys>, es: seq<Event>) {
    && |ss| == |es| + 1
    && ss[0] == INIT_SYS
    && forall i :: 0 <= i < |es| ==> Enabled(ss[i], es[i]) && ss[i + 1] == Apply(ss[i], es[i])
  }

  lemma {:induction false} RegistryInv(ss: seq<Sys>, es: seq<Event>, i: nat)
    requires IsRun(ss, es) && i < |ss|
    ensures Inv(ss[i])
  {
    if i > 0 {
      RegistryInv(ss, es, i - 1);
      match es[i - 1]
      case EnterName(name, op) => EnterKeepsInv(ss[i - 1], name, op);
      case TryAcquire(op) => AcquireKeepsInv(ss[i - 1], op);
      case Exit(op) => ExitKeepsInv(ss[i - 1], op);
    }
  }

  /** The registry's promise over any run of entries, grants, exits and cancelled waits: a name is
      registered iff it has participants, `users` counts them, they share one lock object, and two
      operations on one name never overlap although entries are deleted and recreated. */
  lemma NamesAreSerialized(ss: seq<Sys>, es: seq<Event>, i: nat, name: string, a: nat, b: nat)
    requires IsRun(ss, es) && i < |ss|
    ensures var s := ss[i];
            && (name in s.table.registry <==> UsersOf(s.live, name) != {})
            && (name in s.table.registry ==>
                  && s.table.registry[name] < |s.table.heap|
                  && s.table.heap[s.table.registry[name]].users == |UsersOf(s.live, name)|)
            && (a in s.live && b in s.live && s.live[a].name == s.live[b].name ==>
                  && s.live[a].entry == s.live[b].entry
                  && (s.live[a].owns && s.live[b].owns ==> a == b))
  {
    RegistryInv(ss, es, i);
    assert NameInv(name, ss[i].table, ss[i].live);
    assert TicketInv(a, ss[i].table, ss[i].live) && TicketInv(b, ss[i].table, ss[i].live);
    forall op | op in UsersOf(ss[i].live, name)
      ensures name in ss[i].table.registry
    {
      assert TicketInv(op, ss[i].table, ss[i].live);
    }
  }

  /** Entering is always possible for a new operation, and leaving for a live one. */
  lemma EntryAndExitAlwaysEnabled(ss: seq<Sys>, es: seq<Event>, i: nat, name: string, op: nat)
    requires IsRun(ss, es) && i < |ss|
    ensures if op in ss[i].live then Enabled(ss[i], Exit(op)) else Enabled(ss[i], EnterName(name, op))
  {
    RegistryInv(ss, es, i);
    assert TicketInv(op, ss[i].table, ss[i].live);
    forall n | n in ss[i].table.registry
      ensures ss[i].table.registry[n] < |ss[i].table.heap|
    {
      assert NameInv(n, ss[i].table, ss[i].live);
    }
  }

  /** Entering and leaving touch nobody else, and an operation that tries for the lock gets it exactly if no
      operation on the same name owns it: a free lock is always granted. */
  lemma LockAnswer(ss: seq<Sys>, es: seq<Event>, i: nat, op: nat)
    requires IsRun(ss, es) && i < |es|
    ensures var s, s' := ss[i], ss[i + 1];
            match es[i]
            case EnterName(name, o) => o !in s.live && s'.live.Keys == s.live.Keys + {o}
                                       && s'.live[o].name == name && !s'.live[o].owns
            case TryAcquire(o) =>
              && o in s.live && s'.live.Keys == s.live.Keys
              && (s'.live[o].owns <==> forall p :: p in s.live && s.live[p].name == s.live[o].name ==> !s.live[p].owns)
            case Exit(o) => s'.live == s.live - {o}
    ensures op in ss[i].live && op in ss[i + 1].live && es[i] != TryAcquire(op) ==> ss[i + 1].live[op] == ss[i].live[op]
  {
    RegistryInv(ss, es, i);
    if es[i].TryAcquire? {
      FreeIffNoOwner(ss[i], es[i].op);
    }
  }

  lemma FreeIffNoOwner(s: Sys, op: nat)
    requires Inv(s) && op in s.live
    ensures s.live[op].entry < |s.table.heap|
    ensures s.table.heap[s.live[op].entry].holder.None? <==>
            forall p :: p in s.live && s.live[p].name == s.live[op].name ==> !s.live[p].owns
  {
    assert TicketInv(op, s.table, s.live) && NameInv(s.live[op].name, s.table, s.live);
    var holder := s.table.heap[s.live[op].entry].holder;
    forall p | p in s.live && s.live[p].name == s.live[op].name ensures s.live[p].owns <==> holder == Some(p) {
      assert TicketInv(p, s.table, s.live);
    }
  }
}
