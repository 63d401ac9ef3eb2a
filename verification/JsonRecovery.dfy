/** Fail-closed JSON persistence of bot/persistence_recovery.py: one file, its two sidecar markers,
    its quarantine and the updater snapshots it can be recovered from. */
module JsonRecovery {
  import opened Common

  /** File contents, classified by what decoding and the caller's validator make of the bytes. */
  datatype Content<V> = Valid(value: V) | Corrupt(raw: nat)

  /** What a snapshot archive holds under the target's name. */
  datatype Member<V> = Absent | Holds(content: Content<V>)

  /** `name` stands for the rank of the archive's file name in string order. */
  datatype Snapshot<V> = Snapshot(mtime: int, name: nat, member: Member<V>)

  /** Where recovery may look; fixed while one file is being recovered. */
  datatype Site<V> = Site(insideDataDir: bool, backupsExist: bool, snapshots: seq<Snapshot<V>>)

  datatype Disk<V> = Disk(
    live: Option<Content<V>>,
    marker: bool,       // <file>.recovery-pending
    unavailable: bool,  // <file>.unavailable
    quarantine: seq<Content<V>>)

  /** Which I/O operations of one call succeed. */
  datatype Io = Io(
    readLive: bool, mark: bool, quarantine: bool, list: bool, unreadable: set<nat>,
    install: bool, clearMarker: bool, reread: bool, clearUnavailable: bool)

  const PERFECT_IO := Io(true, true, true, true, {}, true, true, true, true)

  datatype Outcome<V> =
    | Missing
    | Loaded(value: V)
    | Recovered(value: V, snapshot: Snapshot<V>)
    | Unavailable  // PersistenceUnavailableError
    | ReadError    // any other OSError

  // ---- Candidate snapshots, newest first ----

  predicate NotNewer<V>(a: Snapshot<V>, b: Snapshot<V>) {
    a.mtime < b.mtime || (a.mtime == b.mtime && a.name <= b.name)
  }

  function Insert<V>(x: Snapshot<V>, s: seq<Snapshot<V>>): seq<Snapshot<V>> {
    if s == [] then [x]
    else if NotNewer(s[0], x) then [x] + s
    else [s[0]] + Insert(x, s[1..])
  }

  function Candidates<V>(s: seq<Snapshot<V>>): seq<Snapshot<V>> {
    if s == [] then [] else Insert(s[0], Candidates(s[1..]))
  }

  /** The member can be read and passes the validator. */
  predicate Usable<V>(s: Snapshot<V>, io: Io) {
    s.name !in io.unreadable && s.member.Holds? && s.member.content.Valid?
  }

  function FirstUsable<V>(s: seq<Snapshot<V>>, io: Io): (r: Option<Snapshot<V>>)
    ensures r.Some? ==> r.value in s && Usable(r.value, io)
  {
    if s == [] then None
    else if Usable(s[0], io) then Some(s[0])
    else FirstUsable(s[1..], io)
  }

  function Pick<V>(site: Site<V>, io: Io): Option<Snapshot<V>> {
    if site.insideDataDir && site.backupsExist && io.list then FirstUsable(Candidates(site.snapshots), io) else None
  }

  // ---- Loading, as the states between atomic file operations ----

  /** Install, clear the marker, read back, clear the write barrier: the common tail of a recovery. */
  function ResumeTrace<V>(d: Disk<V>, site: Site<V>, io: Io): (t: seq<Disk<V>>)
    ensures t != [] && t[0] == d
  {
    var s := Pick(site, io);
    if s.None? || !io.install then [d]
    else
      var d1 := d.(live := Some(s.value.member.content));
      var d2 := if io.clearMarker then d1.(marker := false) else d1;
      var d3 := if io.clearUnavailable then d2.(unavailable := false) else d2;
      if io.reread then [d, d1, d2, d3] else [d, d1, d2]
  }

  lemma TwoSteps<T>(h: seq<T>, a: T, b: T, c: T, rest: seq<T>)
    requires rest != [] && rest[0] == c
    ensures h + ([a, b] + rest)[1..] == h + [b] + [c] + rest[1..]
  {
  }

  lemma LastOfTail<T>(h: seq<T>, t: seq<T>)
    requires h != [] && t != [] && Last(h) == t[0]
    ensures Last(h + t[1..]) == Last(t)
  {
  }

  function ResumeOutcome<V>(site: Site<V>, io: Io): Outcome<V> {
    var s := Pick(site, io);
    if s.None? || !io.install then Unavailable
    else if io.reread then Recovered(s.value.member.content.value, s.value)
    else ReadError
  }

  predicate Readable<V>(d: Disk<V>, io: Io) {
    d.live.Some? && io.readLive && d.live.value.Valid?
  }

  function LoadTrace<V>(d: Disk<V>, site: Site<V>, io: Io): (t: seq<Disk<V>>)
    ensures t != [] && t[0] == d
  {
    if d.live.None? then
      if d.marker then ResumeTrace(d, site, io) else [d]
    else if Readable(d, io) then
      var d1 := if d.marker && io.clearMarker then d.(marker := false) else d;
      var d2 := if d1.unavailable && io.clearUnavailable then d1.(unavailable := false) else d1;
      [d, d1, d2]
    else if !io.mark then [d]
    else
      var d1 := d.(marker := true);
      if !io.quarantine then [d, d1]
      else [d, d1] + ResumeTrace(d1.(live := None, quarantine := d.quarantine + [d.live.value]), site, io)
  }

  function LoadOutcome<V>(d: Disk<V>, site: Site<V>, io: Io): Outcome<V> {
    if d.live.None? then
      if d.marker then ResumeOutcome(site, io)
      else if d.unavailable then Unavailable else Missing
    else if Readable(d, io) then Loaded(d.live.value.value)
    else if !io.mark || !io.quarantine then Unavailable
    else ResumeOutcome(site, io)
  }

  // ---- The write guard ----

  /** Whether the two barrier writes of the guard land. */
  datatype Barrier = Barrier(unavailable: bool, fallback: bool)

  datatype GuardOutcome = MayWrite | Refused | GuardReadError

  function GuardDisk<V>(d: Disk<V>, site: Site<V>, io: Io, bar: Barrier): Disk<V> {
    if d.unavailable || (d.live.None? && !d.marker) then d
    else
      var d1 := Last(LoadTrace(d, site, io));
      var o := LoadOutcome(d, site, io);
      if o.Unavailable? || o.ReadError? || !(d.marker || o.Recovered?) then d1
      else if bar.unavailable then d1.(unavailable := true)
      else if bar.fallback then d1.(marker := true)
      else d1
  }

  function GuardResult<V>(d: Disk<V>, site: Site<V>, io: Io): GuardOutcome {
    if d.unavailable then Refused
    else if d.live.None? && !d.marker then MayWrite
    else
      match LoadOutcome(d, site, io)
      case Unavailable => Refused
      case ReadError => GuardReadError
      case o => if d.marker || o.Recovered? then Refused else MayWrite
  }

  // ---- The file and its sidecars, updated in place ----

  class JsonFile<V> {
    const site: Site<V>
    var live: Option<Content<V>>
    var marker: bool
    var unavailable: bool
    var quarantine: seq<Content<V>>
    ghost var history: seq<Disk<V>>  // the disk after every atomic operation so far

    function View(): Disk<V>
      reads this
    {
      Disk(live, marker, unavailable, quarantine)
    }

    ghost predicate Valid()
      reads this
    {
      history != [] && Last(history) == View()
    }

    constructor (d: Disk<V>, site: Site<V>)
      ensures Valid() && View() == d && this.site == site && history == [d]
    {
      this.site := site;
      live, marker, unavailable, quarantine := d.live, d.marker, d.unavailable, d.quarantine;
      history := [d];
    }

    method ClearRecoveryMarker(ok: bool)
      requires Valid()
      modifies this
      ensures Valid() && history == old(history) + [View()]
      ensures View() == if ok then old(View()).(marker := false) else old(View())
    {
      if ok {
        marker := false;
      }
      history := history + [View()];
    }

    method ClearUnavailableMarker(ok: bool)
      requires Valid()
      modifies this
      ensures Valid() && history == old(history) + [View()]
      ensures View() == if ok then old(View()).(unavailable := false) else old(View())
    {
      if ok {
        unavailable := false;
      }
      history := history + [View()];
    }

    /** Tries the snapshots from the newest on and installs the first usable copy. */
    method RecoverFromSnapshots(io: Io) returns (chosen: Option<Snapshot<V>>)
      requires Valid()
      modifies this
      ensures Valid()
      ensures chosen == if io.install then Pick(site, io) else None
      ensures View() == if chosen.None? then old(View()) else old(View()).(live := Some(chosen.value.member.content))
      ensures history == if chosen.None? then old(history) else old(history) + [View()]
    {
      if !site.insideDataDir || !site.backupsExist || !io.list {
        return None;
      }
      var snapshots := Candidates(site.snapshots);
      var i := 0;
      while i < |snapshots|
        invariant 0 <= i <= |snapshots|
        invariant View() == old(View()) && history == old(history)
        invariant FirstUsable(snapshots, io) == FirstUsable(snapshots[i..], io)
      {
        var s := snapshots[i];
        assert snapshots[i..][1..] == snapshots[i + 1..];
        if s.name !in io.unreadable && s.member.Holds? && s.member.content.Valid? {
          if !io.install {
            return None;
          }
          live := Some(s.member.content);
          history := history + [View()];
          return Some(s);
        }
        i := i + 1;
      }
      return None;
    }

    /** The tail shared by a fresh and a resumed recovery. */
    method ResumeRecovery(io: Io) returns (o: Outcome<V>)
      requires Valid()
      modifies this
      ensures Valid() && o == ResumeOutcome(site, io)
      ensures history == old(history) + ResumeTrace(old(View()), site, io)[1..]
    {
      var snapshot := RecoverFromSnapshots(io);
      if snapshot.None? {
        return Unavailable;
      }
      ClearRecoveryMarker(io.clearMarker);
      if !io.reread {
        return ReadError;
      }
      o := Recovered(live.value.value, snapshot.value);
      ClearUnavailableMarker(io.clearUnavailable);
    }

    /** Mark, quarantine, then recover: the branch taken when the live file cannot be used. */
    method RecoverCorrupt(io: Io) returns (o: Outcome<V>)
      requires Valid() && live.Some? && !Readable(View(), io)
      modifies this
      ensures Valid() && o == LoadOutcome(old(View()), site, io)
      ensures history == old(history) + LoadTrace(old(View()), site, io)[1..]
    {
      if !io.mark {
        return Unavailable;
      }
      marker := true;
      history := history + [View()];
      ghost var marked := View();
      if !io.quarantine {
        return Unavailable;
      }
      quarantine := quarantine + [live.value];
      live := None;
      history := history + [View()];
      ghost var moved := View();
      o := ResumeRecovery(io);
      TwoSteps(old(history), old(View()), marked, moved, ResumeTrace(moved, site, io));
    }

    method LoadJsonWithRecovery(io: Io) returns (o: Outcome<V>)
      requires Valid()
      modifies this
      ensures Valid() && o == LoadOutcome(old(View()), site, io)
      ensures history == old(history) + LoadTrace(old(View()), site, io)[1..]
    {
      if live.None? {
        if !marker {
          return if unavailable then Unavailable else Missing;
        }
        o := ResumeRecovery(io);
        return;
      }
      if !io.readLive || live.value.Corrupt? {
        o := RecoverCorrupt(io);
        return;
      }
      ClearRecoveryMarker(marker && io.clearMarker);
      ClearUnavailableMarker(unavailable && io.clearUnavailable);
      o := Loaded(live.value.value);
    }

    method GuardJsonWrite(io: Io, bar: Barrier) returns (r: GuardOutcome)
      requires Valid()
      modifies this
      ensures Valid() && r == GuardResult(old(View()), site, io)
      ensures View() == GuardDisk(old(View()), site, io, bar)
    {
      if unavailable {
        return Refused;
      }
      var markerExisted := marker;
      if live.None? && !markerExisted {
        return MayWrite;
      }
      ghost var before := View();
      var o := LoadJsonWithRecovery(io);
      LastOfTail(old(history), LoadTrace(before, site, io));
      if o.Unavailable? {
        return Refused;
      }
      if o.ReadError? {
        return GuardReadError;
      }
      if markerExisted || o.Recovered? {
        if bar.unavailable {
          unavailable := true;
        } else if bar.fallback {
          marker := true;
        }
        history := history + [View()];
        return Refused;
      }
      return MayWrite;
    }

    /** The caller's replace of the live file, after a guard that let it through. */
    method Replace(value: V)
      requires Valid()
      modifies this
      ensures Valid() && View() == old(View()).(live := Some(Content.Valid(value)))
    {
      live := Some(Content.Valid(value));
      history := history + [View()];
    }
  }
}
