/** What the recovery protocol promises: it resumes after any crash, loses nothing, restores the
    newest usable copy, and never lets a writer overwrite data it has not seen. */
module RecoveryProperties {
  import opened Common
  import opened JsonRecovery

  // ---- The newest usable snapshot ----

  ghost predicate NewestFirst<V>(s: seq<Snapshot<V>>) {
    forall i, j :: 0 <= i < j < |s| ==> NotNewer(s[j], s[i])
  }

  lemma {:induction false} InsertKeepsOrder<V(!new)>(x: Snapshot<V>, s: seq<Snapshot<V>>)
    requires NewestFirst(s)
    ensures NewestFirst(Insert(x, s))
    ensures forall y :: y in Insert(x, s) <==> y == x || y in s
  {
    if s != [] && !NotNewer(s[0], x) {
      InsertKeepsOrder(x, s[1..]);
      var t := Insert(x, s[1..]);
      forall k | 0 <= k < |t|
        ensures NotNewer(t[k], s[0])
      {
        assert t[k] in t;
      }
      assert s == [s[0]] + s[1..];
    }
  }

  lemma {:induction false} CandidatesSorted<V(!new)>(s: seq<Snapshot<V>>)
    ensures NewestFirst(Candidates(s))
    ensures forall y :: y in Candidates(s) <==> y in s
  {
    if s != [] {
      CandidatesSorted(s[1..]);
      InsertKeepsOrder(s[0], Candidates(s[1..]));
      assert s == [s[0]] + s[1..];
    }
  }

  lemma {:induction false} FirstUsableIsNewest<V(!new)>(s: seq<Snapshot<V>>, io: Io)
    requires NewestFirst(s)
    ensures match FirstUsable(s, io)
            case None => forall x :: x in s ==> !Usable(x, io)
            case Some(p) => forall x :: x in s && Usable(x, io) ==> NotNewer(x, p)
  {
    if s != [] {
      FirstUsableIsNewest(s[1..], io);
      assert s == [s[0]] + s[1..];
    }
  }

  /** A recovered value is the content of a readable and valid snapshot no readable and valid one is newer
      than, by modification time and then name, and it is what the live file holds afterwards. */
  lemma RecoversNewestUsable<V(!new)>(d: Disk<V>, site: Site<V>, io: Io)
    requires LoadOutcome(d, site, io).Recovered?
    ensures var o := LoadOutcome(d, site, io);
            && o.snapshot in site.snapshots && o.snapshot.name !in io.unreadable
            && o.snapshot.member == Holds(Valid(o.value))
            && (forall x ::
                  x in site.snapshots && x.name !in io.unreadable && x.member.Holds? && x.member.content.Valid?
                  ==> x.mtime < o.snapshot.mtime || (x.mtime == o.snapshot.mtime && x.name <= o.snapshot.name))
            && Last(LoadTrace(d, site, io)).live == Some(Valid(o.value))
  {
    CandidatesSorted(site.snapshots);
    FirstUsableIsNewest(Candidates(site.snapshots), io);
    var o := LoadOutcome(d, site, io);
    forall x | x in site.snapshots && x.name !in io.unreadable && x.member.Holds? && x.member.content.Valid?
      ensures x.mtime < o.snapshot.mtime || (x.mtime == o.snapshot.mtime && x.name <= o.snapshot.name)
    {
      assert Usable(x, io);
    }
  }

  /** The load cannot just use the live file. */
  predicate NeedsRecovery<V>(d: Disk<V>, io: Io) {
    if d.live.None? then d.marker else !Readable(d, io)
  }

  ghost predicate SomeUsable<V(!new)>(site: Site<V>, io: Io) {
    && site.insideDataDir && site.backupsExist && io.list
    && exists x :: x in site.snapshots && x.name !in io.unreadable && x.member.Holds? && x.member.content.Valid?
  }

  /** A load that needs recovery refuses exactly when no snapshot is usable, or the mark, the quarantine or
      the installation fails. */
  lemma RefusesIffNothingUsable<V(!new)>(d: Disk<V>, site: Site<V>, io: Io)
    requires NeedsRecovery(d, io)
    ensures LoadOutcome(d, site, io).Unavailable? <==>
            !SomeUsable(site, io) || !io.install || (d.live.Some? && (!io.mark || !io.quarantine))
  {
    CandidatesSorted(site.snapshots);
    FirstUsableIsNewest(Candidates(site.snapshots), io);
    if SomeUsable(site, io) {
      var x :| x in site.snapshots && x.name !in io.unreadable && x.member.Holds? && x.member.content.Valid?;
      assert x in Candidates(site.snapshots) && Usable(x, io);
    }
  }

  /** The recovery branch is taken and gets as far as installing a copy. */
  predicate Installs<V>(d: Disk<V>, site: Site<V>, io: Io) {
    && NeedsRecovery(d, io) && (d.live.Some? ==> io.mark && io.quarantine)
    && Pick(site, io).Some? && io.install
  }

  // ---- The answers, exactly ----

  /** When a load gives each of its answers. It fails closed: a path counts as missing only if nothing, no
      file, no marker and no write barrier, says that there was one. */
  lemma LoadAnswers<V(!new)>(d: Disk<V>, site: Site<V>, io: Io)
    ensures var o := LoadOutcome(d, site, io);
            && (o.Missing? <==> d.live.None? && !d.marker && !d.unavailable)
            && (forall v: V :: o == Loaded(v) <==> io.readLive && d.live == Some(Valid(v)))
            && (o.Recovered? <==> Installs(d, site, io) && io.reread)
            && (o.ReadError? <==> Installs(d, site, io) && !io.reread)
            && (o.Unavailable? <==> if NeedsRecovery(d, io) then !Installs(d, site, io)
                                    else d.live.None? && d.unavailable)
  {
  }

  /** When the guard lets a write through, and what it leaves: a file it may not write over is untouched, or
      is behind a barrier unless neither of its writes landed. */
  lemma GuardAnswers<V(!new)>(d: Disk<V>, site: Site<V>, io: Io, bar: Barrier)
    ensures var g, d' := GuardResult(d, site, io), GuardDisk(d, site, io, bar);
            && (g.MayWrite? <==> !d.unavailable && !d.marker && (d.live.None? || Readable(d, io)))
            && (g.GuardReadError? <==> !d.unavailable && Installs(d, site, io) && !io.reread)
            && (g.MayWrite? || d.unavailable ==> d' == d)
            && (g.Refused? && !d.unavailable && (Installs(d, site, io) || Readable(d, io)) ==>
                  (d'.unavailable <==> bar.unavailable) && (!bar.unavailable && bar.fallback ==> d'.marker))
  {
  }

  /** What a load leaves on disk when it answers with a value: that value, and no marker whose removal did not
      fail. */
  lemma AnsweredLoadSettles<V(!new)>(d: Disk<V>, site: Site<V>, io: Io)
    requires var o := LoadOutcome(d, site, io); o.Loaded? || o.Recovered?
    ensures var d', o := Last(LoadTrace(d, site, io)), LoadOutcome(d, site, io);
            && d'.live == Some(Valid(o.value))
            && (d'.marker <==> (d.marker || (o.Recovered? && d.live.Some?)) && !io.clearMarker)
            && (d'.unavailable <==> d.unavailable && !io.clearUnavailable)
  {
  }

  // ---- Crashes ----

  /** Same value or same refusal; an interrupted recovery may only read as an ordinary load. */
  ghost predicate SameAnswer<V>(uninterrupted: Outcome<V>, resumed: Outcome<V>) {
    match uninterrupted
    case Recovered(v, _) => resumed == uninterrupted || (resumed.Loaded? && resumed.value == v)
    case Missing => resumed.Missing?
    case Loaded(v) => resumed.Loaded? && resumed.value == v
    case Unavailable => resumed.Unavailable?
    case ReadError => resumed.ReadError?
  }

  /** A load from `d1` ends on the same disk, with the same answer, as one from `d`. */
  ghost predicate LoadsAs<V>(d1: Disk<V>, d: Disk<V>, site: Site<V>, io: Io) {
    && Last(LoadTrace(d1, site, io)) == Last(LoadTrace(d, site, io))
    && SameAnswer(LoadOutcome(d, site, io), LoadOutcome(d1, site, io))
  }

  /** A load that dies after that many steps. */
  datatype Crash = Crash(io: Io, after: nat)

  function AfterCrash<V>(d: Disk<V>, site: Site<V>, crash: Crash): Disk<V> {
    var t := LoadTrace(d, site, crash.io);
    t[if crash.after < |t| then crash.after else |t| - 1]
  }

  function AfterCrashes<V>(d: Disk<V>, site: Site<V>, crashes: seq<Crash>): Disk<V>
    decreases |crashes|
  {
    if crashes == [] then d else AfterCrashes(AfterCrash(d, site, crashes[0]), site, crashes[1..])
  }

  /** The load can repeat what it does: if it installs a copy then it can read one. */
  predicate Repeatable<V>(d: Disk<V>, site: Site<V>, io: Io) {
    Installs(d, site, io) ==> io.readLive && io.reread
  }

  ghost predicate SameFaults(crashes: seq<Crash>, io: Io) {
    forall crash :: crash in crashes ==> crash.io == io
  }

  lemma CrashRepeats<V(!new)>(d: Disk<V>, site: Site<V>, io: Io, k: nat)
    requires Repeatable(d, site, io)
    ensures LoadsAs(AfterCrash(d, site, Crash(io, k)), d, site, io)
    ensures Repeatable(AfterCrash(d, site, Crash(io, k)), site, io)
  {
    if d.live.Some? && !Readable(d, io) && io.mark && io.quarantine {
      QuarantineRepeats(d, site, io, k);
    } else if d.live.None? && d.marker {
      ResumeRepeats(d, site, io, k);
    }
  }

  lemma QuarantineRepeats<V(!new)>(d: Disk<V>, site: Site<V>, io: Io, k: nat)
    requires Repeatable(d, site, io) && d.live.Some? && !Readable(d, io) && io.mark && io.quarantine
    ensures LoadsAs(AfterCrash(d, site, Crash(io, k)), d, site, io)
    ensures Repeatable(AfterCrash(d, site, Crash(io, k)), site, io)
  {
    if k >= 2 {
      ResumeRepeats(LoadTrace(d, site, io)[2], site, io, k - 2);
    }
  }

  lemma ResumeRepeats<V(!new)>(d: Disk<V>, site: Site<V>, io: Io, k: nat)
    requires Repeatable(d, site, io) && d.live.None? && d.marker
    ensures LoadsAs(AfterCrash(d, site, Crash(io, k)), d, site, io)
    ensures Repeatable(AfterCrash(d, site, Crash(io, k)), site, io)
  {
  }

  lemma {:induction false} CrashesRepeat<V(!new)>(d: Disk<V>, site: Site<V>, crashes: seq<Crash>, io: Io)
    requires Repeatable(d, site, io) && SameFaults(crashes, io)
    ensures LoadsAs(AfterCrashes(d, site, crashes), d, site, io)
    decreases |crashes|
  {
    if crashes != [] {
      assert crashes[0] in crashes && crashes[0] == Crash(io, crashes[0].after);
      CrashRepeats(d, site, io, crashes[0].after);
      CrashesRepeat(AfterCrash(d, site, crashes[0]), site, crashes[1..], io);
    }
  }

  /** Whatever fails in them, provided the same operations fail every time: any number of crashed loads
      leaves the disk and the answer of the next one unchanged iff an installed copy can be read. */
  lemma SameFaultsResumeIff<V(!new)>(d: Disk<V>, site: Site<V>, io: Io)
    ensures (forall crashes :: SameFaults(crashes, io) ==> LoadsAs(AfterCrashes(d, site, crashes), d, site, io))
            <==> Repeatable(d, site, io)
  {
    if Repeatable(d, site, io) {
      forall crashes | SameFaults(crashes, io) ensures LoadsAs(AfterCrashes(d, site, crashes), d, site, io) {
        CrashesRepeat(d, site, crashes, io);
      }
    } else {
      var crash := Crash(io, if d.live.Some? then 3 else 1);  // right after the installation
      assert AfterCrashes(d, site, [crash]) == AfterCrashes(AfterCrash(d, site, crash), site, []);
      InstalledUnread(d, site, io);
      assert SameFaults([crash], io);
    }
  }

  lemma InstalledUnread<V(!new)>(d: Disk<V>, site: Site<V>, io: Io)
    requires !Repeatable(d, site, io)
    ensures !LoadsAs(AfterCrash(d, site, Crash(io, if d.live.Some? then 3 else 1)), d, site, io)
  {
  }

  /** Only the snapshots may be unreadable or unlistable; every operation on the file succeeds. */
  predicate Smooth(io: Io) {
    io.readLive && io.mark && io.quarantine && io.install && io.clearMarker && io.reread && io.clearUnavailable
  }

  /** The crashed load did nothing the next one would not have done: it quarantined no valid file that it
      failed to read, and installed no copy other than the next load's choice. */
  ghost predicate Sound<V>(d: Disk<V>, site: Site<V>, io1: Io, io: Io) {
    && !(d.live.Some? && d.live.value.Valid? && !io1.readLive && io1.mark && io1.quarantine)
    && (Installs(d, site, io1) ==>
          Pick(site, io).Some? && Pick(site, io1).value.member.content == Pick(site, io).value.member.content)
  }

  lemma SoundResumes<V(!new)>(d: Disk<V>, site: Site<V>, io1: Io, io: Io, k: nat)
    requires Smooth(io) && Sound(d, site, io1, io)
    ensures LoadsAs(AfterCrash(d, site, Crash(io1, k)), d, site, io)
  {
    if d.live.Some? && !Readable(d, io1) && io1.mark && io1.quarantine {
      SoundQuarantine(d, site, io1, io, k);
    } else if d.live.None? && d.marker {
      SoundTail(d, site, io1, io, k);
    }
  }

  lemma SoundQuarantine<V(!new)>(d: Disk<V>, site: Site<V>, io1: Io, io: Io, k: nat)
    requires Smooth(io) && Sound(d, site, io1, io)
    requires d.live.Some? && !Readable(d, io1) && io1.mark && io1.quarantine
    ensures LoadsAs(AfterCrash(d, site, Crash(io1, k)), d, site, io)
  {
    if k >= 2 {
      SoundTail(LoadTrace(d, site, io1)[2], site, io1, io, k - 2);
    }
  }

  lemma SoundTail<V(!new)>(d: Disk<V>, site: Site<V>, io1: Io, io: Io, k: nat)
    requires Smooth(io) && Sound(d, site, io1, io) && d.live.None? && d.marker
    ensures LoadsAs(AfterCrash(d, site, Crash(io1, k)), d, site, io)
  {
  }

  lemma UnsoundDiffers<V(!new)>(d: Disk<V>, site: Site<V>, io1: Io, io: Io)
    requires Smooth(io) && !Sound(d, site, io1, io)
    ensures var k := if d.live.None? then 1 else if d.live.value.Valid? then 2 else 3;
            Last(LoadTrace(AfterCrash(d, site, Crash(io1, k)), site, io)) != Last(LoadTrace(d, site, io))
  {
  }

  /** Each crashed load is sound on the disk it starts from. */
  ghost predicate AllSound<V>(d: Disk<V>, site: Site<V>, crashes: seq<Crash>, io: Io)
    decreases |crashes|
  {
    crashes != [] ==>
      && Sound(d, site, crashes[0].io, io)
      && AllSound(AfterCrash(d, site, crashes[0]), site, crashes[1..], io)
  }

  lemma {:induction false} CrashesResume<V(!new)>(d: Disk<V>, site: Site<V>, crashes: seq<Crash>, io: Io)
    requires Smooth(io) && AllSound(d, site, crashes, io)
    ensures LoadsAs(AfterCrashes(d, site, crashes), d, site, io)
    decreases |crashes|
  {
    if crashes != [] {
      var Crash(io1, k) := crashes[0];
      SoundResumes(d, site, io1, io, k);
      CrashesResume(AfterCrash(d, site, crashes[0]), site, crashes[1..], io);
    }
  }

  /** Loads with those failures, dying after those many steps. */
  function Crashes(ios: seq<Io>, afters: seq<nat>): seq<Crash>
    requires |ios| == |afters|
  {
    if ios == [] then [] else [Crash(ios[0], afters[0])] + Crashes(ios[1..], afters[1..])
  }

  lemma CrashesFirst<V(!new)>(d: Disk<V>, site: Site<V>, ios: seq<Io>, afters: seq<nat>, io: Io)
    requires ios != [] && |ios| == |afters|
    ensures var d1 := AfterCrash(d, site, Crash(ios[0], afters[0]));
            var rest := Crashes(ios[1..], afters[1..]);
            && AfterCrashes(d, site, Crashes(ios, afters)) == AfterCrashes(d1, site, rest)
            && (AllSound(d, site, Crashes(ios, afters), io) <==>
                  Sound(d, site, ios[0], io) && AllSound(d1, site, rest, io))
  {
    assert Crashes(ios, afters)[1..] == Crashes(ios[1..], afters[1..]);
  }

  lemma {:induction false} CrashesAtOnce<V(!new)>(d: Disk<V>, site: Site<V>, ios: seq<Io>) returns (afters: seq<nat>)
    ensures |afters| == |ios| && AfterCrashes(d, site, Crashes(ios, afters)) == d
    decreases |ios|
  {
    if ios == [] {
      afters := [];
    } else {
      var rest := CrashesAtOnce(d, site, ios[1..]);
      afters := [0] + rest;
      assert afters[1..] == rest;
      CrashesFirst(d, site, ios, afters, PERFECT_IO);
    }
  }

  /** An unsound load somewhere: crash points with which the final load ends on another disk. */
  lemma {:induction false} UnsoundSomewhere<V(!new)>(
    d: Disk<V>, site: Site<V>, ios: seq<Io>, afters: seq<nat>, io: Io) returns (bad: seq<nat>)
    requires Smooth(io) && |afters| == |ios| && !AllSound(d, site, Crashes(ios, afters), io)
    ensures |bad| == |ios|
    ensures Last(LoadTrace(AfterCrashes(d, site, Crashes(ios, bad)), site, io)) != Last(LoadTrace(d, site, io))
    decreases |ios|
  {
    CrashesFirst(d, site, ios, afters, io);
    var k, rest;
    if Sound(d, site, ios[0], io) {
      k := afters[0];
      SoundResumes(d, site, ios[0], io, k);
      rest := UnsoundSomewhere(AfterCrash(d, site, Crash(ios[0], k)), site, ios[1..], afters[1..], io);
    } else {
      k := if d.live.None? then 1 else if d.live.value.Valid? then 2 else 3;
      UnsoundDiffers(d, site, ios[0], io);
      rest := CrashesAtOnce(AfterCrash(d, site, Crash(ios[0], k)), site, ios[1..]);
    }
    bad := [k] + rest;
    assert bad[1..] == rest;
    CrashesFirst(d, site, ios, bad, io);
  }

  /** Any number of loads that crash, each with its own failures: every choice of crash points leaves the
      final load's disk and answer unchanged iff every one of them is sound on every disk it can start from. */
  lemma CrashesResumeIff<V(!new)>(d: Disk<V>, site: Site<V>, ios: seq<Io>, io: Io)
    requires Smooth(io)
    ensures (forall afters: seq<nat> :: |afters| == |ios| ==>
               LoadsAs(AfterCrashes(d, site, Crashes(ios, afters)), d, site, io))
            <==> (forall afters: seq<nat> :: |afters| == |ios| ==> AllSound(d, site, Crashes(ios, afters), io))
  {
    forall afters: seq<nat> | |afters| == |ios| && AllSound(d, site, Crashes(ios, afters), io)
      ensures LoadsAs(AfterCrashes(d, site, Crashes(ios, afters)), d, site, io)
    {
      CrashesResume(d, site, Crashes(ios, afters), io);
    }
    if afters: seq<nat> :| |afters| == |ios| && !AllSound(d, site, Crashes(ios, afters), io) {
      var bad := UnsoundSomewhere(d, site, ios, afters, io);
      assert !LoadsAs(AfterCrashes(d, site, Crashes(ios, bad)), d, site, io);
    }
  }

  /** The crashed loads can read the live file and see the snapshots the final load sees. */
  ghost predicate SeesTheSame(crashes: seq<Crash>, io: Io) {
    forall crash :: crash in crashes ==>
      crash.io.readLive && crash.io.list == io.list && crash.io.unreadable == io.unreadable
  }

  lemma {:induction false} FirstUsableSame<V>(s: seq<Snapshot<V>>, io1: Io, io: Io)
    requires io1.unreadable == io.unreadable
    ensures FirstUsable(s, io1) == FirstUsable(s, io)
  {
    if s != [] {
      FirstUsableSame(s[1..], io1, io);
    }
  }

  /** Any number of crashed loads in which anything else fails are all sound. */
  lemma {:induction false} SeesTheSameSound<V(!new)>(d: Disk<V>, site: Site<V>, crashes: seq<Crash>, io: Io)
    requires SeesTheSame(crashes, io)
    ensures AllSound(d, site, crashes, io)
    decreases |crashes|
  {
    if crashes != [] {
      assert crashes[0] in crashes;
      FirstUsableSame(Candidates(site.snapshots), crashes[0].io, io);
      SeesTheSameSound(AfterCrash(d, site, crashes[0]), site, crashes[1..], io);
    }
  }

  /** A crash that was not sound: a read fails once, the valid file goes to quarantine, the load dies there,
      and the next one answers with the snapshot's older 7 instead of the 5 it would have found. */
  lemma FailedReadReplacesValue() returns (d: Disk<int>, site: Site<int>, crash: Crash)
    ensures d.live == Some(Valid(5)) && LoadOutcome(d, site, PERFECT_IO) == Loaded(5)
    ensures crash == Crash(PERFECT_IO.(readLive := false), 2) && !Sound(d, site, crash.io, PERFECT_IO)
    ensures var o := LoadOutcome(AfterCrash(d, site, crash), site, PERFECT_IO); o.Recovered? && o.value == 7
  {
    d := Disk(Some(Valid(5)), false, false, []);
    site := Site(true, true, [Snapshot(1, 0, Holds(Valid(7)))]);
    crash := Crash(PERFECT_IO.(readLive := false), 2);
    assert FirstUsable(Candidates(site.snapshots), PERFECT_IO) == Some(site.snapshots[0]);
  }

  // ---- Nothing is lost, whatever fails ----

  /** Something still says that a live file existed: the file, its recovery marker or the write barrier. */
  predicate Known<V>(d: Disk<V>) {
    d.live.Some? || d.marker || d.unavailable
  }

  /** Every state of a load: the file stays known, quarantine only grows, and a live content that was
      displaced is in quarantine. */
  lemma LoadLosesNothing<V(!new)>(d: Disk<V>, site: Site<V>, io: Io, k: nat)
    requires k < |LoadTrace(d, site, io)|
    ensures var d' := LoadTrace(d, site, io)[k];
            && (Known(d) ==> Known(d') && !LoadOutcome(d, site, io).Missing?)
            && d.quarantine <= d'.quarantine
            && (d.live.Some? && d'.live != d.live ==> d.live.value in d'.quarantine)
  {
  }

  // ---- A writer's life ----

  /** A process that loads and writes one file: `mem` is the last value it loaded or wrote. */
  datatype Life<V> = Life(disk: Disk<V>, mem: Option<V>)

  datatype Op<V> =
    | Load(io: Io)
    | Write(value: V, io: Io, bar: Barrier, landed: bool)
    | Corruption(raw: nat)            // something damages the live file
    | Unlink                          // the writer takes its file back, as a failed creation does
    | Restart(io: Io, after: nat)     // a load that dies after that many steps

  function AfterLoad<V>(l: Life<V>, site: Site<V>, io: Io): Life<V> {
    var d := Last(LoadTrace(l.disk, site, io));
    match LoadOutcome(l.disk, site, io)
    case Missing => Life(d, None)
    case Loaded(v) => Life(d, Some(v))
    case Recovered(v, _) => Life(d, Some(v))
    case _ => Life(d, l.mem)
  }

  function Apply<V>(l: Life<V>, site: Site<V>, op: Op<V>): Life<V> {
    match op
    case Load(io) => AfterLoad(l, site, io)
    case Write(v, io, bar, landed) =>
      var d := GuardDisk(l.disk, site, io, bar);
      if GuardResult(l.disk, site, io).MayWrite? && landed then Life(d.(live := Some(Valid(v))), Some(v))
      else Life(d, l.mem)
    case Corruption(raw) =>
      if l.disk.live.Some? then l.(disk := l.disk.(live := Some(Corrupt(raw)))) else l
    case Unlink => Life(l.disk.(live := None), None)
    case Restart(io, after) => Life(AfterCrash(l.disk, site, Crash(io, after)), None)
  }

  ghost predicate IsLife<V>(ls: seq<Life<V>>, site: Site<V>, ops: seq<Op<V>>) {
    && |ls| == |ops| + 1
    && forall i :: 0 <= i < |ops| ==> ls[i + 1] == Apply(ls[i], site, ops[i])
  }

  /** The one step after which a path can count as missing again: an unlink with no marker and no barrier. */
  predicate Forgets<V>(l: Life<V>, op: Op<V>) {
    op.Unlink? && !l.disk.marker && !l.disk.unavailable
  }

  lemma ForgottenIff<V(!new)>(l: Life<V>, site: Site<V>, op: Op<V>)
    requires Known(l.disk)
    ensures !Known(Apply(l, site, op).disk) <==> Forgets(l, op)
  {
    match op
    case Load(io) => LoadLosesNothing(l.disk, site, io, |LoadTrace(l.disk, site, io)| - 1);
    case Write(_, io, _, _) => LoadLosesNothing(l.disk, site, io, |LoadTrace(l.disk, site, io)| - 1);
    case Corruption(_) =>
    case Unlink =>
    case Restart(io, after) =>
      var t := LoadTrace(l.disk, site, io);
      LoadLosesNothing(l.disk, site, io, if after < |t| then after else |t| - 1);
  }

  /** Over any run, restarts and I/O failures included, a path that once had a live file, or is behind a
      barrier or a marker, is never reported missing, even if the file is unlinked behind a barrier. */
  lemma {:induction false} NeverForgotten<V(!new)>(
    ls: seq<Life<V>>, site: Site<V>, ops: seq<Op<V>>, i: nat, j: nat, io: Io)
    requires IsLife(ls, site, ops) && i <= j < |ls| && Known(ls[i].disk)
    requires forall k :: i <= k < j ==> !Forgets(ls[k], ops[k])
    ensures Known(ls[j].disk) && !LoadOutcome(ls[j].disk, site, io).Missing?
  {
    StaysKnown(ls, site, ops, i, j);
    KnownIsNotMissing(ls[j].disk, site, io);
  }

  lemma KnownIsNotMissing<V(!new)>(d: Disk<V>, site: Site<V>, io: Io)
    ensures LoadOutcome(d, site, io).Missing? <==> !Known(d)
  {
  }

  lemma {:induction false} StaysKnown<V(!new)>(
    ls: seq<Life<V>>, site: Site<V>, ops: seq<Op<V>>, i: nat, j: nat)
    requires IsLife(ls, site, ops) && i <= j < |ls| && Known(ls[i].disk)
    requires forall k :: i <= k < j ==> !Forgets(ls[k], ops[k])
    ensures Known(ls[j].disk)
  {
    if i < j {
      StaysKnown(ls, site, ops, i, j - 1);
      assert !Forgets(ls[j - 1], ops[j - 1]);
      ForgottenIff(ls[j - 1], site, ops[j - 1]);
    }
  }

  lemma StepKeepsQuarantine<V(!new)>(l: Life<V>, site: Site<V>, op: Op<V>)
    ensures l.disk.quarantine <= Apply(l, site, op).disk.quarantine
  {
    match op
    case Load(io) => LoadLosesNothing(l.disk, site, io, |LoadTrace(l.disk, site, io)| - 1);
    case Write(_, io, _, _) => LoadLosesNothing(l.disk, site, io, |LoadTrace(l.disk, site, io)| - 1);
    case Corruption(_) =>
    case Unlink =>
    case Restart(io, after) =>
      var t := LoadTrace(l.disk, site, io);
      LoadLosesNothing(l.disk, site, io, if after < |t| then after else |t| - 1);
  }

  /** Over any run the quarantine only grows. */
  lemma {:induction false} QuarantineGrows<V(!new)>(
    ls: seq<Life<V>>, site: Site<V>, ops: seq<Op<V>>, i: nat, j: nat)
    requires IsLife(ls, site, ops) && i <= j < |ls|
    ensures ls[i].disk.quarantine <= ls[j].disk.quarantine
  {
    if i < j {
      QuarantineGrows(ls, site, ops, i, j - 1);
      StepKeepsQuarantine(ls[j - 1], site, ops[j - 1]);
    }
  }

  /** A write that the guard let through and that landed. */
  predicate Lands<V>(l: Life<V>, site: Site<V>, op: Op<V>) {
    op.Write? && op.landed && GuardResult(l.disk, site, op.io).MayWrite?
  }

  lemma DisplacedStep<V(!new)>(l: Life<V>, site: Site<V>, op: Op<V>, c: Content<V>)
    requires l.disk.live == Some(c) && Apply(l, site, op).disk.live != Some(c)
    requires !op.Corruption? && !op.Unlink? && (c.Valid? ==> !Lands(l, site, op))
    ensures c in Apply(l, site, op).disk.quarantine
  {
    match op
    case Load(io) => LoadLosesNothing(l.disk, site, io, |LoadTrace(l.disk, site, io)| - 1);
    case Write(_, io, _, _) => LoadLosesNothing(l.disk, site, io, |LoadTrace(l.disk, site, io)| - 1);
    case Restart(io, after) =>
      var t := LoadTrace(l.disk, site, io);
      LoadLosesNothing(l.disk, site, io, if after < |t| then after else |t| - 1);
  }

  /** Whatever a load, a restart or a guard displaces is in quarantine from then on. Only fresh
      damage, an unlink, or a write over a valid value takes a content away without a copy: a corrupt one is
      never written over. */
  lemma DisplacedStays<V(!new)>(
    ls: seq<Life<V>>, site: Site<V>, ops: seq<Op<V>>, i: nat, j: nat, c: Content<V>)
    requires IsLife(ls, site, ops) && i < j < |ls|
    requires ls[i].disk.live == Some(c) && ls[i + 1].disk.live != Some(c)
    requires !ops[i].Corruption? && !ops[i].Unlink? && (c.Valid? ==> !Lands(ls[i], site, ops[i]))
    ensures c in ls[j].disk.quarantine
  {
    DisplacedStep(ls[i], site, ops[i], c);
    QuarantineGrows(ls, site, ops, i + 1, j);
  }

  // ---- No stale overwrite ----

  /** A live file no marker speaks against. */
  predicate Settled<V>(d: Disk<V>) {
    d.live.Some? && d.live.value.Valid? && !d.marker && !d.unavailable
  }

  /** An unmarked valid file holds what the writer last saw; an unmarked absent one was never there. */
  ghost predicate Seen<V>(l: Life<V>) {
    && (Settled(l.disk) ==> l.mem == Some(l.disk.live.value.value))
    && (l.disk.live.None? && !l.disk.marker && !l.disk.unavailable ==> l.mem.None?)
  }

  /** A recovered copy that happens to equal the settled one it replaces changes nothing. */
  ghost predicate SameCopy<V>(d: Disk<V>, site: Site<V>, io: Io) {
    Settled(d) && Pick(site, io).Some? && d.live == Some(Pick(site, io).value.member.content)
  }

  /** The load installs a copy and clears the marker, and then cannot read the copy back. */
  ghost predicate LoadGap<V>(d: Disk<V>, site: Site<V>, io: Io) {
    Installs(d, site, io) && !io.reread && io.clearMarker && !d.unavailable && !SameCopy(d, site, io)
  }

  /** The guard recovers the file, or finds it marked, and clears the marker; then it cannot read the copy
      back, or neither barrier write lands. */
  ghost predicate GuardGap<V>(d: Disk<V>, site: Site<V>, io: Io, bar: Barrier) {
    && !d.unavailable && io.clearMarker && !SameCopy(d, site, io)
    && (if Installs(d, site, io) then !io.reread || (!bar.unavailable && !bar.fallback)
        else Readable(d, io) && d.marker && !bar.unavailable && !bar.fallback)
  }

  /** The promise: whatever I/O the next guard meets, if it lets a write through then the file is still the
      one the writer last loaded or wrote, and absent if there was none. */
  ghost predicate WritesOnlySeen<V>(l: Life<V>, site: Site<V>) {
    forall io: Io, bar: Barrier :: GuardResult(l.disk, site, io).MayWrite? ==>
      GuardDisk(l.disk, site, io, bar).live == if l.mem.Some? then Some(Valid(l.mem.value)) else None
  }

  /** That is what `Seen` says about the disk alone. */
  lemma WritesOnlySeenIff<V(!new)>(l: Life<V>, site: Site<V>)
    ensures WritesOnlySeen(l, site) <==> Seen(l)
  {
    if WritesOnlySeen(l, site) {
      var bar := Barrier(true, true);
      assert GuardResult(l.disk, site, PERFECT_IO).MayWrite? ==>
               GuardDisk(l.disk, site, PERFECT_IO, bar).live == if l.mem.Some? then Some(Valid(l.mem.value)) else None;
    }
  }

  /** A load keeps the writer's view honest, for every view it may have had, iff it leaves no gap. */
  lemma LoadKeepsSeenIffNoGap<V(!new)>(d: Disk<V>, site: Site<V>, io: Io)
    ensures (forall mem: Option<V> :: Seen(Life(d, mem)) ==> Seen(AfterLoad(Life(d, mem), site, io)))
            <==> !LoadGap(d, site, io)
  {
    if LoadGap(d, site, io) {
      var mem := if Settled(d) then Some(d.live.value.value) else None;
      assert Seen(Life(d, mem)) && !Seen(AfterLoad(Life(d, mem), site, io));
    }
  }

  lemma GuardKeepsSeenIffNoGap<V(!new)>(d: Disk<V>, site: Site<V>, io: Io, bar: Barrier)
    ensures (forall mem: Option<V> :: Seen(Life(d, mem)) ==> Seen(Life(GuardDisk(d, site, io, bar), mem)))
            <==> !GuardGap(d, site, io, bar)
  {
    if GuardGap(d, site, io, bar) {
      var mem := if Settled(d) then Some(d.live.value.value) else None;
      assert Seen(Life(d, mem)) && !Seen(Life(GuardDisk(d, site, io, bar), mem));
    }
  }

  /** So a load, or a guard, keeps the promise for every view the writer may have had iff it leaves no gap. */
  lemma LoadKeepsPromiseIffNoGap<V(!new)>(d: Disk<V>, site: Site<V>, io: Io)
    ensures (forall mem: Option<V> ::
               WritesOnlySeen(Life(d, mem), site) ==> WritesOnlySeen(AfterLoad(Life(d, mem), site, io), site))
            <==> !LoadGap(d, site, io)
  {
    LoadKeepsSeenIffNoGap(d, site, io);
    forall mem: Option<V> ensures WritesOnlySeen(Life(d, mem), site) <==> Seen(Life(d, mem))
      ensures WritesOnlySeen(AfterLoad(Life(d, mem), site, io), site) <==> Seen(AfterLoad(Life(d, mem), site, io))
    {
      WritesOnlySeenIff(Life(d, mem), site);
      WritesOnlySeenIff(AfterLoad(Life(d, mem), site, io), site);
    }
  }

  lemma GuardKeepsPromiseIffNoGap<V(!new)>(d: Disk<V>, site: Site<V>, io: Io, bar: Barrier)
    ensures (forall mem: Option<V> ::
               WritesOnlySeen(Life(d, mem), site) ==> WritesOnlySeen(Life(GuardDisk(d, site, io, bar), mem), site))
            <==> !GuardGap(d, site, io, bar)
  {
    GuardKeepsSeenIffNoGap(d, site, io, bar);
    var d1 := GuardDisk(d, site, io, bar);
    forall mem: Option<V> ensures WritesOnlySeen(Life(d, mem), site) <==> Seen(Life(d, mem))
      ensures WritesOnlySeen(Life(d1, mem), site) <==> Seen(Life(d1, mem))
    {
      WritesOnlySeenIff(Life(d, mem), site);
      WritesOnlySeenIff(Life(d1, mem), site);
    }
  }

  /** The gap is real: a guarded write refused with a read error, and the very next one replaces the
      recovered value 7, which the writer (who last saw 5) never read. */
  lemma GapLetsStaleWriteThrough() returns (ls: seq<Life<int>>, site: Site<int>, ops: seq<Op<int>>)
    ensures IsLife(ls, site, ops) && |ls| == 3
    ensures Seen(ls[0]) && ls[0].mem == Some(5)
    ensures GuardResult(ls[0].disk, site, PERFECT_IO.(reread := false)).GuardReadError?
    ensures ls[1].disk.live == Some(Valid(7)) && ls[1].mem == Some(5)
    ensures ls[2].disk.live == Some(Valid(6))
  {
    site := Site(true, true, [Snapshot(1, 0, Holds(Valid(7)))]);
    var bar := Barrier(true, true);
    ops := [Write(6, PERFECT_IO.(reread := false), bar, true), Write(6, PERFECT_IO, bar, true)];
    var l0 := Life(Disk(Some(Corrupt(0)), false, false, []), Some(5));
    var l1 := Apply(l0, site, ops[0]);
    assert FirstUsable(Candidates(site.snapshots), PERFECT_IO) == Some(site.snapshots[0]);
    var l2 := Apply(l1, site, ops[1]);
    ls := [l0, l1, l2];
  }

  ghost predicate NoGap<V>(l: Life<V>, site: Site<V>, op: Op<V>) {
    match op
    case Load(io) => !LoadGap(l.disk, site, io)
    case Write(_, io, bar, _) => !GuardGap(l.disk, site, io, bar)
    case Corruption(_) => true
    case Unlink => true
    case Restart(_, _) => false  // another process life
  }

  ghost predicate Answered<V>(o: Outcome<V>) {
    o.Missing? || o.Loaded? || o.Recovered?
  }

  lemma SeenStep<V(!new)>(l: Life<V>, site: Site<V>, op: Op<V>)
    requires Seen(l) && NoGap(l, site, op)
    ensures Seen(Apply(l, site, op))
  {
    match op
    case Load(io) => LoadKeepsSeenIffNoGap(l.disk, site, io);
    case Write(_, io, bar, _) => GuardKeepsSeenIffNoGap(l.disk, site, io, bar);
    case Corruption(_) =>
    case Unlink =>
  }

  /** In one process life that begins with an answered load and leaves no gap, every guarded write that
      lands creates the file or replaces exactly the value the writer last loaded or wrote: never
      corrupt, recovered or unseen data. */
  lemma {:induction false} NoStaleOverwrite<V(!new)>(ls: seq<Life<V>>, site: Site<V>, ops: seq<Op<V>>, i: nat)
    requires IsLife(ls, site, ops) && 0 < i < |ls|
    requires ops[0].Load? && Answered(LoadOutcome(ls[0].disk, site, ops[0].io))
    requires forall k :: 0 <= k < i ==> NoGap(ls[k], site, ops[k])
    ensures Seen(ls[i]) && WritesOnlySeen(ls[i], site)
  {
    if i > 1 {
      NoStaleOverwrite(ls, site, ops, i - 1);
      SeenStep(ls[i - 1], site, ops[i - 1]);
    }
    WritesOnlySeenIff(ls[i], site);
  }
}
