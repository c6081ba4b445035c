/**
  The app's own crash journal and the runs in which it matters: the journal is
  written before the system proxy is pointed at the app and dropped only after
  it has been restored, so that a guard process or the next launch can finish
  the job of a killed app.
 */
module AppJournal {
  import opened Options
  import opened SystemProxy

  // ------------------------------------------------------------------ the journal

  datatype Child = Child(pid: int, name: string)

  datatype ServiceSnapshot = ServiceSnapshot(service: string, settings: Settings)

  datatype JournalData = JournalData(systemProxy: Option<seq<ServiceSnapshot>>, children: seq<Child>)

  /** What is on disk for given contents: nothing once there is nothing left to undo. */
  function OnDisk(d: JournalData): Option<JournalData> {
    if d.systemProxy.None? && d.children == [] then None else Some(d)
  }

  /** The file is there exactly while something is to be undone, a child alone being enough, and holds all of it. */
  lemma FileKeptIff(d: JournalData)
    ensures OnDisk(d).Some? <==> d.systemProxy.Some? || |d.children| > 0
    ensures OnDisk(d).Some? ==> OnDisk(d).value == d
  {
  }

  function Without(list: seq<Child>, name: string): (out: seq<Child>)
    ensures forall c :: c in out <==> c in list && c.name != name
  {
    if list == [] then []
    else (if list[0].name != name then [list[0]] else []) + Without(list[1..], name)
  }

  /** Children stay in order: what stays of two lists, one after the other, is what stays of both. */
  lemma {:induction false} WithoutOfConcat(a: seq<Child>, b: seq<Child>, name: string)
    ensures Without(a + b, name) == Without(a, name) + Without(b, name)
  {
    if a == [] {
      assert a + b == b;
    } else {
      assert (a + b)[1..] == a[1..] + b;
      WithoutOfConcat(a[1..], b, name);
    }
  }

  lemma WithoutOfOne(c: Child, name: string)
    ensures Without([c], name) == if c.name != name then [c] else []
  {
    assert [c][1..] == [];
  }

  /** A child with another name stays as often as it was listed. */
  lemma {:induction false} WithoutCounts(list: seq<Child>, name: string, c: Child)
    ensures multiset(Without(list, name))[c] == if c.name != name then multiset(list)[c] else 0
  {
    if list != [] {
      assert list == [list[0]] + list[1..];
      WithoutCounts(list[1..], name, c);
    }
  }

  method RemoveChild(list: seq<Child>, name: string) returns (out: seq<Child>)
    ensures out == Without(list, name)
  {
    out := [];
    assert list[..0] == [];
    for i := 0 to |list|
      invariant out == Without(list[..i], name)
    {
      assert list[..i + 1] == list[..i] + [list[i]];
      WithoutOfConcat(list[..i], [list[i]], name);
      WithoutOfOne(list[i], name);
      if list[i].name != name { out := out + [list[i]]; }
    }
    assert list[..|list|] == list;
  }

  class Journal {
    var data: JournalData
    var file: Option<JournalData>

    ghost predicate Valid()
      reads this
    {
      file == OnDisk(data)
    }

    /** A new process starts with empty contents, whatever an earlier one left on disk. */
    constructor (file: Option<JournalData>)
      ensures data == JournalData(None, []) && this.file == file
    {
      data, this.file := JournalData(None, []), file;
    }

    method Persist()
      modifies this`file
      ensures Valid()
    {
      if data.systemProxy.None? && data.children == [] {
        file := None;
      } else {
        file := Some(data);
      }
    }

    method SetSystemProxy(snap: Option<seq<ServiceSnapshot>>)
      modifies this
      ensures Valid() && data == old(data).(systemProxy := snap)
    {
      data := data.(systemProxy := snap);
      Persist();
    }

    /** Records a child under a name, replacing an earlier one; pid 0 only removes it. */
    method SetChild(name: string, pid: int)
      modifies this
      ensures Valid() && data.systemProxy == old(data.systemProxy)
      ensures data.children == Without(old(data.children), name) + if pid > 0 then [Child(pid, name)] else []
      ensures forall c: Child :: c in data.children && c.name == name ==> pid > 0 && c == Child(pid, name)
      ensures forall c: Child :: c.name != name ==> (c in data.children <==> c in old(data.children))
    {
      var list := RemoveChild(data.children, name);
      if pid > 0 { list := list + [Child(pid, name)]; }
      data := data.(children := list);
      Persist();
    }
  }

  // ------------------------------------------------------------------ the system and the journal together

  type Services = map<string, Settings>

  ghost predicate Lists(snap: seq<ServiceSnapshot>, svc: string) {
    exists i :: 0 <= i < |snap| && snap[i].service == svc
  }

  /** Every snapshot of the service has the entry enabled without a usable address. */
  ghost predicate AllStuck(snap: seq<ServiceSnapshot>, svc: string, k: Kind) {
    forall i :: 0 <= i < |snap| && snap[i].service == svc ==> Stuck(snap[i].settings.Get(k))
  }

  ghost predicate DistinctServices(snap: seq<ServiceSnapshot>) {
    forall i, j :: 0 <= i < j < |snap| ==> snap[i].service != snap[j].service
  }

  /** The entries a restore of the snapshot may be unable to clear. */
  ghost function StuckIn(snap: seq<ServiceSnapshot>): set<(string, Kind)> {
    set i, k: Kind | 0 <= i < |snap| && Stuck(snap[i].settings.Get(k)) :: (snap[i].service, k)
  }

  lemma StuckIsListed(snap: seq<ServiceSnapshot>, svc: string, k: Kind)
    requires AllStuck(snap, svc, k) && Lists(snap, svc)
    ensures (svc, k) in StuckIn(snap)
  {
    var i :| 0 <= i < |snap| && snap[i].service == svc;
  }

  predicate DistinctNames(names: seq<string>) { forall i, j :: 0 <= i < j < |names| ==> names[i] != names[j] }

  /** How many steps take effect on the i-th service. */
  function StepsOf(done: seq<nat>, i: nat): (n: nat)
    ensures n <= 5
  {
    if i >= |done| then 0 else if done[i] < 5 then done[i] else 5
  }

  lemma StepsAre(done: seq<nat>)
    ensures forall i: nat :: i < |done| && done[i] <= 5 ==> StepsOf(done, i) == done[i]
    ensures forall i: nat :: i >= |done| ==> StepsOf(done, i) == 0
  {
  }

  /** Only the given entries point at the app. */
  ghost predicate OnlyOurs(os: Services, left: set<(string, Kind)>, port: int) {
    forall svc, k: Kind :: svc in os && Ours(os[svc].Get(k), port) ==> (svc, k) in left
  }

  ghost predicate HasSnapshot(file: Option<JournalData>) { file.Some? && file.value.systemProxy.Some? }

  /**
    An entry that points at the app is one of those left over, or the journal on
    disk has a snapshot of its service.
   */
  ghost predicate Covered(os: Services, file: Option<JournalData>, left: set<(string, Kind)>, port: int) {
    && (HasSnapshot(file) ==> StuckIn(file.value.systemProxy.value) <= left)
    && forall svc, k: Kind :: svc in os && Ours(os[svc].Get(k), port) ==>
         (svc, k) in left || (HasSnapshot(file) && Lists(file.value.systemProxy.value, svc))
  }

  /** What a crash leaves, and the entries that were beyond clearing then. */
  datatype Snapshot = Snapshot(os: Services, file: Option<JournalData>, left: set<(string, Kind)>)

  /** What a restore of the snapshots makes of the services, exactly. */
  ghost predicate RestoredBy(snap: seq<ServiceSnapshot>, before: Services, after: Services, port: int) {
    && after.Keys == before.Keys
    && (forall svc :: svc in before && !Lists(snap, svc) ==> after[svc] == before[svc])
    && (forall svc, k: Kind :: svc in before ==>
          && (Ours(after[svc].Get(k), port) <==> Ours(before[svc].Get(k), port) && AllStuck(snap, svc, k))
          && (!Ours(before[svc].Get(k), port) ==> after[svc].Get(k) == before[svc].Get(k)))
    && (DistinctServices(snap) ==> forall i :: 0 <= i < |snap| && snap[i].service in before ==>
          after[snap[i].service] == Restored(before[snap[i].service], snap[i].settings, port))
  }

  /** Restores, service by service, where entries still point at the app. */
  method RestoreAll(before: Services, snap: seq<ServiceSnapshot>, port: int) returns (os: Services)
    requires 0 < port <= 65535
    ensures RestoredBy(snap, before, os, port)
  {
    hide RestoredBy, Restored;
    os := before;
    NoneRestored(before, port);
    assert snap[..0] == [];
    for i := 0 to |snap|
      invariant RestoredBy(snap[..i], before, os, port)
    {
      var svc := snap[i].service;
      assert snap[..i + 1] == snap[..i] + [snap[i]];
      ghost var was := os;
      if svc in os { os := os[svc := Restored(os[svc], snap[i].settings, port)]; }
      OneMoreRestored(snap[..i], snap[i], before, was, os, port);
    }
    assert snap[..|snap|] == snap;
  }

  lemma NoneRestored(os: Services, port: int)
    ensures RestoredBy([], os, os, port)
  {
  }

  lemma OneMoreRestored(
      done: seq<ServiceSnapshot>, next: ServiceSnapshot, before: Services, was: Services, os: Services, port: int)
    requires 0 < port <= 65535 && RestoredBy(done, before, was, port)
    requires os == if next.service in was then was[next.service := Restored(was[next.service], next.settings, port)]
      else was
    ensures RestoredBy(done + [next], before, os, port)
  {
    var snap, svc := done + [next], next.service;
    forall x ensures Lists(snap, x) <==> Lists(done, x) || x == svc { ListsSnoc(done, next, x); }
    forall x, k: Kind
      ensures AllStuck(snap, x, k) <==> AllStuck(done, x, k) && (x == svc ==> Stuck(next.settings.Get(k)))
    {
      AllStuckSnoc(done, next, x, k);
    }
    if svc in was {
      forall k: Kind
        ensures Ours(os[svc].Get(k), port) <==> Ours(was[svc].Get(k), port) && Stuck(next.settings.Get(k))
        ensures !Ours(was[svc].Get(k), port) ==> os[svc].Get(k) == was[svc].Get(k)
      {
        RestoredGet(was[svc], next.settings, k, port);
      }
    }
    if DistinctServices(snap) {
      assert DistinctServices(done) by {
        forall i, j | 0 <= i < j < |done| ensures done[i].service != done[j].service {
          assert snap[i] == done[i] && snap[j] == done[j];
        }
      }
      forall i | 0 <= i < |snap| && snap[i].service in before
        ensures os[snap[i].service] == Restored(before[snap[i].service], snap[i].settings, port)
      {
        if i < |done| {
          assert snap[i] == done[i] && snap[|done|] == next;
        } else {
          assert !Lists(done, svc) by {
            forall j | 0 <= j < |done|
              ensures done[j].service != svc
            {
              assert snap[j] == done[j] && snap[|done|] == next;
            }
          }
        }
      }
    }
  }

  lemma RestoredGet(now: Settings, orig: Settings, k: Kind, port: int)
    requires 0 < port <= 65535
    ensures Ours(Restored(now, orig, port).Get(k), port) <==> Ours(now.Get(k), port) && Stuck(orig.Get(k))
    ensures !Ours(now.Get(k), port) ==> Restored(now, orig, port).Get(k) == now.Get(k)
  {
    RestoreResult(now, orig, port);
    RestoredEntryOursIff(now.Get(k), orig.Get(k), port);
  }

  lemma ListsSnoc(done: seq<ServiceSnapshot>, next: ServiceSnapshot, svc: string)
    ensures Lists(done + [next], svc) <==> Lists(done, svc) || svc == next.service
  {
    var snap := done + [next];
    if Lists(done, svc) {
      var i :| 0 <= i < |done| && done[i].service == svc;
      assert snap[i].service == svc;
    }
    assert snap[|done|] == next;
  }

  lemma AllStuckSnoc(done: seq<ServiceSnapshot>, next: ServiceSnapshot, svc: string, k: Kind)
    ensures AllStuck(done + [next], svc, k) <==>
      AllStuck(done, svc, k) && (svc == next.service ==> Stuck(next.settings.Get(k)))
  {
    var snap := done + [next];
    assert snap[|done|] == next;
    if AllStuck(snap, svc, k) {
      forall i | 0 <= i < |done| && done[i].service == svc
        ensures Stuck(done[i].settings.Get(k))
      {
        assert snap[i] == done[i];
      }
    }
  }

  /** recoverStaleJournal: nothing while the owner lives; otherwise the settings are restored and the file goes. */
  method RecoverStaleJournal(os: Services, file: Option<JournalData>, ownerAlive: bool, port: int)
    returns (os': Services, file': Option<JournalData>, recovered: bool)
    requires 0 < port <= 65535
    ensures recovered <==> file.Some? && !ownerAlive
    ensures !recovered ==> os' == os && file' == file
    ensures recovered ==> file' == None
    ensures recovered ==>
      if file.value.systemProxy.Some? then RestoredBy(file.value.systemProxy.value, os, os', port) else os' == os
  {
    os', file' := os, file;
    if file.None? || ownerAlive { return os', file', false; }
    if file.value.systemProxy.Some? {
      os' := RestoreAll(os, file.value.systemProxy.value, port);
    }
    return os', None, true;
  }

  class App {
    const port: int
    var os: Services
    var journal: Journal
    var sysSnap: Option<seq<ServiceSnapshot>>
    ghost var left: set<(string, Kind)>    // entries that pointed at the app at first launch, or were captured stuck
    ghost var trail: seq<Snapshot>

    ghost predicate Valid()
      reads this, journal
    {
      && 0 < port <= 65535
      && journal.Valid()
      && sysSnap == journal.data.systemProxy
      && (sysSnap.Some? ==> StuckIn(sysSnap.value) <= left)
      && (sysSnap.None? ==> OnlyOurs(os, left, port))
      && Covered(os, journal.file, left, port)
      && forall i :: 0 <= i < |trail| ==> Covered(trail[i].os, trail[i].file, trail[i].left, port)
    }

    /** A first launch. */
    constructor (os: Services, port: int)
      requires 0 < port <= 65535
      ensures Valid() && fresh(journal) && this.os == os && this.port == port && sysSnap.None? && trail == []
      ensures forall svc, k: Kind :: (svc, k) in left <==> svc in os && Ours(os[svc].Get(k), port)
    {
      this.port, this.os, sysSnap, trail := port, os, None, [];
      left := set svc, k: Kind | svc in os && Ours(os[svc].Get(k), port) :: (svc, k);
      journal := new Journal(None);
    }

    /** A launch after a crash at any point that was covered. */
    constructor Relaunch(was: Snapshot, port: int)
      requires 0 < port <= 65535 && Covered(was.os, was.file, was.left, port)
      ensures Valid() && fresh(journal) && this.port == port && sysSnap.None? && left == was.left && journal.file.None?
      ensures OnlyOurs(os, left, port)
      ensures if HasSnapshot(was.file)
        then RestoredBy(was.file.value.systemProxy.value, was.os, os, port)
        else os == was.os
    {
      this.port, sysSnap, trail, left := port, None, [], was.left;
      var os', file', _ := RecoverStaleJournal(was.os, was.file, false, port);
      LeftAfterRestore(was.os, was.file, was.left, os', port);
      os := os';
      journal := new Journal(file');
      new;
    }

    ghost method Mark()
      requires Covered(os, journal.file, left, port)
      requires forall i :: 0 <= i < |trail| ==> Covered(trail[i].os, trail[i].file, trail[i].left, port)
      modifies this`trail
      ensures trail == old(trail) + [Snapshot(os, journal.file, left)]
      ensures forall i :: 0 <= i < |trail| ==> Covered(trail[i].os, trail[i].file, trail[i].left, port)
    {
      trail := trail + [Snapshot(os, journal.file, left)];
    }

    /** Reads every listed service; the app's own leftovers are not the user's settings. */
    method Capture(names: seq<string>) returns (snap: seq<ServiceSnapshot>)
      requires forall n :: n in names ==> n in os
      ensures |snap| == |names|
      ensures forall i :: 0 <= i < |names| ==> snap[i] == ServiceSnapshot(names[i], Captured(os[names[i]], port))
    {
      snap := [];
      for i := 0 to |names|
        invariant |snap| == i
        invariant forall k :: 0 <= k < i ==> snap[k] == ServiceSnapshot(names[k], Captured(os[names[k]], port))
      {
        assert names[i] in names;
        snap := snap + [ServiceSnapshot(names[i], Captured(os[names[i]], port))];
      }
    }

    /**
      Journal first, then the settings: unless they cannot be read, each service
      gets its steps up to the first that fails.
     */
    method ApplySystemProxy(names: seq<string>, readable: bool, done: seq<nat>)
      requires Valid() && sysSnap.None?
      requires forall n :: n in names ==> n in os
      modifies this`os, this`sysSnap, this`left, this`trail, journal
      ensures Valid() && old(trail) <= trail && os.Keys == old(os).Keys
      ensures forall svc :: svc in os && svc !in names ==> os[svc] == old(os)[svc]
      ensures sysSnap.Some? <==> readable
      ensures journal.data == old(journal.data).(systemProxy := sysSnap)
      ensures !readable ==> os == old(os) && left == old(left) && trail == old(trail)
      ensures readable ==> left == old(left) + StuckIn(sysSnap.value) && |sysSnap.value| == |names|
      ensures readable ==> forall i :: 0 <= i < |names| ==>
        sysSnap.value[i] == ServiceSnapshot(names[i], Captured(old(os)[names[i]], port))
      ensures readable && DistinctNames(names) ==> forall i :: 0 <= i < |names| ==>
        os[names[i]] == AfterSet(old(os)[names[i]], Captured(old(os)[names[i]], port), port, StepsOf(done, i))
    {
      hide StepsOf, Captured, AfterSet;
      if !readable {
        assert journal.data == journal.data.(systemProxy := sysSnap);
        return;
      }
      var snap := Capture(names);
      sysSnap := Some(snap);
      left := left + StuckIn(snap);
      journal.SetSystemProxy(Some(snap));
      Mark();
      ghost var was := os;
      for i := 0 to |snap|
        invariant Valid() && old(trail) <= trail && os.Keys == old(os).Keys && sysSnap == Some(snap)
        invariant journal.data == old(journal.data).(systemProxy := sysSnap)
        invariant left == old(left) + StuckIn(snap)
        invariant forall svc :: svc in os && svc !in names[..i] ==> os[svc] == old(os)[svc]
        invariant DistinctNames(names) ==> forall k :: 0 <= k < i ==>
          os[names[k]] == AfterSet(old(os)[names[k]], snap[k].settings, port, StepsOf(done, k))
      {
        assert snap[i].service == names[i] && names[i] in names;
        assert names[..i + 1] == names[..i] + [names[i]];
        SetService(snap, i, StepsOf(done, i));
      }
      assert names[..|names|] == names;
    }

    /** The first n steps for one service. */
    method SetService(snap: seq<ServiceSnapshot>, i: nat, n: nat)
      requires Valid() && sysSnap == Some(snap) && i < |snap| && snap[i].service in os && n <= 5
      modifies this`os, this`trail
      ensures Valid() && old(trail) <= trail
      ensures os == old(os)[snap[i].service := AfterSet(old(os)[snap[i].service], snap[i].settings, port, n)]
    {
      var svc := snap[i].service;
      var steps := SetSteps(snap[i].settings, port);
      ghost var was := os[svc];
      SetStart(was, snap[i].settings, port);
      assert Lists(snap, svc);
      hide SetSteps, AfterSet, Run, Lists, StuckIn;
      for t := 0 to n
        invariant Valid() && old(trail) <= trail
        invariant os == old(os)[svc := AfterSet(was, snap[i].settings, port, t)]
      {
        SetStep(was, snap[i].settings, port, t);
        os := os[svc := Run(steps[t], os[svc])];
        Mark();
      }
    }

    /** The end of a session: settings back, then the journal entry goes. */
    method RestoreSystemProxy()
      requires Valid()
      modifies this`os, this`sysSnap, this`trail, journal
      ensures Valid() && sysSnap.None? && OnlyOurs(os, left, port) && old(trail) <= trail
      ensures if old(sysSnap).Some? then RestoredBy(old(sysSnap).value, old(os), os, port) else os == old(os)
      ensures journal.data.children == old(journal.data.children)
    {
      if sysSnap.None? { return; }
      var os' := RestoreAll(os, sysSnap.value, port);
      LeftAfterRestore(os, journal.file, left, os', port);
      os := os';
      Mark();
      sysSnap := None;
      journal.SetSystemProxy(None);
      Mark();
    }

    /** A child is recorded or forgotten; the proxy snapshot stays. */
    method SetChild(name: string, pid: int)
      requires Valid()
      modifies this`trail, journal
      ensures Valid() && old(trail) <= trail && journal.data.systemProxy == old(journal.data.systemProxy)
      ensures journal.data.children ==
        Without(old(journal.data.children), name) + if pid > 0 then [Child(pid, name)] else []
    {
      journal.SetChild(name, pid);
      Mark();
    }

    /** The user changes some entries of a service, to anything but the app. */
    method UserChanges(svc: string, to: Settings)
      requires Valid() && svc in os
      requires forall k: Kind :: to.Get(k) == os[svc].Get(k) || !Ours(to.Get(k), port)
      modifies this`os, this`trail
      ensures Valid() && os == old(os)[svc := to] && old(trail) <= trail
    {
      os := os[svc := to];
      Mark();
    }

    /** The app is killed and started again: recoverStaleJournal replays what is on disk, then drops it. */
    method CrashAndRecover()
      requires Valid()
      modifies this`os, this`journal, this`sysSnap, this`trail
      ensures Valid() && fresh(journal) && sysSnap.None? && OnlyOurs(os, left, port) && old(trail) <= trail
      ensures journal.file.None?
      ensures if old(sysSnap).Some? then RestoredBy(old(sysSnap).value, old(os), os, port) else os == old(os)
    {
      var os', file', _ := RecoverStaleJournal(os, journal.file, false, port);
      LeftAfterRestore(os, journal.file, left, os', port);
      os := os';
      journal := new Journal(file');
      sysSnap := None;
      Mark();
    }
  }

  /** After a restore from the file only leftovers point at the app. */
  lemma LeftAfterRestore(os: Services, file: Option<JournalData>, left: set<(string, Kind)>, os': Services, port: int)
    requires Covered(os, file, left, port)
    requires if HasSnapshot(file) then RestoredBy(file.value.systemProxy.value, os, os', port) else os' == os
    ensures OnlyOurs(os', left, port)
  {
    forall svc, k: Kind | svc in os' && Ours(os'[svc].Get(k), port) ensures (svc, k) in left {
      if (svc, k) !in left {
        StuckIsListed(file.value.systemProxy.value, svc, k);
      }
    }
  }
}
