/** Whole runs of the hot-state lifecycle, with a crash possible after every write. */
module HotRuns {
  import opened DirectoryDeletion
  import opened HotDisk
  import opened HotNamespace

  datatype Operation =
    | Publish(id: Id, inode: Inode, file: nat, contract: nat, nonce: nat)
    | Run(id: Id, entries: seq<Entry>)
    | Use(id: Id, reachable: Reachability)
    | Collect(current: Id, first: Look, second: Look)
    | Evict(current: Id, sample: Sample, first: Look, second: Look)

  /** Whether an operation runs to its end or is cut off after some of its writes. */
  datatype Interruption = Completes | CrashesAfter(writes: nat)

  predicate Pass(op: Operation) {
    op.Collect? || op.Evict?
  }

  predicate Cut(op: Operation, interruption: Interruption) {
    Pass(op) && interruption != Completes
  }

  /** How many collection and eviction passes of a run were cut off. */
  function CutPasses(ops: seq<(Operation, Interruption)>): nat {
    if ops == [] then 0
    else
      var (op, interruption) := ops[|ops| - 1];
      CutPasses(ops[..|ops| - 1]) + if Cut(op, interruption) then 1 else 0
  }

  /** All value records but at most `n` point at tickets of their own, ahead of the cursor. */
  ghost predicate FewLost(d: Disk, n: nat) {
    exists lost: set<Id> :: |lost| <= n && SoundOutside(d, lost)
  }

  lemma OneMoreIsFew(d: Disk, lost: set<Id>, n: nat)
    requires OneMore(d, lost) && |lost| <= n
    ensures FewLost(d, n + 1)
  {
    var x :| SoundOutside(d, lost + {x});
    assert |lost + {x}| <= |lost| + 1;
  }

  lemma SoundSince(history: seq<Disk>, from: nat, lost: set<Id>)
    requires SoundFrom(history, from, lost)
    ensures OneMoreSince(history, from, lost)
  {
    forall k | from <= k < |history| ensures OneMore(history[k], lost) {
      SoundHasNoOrphan(history[k], lost);
    }
  }

  /** The state can be used and the use recorded. */
  predicate Usable(d: Disk, id: Id) {
    id in d.names.states && HasManifest(d.names.states[id])
  }

  /** One completed operation: it loses no value record, at no point of it is more than one beside
      those already lost, none when it is not a pass, and a recorded use repairs its own. */
  method Perform(ns: Namespace, op: Operation)
    requires ns.Valid()
    modifies ns`disk, ns`history
    ensures ns.Valid() && old(ns.history) <= ns.history
    ensures old(SoundOutside(ns.disk, ns.lost)) ==>
              SoundOutside(ns.disk, ns.lost) && OneMoreSince(ns.history, |old(ns.history)|, ns.lost)
    ensures old(SoundOutside(ns.disk, ns.lost)) && !Pass(op) ==>
              SoundFrom(ns.history, |old(ns.history)|, ns.lost)
    ensures old(SoundOutside(ns.disk, ns.lost)) && op.Use? && op.reachable == Reachable
              && old(Usable(ns.disk, op.id)) ==>
              SoundOutside(ns.disk, ns.lost - {op.id})
    ensures op.Evict? && old(MovesCurrent(ns.disk, op.current, op.sample)) ==>
              CursorMoved(old(ns.disk), ns.history, |old(ns.history)|)
  {
    match op {
      case Publish(id, inode, file, contract, nonce) =>
        var _ := ns.PublishImplicitStateBase(id, inode, file, contract, nonce);
      case Run(id, entries) =>
        var states := ns.disk.names.states;
        if id in states && (HasManifest(states[id].(entries := entries)) <==> HasManifest(states[id])) {
          ns.RunTask(id, entries);
        }
      case Use(id, reachable) =>
        var _ := ns.RecordSuccessfulUse(id, reachable);
      case Collect(current, first, second) =>
        var _, _ := ns.CollectOneUnreachableState(current, first, second);
      case Evict(current, sample, first, second) =>
        var _, _ := ns.RetireOneLowValueState(current, sample, first, second);
    }
    if !Pass(op) && SoundOutside(old(ns.disk), ns.lost) {
      SoundSince(ns.history, |old(ns.history)|, ns.lost);
    }
  }

  /** `d` under pressure with the cursor one ticket on. */
  function AtCursor(d: Disk): Disk {
    d.(values := d.values.(pressure := true, cursor := d.values.cursor + 1))
  }

  /** One operation that completes, or crashes after some of its writes and leaves the disk as it then was. */
  method PerformOrCrash(ns: Namespace, op: Operation, interruption: Interruption) returns (ghost lost: set<Id>)
    requires ns.Valid() && SoundOutside(ns.disk, ns.lost)
    modifies ns`disk, ns`history
    ensures ns.Valid() && old(ns.history) <= ns.history && SoundOutside(ns.disk, lost)
    ensures if Cut(op, interruption) then |lost| <= |ns.lost| + 1 else lost == ns.lost
    ensures OneMoreSince(ns.history, |old(ns.history)|, ns.lost)
    ensures !Pass(op) ==> SoundFrom(ns.history, |old(ns.history)|, ns.lost)
    ensures op.Evict? && old(MovesCurrent(ns.disk, op.current, op.sample))
              && interruption == CrashesAfter(old(PressureWrites(ns.disk)) + 1) ==>
              ns.disk == AtCursor(old(ns.disk))
  {
    var start := |ns.history|;
    Perform(ns, op);
    lost := ns.lost;
    if interruption.CrashesAfter? {
      ghost var written := ns.history;
      var k := Crash(ns, start, interruption.writes);
      if Pass(op) {
        lost := CrashLosesOne(old(ns.disk), written, start, k, ns.lost);
      } else {
        CrashLosesNone(old(ns.disk), written, start, k, ns.lost);
      }
    }
  }

  lemma CrashLosesOne(d: Disk, history: seq<Disk>, start: nat, k: nat, lost: set<Id>) returns (lost': set<Id>)
    requires 0 < start <= k + 1 <= |history| && history[start - 1] == d && SoundOutside(d, lost)
    requires OneMoreSince(history, start, lost)
    ensures OneMoreSince(history + [history[k]], start, lost)
    ensures SoundOutside(history[k], lost') && |lost'| <= |lost| + 1
  {
    if k == start - 1 {
      SoundHasNoOrphan(d, lost);
    }
    var x :| SoundOutside(history[k], lost + {x});
    return lost + {x};
  }

  lemma CrashLosesNone(d: Disk, history: seq<Disk>, start: nat, k: nat, lost: set<Id>)
    requires 0 < start <= k + 1 <= |history| && history[start - 1] == d && SoundOutside(d, lost)
    requires SoundFrom(history, start, lost)
    ensures SoundOutside(history[k], lost) && SoundFrom(history + [history[k]], start, lost)
    ensures OneMoreSince(history + [history[k]], start, lost)
  {
    SoundSince(history + [history[k]], start, lost);
  }

  /** A crash after some of the writes made since `start` disks had been written, or after the last. */
  method Crash(ns: Namespace, start: nat, writes: nat) returns (k: nat)
    requires ns.Valid() && ns.since < start <= |ns.history|
    modifies ns`disk, ns`history
    ensures k < |old(ns.history)| && (start + writes <= |old(ns.history)| ==> k == start - 1 + writes) && start - 1 <= k
    ensures ns.Valid() && ns.disk == old(ns.history)[k] && ns.history == old(ns.history) + [ns.disk]
  {
    k := if start + writes <= |ns.history| then start - 1 + writes else |ns.history| - 1;
    ns.Restart(k);
  }

  /** How many records may be lost while operation `i` of the run is at work: one for every pass cut off
      before it, and one more if it is itself a pass. */
  function LostDuring(ops: seq<(Operation, Interruption)>, i: nat): nat
    requires i < |ops|
  {
    CutPasses(ops[..i]) + if Pass(ops[i].0) then 1 else 0
  }

  /** `marks[i]` disks had been written before operation `i`, and on the ones it wrote no more records are
      lost than may be during it, beside `n`. */
  ghost predicate FewAtEach(history: seq<Disk>, marks: seq<nat>, ops: seq<(Operation, Interruption)>, n: nat) {
    && 0 < |marks| <= |ops| + 1
    && (forall i, j :: 0 <= i < j < |marks| ==> marks[i] <= marks[j] <= |history|)
    && (forall i, j, k :: 0 <= i < j < |marks| && j == i + 1 && marks[i] <= k < marks[j] ==>
          FewLost(history[k], n + LostDuring(ops, i)))
  }

  /** Any run. At every crash point every debt has its ticket. While an operation is at work no more value
      records are lost than passes were cut off before it, and one more if it is a pass; at the end no more
      than passes were cut off. `marks` says which disks each operation wrote. */
  method AnyRun(ns: Namespace, ops: seq<(Operation, Interruption)>) returns (ghost lost: set<Id>, ghost marks: seq<nat>)
    requires ns.Valid() && SoundOutside(ns.disk, ns.lost)
    modifies ns`disk, ns`history, ns`lost
    ensures ns.Valid() && old(ns.history) <= ns.history
    ensures forall k :: 0 <= k < |ns.history| ==> Covered(ns.history[k].names, ns.history[k].names.cursor)
    ensures SoundOutside(ns.disk, lost) && |lost| <= |old(ns.lost)| + CutPasses(ops)
    ensures CutPasses(ops) == 0 ==> lost == old(ns.lost)
    ensures |marks| == |ops| + 1 && marks[0] == |old(ns.history)| && marks[|ops|] == |ns.history|
    ensures FewAtEach(ns.history, marks, ops, |old(ns.lost)|)
  {
    lost := ns.lost;
    marks := [|ns.history|];
    for i := 0 to |ops|
      invariant ns.Valid() && old(ns.history) <= ns.history && ns.lost == lost
      invariant SoundOutside(ns.disk, lost) && |lost| <= |old(ns.lost)| + CutPasses(ops[..i])
      invariant CutPasses(ops[..i]) == 0 ==> lost == old(ns.lost)
      invariant |marks| == i + 1 && marks[0] == |old(ns.history)| && marks[i] == |ns.history|
      invariant FewAtEach(ns.history, marks, ops, |old(ns.lost)|)
    {
      lost := RunNext(ns, ops, i, |old(ns.lost)|, marks);
      marks := marks + [|ns.history|];
    }
    assert ops[..|ops|] == ops;
  }

  /** Operation `i` of the run, with `n` records lost before the run. */
  method RunNext(ns: Namespace, ops: seq<(Operation, Interruption)>, i: nat, ghost n: nat, ghost marks: seq<nat>)
    returns (ghost lost: set<Id>)
    requires ns.Valid() && SoundOutside(ns.disk, ns.lost)
    requires i < |ops| && |ns.lost| <= n + CutPasses(ops[..i])
    requires |marks| == i + 1 && marks[i] == |ns.history| && FewAtEach(ns.history, marks, ops, n)
    modifies ns`disk, ns`history, ns`lost
    ensures ns.Valid() && old(ns.history) <= ns.history && ns.lost == lost
    ensures SoundOutside(ns.disk, lost) && |lost| <= n + CutPasses(ops[..i + 1])
    ensures CutPasses(ops[..i]) <= CutPasses(ops[..i + 1])
    ensures CutPasses(ops[..i + 1]) == CutPasses(ops[..i]) ==> lost == old(ns.lost)
    ensures FewAtEach(ns.history, marks + [|ns.history|], ops, n)
  {
    var (op, interruption) := ops[i];
    assert ops[..i + 1][..i] == ops[..i];
    ghost var earlier := ns.history;
    lost := PerformOrCrash(ns, op, interruption);
    FewDuring(earlier, ns.history, ns.lost, n, ops, i);
    FewKept(earlier, ns.history, marks, ops, n);
    ns.lost := lost;
  }

  ghost predicate FewSince(history: seq<Disk>, from: nat, n: nat) {
    forall k :: from <= k < |history| ==> FewLost(history[k], n)
  }

  lemma FewDuring(earlier: seq<Disk>, history: seq<Disk>, lost: set<Id>, n: nat,
                  ops: seq<(Operation, Interruption)>, i: nat)
    requires i < |ops| && |lost| <= n + CutPasses(ops[..i])
    requires OneMoreSince(history, |earlier|, lost)
    requires !Pass(ops[i].0) ==> SoundFrom(history, |earlier|, lost)
    ensures FewSince(history, |earlier|, n + LostDuring(ops, i))
  {
    forall k | |earlier| <= k < |history| ensures FewLost(history[k], n + LostDuring(ops, i)) {
      if Pass(ops[i].0) {
        OneMoreIsFew(history[k], lost, n + CutPasses(ops[..i]));
      } else {
        assert SoundOutside(history[k], lost);
      }
    }
  }

  lemma FewKept(earlier: seq<Disk>, history: seq<Disk>, marks: seq<nat>, ops: seq<(Operation, Interruption)>, n: nat)
    requires earlier <= history && 0 < |marks| <= |ops| && marks[|marks| - 1] == |earlier|
    requires FewAtEach(earlier, marks, ops, n)
    requires FewSince(history, |earlier|, n + LostDuring(ops, |marks| - 1))
    ensures FewAtEach(history, marks + [|history|], ops, n)
  {
    var marks' := marks + [|history|];
    forall i, j, k | 0 <= i < j < |marks'| && j == i + 1 && marks'[i] <= k < marks'[j]
      ensures FewLost(history[k], n + LostDuring(ops, i))
    {
      if j < |marks| {
        assert marks[j] <= |earlier| && earlier[k] == history[k];
      }
    }
  }

  /** A recorded use repairs the record of its state for good: whatever was lost before, it is not lost
      after any further run in which no pass is cut off. */
  method UseRepairs(ns: Namespace, id: Id, ops: seq<(Operation, Interruption)>)
    requires ns.Valid() && SoundOutside(ns.disk, ns.lost) && Usable(ns.disk, id) && CutPasses(ops) == 0
    modifies ns`disk, ns`history, ns`lost
    ensures ns.Valid() && SoundOutside(ns.disk, old(ns.lost) - {id})
  {
    Perform(ns, Use(id, Reachable));
    ns.lost := ns.lost - {id};
    ghost var _, _ := AnyRun(ns, ops);
  }

  // ---------- A record that names another directory ----------

  lemma MismatchHasTicket(n: Names, id: Id)
    requires NamesSafe(n) && !DirectoryMatches(n, id)
    ensures exists number :: Watched(Stale(id, number), n)
  {
    assert Owed(n, RetiredTicket(id));
    var number :| number in n.tickets && n.cursor < number <= n.next && n.tickets[number] == RetiredTicket(id);
    assert Watched(Stale(id, number), n);
  }

  /** Once a retired directory is not the one its record names, it never is again: after every run, and at
      every crash point of it, the two disagree, its ticket stands, and the collector's cursor has not passed it. */
  method MismatchForever(ns: Namespace, id: Id, number: nat, ops: seq<(Operation, Interruption)>)
    requires ns.Valid() && Watched(Stale(id, number), ns.disk.names)
    modifies ns
    ensures ns.Valid() && old(ns.history) <= ns.history
    ensures forall k :: |old(ns.history)| - 1 <= k < |ns.history| ==> Watched(Stale(id, number), ns.history[k].names)
    ensures !DirectoryMatches(ns.disk.names, id) && ns.disk.names.cursor < number
  {
    ns.watch, ns.since := Stale(id, number), |ns.history| - 1;
    ns.lost := ns.disk.values.records.Keys;
    ghost var _, _ := AnyRun(ns, ops);
  }

  const EMPTY := Disk(Names(0, 0, map[], map[], map[], map[], map[]), Values(0, 0, 0, false, map[], map[]))

  const FULL := Sample(95, 100)

  function Fresh(inode: Inode): Home {
    Home(inode, Document(true, 0, 0), [File(Manifest)])
  }

  lemma FreshIsClean(inode: Inode)
    ensures HasManifest(Fresh(inode)) && Lease(Fresh(inode))
    ensures Clean(Fresh(inode).entries) && Work(Fresh(inode).entries, true) == 0
  {
    assert File(Manifest) in Fresh(inode).entries;
    assert [File(Manifest)][1..] == [];
  }

  /** A state published and used. */
  method OneUsed(id: Id, inode: Inode) returns (ns: Namespace)
    ensures ns.Valid() && fresh(ns) && ns.since == 0
    ensures ns.disk.names == PublishedNames(EMPTY.names, id, 0, Fresh(inode))
    ensures ns.disk.values == Values(1, 1, 0, false, map[1 := ValueTicket(id, 1)], map[id := ValueRecord(0, 1, 1, 1)])
  {
    FreshIsClean(inode);
    ns := new Namespace(EMPTY);
    var _ := ns.PublishImplicitStateBase(id, inode, 0, 0, 0);
    var _ := ns.RecordSuccessfulUse(id, Reachable);
  }

  /** That state evicted by a pass that dies after removing its directory and before removing its record. */
  method EvictAndCrash(id: Id, other: Id, inode: Inode) returns (ns: Namespace)
    requires other != id
    ensures ns.Valid() && fresh(ns)
    ensures ns.disk.names
              == EvictedNames(PublishedNames(EMPTY.names, id, 0, Fresh(inode)), id).(records := map[id := inode])
  {
    FreshIsClean(inode);
    ns := OneUsed(id, inode);
    ghost var published := ns.disk.names;
    var look := map[id := Reachable];
    assert Eligible(ns.disk, 1, other, look, look);
    var start := |ns.history|;
    var result, processed := ns.RetireOneLowValueState(other, FULL, look, look);
    assert processed == 1 && result.id == id;
    assert CleanlyEvictable(published, id);
    var after := ns.disk.names.(records := ns.disk.names.records[id := inode]);
    var k :| start <= k < |ns.history| && ns.history[k].names == after;
    ns.Restart(k);
  }

  /** A crash of that kind, the same identity published again by a run that did not collect, and its
      generation gone: the next collection pass retires it onto the old record, and from then on, whatever is
      run, the directory is never deleted and the collector never passes its ticket. */
  method StaleRecordBlocksDeletion(id: Id, other: Id, former: Inode, latter: Inode, ops: seq<(Operation, Interruption)>)
    returns (ns: Namespace, number: nat)
    requires former != latter && other != id
    ensures ns.Valid() && id in ns.disk.names.retired && !DirectoryMatches(ns.disk.names, id)
    ensures ns.disk.names.cursor < number && number in ns.disk.names.tickets
            && ns.disk.names.tickets[number] == RetiredTicket(id)
  {
    FreshIsClean(latter);
    ns := EvictAndCrash(id, other, former);
    var _ := ns.PublishImplicitStateBase(id, latter, 0, 0, 1);
    var look := map[id := Unreachable];
    assert Harmless(ns.disk.names, 1);
    assert ReachesRecord(ns.disk.names, 2, id, other, look, look);
    var _, _ := ns.CollectOneUnreachableState(other, look, look);
    MismatchHasTicket(ns.disk.names, id);
    number :| number in ns.disk.names.tickets && Watched(Stale(id, number), ns.disk.names);
    MismatchForever(ns, id, number, ops);
  }

  /** Two states published and used, in that order. */
  method TwoUsed(a: Id, b: Id, one: Inode, two: Inode) returns (ns: Namespace)
    requires a != b
    ensures ns.Valid() && fresh(ns) && ns.since == 0
    ensures a in ns.disk.names.states && b in ns.disk.names.states
    ensures Lease(ns.disk.names.states[a]) && Lease(ns.disk.names.states[b])
    ensures ns.disk.values == Values(2, 2, 0, false, map[1 := ValueTicket(a, 1), 2 := ValueTicket(b, 2)],
                                     map[a := ValueRecord(0, 1, 1, 1), b := ValueRecord(0, 2, 1, 2)])
  {
    FreshIsClean(one);
    FreshIsClean(two);
    ns := new Namespace(EMPTY);
    var _ := ns.PublishImplicitStateBase(a, one, 0, 0, 0);
    var _ := ns.PublishImplicitStateBase(b, two, 0, 0, 0);
    assert ns.disk.names.states == map[a := Fresh(one), b := Fresh(two)] && ns.disk.values == EMPTY.values;
    UseTwo(ns, a, b);
  }

  method UseTwo(ns: Namespace, a: Id, b: Id)
    requires ns.Valid() && a != b && ns.disk.values == EMPTY.values
    requires Usable(ns.disk, a) && Usable(ns.disk, b)
    requires ns.disk.names.states[a].document.file == 0 && ns.disk.names.states[b].document.file == 0
    modifies ns`disk, ns`history
    ensures ns.Valid() && ns.disk.names == old(ns.disk).names
    ensures ns.disk.values == Values(2, 2, 0, false, map[1 := ValueTicket(a, 1), 2 := ValueTicket(b, 2)],
                                     map[a := ValueRecord(0, 1, 1, 1), b := ValueRecord(0, 2, 1, 2)])
  {
    var _ := ns.RecordSuccessfulUse(a, Reachable);
    assert ns.disk.values == Values(1, 1, 0, false, map[1 := ValueTicket(a, 1)], map[a := ValueRecord(0, 1, 1, 1)]);
    var _ := ns.RecordSuccessfulUse(b, Reachable);
  }

  /** An eviction pass that dies right after moving the cursor over the ticket of the state in use. */
  method CutPass(ns: Namespace, current: Id)
    requires ns.Valid() && SoundOutside(ns.disk, ns.lost) && MovesCurrent(ns.disk, current, FULL)
    modifies ns`disk, ns`history, ns`lost
    ensures ns.Valid() && ns.disk == AtCursor(old(ns.disk))
    ensures SoundOutside(ns.disk, ns.lost) && |ns.lost| <= |old(ns.lost)| + 1
  {
    var writes := PressureWrites(ns.disk) + 1;
    ns.lost := PerformOrCrash(ns, Evict(current, FULL, map[], map[]), CrashesAfter(writes));
  }

  /** The bound of `AnyRun` is reached: two such passes, each on the ticket of the state then in use, lose
      two records. The first also writes the pressure flag. */
  method TwoCutPassesLoseTwo(a: Id, b: Id, one: Inode, two: Inode) returns (ns: Namespace)
    requires a != b
    ensures ns.Valid() && !FewLost(ns.disk, 1)
  {
    ns := TwoUsed(a, b, one, two);
    ghost var d := ns.disk;
    ns.lost := {};
    CutPass(ns, a);
    CutPass(ns, b);
    assert ns.disk == AtCursor(AtCursor(d));
    BothLost(ns.disk, a, b);
  }

  lemma BothLost(d: Disk, a: Id, b: Id)
    requires a != b && a in d.values.records && b in d.values.records && !Legacy(d.names, a) && !Legacy(d.names, b)
    requires d.values.records[a].ticket <= d.values.cursor && d.values.records[b].ticket <= d.values.cursor
    ensures !FewLost(d, 1)
  {
    forall lost: set<Id> | SoundOutside(d, lost) ensures |lost| > 1 {
      assert {a, b} <= lost;
      CardinalityBound({a, b}, lost);
    }
  }

  lemma {:induction false} CardinalityBound(small: set<Id>, big: set<Id>)
    requires small <= big
    ensures |small| <= |big|
  {
    if small != {} {
      var x :| x in small;
      CardinalityBound(small - {x}, big - {x});
    }
  }
}
