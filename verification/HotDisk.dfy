/** What hot-run keeps on disk under one namespace root, and what must hold of it at every crash
    point: each directory that may need recovery is named by a reconcile ticket the scan has not
    passed, and each value record points at a value ticket the eviction scan has not passed. */
module HotDisk {
  import opened DirectoryDeletion

  /** A state identity: 64 hexadecimal digits, read as a number (same order, same equality). */
  type Id = nat

  datatype Inode = Inode(device: nat, number: nat)

  datatype StageName = StageName(id: Id, nonce: nat)

  /** A reconcile ticket's kind, identity and name in one: the name is determined by the kind. */
  datatype Ticket = StateTicket(id: Id) | CreatingTicket(stage: StageName) | RetiredTicket(id: Id)

  /** A producer manifest: whether it carries the full-execution namespace lease, the file object the
      value records bind to, and the generation contract it states. */
  datatype Document = Document(lease: bool, file: nat, contract: nat)

  /** A creating stage, a published state or a retired directory. */
  datatype Home = Home(inode: Inode, document: Document, entries: seq<Entry>)

  predicate HasManifest(h: Home) {
    exists e :: e in h.entries && e.name == Manifest
  }

  predicate Lease(h: Home) {
    HasManifest(h) && h.document.lease
  }

  datatype Names = Names(
    next: nat, cursor: nat, tickets: map<nat, Ticket>,
    stages: map<StageName, Home>, states: map<Id, Home>, retired: map<Id, Home>,
    records: map<Id, Inode>)

  datatype ValueTicket = ValueTicket(id: Id, lastUse: nat)

  datatype ValueRecord = ValueRecord(file: nat, lastUse: nat, useCount: nat, ticket: nat)

  datatype Values = Values(
    useSequence: nat, next: nat, cursor: nat, pressure: bool,
    tickets: map<nat, ValueTicket>, records: map<Id, ValueRecord>)

  datatype Disk = Disk(names: Names, values: Values)

  // ---------- Recovery debt ----------

  /** `t` names something on disk that a crash may have left for the collector. */
  predicate Owed(n: Names, t: Ticket) {
    match t
    case CreatingTicket(stage) => stage in n.stages
    case StateTicket(id) => id in n.states && Lease(n.states[id])
    case RetiredTicket(id) => id in n.retired || id in n.records
  }

  /** Some ticket numbered in `(above, next]` names `t`. */
  ghost predicate Ticketed(n: Names, above: nat, t: Ticket) {
    exists k :: k in n.tickets && above < k <= n.next && n.tickets[k] == t
  }

  ghost predicate Covered(n: Names, above: nat) {
    forall t :: Owed(n, t) ==> Ticketed(n, above, t)
  }

  predicate Numbered(n: Names) {
    && n.cursor <= n.next
    && forall k :: k in n.tickets ==> 0 < k <= n.next
  }

  /** A retired directory loses its manifest last: without it the directory is empty and its
      retirement record is on disk. */
  predicate RetirementOrdered(n: Names) {
    forall id :: id in n.retired && !HasManifest(n.retired[id]) ==>
                   && n.retired[id].entries == []
                   && id in n.records && n.records[id] == n.retired[id].inode
  }

  ghost predicate NamesSafe(n: Names) {
    Numbered(n) && Covered(n, n.cursor) && RetirementOrdered(n)
  }

  // ---------- Value tickets ----------

  predicate ValuesSafe(v: Values) {
    && v.cursor <= v.next
    && (forall k :: k in v.tickets ==> 0 < k <= v.next)
    && (forall id :: id in v.records ==> OwnTicket(v, id))
  }

  /** The ticket a record names was issued, and if it still exists it is that state's. */
  predicate OwnTicket(v: Values, id: Id)
    requires id in v.records
  {
    var r := v.records[id];
    && 0 < r.ticket <= v.next && r.lastUse <= v.useSequence
    && (r.ticket in v.tickets ==> v.tickets[r.ticket].id == id)
  }

  ghost predicate Safe(d: Disk) {
    NamesSafe(d.names) && ValuesSafe(d.values)
  }

  /** The state's manifest predates the lease protocol; the eviction scan lets it go. */
  predicate Legacy(n: Names, id: Id) {
    id in n.states && HasManifest(n.states[id]) && !n.states[id].document.lease
  }

  /** The record of `id` points to an existing ticket with its identity and last use, in
      `(above, next]`. */
  predicate Points(v: Values, id: Id, above: nat)
    requires id in v.records
  {
    var r := v.records[id];
    && r.ticket in v.tickets
    && v.tickets[r.ticket] == ValueTicket(id, r.lastUse)
    && above < r.ticket <= v.next
  }

  /** Every record outside `lost` points at its ticket, numbered above `above`. */
  predicate SoundAbove(d: Disk, above: nat, lost: set<Id>) {
    forall id :: id in d.values.records && !Legacy(d.names, id) && id !in lost ==> Points(d.values, id, above)
  }

  /** Every value record outside `lost` will be met by a later eviction scan. */
  predicate SoundOutside(d: Disk, lost: set<Id>) {
    SoundAbove(d, d.values.cursor, lost)
  }

  predicate ValueSound(d: Disk) {
    SoundOutside(d, {})
  }

  /** At most one record is lost beside those of `lost`. */
  ghost predicate OneMore(d: Disk, lost: set<Id>) {
    exists x :: SoundOutside(d, lost + {x})
  }

  /** Distinct records that are not lost hold distinct tickets. */
  lemma PointsDistinct(d: Disk, a: Id, b: Id, lost: set<Id>)
    requires SoundOutside(d, lost) && a != b && a !in lost && b !in lost
    requires a in d.values.records && !Legacy(d.names, a)
    requires b in d.values.records && !Legacy(d.names, b)
    ensures d.values.records[a].ticket != d.values.records[b].ticket
  {
  }

  // ---------- Effects of single writes on the recovery debt ----------

  /** Writes that keep every ticket, and owe nothing that was not owed or is not already ticketed. */
  lemma KeepsCovered(n: Names, m: Names, above: nat)
    requires Covered(n, above) && n.next <= m.next
    requires forall k :: k in n.tickets ==> k in m.tickets && m.tickets[k] == n.tickets[k]
    requires forall t :: Owed(m, t) ==> Owed(n, t) || Ticketed(n, above, t)
    ensures Covered(m, above)
  {
  }

  lemma TicketAppears(n: Names, above: nat, k: nat)
    requires k in n.tickets && above < k <= n.next
    ensures Ticketed(n, above, n.tickets[k])
  {
  }

  function Unticketed(n: Names, k: nat): Names {
    n.(tickets := n.tickets - {k})
  }

  /** A ticket may go once its debt is settled or a later ticket names it too. */
  lemma RemovalKeepsCovered(n: Names, k: nat, above: nat)
    requires Covered(n, above)
    requires k in n.tickets ==> !Owed(n, n.tickets[k]) || Ticketed(n, k, n.tickets[k])
    ensures Covered(Unticketed(n, k), above)
  {
    var m := Unticketed(n, k);
    forall t | Owed(m, t) ensures Ticketed(m, above, t) {
      assert Owed(n, t) && Ticketed(n, above, t);
      if k in n.tickets && t == n.tickets[k] {
        var j :| j in n.tickets && k < j <= n.next && n.tickets[j] == t;
        if above < j {
          assert j in m.tickets;
        } else {
          var i :| i in n.tickets && above < i <= n.next && n.tickets[i] == t;
          assert i in m.tickets;
        }
      } else {
        var i :| i in n.tickets && above < i <= n.next && n.tickets[i] == t;
        assert i in m.tickets;
      }
    }
  }

  /** The scan may pass ticket `k` once its debt is settled or ticketed again later. */
  lemma ScanPasses(n: Names, k: nat)
    requires k > 0 && Covered(n, k - 1)
    requires k in n.tickets ==> !Owed(n, n.tickets[k]) || Ticketed(n, k, n.tickets[k])
    ensures Covered(n, k)
  {
  }

  // ---------- Requeueing an examined value ticket ----------

  /** What is on disk after each write that moves the record of ticket `k` to a new ticket: cursor,
      next number, new ticket, record, old ticket. */
  function RequeueSnapshots(d: Disk, k: nat): (s: seq<Disk>)
    requires k in d.values.tickets && d.values.tickets[k].id in d.values.records
    ensures |s| == 5
  {
    var id := d.values.tickets[k].id;
    var r := d.values.records[id];
    var issued := d.values.next + 1;
    var v0 := d.values.(cursor := k);
    var v1 := v0.(next := issued);
    var v2 := v1.(tickets := v1.tickets[issued := ValueTicket(id, r.lastUse)]);
    var v3 := v2.(records := v2.records[id := r.(ticket := issued)]);
    var v4 := v3.(tickets := v3.tickets - {k});
    [d.(values := v0), d.(values := v1), d.(values := v2), d.(values := v3), d.(values := v4)]
  }

  /** Whatever the crash point, no other record is lost, and none at all from the fourth write on. */
  lemma RequeueSound(d: Disk, k: nat, i: nat, lost: set<Id>)
    requires 0 < k <= d.values.next && k in d.values.tickets
    requires ValuesSafe(d.values) && SoundAbove(d, k - 1, lost)
    requires d.values.tickets[k].id in d.values.records
    requires i < 5
    ensures SoundOutside(RequeueSnapshots(d, k)[i], lost + {d.values.tickets[k].id})
    ensures i >= 3 ==> SoundAbove(RequeueSnapshots(d, k)[i], k, lost)
  {
  }

  /** The record is orphaned exactly until it is rewritten: a crash in the first three writes adds it,
      and it alone, to the lost ones, and from the fourth write on nothing is lost. */
  lemma RequeueWindow(d: Disk, k: nat, i: nat, lost: set<Id>)
    requires 0 < k <= d.values.next && k in d.values.tickets
    requires ValuesSafe(d.values) && SoundAbove(d, k - 1, lost)
    requires d.values.tickets[k].id in d.values.records && !Legacy(d.names, d.values.tickets[k].id)
    requires d.values.records[d.values.tickets[k].id].ticket == k && d.values.tickets[k].id !in lost
    requires i < 5
    ensures SoundOutside(RequeueSnapshots(d, k)[i], lost) <==> i >= 3
    ensures SoundOutside(RequeueSnapshots(d, k)[i], lost + {d.values.tickets[k].id})
  {
    RequeueSound(d, k, i, lost);
    var id := d.values.tickets[k].id;
    var s := RequeueSnapshots(d, k)[i];
    assert id in s.values.records && !Legacy(s.names, id);
    if i < 3 {
      assert !Points(s.values, id, s.values.cursor);
    }
  }

  // ---------- Pressure hysteresis ----------

  const RETIRE_START_USED_PERCENT := 90
  const RETIRE_STOP_USED_PERCENT := 85

  datatype Sample = Sample(used: nat, total: nat)

  function NextPressure(active: bool, s: Sample): bool {
    if active then !(s.used * 100 <= s.total * RETIRE_STOP_USED_PERCENT)
    else s.used * 100 >= s.total * RETIRE_START_USED_PERCENT
  }

  function PressureAfter(samples: seq<Sample>): bool {
    if samples == [] then false
    else NextPressure(PressureAfter(samples[..|samples| - 1]), samples[|samples| - 1])
  }

  predicate High(s: Sample) {
    s.used * 100 >= s.total * 90
  }

  predicate Low(s: Sample) {
    s.used * 100 <= s.total * 85
  }

  /** Some sample reached 90% and every later one stayed above 85%. */
  ghost predicate HighSinceLow(samples: seq<Sample>) {
    exists i :: 0 <= i < |samples| && High(samples[i]) && forall j :: i < j < |samples| ==> !Low(samples[j])
  }

  /** Over any run of samples, pressure is active exactly when the latest sample outside the open
      85-90% band was at or above 90%. */
  lemma {:induction false} HysteresisRemembersLastExtreme(samples: seq<Sample>)
    requires forall s :: s in samples ==> s.total > 0
    ensures PressureAfter(samples) <==> HighSinceLow(samples)
  {
    if samples != [] {
      var n := |samples| - 1;
      var earlier := samples[..n];
      HysteresisRemembersLastExtreme(earlier);
      assert samples[n].total > 0;
      if HighSinceLow(earlier) && !Low(samples[n]) {
        var i :| 0 <= i < n && High(earlier[i]) && forall j :: i < j < n ==> !Low(earlier[j]);
        assert High(samples[i]);
        forall j | i < j < |samples| ensures !Low(samples[j]) {
          if j < n {
            assert !Low(earlier[j]);
          }
        }
      }
      if HighSinceLow(samples) {
        var i :| 0 <= i < |samples| && High(samples[i]) && forall j :: i < j < |samples| ==> !Low(samples[j]);
        if i < n {
          assert High(earlier[i]);
          forall j | i < j < n ensures !Low(earlier[j]) {
            assert !Low(samples[j]);
          }
          assert HighSinceLow(earlier);
        }
      }
    }
  }
}
