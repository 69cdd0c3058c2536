/** The operations that publish, retire, collect and evict hot states.  Each field write below is
    one atomic replacement, creation, rename or removal on disk; `history` keeps every disk there
    has been, so that a claim about all of `history` is a claim about every crash point. */
module HotNamespace {
  import opened DirectoryDeletion
  import opened HotDisk
  import opened Options

  const RECONCILE_TICKETS_PER_PASS: nat := 32
  const VALUE_TICKETS_PER_PASS: nat := 32
  const MAX_DELETE_ENTRIES: nat := 2048
  const PUBLICATION_ATTEMPTS: nat := 32
  const MAX_CREATING_ENTRIES: nat := 2
  const MANIFEST_STAGING := ".producer-manifest.json.creating-"

  datatype Publication = Reused | Created | Refused

  datatype Deletion = Complete | Incomplete | Conflict

  datatype Collection =
    | CreatingRecovery | CreatingRecoveryDeferred | RetiredRecovery | RetiredRecoveryDeferred
    | RetiredUnreachable | ScanDeferred | NothingEligible | Raised

  datatype Eviction =
    | OrdinaryFreeSpace | PressureRelieved | RetiredLowValue(id: Id) | RecoveryDeferred(id: Id)
    | PressureScanDeferred | NoEligibleState | CapacityUnavailable

  /** Whether a manifest's generation objects still exist as recorded; `Unknown` on an I/O error. */
  datatype Reachability = Reachable | Unreachable | Unknown

  /** What one look at the generations found; an identity without an entry could not be read. */
  type Look = map<Id, Reachability>

  function Seen(look: Look, id: Id): Reachability {
    if id in look then look[id] else Unknown
  }

  // ---------- Pure effects ----------

  function Enqueued(n: Names, t: Ticket): Names {
    n.(next := n.next + 1, tickets := n.tickets[n.next + 1 := t])
  }

  lemma EnqueueKeeps(n: Names, t: Ticket, above: nat)
    requires Numbered(n) && above <= n.next
    ensures Covered(n, above) ==> Covered(n.(next := n.next + 1), above) && Covered(Enqueued(n, t), above)
    ensures Ticketed(Enqueued(n, t), above, t) && Ticketed(Enqueued(n, t), n.next, t)
    ensures Numbered(Enqueued(n, t))
  {
    TicketAppears(Enqueued(n, t), above, n.next + 1);
    TicketAppears(Enqueued(n, t), n.next, n.next + 1);
    if Covered(n, above) {
      KeepsCovered(n, n.(next := n.next + 1), above);
      KeepsCovered(n.(next := n.next + 1), Enqueued(n, t), above);
    }
  }

  /** The value metadata of a state: its record and the ticket that record names. */
  function WithoutMetadata(v: Values, id: Id): Values {
    if id in v.records then v.(tickets := v.tickets - {v.records[id].ticket}, records := v.records - {id}) else v
  }

  predicate Live(v: Values, k: nat) {
    && k in v.tickets && v.tickets[k].id in v.records
    && v.records[v.tickets[k].id].ticket == k
    && v.records[v.tickets[k].id].lastUse == v.tickets[k].lastUse
  }

  /** The state of ticket `k` may be evicted: its record is current, it is not the state in use,
      its manifest carries the lease, is the recorded file and is reachable on both looks, and no
      retired directory has its name. */
  predicate Eligible(d: Disk, k: nat, current: Id, first: Look, second: Look) {
    && Live(d.values, k)
    && var id := d.values.tickets[k].id;
       && id != current && id in d.names.states && Lease(d.names.states[id])
       && Seen(first, id) == Reachable && Seen(second, id) == Reachable
       && d.values.records[id].file == d.names.states[id].document.file
       && id !in d.names.retired
  }

  /** Tickets the scan has not reached are as they were, and so are the records they are live for. */
  ghost predicate Untouched(v0: Values, v: Values, above: nat, limit: nat) {
    forall k :: above < k <= limit ==>
                  && (Live(v, k) <==> Live(v0, k))
                  && (Live(v0, k) ==> v.tickets[k] == v0.tickets[k]
                                      && v.records[v.tickets[k].id] == v0.records[v0.tickets[k].id])
  }

  predicate DirectoryMatches(n: Names, id: Id) {
    id in n.retired && id in n.records ==> n.records[id] == n.retired[id].inode
  }

  /** A retired directory that is not the one its record names, and a ticket for it ahead of the cursor. */
  datatype Watch = Nothing | Stale(id: Id, number: nat)

  predicate Watched(w: Watch, n: Names) {
    w.Stale? ==>
      && !DirectoryMatches(n, w.id) && n.cursor < w.number <= n.next
      && w.number in n.tickets && n.tickets[w.number] == RetiredTicket(w.id)
  }

  /** The stage name of attempt `a` is free. */
  predicate FreeStage(n: Names, id: Id, nonce: nat, a: nat) {
    a < PUBLICATION_ATTEMPTS && StageName(id, nonce + a) !in n.stages
  }

  /** As `EvictedCleanly`, from the retired directory on. */
  ghost predicate DeletedCleanly(before: Names, after: Names, history: seq<Disk>, from: nat, id: Id)
    requires id in before.retired
  {
    Clean(before.retired[id].entries) && Work(before.retired[id].entries, true) < MAX_DELETE_ENTRIES
    && id !in before.records ==>
      && after == before.(retired := before.retired - {id})
      && exists k :: from <= k < |history|
                     && history[k].names == after.(records := after.records[id := before.retired[id].inode])
  }

  lemma DeletedIsEvicted(before: Names, m: Names, after: Names, history: seq<Disk>, from: nat, later: nat, id: Id)
    requires id in before.states && id !in before.retired && from <= later
    requires m == EvictedNames(before, id).(retired := before.retired[id := before.states[id]])
    requires DeletedCleanly(m, after, history, later, id)
    ensures EvictedCleanly(before, after, history, from, id)
  {
    if CleanlyEvictable(before, id) {
      assert before.retired[id := before.states[id]] - {id} == before.retired;
    }
  }

  ghost predicate SomeStageFree(n: Names, id: Id, nonce: nat) {
    exists a :: 0 <= a && FreeStage(n, id, nonce, a)
  }

  /** The namespace after a publication that found its first stage name free. */
  function PublishedNames(n: Names, id: Id, nonce: nat, home: Home): Names {
    Enqueued(Enqueued(n, CreatingTicket(StageName(id, nonce))), StateTicket(id)).(states := n.states[id := home])
  }

  /** A state that one eviction removes altogether. */
  ghost predicate CleanlyEvictable(n: Names, id: Id) {
    && id in n.states && id !in n.retired && id !in n.records
    && Clean(n.states[id].entries) && Work(n.states[id].entries, true) < MAX_DELETE_ENTRIES
  }

  function EvictedNames(n: Names, id: Id): Names {
    Enqueued(n, RetiredTicket(id)).(states := n.states - {id})
  }

  /** A cleanly evictable state is gone, and one crash point on the way had removed its directory and
      not yet its record. */
  ghost predicate EvictedCleanly(before: Names, after: Names, history: seq<Disk>, from: nat, id: Id) {
    CleanlyEvictable(before, id) ==>
      && after == EvictedNames(before, id)
      && exists k :: from <= k < |history|
                     && history[k].names == after.(records := after.records[id := before.states[id].inode])
  }

  /** The next ticket is for a retired directory that is not the one its record names. */
  predicate MeetsMismatch(n: Names) {
    Mismatched(n, n.cursor + 1)
  }

  predicate Mismatched(n: Names, k: nat) {
    k in n.tickets && n.tickets[k].RetiredTicket? && !DirectoryMatches(n, n.tickets[k].id)
  }

  predicate StateKept(n: Names, m: Names, id: Id) {
    id in n.states ==> id in m.states && m.states[id] == n.states[id]
  }

  ghost predicate MismatchesKept(n: Names, m: Names) {
    forall id :: !DirectoryMatches(n, id) ==> !DirectoryMatches(m, id)
  }

  /** The collector only drops this ticket: nothing it names is there. */
  predicate Harmless(n: Names, k: nat) {
    k in n.tickets ==> n.tickets[k].CreatingTicket? && n.tickets[k].stage !in n.stages
  }

  /** Ticket `k` has the collector retire a state whose retired name still has another directory's record. */
  predicate RetiresOntoRecord(n: Names, k: nat, id: Id, current: Id, first: Look, second: Look) {
    && k in n.tickets && n.tickets[k] == StateTicket(id)
    && id != current && id in n.states && Lease(n.states[id]) && id !in n.retired
    && Seen(first, id) == Unreachable && Seen(second, id) == Unreachable
    && id in n.records && n.records[id] != n.states[id].inode
  }

  /** As above, for a ticket the next pass reaches over harmless ones. */
  ghost predicate ReachesRecord(n: Names, k: nat, id: Id, current: Id, first: Look, second: Look) {
    && n.cursor < k <= n.cursor + RECONCILE_TICKETS_PER_PASS && k <= n.next
    && RetiresOntoRecord(n, k, id, current, first, second)
    && forall j :: n.cursor < j < k ==> Harmless(n, j)
  }

  /** Where a pass that started on `n` and has passed `cursor` stands with ticket `k`. */
  ghost predicate Reaching(n: Names, m: Names, cursor: nat, k: nat, id: Id) {
    if cursor < k then
      && m == n.(tickets := m.tickets)
      && forall j :: cursor < j ==>
          (j in m.tickets <==> j in n.tickets) && (j in n.tickets ==> m.tickets[j] == n.tickets[j])
    else !DirectoryMatches(m, id)
  }

  ghost predicate AllReaching(n: Names, m: Names, cursor: nat, current: Id, first: Look, second: Look) {
    forall k, id :: ReachesRecord(n, k, id, current, first, second) ==> Reaching(n, m, cursor, k, id)
  }

  ghost predicate AllReached(n: Names, m: Names, current: Id, first: Look, second: Look) {
    forall k, id :: ReachesRecord(n, k, id, current, first, second) ==> !DirectoryMatches(m, id)
  }

  /** What examining ticket `c` does to the retired names. */
  ghost predicate Examines(before: Names, after: Names, c: nat, current: Id, first: Look, second: Look) {
    && MismatchesKept(before, after) && (Harmless(before, c) ==> after == Unticketed(before, c))
    && forall id :: RetiresOntoRecord(before, c, id, current, first, second) ==> !DirectoryMatches(after, id)
  }

  lemma ExaminesOther(before: Names, after: Names, k: nat, current: Id, first: Look, second: Look)
    requires k in before.tickets && !before.tickets[k].StateTicket? && MismatchesKept(before, after)
    requires Harmless(before, k) ==> after == Unticketed(before, k)
    ensures Examines(before, after, k, current, first, second)
  {
  }

  /** Where a pass that started on `d`, with `before` behind it, stands after `cursor`. */
  ghost predicate PassStands(d: Disk, before: seq<Disk>, e: Disk, history: seq<Disk>, cursor: nat,
                             current: Id, first: Look, second: Look, lost: set<Id>)
  {
    && before <= history && AllReaching(d.names, e.names, cursor, current, first, second)
    && StateKept(d.names, e.names, current) && LosesNone(d, e, history, |before|, lost)
    && (if cursor == d.names.cursor then e == d && history == before else !MeetsMismatch(d.names))
  }

  /** What a pass that started on `d` has come to. */
  ghost predicate PassEnds(d: Disk, before: seq<Disk>, e: Disk, history: seq<Disk>, raised: bool,
                           current: Id, first: Look, second: Look, lost: set<Id>)
  {
    && before <= history && AllReached(d.names, e.names, current, first, second)
    && StateKept(d.names, e.names, current) && LosesNone(d, e, history, |before|, lost)
    && (MeetsMismatch(d.names) ==> raised && e == d && history == before)
  }

  lemma PassBegins(d: Disk, before: seq<Disk>, current: Id, first: Look, second: Look, lost: set<Id>)
    ensures PassStands(d, before, d, before, d.names.cursor, current, first, second, lost)
  {
  }

  lemma ReachingAdvances(n: Names, before: Names, after: Names, c: nat, current: Id, first: Look, second: Look)
    requires n.cursor < c && Examines(before, after, c, current, first, second)
    requires AllReaching(n, before, c - 1, current, first, second)
    ensures AllReaching(n, after, c, current, first, second)
    ensures !Harmless(before, c) ==> AllReached(n, after, current, first, second)
  {
    forall k, id | ReachesRecord(n, k, id, current, first, second)
      ensures Reaching(n, after, c, k, id) && (!Harmless(before, c) ==> !DirectoryMatches(after, id))
    {
      assert Reaching(n, before, c - 1, k, id);
      if c < k {
        assert Harmless(n, c) && Harmless(before, c);
      } else if c == k {
        assert RetiresOntoRecord(before, c, id, current, first, second);
      }
    }
  }

  lemma PassFinishes(d: Disk, before: seq<Disk>, e: Disk, history: seq<Disk>, cursor: nat,
                     current: Id, first: Look, second: Look, lost: set<Id>)
    requires PassStands(d, before, e, history, cursor, current, first, second, lost) && Numbered(d.names)
    requires cursor == d.names.cursor + RECONCILE_TICKETS_PER_PASS || cursor == d.names.next
    ensures PassEnds(d, before, e, history, false, current, first, second, lost)
  {
    forall k, id | ReachesRecord(d.names, k, id, current, first, second) ensures !DirectoryMatches(e.names, id) {
      assert Reaching(d.names, e.names, cursor, k, id);
    }
  }

  lemma PreservedKeepsManifest(es: seq<Entry>)
    ensures (exists e :: e in es && e.name == Manifest) <==>
              (exists e :: e in Preserved(es, true) && e.name == Manifest)
  {
  }

  function WithEntries(n: Names, id: Id, es: seq<Entry>): Names
    requires id in n.retired
  {
    n.(retired := n.retired[id := n.retired[id].(entries := es)])
  }

  lemma LastEntriesWin(n: Names, id: Id, a: seq<Entry>, b: seq<Entry>)
    requires id in n.retired
    ensures WithEntries(WithEntries(n, id, a), id, b) == WithEntries(n, id, b)
  {
  }

  /** Removing the directory and its record leaves no trace of what happened to either. */
  lemma DirectoryAndRecordGone(n: Names, id: Id, inode: Inode, es: seq<Entry>)
    requires id in n.retired
    ensures var recorded := WithEntries(n.(records := n.records[id := inode]), id, es);
            var removed := recorded.(retired := recorded.retired - {id});
            && removed == n.(retired := n.retired - {id}, records := n.records[id := inode])
            && removed.(records := removed.records - {id})
                == n.(retired := n.retired - {id}, records := n.records - {id})
            && (n.records - {id})[id := inode] == n.records[id := inode]
  {
  }

  lemma ManifestKept(h: Home, es: seq<Entry>)
    requires Preserved(es, true) == Preserved(h.entries, true)
    ensures HasManifest(h.(entries := es)) <==> HasManifest(h)
  {
    PreservedKeepsManifest(es);
    PreservedKeepsManifest(h.entries);
  }

  lemma EntriesSafe(n: Names, id: Id, es: seq<Entry>)
    requires NamesSafe(n) && id in n.retired && HasManifest(n.retired[id].(entries := es))
    ensures NamesSafe(WithEntries(n, id, es))
  {
    var m := WithEntries(n, id, es);
    forall x | x in m.retired && !HasManifest(m.retired[x])
      ensures m.retired[x].entries == [] && x in m.records && m.records[x] == m.retired[x].inode
    {
      assert x != id && m.retired[x] == n.retired[x];
    }
    OwesLess(n, m);
  }

  lemma DeletionStepSafe(n: Names, id: Id, es: seq<Entry>)
    requires NamesSafe(n) && id in n.retired && HasManifest(n.retired[id])
    requires Preserved(es, true) == Preserved(n.retired[id].entries, true)
    ensures NamesSafe(WithEntries(n, id, es)) && HasManifest(WithEntries(n, id, es).retired[id])
  {
    ManifestKept(n.retired[id], es);
    EntriesSafe(n, id, es);
  }

  lemma OwesLess(n: Names, m: Names)
    requires NamesSafe(n) && RetirementOrdered(m)
    requires m.next == n.next && m.cursor == n.cursor && m.tickets == n.tickets
    requires forall t :: Owed(m, t) ==> Owed(n, t) || Ticketed(n, n.cursor, t)
    ensures NamesSafe(m)
  {
  }

  lemma ContentsSafe(n: Names, id: Id, contents: seq<seq<Entry>>)
    requires NamesSafe(n) && id in n.retired && HasManifest(n.retired[id])
    requires UnitByUnit(contents, true) && contents[0] == n.retired[id].entries
    ensures forall k :: 0 <= k < |contents| ==>
              NamesSafe(WithEntries(n, id, contents[k])) && HasManifest(n.retired[id].(entries := contents[k]))
    ensures HasManifest(n.retired[id].(entries := contents[|contents| - 1]))
  {
    forall k | 0 <= k < |contents|
      ensures NamesSafe(WithEntries(n, id, contents[k])) && HasManifest(n.retired[id].(entries := contents[k]))
    {
      assert Keeps(contents[0], contents[k], k, true);
      DeletionStepSafe(n, id, contents[k]);
    }
  }

  lemma StageMade(n: Names, stage: StageName, home: Home)
    requires NamesSafe(n) && Ticketed(n, n.cursor, CreatingTicket(stage))
    ensures NamesSafe(n.(stages := n.stages[stage := home]))
  {
    OwesLess(n, n.(stages := n.stages[stage := home]));
  }

  lemma StageGone(stages: map<StageName, Home>, stage: StageName, home: Home)
    requires stage !in stages
    ensures stages[stage := home] - {stage} == stages
  {
  }

  lemma StagePublished(n: Names, stage: StageName, id: Id)
    requires NamesSafe(n) && stage in n.stages && Ticketed(n, n.cursor, StateTicket(id))
    ensures NamesSafe(n.(stages := n.stages - {stage}, states := n.states[id := n.stages[stage]]))
  {
    OwesLess(n, n.(stages := n.stages - {stage}, states := n.states[id := n.stages[stage]]));
  }

  lemma StateRenamed(n: Names, id: Id)
    requires NamesSafe(n) && id in n.states && HasManifest(n.states[id])
    requires Ticketed(n, n.cursor, RetiredTicket(id))
    ensures NamesSafe(n.(states := n.states - {id}, retired := n.retired[id := n.states[id]]))
  {
    OwesLess(n, n.(states := n.states - {id}, retired := n.retired[id := n.states[id]]));
  }

  lemma RecordWritten(n: Names, id: Id)
    requires NamesSafe(n) && id in n.retired && id !in n.records
    ensures NamesSafe(n.(records := n.records[id := n.retired[id].inode]))
  {
    OwesLess(n, n.(records := n.records[id := n.retired[id].inode]));
  }

  lemma RecordRemoved(n: Names, id: Id)
    requires NamesSafe(n) && id !in n.retired
    ensures NamesSafe(n.(records := n.records - {id}))
  {
    OwesLess(n, n.(records := n.records - {id}));
  }

  lemma DirectoryRemoved(n: Names, id: Id)
    requires NamesSafe(n)
    ensures NamesSafe(n.(retired := n.retired - {id}))
  {
    OwesLess(n, n.(retired := n.retired - {id}));
  }

  lemma ManifestRemoved(n: Names, id: Id)
    requires NamesSafe(n) && id in n.retired && id in n.records && n.records[id] == n.retired[id].inode
    ensures NamesSafe(WithEntries(n, id, []))
  {
    OwesLess(n, WithEntries(n, id, []));
  }

  /** The disks added since `from` differ from `d` neither in value metadata nor in states. */
  ghost predicate StatesAndValuesKept(history: seq<Disk>, from: nat, d: Disk) {
    forall k :: from <= k < |history| ==> history[k].values == d.values && history[k].names.states == d.names.states
  }

  ghost predicate SoundFrom(history: seq<Disk>, from: nat, lost: set<Id>) {
    forall k :: from <= k < |history| ==> SoundOutside(history[k], lost)
  }

  /** No record outside `lost` is lost on any disk written since. */
  ghost predicate StaysSound(d: Disk, history: seq<Disk>, from: nat, lost: set<Id>) {
    SoundOutside(d, lost) ==> SoundFrom(history, from, lost)
  }

  lemma StaysSoundJoined(d: Disk, m: Disk, before: seq<Disk>, after: seq<Disk>, from: nat, lost: set<Id>)
    requires before <= after && StaysSound(d, before, from, lost) && StaysSound(m, after, |before|, lost)
    requires SoundOutside(d, lost) ==> SoundOutside(m, lost)
    ensures StaysSound(d, after, from, lost)
  {
    if SoundOutside(d, lost) {
      forall k | from <= k < |after| ensures SoundOutside(after[k], lost) {
        assert k < |before| ==> after[k] == before[k];
      }
    }
  }

  lemma KeptSound(history: seq<Disk>, from: nat, d: Disk, lost: set<Id>)
    requires StatesAndValuesKept(history, from, d)
    ensures StaysSound(d, history, from, lost)
  {
  }

  lemma {:induction false} NothingLeft(es: seq<Entry>)
    ensures Unkept(Preserved(es, true), true) == []
  {
    if es != [] {
      NothingLeft(es[1..]);
      var rest := Preserved(es[1..], true);
      if Kept(es[0], true) {
        assert ([es[0]] + rest)[1..] == rest;
      } else {
        assert [] + rest == rest;
      }
    }
  }

  /** Each disk added since `from` has lost at most one record beside those of `lost`. */
  ghost predicate OneMoreSince(history: seq<Disk>, from: nat, lost: set<Id>) {
    forall k :: from <= k < |history| ==> OneMore(history[k], lost)
  }

  // ---------- Effects on value soundness ----------

  lemma MetadataGone(d: Disk, id: Id, above: nat, lost: set<Id>)
    requires ValuesSafe(d.values) && SoundAbove(d, above, lost)
    ensures SoundAbove(d.(values := WithoutMetadata(d.values, id)), above, lost)
    ensures ValuesSafe(WithoutMetadata(d.values, id))
  {
  }

  lemma TicketGone(d: Disk, id: Id, k: nat, lost: set<Id>)
    requires ValuesSafe(d.values) && SoundOutside(d, lost)
    requires k in d.values.tickets ==> d.values.tickets[k].id == id
    ensures SoundOutside(d.(values := d.values.(tickets := d.values.tickets - {k})), lost + {id})
  {
  }

  lemma MetadataRemovalSafe(d: Disk, id: Id, lost: set<Id>)
    requires ValuesSafe(d.values) && id in d.values.records
    ensures var v := d.values.(tickets := d.values.tickets - {d.values.records[id].ticket});
            && ValuesSafe(v) && ValuesSafe(WithoutMetadata(d.values, id))
            && (SoundOutside(d, lost) ==> OneMore(d.(values := v), lost))
    ensures var e := d.(values := WithoutMetadata(d.values, id));
            SoundOutside(d, lost) ==> SoundOutside(e, lost) && OneMore(e, lost)
  {
    if SoundOutside(d, lost) {
      MetadataGone(d, id, d.values.cursor, lost);
      TicketGone(d, id, d.values.records[id].ticket, lost);
      SoundHasNoOrphan(d.(values := WithoutMetadata(d.values, id)), lost);
    }
  }

  lemma SoundHasNoOrphan(d: Disk, lost: set<Id>)
    requires SoundOutside(d, lost)
    ensures OneMore(d, lost)
  {
    assert SoundOutside(d, lost + {0});
  }

  lemma SoundLower(d: Disk, above: nat, lost: set<Id>)
    requires SoundAbove(d, above, lost) && d.values.cursor <= above
    ensures SoundOutside(d, lost)
  {
  }

  /** The record a successful use writes. */
  function UsedRecord(d: Disk, id: Id): ValueRecord
    requires id in d.names.states
  {
    var file := d.names.states[id].document.file;
    var count := if id in d.values.records && d.values.records[id].file == file
                 then d.values.records[id].useCount + 1 else 1;
    ValueRecord(file, d.values.useSequence + 1, count, d.values.next + 1)
  }

  /** What is on disk after each write of a successful use: numbers advanced, ticket, record, and
      the former ticket removed when there was one. */
  function UseSnapshots(d: Disk, id: Id): (s: seq<Disk>)
    requires id in d.names.states
    ensures |s| == if id in d.values.records then 4 else 3
  {
    var r := UsedRecord(d, id);
    var v1 := d.values.(useSequence := r.lastUse, next := r.ticket);
    var v2 := v1.(tickets := v1.tickets[r.ticket := ValueTicket(id, r.lastUse)]);
    var v3 := v2.(records := v2.records[id := r]);
    [d.(values := v1), d.(values := v2), d.(values := v3)]
    + if id in d.values.records
      then [d.(values := v3.(tickets := v3.tickets - {d.values.records[id].ticket}))] else []
  }

  lemma UseSnapshotsSafe(d: Disk, id: Id, k: nat)
    requires ValuesSafe(d.values) && id in d.names.states && k < |UseSnapshots(d, id)|
    ensures ValuesSafe(UseSnapshots(d, id)[k].values)
  {
  }

  /** No crash point of a successful use loses a record, and the use repairs its own. */
  lemma UseKeepsSound(d: Disk, id: Id, k: nat, lost: set<Id>)
    requires ValuesSafe(d.values) && id in d.names.states && k < |UseSnapshots(d, id)|
    ensures SoundOutside(d, lost) ==> SoundOutside(UseSnapshots(d, id)[k], lost)
    ensures SoundOutside(d, lost) && k >= 2 ==> SoundOutside(UseSnapshots(d, id)[k], lost - {id})
  {
  }

  /** The scan may pass a ticket that is not live: no record points at it. */
  lemma DeadTicketPassed(d: Disk, k: nat, lost: set<Id>)
    requires k > 0 && SoundAbove(d, k - 1, lost) && !Live(d.values, k)
    ensures SoundAbove(d.(values := d.values.(tickets := d.values.tickets - {k})), k, lost) && SoundAbove(d, k, lost)
  {
  }

  lemma LiveMetadataPassed(d: Disk, k: nat, lost: set<Id>)
    requires k > 0 && ValuesSafe(d.values) && SoundAbove(d, k - 1, lost) && Live(d.values, k)
    ensures SoundAbove(d.(values := WithoutMetadata(d.values, d.values.tickets[k].id)), k, lost)
  {
  }

  lemma LegacyTicketPassed(d: Disk, k: nat, lost: set<Id>)
    requires k > 0 && SoundAbove(d, k - 1, lost) && k in d.values.tickets && Legacy(d.names, d.values.tickets[k].id)
    ensures SoundAbove(d.(values := d.values.(tickets := d.values.tickets - {k})), k, lost)
  {
  }

  lemma TicketDropped(d: Disk, k: nat, lost: set<Id>)
    requires k > 0 && ValuesSafe(d.values)
    requires Live(d.values, k) ==> Legacy(d.names, d.values.tickets[k].id)
    ensures var e := d.(values := d.values.(tickets := d.values.tickets - {k}));
            && ValuesSafe(e.values)
            && (forall limit :: Untouched(d.values, e.values, k, limit))
            && (SoundAbove(d, k - 1, lost) && d.values.cursor < k ==> SoundAbove(e, k, lost) && OneMore(e, lost))
  {
    var e := d.(values := d.values.(tickets := d.values.tickets - {k}));
    if SoundAbove(d, k - 1, lost) && d.values.cursor < k {
      if Live(d.values, k) {
        LegacyTicketPassed(d, k, lost);
      } else {
        DeadTicketPassed(d, k, lost);
      }
      SoundLower(e, k, lost);
      SoundHasNoOrphan(e, lost);
    }
  }

  lemma StateGoneKeepsSound(d: Disk, e: Disk, id: Id, above: nat, lost: set<Id>)
    requires SoundAbove(d, above, lost) && !Legacy(d.names, id) && e.values == d.values
    requires e.names.states == d.names.states - {id}
    ensures SoundAbove(e, above, lost)
  {
  }

  lemma SameStatesSound(d: Disk, e: Disk, above: nat, lost: set<Id>)
    requires SoundAbove(d, above, lost) && e.values == d.values && e.names.states == d.names.states
    ensures SoundAbove(e, above, lost)
  {
  }

  lemma RetiredSound(d: Disk, e: Disk, id: Id, above: nat, lost: set<Id>)
    requires SoundAbove(d, above, lost) && !Legacy(d.names, id) && e.values == d.values && d.values.cursor <= above
    requires e.names.states == d.names.states || e.names.states == d.names.states - {id}
    ensures SoundAbove(e, above, lost) && OneMore(e, lost)
  {
    if e.names.states == d.names.states {
      SameStatesSound(d, e, above, lost);
    } else {
      StateGoneKeepsSound(d, e, id, above, lost);
    }
    SoundLower(e, above, lost);
    SoundHasNoOrphan(e, lost);
  }

  /** From `d` to `e` no value record was lost, and at no disk since `from` more than one beside. */
  ghost predicate LosesNone(d: Disk, e: Disk, history: seq<Disk>, from: nat, lost: set<Id>) {
    SoundOutside(d, lost) ==> SoundOutside(e, lost) && OneMoreSince(history, from, lost)
  }

  /** As `LosesNone`, for records whose tickets lie above `a` before and above `b` after. */
  ghost predicate PassesSoundly(d: Disk, e: Disk, history: seq<Disk>, from: nat, a: nat, b: nat, lost: set<Id>) {
    SoundAbove(d, a, lost) ==> SoundAbove(e, b, lost) && OneMoreSince(history, from, lost)
  }

  lemma PassesJoined(d: Disk, m: Disk, e: Disk, before: seq<Disk>, after: seq<Disk>, from: nat, a: nat, b: nat, c: nat,
                     lost: set<Id>)
    requires before <= after && PassesSoundly(d, m, before, from, a, b, lost)
    requires PassesSoundly(m, e, after, |before|, b, c, lost)
    ensures PassesSoundly(d, e, after, from, a, c, lost)
  {
    if SoundAbove(d, a, lost) {
      forall k | from <= k < |after| ensures OneMore(after[k], lost) {
        assert k < |before| ==> after[k] == before[k];
      }
    }
  }

  lemma LosesNoneInTwo(d: Disk, m: Disk, e: Disk, before: seq<Disk>, lost: set<Id>)
    requires SoundOutside(d, lost) ==> OneMore(m, lost) && SoundOutside(e, lost) && OneMore(e, lost)
    ensures LosesNone(d, e, before + [m] + [e], |before|, lost)
  {
  }

  lemma LosesNoneJoined(d: Disk, m: Disk, e: Disk, before: seq<Disk>, after: seq<Disk>, from: nat, lost: set<Id>)
    requires before <= after && LosesNone(d, m, before, from, lost) && LosesNone(m, e, after, |before|, lost)
    ensures LosesNone(d, e, after, from, lost)
  {
    if SoundOutside(d, lost) {
      forall k | from <= k < |after| ensures OneMore(after[k], lost) {
        assert k < |before| ==> after[k] == before[k];
      }
    }
  }

  lemma NoOrphanSince(history: seq<Disk>, from: nat, d: Disk, lost: set<Id>)
    requires StatesAndValuesKept(history, from, d) && SoundOutside(d, lost)
    ensures OneMoreSince(history, from, lost)
  {
    KeptSound(history, from, d, lost);
    forall k | from <= k < |history| ensures OneMore(history[k], lost) {
      SoundHasNoOrphan(history[k], lost);
    }
  }

  /** No ticket in `(cursor, upto]` is eligible. */
  ghost predicate NoneEligible(d: Disk, upto: nat, current: Id, first: Look, second: Look) {
    forall k :: d.values.cursor < k <= upto ==> !Eligible(d, k, current, first, second)
  }

  /** The last of the `processed` tickets after the cursor is `id`'s and the only eligible one. */
  ghost predicate EvictsFirst(d: Disk, processed: nat, id: Id, current: Id,
                              first: Look, second: Look)
  {
    && processed > 0
    && var k := d.values.cursor + processed;
       && Eligible(d, k, current, first, second) && id == d.values.tickets[k].id && id != current
       && NoneEligible(d, k - 1, current, first, second)
  }

  /** What a scan came to does not depend on the pressure flag. */
  lemma PressureIrrelevant(d: Disk, m: Disk, e: Disk, evicted: Option<Id>, processed: nat, current: Id,
                           first: Look, second: Look)
    requires m == d.(values := d.values.(pressure := m.values.pressure))
    requires ScanEnds(m, e, evicted, processed, current, first, second)
    ensures match evicted
            case Some(id) => EvictsFirst(d, processed, id, current, first, second)
            case None => NoneEligible(d, d.values.cursor + processed, current, first, second)
  {
    forall k ensures Eligible(m, k, current, first, second) <==> Eligible(d, k, current, first, second) {
    }
  }

  /** A ticket the scan has not reached is as eligible as it was when the scan started. */
  lemma EligibilityKept(d: Disk, e: Disk, k: nat, limit: nat, current: Id,
                        first: Look, second: Look)
    requires 0 < k <= limit && Untouched(d.values, e.values, k - 1, limit)
    requires e.names.states == d.names.states && e.names.retired == d.names.retired
    ensures Eligible(e, k, current, first, second) <==> Eligible(d, k, current, first, second)
    ensures Eligible(d, k, current, first, second) ==> e.values.tickets[k].id == d.values.tickets[k].id
  {
    assert Live(e.values, k) <==> Live(d.values, k);
  }

  /** Where a scan that started on `d` stands: nothing up to `cursor` was eligible, nothing after it
      has changed, and no record it leaves behind has a ticket it passed. */
  ghost predicate Scanned(d: Disk, e: Disk, cursor: nat, limit: nat, current: Id,
                          first: Look, second: Look, lost: set<Id>)
  {
    && e.values.pressure == d.values.pressure
    && e.names.states == d.names.states && e.names.retired == d.names.retired
    && Untouched(d.values, e.values, cursor, limit)
    && NoneEligible(d, cursor, current, first, second)
    && (SoundOutside(d, lost) ==> SoundAbove(e, cursor, lost))
  }

  /** What a scan from `d` to `e` came to: the first eligible state evicted, or none eligible in
      the whole window. */
  ghost predicate ScanEnds(d: Disk, e: Disk, evicted: Option<Id>, processed: nat, current: Id,
                           first: Look, second: Look)
  {
    && e.values.pressure == d.values.pressure
    && match evicted
       case Some(id) =>
         && EvictsFirst(d, processed, id, current, first, second)
         && e.names.states == d.names.states - {id}
       case None =>
         && NoneEligible(d, d.values.cursor + processed, current, first, second)
         && (processed == VALUE_TICKETS_PER_PASS || d.values.cursor + processed == d.values.next)
         && e.names.states == d.names.states
  }

  /** As `Scanned`, for a scan that started when `from` disks had been written: no more than one record beside
      those lost was lost since, and the record of the current state, met first, moved the cursor first. */
  ghost predicate Scanning(d: Disk, e: Disk, history: seq<Disk>, from: nat, cursor: nat, limit: nat, current: Id,
                           first: Look, second: Look, lost: set<Id>)
  {
    && Scanned(d, e, cursor, limit, current, first, second, lost)
    && (SoundOutside(d, lost) ==> OneMoreSince(history, from, lost))
    && if cursor == d.values.cursor then e == d && |history| == from
       else CursorFirst(d, d.values.cursor + 1, current, history, from)
  }

  lemma ScanFound(d: Disk, e: Disk, history: seq<Disk>, from: nat, cursor: nat, processed: nat, current: Id,
                  first: Look, second: Look, lost: set<Id>)
    requires Scanning(d, e, history, from, cursor, d.values.next, current, first, second, lost)
    requires cursor == d.values.cursor + processed
    requires processed == VALUE_TICKETS_PER_PASS || cursor == d.values.next
    ensures ScanEnds(d, e, None, processed, current, first, second)
    ensures PassesSoundly(d, e, history, from, d.values.cursor, cursor, lost)
    ensures CursorFirst(d, d.values.cursor + 1, current, history, from)
  {
  }

  lemma ScanStarts(d: Disk, limit: nat, current: Id, first: Look, second: Look, lost: set<Id>)
    ensures Scanned(d, d, d.values.cursor, limit, current, first, second, lost)
  {
  }

  lemma ScanAdvances(d: Disk, before: Disk, after: Disk, k: nat, limit: nat, current: Id,
                     first: Look, second: Look, lost: set<Id>)
    requires 0 < k <= limit && Scanned(d, before, k - 1, limit, current, first, second, lost)
    requires Untouched(before.values, after.values, k, limit)
    requires after.values.pressure == before.values.pressure
    ensures Eligible(before, k, current, first, second) <==> Eligible(d, k, current, first, second)
    ensures Eligible(d, k, current, first, second) ==> before.values.tickets[k].id == d.values.tickets[k].id
    ensures !Eligible(d, k, current, first, second) && after.names.states == before.names.states
            && after.names.retired == before.names.retired
            && (SoundAbove(before, k - 1, lost) ==> SoundAbove(after, k, lost)) ==>
              Scanned(d, after, k, limit, current, first, second, lost)
  {
    EligibilityKept(d, before, k, limit, current, first, second);
  }

  predicate StageFile(e: Entry) {
    e.File? && (e.name == Manifest || e.name == Plain(MANIFEST_STAGING))
  }

  lemma StageRemoved(n: Names, stage: StageName)
    requires NamesSafe(n)
    ensures NamesSafe(n.(stages := n.stages - {stage}))
  {
    OwesLess(n, n.(stages := n.stages - {stage}));
  }

  /** After a requeue the debt of the old ticket is named by one the scan has not reached. */
  lemma RequeuePasses(n: Names, k: nat)
    requires Numbered(n) && k in n.tickets && Covered(n, k - 1)
    ensures Covered(Unticketed(Enqueued(n, n.tickets[k]), k), k)
  {
    var t := n.tickets[k];
    EnqueueKeeps(n, t, k);
    EnqueueKeeps(n, t, k - 1);
    RemovalKeepsCovered(Enqueued(n, t), k, k - 1);
    ScanPasses(Unticketed(Enqueued(n, t), k), k);
  }

  lemma SettledPasses(n: Names, k: nat)
    requires k > 0 && Covered(n, k - 1)
    requires k in n.tickets ==> !Owed(n, n.tickets[k])
    ensures Covered(n, k) && Covered(Unticketed(n, k), k)
  {
    ScanPasses(n, k);
    RemovalKeepsCovered(n, k, k);
  }

  /** What a collector step keeps for the scan: its place in the catalog, and coverage above it. */
  ghost predicate ScanKept(before: Names, after: Names, k: nat) {
    after.cursor == before.cursor && before.next <= after.next && Covered(after, k)
  }

  /** If ticket `k` is that of the current state's record, the first write moved the cursor to `k`. */
  ghost predicate CursorFirst(d: Disk, k: nat, current: Id, history: seq<Disk>, from: nat) {
    k <= d.values.next && Live(d.values, k) && d.values.tickets[k].id == current ==>
      from < |history| && history[from] == d.(values := d.values.(cursor := k))
  }

  /** An eviction pass over `d` scans, and meets the record of the current state first. */
  predicate MovesCurrent(d: Disk, current: Id, sample: Sample) {
    var v := d.values;
    && 0 < sample.total && sample.used <= sample.total && NextPressure(v.pressure, sample)
    && v.cursor < v.next && Live(v, v.cursor + 1) && v.tickets[v.cursor + 1].id == current
  }

  /** The pressure flag, unless it was set, is the first thing written, and then the cursor. */
  ghost predicate CursorMoved(d: Disk, history: seq<Disk>, from: nat) {
    var k := from + PressureWrites(d);
    k < |history| && history[k] == d.(values := d.values.(pressure := true, cursor := d.values.cursor + 1))
  }

  function PressureWrites(d: Disk): nat {
    if d.values.pressure then 0 else 1
  }

  class Namespace {
    var disk: Disk
    var history: seq<Disk>

    /** Any states at all: what is said of the value records outside `lost` is said for each choice of it. */
    ghost var lost: set<Id>

    /** What every disk since entry `since` has been found to show. */
    ghost var watch: Watch
    ghost var since: nat

    /** Every disk there has been is safe, and what is watched shows on each since the watch began. */
    ghost predicate Valid()
      reads this
    {
      && since < |history| && history[|history| - 1] == disk
      && (forall k :: 0 <= k < |history| ==> Safe(history[k]))
      && (forall k :: since <= k < |history| ==> Watched(watch, history[k].names))
    }

    constructor (d: Disk)
      requires Safe(d)
      ensures Valid() && disk == d && history == [d] && since == 0 && watch == Nothing
    {
      disk := d;
      history := [d];
      since := 0;
      watch := Nothing;
    }

    method Write(d: Disk)
      requires Valid() && Safe(d) && Watched(watch, d.names)
      modifies `disk, `history
      ensures Valid() && disk == d && history == old(history) + [d]
    {
      disk := d;
      history := history + [d];
    }

    method WriteAll(ds: seq<Disk>)
      requires Valid() && ds != [] && forall k :: 0 <= k < |ds| ==> Safe(ds[k]) && Watched(watch, ds[k].names)
      modifies `disk, `history
      ensures Valid() && disk == ds[|ds| - 1] && history == old(history) + ds
    {
      disk := ds[|ds| - 1];
      history := history + ds;
    }

    /** A crash: the next operation starts on a disk some earlier write left behind. */
    method Restart(k: nat)
      requires Valid() && since <= k < |history|
      modifies `disk, `history
      ensures Valid() && disk == old(history)[k] && history == old(history) + [disk]
    {
      disk := history[k];
      history := history + [disk];
    }

    method WriteNames(n: Names)
      requires Valid() && NamesSafe(n) && Watched(watch, n)
      modifies `disk, `history
      ensures Valid() && disk == old(disk).(names := n) && history == old(history) + [disk]
    {
      Write(disk.(names := n));
    }

    method WriteValues(v: Values)
      requires Valid() && ValuesSafe(v)
      modifies `disk, `history
      ensures Valid() && disk == old(disk).(values := v) && history == old(history) + [disk]
    {
      Write(disk.(values := v));
    }

    // ---------- Reconcile tickets ----------

    method EnqueueReconcileTicket(t: Ticket) returns (number: nat)
      requires Valid()
      modifies `disk, `history
      ensures Valid() && old(history) <= history
      ensures number == old(disk).names.next + 1
      ensures disk == old(disk).(names := Enqueued(old(disk).names, t))
      ensures forall k :: |old(history)| <= k < |history| ==> history[k].values == old(disk).values
                                                              && history[k].names.states == old(disk).names.states
    {
      EnqueueKeeps(disk.names, t, disk.names.cursor);
      number := disk.names.next + 1;
      WriteNames(disk.names.(next := number));
      WriteNames(disk.names.(tickets := disk.names.tickets[number := t]));
    }

    method RemoveReconcileTicket(number: nat)
      requires Valid() && (watch.Stale? ==> number != watch.number)
      requires number in disk.names.tickets ==>
                 || !Owed(disk.names, disk.names.tickets[number])
                 || Ticketed(disk.names, number, disk.names.tickets[number])
      modifies `disk, `history
      ensures Valid() && old(history) <= history
      ensures disk == old(disk).(names := Unticketed(old(disk).names, number))
      ensures forall k :: |old(history)| <= k < |history| ==> history[k] == disk
    {
      RemovalKeepsCovered(disk.names, number, disk.names.cursor);
      WriteNames(disk.names.(tickets := disk.names.tickets - {number}));
    }

    method RequeueReconcileTicket(number: nat)
      requires Valid() && number in disk.names.tickets && (watch.Stale? ==> number != watch.number)
      modifies `disk, `history
      ensures Valid() && old(history) <= history
      ensures disk
                == old(disk).(names := Unticketed(Enqueued(old(disk).names, old(disk).names.tickets[number]), number))
      ensures forall k :: |old(history)| <= k < |history| ==> history[k].values == old(disk).values
                                                              && history[k].names.states == old(disk).names.states
    {
      var t := disk.names.tickets[number];
      EnqueueKeeps(disk.names, t, number);
      var _ := EnqueueReconcileTicket(t);
      RemoveReconcileTicket(number);
    }

    // ---------- Publication ----------

    /** Reuses a published state of the same generation contract, or creates one under the first stage
        name that is free. */
    method PublishImplicitStateBase(id: Id, inode: Inode, file: nat, contract: nat, nonce: nat)
      returns (result: Publication)
      requires Valid()
      modifies `disk, `history
      ensures Valid() && old(history) <= history
      ensures result == Reused <==> id in old(disk).names.states && HasManifest(old(disk).names.states[id])
                                    && old(disk).names.states[id].document.contract == contract
      ensures result == Created <==>
                id !in old(disk).names.states && SomeStageFree(old(disk).names, id, nonce)
      ensures result == Created ==>
                disk.names.states
                == old(disk).names.states[id := Home(inode, Document(true, file, contract), [File(Manifest)])]
      ensures result != Created ==> disk.names.states == old(disk).names.states
      ensures disk.names.stages == old(disk).names.stages
      ensures disk.names.retired == old(disk).names.retired && disk.names.records == old(disk).names.records
      ensures disk.names.cursor == old(disk).names.cursor
      ensures id !in old(disk).names.states && FreeStage(old(disk).names, id, nonce, 0) ==>
                disk.names == PublishedNames(old(disk).names, id, nonce,
                                             Home(inode, Document(true, file, contract), [File(Manifest)]))
      ensures forall k :: |old(history)| <= k < |history| ==> history[k].values == old(disk).values
      ensures StaysSound(old(disk), history, |old(history)|, lost)
    {
      if id in disk.names.states {
        var found := disk.names.states[id];
        return if HasManifest(found) && found.document.contract == contract then Reused else Refused;
      }
      var made := CreateState(id, Home(inode, Document(true, file, contract), []), nonce);
      return if made then Created else Refused;
    }

    /** Makes the state in a stage directory of its own, if one of the names for it is free. */
    method CreateState(id: Id, home: Home, nonce: nat) returns (made: bool)
      requires Valid() && id !in disk.names.states && home.document.lease && home.entries == []
      modifies `disk, `history
      ensures Valid() && old(history) <= history
      ensures made <==> SomeStageFree(old(disk).names, id, nonce)
      ensures disk.names.states == if made then old(disk).names.states[id := home.(entries := [File(Manifest)])]
                                   else old(disk).names.states
      ensures disk.names.stages == old(disk).names.stages
      ensures disk.names.retired == old(disk).names.retired && disk.names.records == old(disk).names.records
      ensures disk.names.cursor == old(disk).names.cursor
      ensures FreeStage(old(disk).names, id, nonce, 0) ==>
                disk.names == PublishedNames(old(disk).names, id, nonce, home.(entries := [File(Manifest)]))
      ensures forall k :: |old(history)| <= k < |history| ==> history[k].values == old(disk).values
      ensures StaysSound(old(disk), history, |old(history)|, lost)
    {
      var stage;
      stage, made := AllocateStage(id, home, nonce);
      KeptSound(history, |old(history)|, old(disk), lost);
      if made {
        StageGone(old(disk).names.stages, stage, home);
        ghost var earlier, m := history, disk;
        CompleteStage(stage, id);
        StaysSoundJoined(old(disk), m, earlier, history, |old(history)|, lost);
      }
    }

    /** Writes the stage's manifest, tickets the state and gives the stage its final name. */
    method CompleteStage(stage: StageName, id: Id)
      requires Valid() && stage in disk.names.stages && id !in disk.names.states
      requires disk.names.stages[stage].document.lease && disk.names.stages[stage].entries == []
      modifies `disk, `history
      ensures Valid() && old(history) <= history
      ensures var home := old(disk).names.stages[stage].(entries := [File(Manifest)]);
              disk.names == Enqueued(old(disk).names, StateTicket(id)).(
                              stages := old(disk).names.stages - {stage}, states := old(disk).names.states[id := home])
      ensures forall k :: |old(history)| <= k < |history| ==> history[k].values == old(disk).values
      ensures StaysSound(old(disk), history, |old(history)|, lost)
    {
      PrepareStage(stage, id);
      KeptSound(history, |old(history)|, old(disk), lost);
      StageGone(old(disk).names.stages - {stage}, stage, disk.names.stages[stage]);
      ghost var earlier, m := history, disk;
      PublishStage(stage, id);
      StaysSoundJoined(old(disk), m, earlier, history, |old(history)|, lost);
    }

    /** The manifest, and then the ticket for the state the stage will be. */
    method PrepareStage(stage: StageName, id: Id)
      requires Valid() && stage in disk.names.stages
      modifies `disk, `history
      ensures Valid() && old(history) <= history
      ensures var home := old(disk).names.stages[stage].(entries := [File(Manifest)]);
              && HasManifest(home)
              && disk == old(disk).(names := Enqueued(old(disk).names, StateTicket(id)).(
                                      stages := old(disk).names.stages[stage := home]))
      ensures Ticketed(disk.names, disk.names.cursor, StateTicket(id))
      ensures StatesAndValuesKept(history, |old(history)|, old(disk))
    {
      WriteProducerManifest(stage);
      var _ := EnqueueReconcileTicket(StateTicket(id));
      TicketAppears(disk.names, disk.names.cursor, disk.names.next);
    }

    method PublishStage(stage: StageName, id: Id)
      requires Valid() && stage in disk.names.stages && Lease(disk.names.stages[stage])
      requires id !in disk.names.states && Ticketed(disk.names, disk.names.cursor, StateTicket(id))
      modifies `disk, `history
      ensures Valid() && history == old(history) + [disk]
      ensures disk == old(disk).(names := old(disk).names.(
                        stages := old(disk).names.stages - {stage},
                        states := old(disk).names.states[id := old(disk).names.stages[stage]]))
      ensures old(SoundOutside(disk, lost)) ==> SoundOutside(disk, lost)
    {
      StagePublished(disk.names, stage, id);
      WriteNames(disk.names.(stages := disk.names.stages - {stage},
                             states := disk.names.states[id := disk.names.stages[stage]]));
    }

    /** Tickets a stage name and makes the directory, trying another name while one is taken. */
    method AllocateStage(id: Id, home: Home, nonce: nat) returns (stage: StageName, made: bool)
      requires Valid()
      modifies `disk, `history
      ensures Valid() && old(history) <= history
      ensures StatesAndValuesKept(history, |old(history)|, old(disk))
      ensures disk.values == old(disk).values && disk.names.states == old(disk).names.states
      ensures disk.names.retired == old(disk).names.retired && disk.names.records == old(disk).names.records
      ensures disk.names.cursor == old(disk).names.cursor
      ensures made <==> SomeStageFree(old(disk).names, id, nonce)
      ensures made ==> stage.id == id && disk.names.stages == old(disk).names.stages[stage := home]
                       && stage !in old(disk).names.stages
      ensures !made ==> disk.names.stages == old(disk).names.stages
      ensures FreeStage(old(disk).names, id, nonce, 0) ==>
                && stage == StageName(id, nonce)
                && disk.names == Enqueued(old(disk).names, CreatingTicket(stage)).(
                                   stages := old(disk).names.stages[stage := home])
    {
      var attempt := 0;
      stage := StageName(id, nonce);
      made := false;
      while attempt < PUBLICATION_ATTEMPTS
        invariant Valid() && old(history) <= history
        invariant disk.names.states == old(disk).names.states && disk.values == old(disk).values
        invariant disk.names.retired == old(disk).names.retired && disk.names.records == old(disk).names.records
        invariant disk.names.cursor == old(disk).names.cursor && disk.names.stages == old(disk).names.stages
        invariant StatesAndValuesKept(history, |old(history)|, old(disk))
        invariant attempt <= PUBLICATION_ATTEMPTS && (attempt == 0 ==> disk == old(disk))
        invariant forall a :: 0 <= a < attempt ==> !FreeStage(old(disk).names, id, nonce, a)
      {
        stage := StageName(id, nonce + attempt);
        var _ := EnqueueReconcileTicket(CreatingTicket(stage));
        if stage !in disk.names.stages {
          assert FreeStage(old(disk).names, id, nonce, attempt);
          TicketAppears(disk.names, disk.names.cursor, disk.names.next);
          StageMade(disk.names, stage, home);
          WriteNames(disk.names.(stages := disk.names.stages[stage := home]));
          made := true;
          return;
        }
        attempt := attempt + 1;
      }
    }

    method WriteProducerManifest(stage: StageName)
      requires Valid() && stage in disk.names.stages
      modifies `disk, `history
      ensures Valid() && old(history) <= history
      ensures disk == old(disk).(names := old(disk).names.(stages :=
                        old(disk).names.stages[stage := old(disk).names.stages[stage].(entries := [File(Manifest)])]))
      ensures HasManifest(disk.names.stages[stage])
      ensures StatesAndValuesKept(history, |old(history)|, old(disk))
    {
      WriteStage(stage, [File(Plain(MANIFEST_STAGING))]);
      WriteStage(stage, [File(Manifest)]);
      assert File(Manifest) in disk.names.stages[stage].entries;
    }

    method WriteStage(stage: StageName, entries: seq<Entry>)
      requires Valid() && stage in disk.names.stages
      modifies `disk, `history
      ensures Valid() && old(history) <= history
      ensures disk == old(disk).(names := old(disk).names.(stages :=
                        old(disk).names.stages[stage := old(disk).names.stages[stage].(entries := entries)]))
      ensures history == old(history) + [disk]
    {
      var n := disk.names.(stages := disk.names.stages[stage := disk.names.stages[stage].(entries := entries)]);
      OwesLess(disk.names, n);
      WriteNames(n);
    }

    /** A run inside a published state leaves any content behind, its manifest aside. */
    method RunTask(id: Id, entries: seq<Entry>)
      requires Valid() && id in disk.names.states
      requires HasManifest(disk.names.states[id].(entries := entries)) <==> HasManifest(disk.names.states[id])
      modifies `disk, `history
      ensures Valid() && old(history) <= history
      ensures disk == old(disk).(names := old(disk).names.(states :=
                        old(disk).names.states[id := old(disk).names.states[id].(entries := entries)]))
      ensures StaysSound(old(disk), history, |old(history)|, lost)
    {
      var n := disk.names.(states := disk.names.states[id := disk.names.states[id].(entries := entries)]);
      OwesLess(disk.names, n);
      WriteNames(n);
    }

    // ---------- Retirement and deletion ----------

    /** Renames a published state to its retired name, ticket first.  Refused when taken. */
    method RetireState(id: Id) returns (renamed: bool)
      requires Valid() && id in disk.names.states && HasManifest(disk.names.states[id])
      modifies `disk, `history
      ensures Valid() && old(history) <= history
      ensures renamed <==> id !in old(disk).names.retired
      ensures var n := Enqueued(old(disk).names, RetiredTicket(id));
              disk == old(disk).(names :=
                if renamed then n.(states := n.states - {id}, retired := n.retired[id := n.states[id]]) else n)
      ensures forall k :: |old(history)| <= k < |history| ==>
                && history[k].values == old(disk).values
                && (history[k].names.states == old(disk).names.states || history[k].names == disk.names)
    {
      var _ := EnqueueReconcileTicket(RetiredTicket(id));
      if id in disk.names.retired {
        return false;
      }
      TicketAppears(disk.names, disk.names.cursor, disk.names.next);
      StateRenamed(disk.names, id);
      WriteNames(disk.names.(states := disk.names.states - {id},
                             retired := disk.names.retired[id := disk.names.states[id]]));
      return true;
    }

    method EnsureRetirementRecord(id: Id) returns (ok: bool)
      requires Valid() && id in disk.names.retired
      modifies `disk, `history
      ensures Valid() && old(history) <= history
      ensures ok <==> DirectoryMatches(old(disk).names, id)
      ensures ok ==> disk == old(disk).(names := old(disk).names.(records :=
                               old(disk).names.records[id := old(disk).names.retired[id].inode]))
      ensures !ok ==> disk == old(disk) && history == old(history)
      ensures StatesAndValuesKept(history, |old(history)|, old(disk))
    {
      var inode := disk.names.retired[id].inode;
      if id in disk.names.records {
        ok := disk.names.records[id] == inode;
        if ok {
          assert disk.names.records == disk.names.records[id := inode];
        }
      } else {
        RecordWritten(disk.names, id);
        WriteNames(disk.names.(records := disk.names.records[id := inode]));
        ok := true;
      }
    }

    /** Runs the budgeted deleter inside a retired directory; every intermediate content is a
        crash point. */
    method DeleteContents(id: Id) returns (complete: bool, remaining: nat)
      requires Valid() && id in disk.names.retired && HasManifest(disk.names.retired[id])
      modifies `disk, `history
      ensures Valid() && old(history) <= history
      ensures id in disk.names.retired
      ensures disk == old(disk).(names := WithEntries(old(disk).names, id, disk.names.retired[id].entries))
      ensures HasManifest(disk.names.retired[id])
      ensures StatesAndValuesKept(history, |old(history)|, old(disk))
      ensures var before := old(disk).names.retired[id].entries;
              var after := disk.names.retired[id].entries;
              && (complete ==> after == Preserved(before, true) && remaining > 0)
              && (Clean(before) ==> (complete <==> Work(before, true) < MAX_DELETE_ENTRIES))
              && (Clean(before) && !complete ==>
                    Clean(after) && Work(after, true) == Work(before, true) - MAX_DELETE_ENTRIES)
    {
      ghost var start := disk.names;
      var held := new HeldDirectory(disk.names.retired[id].entries);
      var budget := new DeleteBudget(MAX_DELETE_ENTRIES);
      complete := DeleteDirectoryContentsBounded(held, budget, true);
      remaining := budget.remainingEntries;
      ContentsSafe(start, id, held.history);
      AppendContents(id, held.entries, held.history);
    }

    method AppendContents(id: Id, last: seq<Entry>, contents: seq<seq<Entry>>)
      requires Valid() && id in disk.names.retired
      requires contents != [] && contents[|contents| - 1] == last
      requires forall k :: 0 <= k < |contents| ==> NamesSafe(WithEntries(disk.names, id, contents[k]))
      modifies `disk, `history
      ensures Valid() && old(history) <= history
      ensures disk == old(disk).(names := WithEntries(old(disk).names, id, last))
      ensures StatesAndValuesKept(history, |old(history)|, old(disk))
    {
      var start := disk;
      var added := seq(|contents|, k requires 0 <= k < |contents| =>
                                           start.(names := WithEntries(start.names, id, contents[k])));
      forall k | 0 <= k < |added| ensures Safe(added[k]) && Watched(watch, added[k].names) {
        assert NamesSafe(WithEntries(start.names, id, contents[k]));
      }
      WriteAll(added);
    }

    method DeleteRetiredStateBounded(id: Id) returns (result: Deletion)
      requires Valid()
      modifies `disk, `history
      ensures Valid() && old(history) <= history
      ensures StatesAndValuesKept(history, |old(history)|, old(disk))
      ensures result == Conflict <==> !DirectoryMatches(old(disk).names, id)
      ensures result == Conflict ==> disk == old(disk) && history == old(history)
      ensures result == Complete ==>
                disk == old(disk).(names := old(disk).names.(retired := old(disk).names.retired - {id},
                                                             records := old(disk).names.records - {id}))
      ensures id !in old(disk).names.retired ==>
                && (result == Complete <==> id in old(disk).names.records)
                && (result == Incomplete ==> disk == old(disk))
      ensures result == Incomplete && id in old(disk).names.retired ==>
                && id in disk.names.retired
                && disk == old(disk).(names := WithEntries(old(disk).names.(records :=
                             old(disk).names.records[id := old(disk).names.retired[id].inode]),
                             id, disk.names.retired[id].entries))
      ensures id in old(disk).names.retired && DirectoryMatches(old(disk).names, id)
              && Clean(old(disk).names.retired[id].entries) ==>
                var w := Work(old(disk).names.retired[id].entries, true);
                && (result == Complete <==> w < MAX_DELETE_ENTRIES)
                && (result == Incomplete ==> Clean(disk.names.retired[id].entries)
                                             && Work(disk.names.retired[id].entries, true) == w - MAX_DELETE_ENTRIES)
      ensures result == Complete && id in old(disk).names.retired ==>
                && |history| >= |old(history)| + 2
                && history[|history| - 2] == disk.(names := disk.names.(records :=
                     disk.names.records[id := old(disk).names.retired[id].inode]))
    {
      if id !in disk.names.retired {
        if id !in disk.names.records {
          return Incomplete;
        }
        RemoveRetirementRecord(id);
        return Complete;
      }
      var ok := EnsureRetirementRecord(id);
      if !ok {
        return Conflict;
      }
      var emptied := EmptyRetiredDirectory(id);
      if !emptied {
        return Incomplete;
      }
      DirectoryAndRecordGone(old(disk).names, id, old(disk).names.retired[id].inode, []);
      RemoveDirectoryAndRecord(id);
      return Complete;
    }

    method RemoveDirectoryAndRecord(id: Id)
      requires Valid() && id in disk.names.retired && disk.names.retired[id].entries == []
      modifies `disk, `history
      ensures Valid() && old(history) <= history && |history| == |old(history)| + 2
      ensures var removed := old(disk).names.(retired := old(disk).names.retired - {id});
              && history[|old(history)|] == old(disk).(names := removed)
              && disk == old(disk).(names := removed.(records := removed.records - {id}))
      ensures StatesAndValuesKept(history, |old(history)|, old(disk))
    {
      DirectoryRemoved(disk.names, id);
      WriteNames(disk.names.(retired := disk.names.retired - {id}));
      RemoveRetirementRecord(id);
    }

    /** Deletes what the budget allows, and the manifest once nothing else is left. */
    method EmptyRetiredDirectory(id: Id) returns (emptied: bool)
      requires Valid() && id in disk.names.retired
      requires id in disk.names.records && disk.names.records[id] == disk.names.retired[id].inode
      modifies `disk, `history
      ensures Valid() && old(history) <= history
      ensures StatesAndValuesKept(history, |old(history)|, old(disk))
      ensures id in disk.names.retired
      ensures disk == old(disk).(names := WithEntries(old(disk).names, id, disk.names.retired[id].entries))
      ensures var before := old(disk).names.retired[id].entries;
              var after := disk.names.retired[id].entries;
              && (emptied ==> after == [])
              && (Clean(before) ==> (emptied <==> Work(before, true) < MAX_DELETE_ENTRIES))
              && (Clean(before) && !emptied ==>
                    Clean(after) && Work(after, true) == Work(before, true) - MAX_DELETE_ENTRIES)
    {
      if !HasManifest(disk.names.retired[id]) {
        assert disk.names.retired[id].entries == [];
        return true;
      }
      ghost var before := disk.names.retired[id].entries;
      var complete, remaining := DeleteContents(id);
      if !complete || remaining == 0 {
        return false;
      }
      NothingLeft(before);
      LastEntriesWin(old(disk).names, id, Preserved(before, true), []);
      RemoveManifest(id);
      return true;
    }

    method RemoveManifest(id: Id)
      requires Valid() && id in disk.names.retired && Unkept(disk.names.retired[id].entries, true) == []
      requires id in disk.names.records && disk.names.records[id] == disk.names.retired[id].inode
      modifies `disk, `history
      ensures Valid() && history == old(history) + [disk]
      ensures disk == old(disk).(names := WithEntries(old(disk).names, id, []))
    {
      ManifestRemoved(disk.names, id);
      WriteNames(WithEntries(disk.names, id, Unkept(disk.names.retired[id].entries, true)));
    }

    method RemoveRetirementRecord(id: Id)
      requires Valid() && id !in disk.names.retired
      modifies `disk, `history
      ensures Valid() && history == old(history) + [disk]
      ensures disk == old(disk).(names := old(disk).names.(records := old(disk).names.records - {id}))
    {
      RecordRemoved(disk.names, id);
      WriteNames(disk.names.(records := disk.names.records - {id}));
    }

    /** Repeated passes over one retired directory remove it and its record, in exactly
        floor(W / 2048) + 1 calls. */
    method DrainRetiredState(id: Id) returns (calls: nat)
      requires Valid() && id in disk.names.retired && DirectoryMatches(disk.names, id)
      requires Clean(disk.names.retired[id].entries)
      modifies `disk, `history
      ensures Valid() && id !in disk.names.retired && id !in disk.names.records
      ensures calls == Work(old(disk).names.retired[id].entries, true) / MAX_DELETE_ENTRIES + 1
    {
      ghost var w := Work(disk.names.retired[id].entries, true);
      calls := 0;
      var result := Incomplete;
      while result != Complete
        invariant Valid()
        invariant result == Complete ==> id !in disk.names.retired && id !in disk.names.records
                                         && calls == w / MAX_DELETE_ENTRIES + 1
        invariant result != Complete ==>
                    && id in disk.names.retired && DirectoryMatches(disk.names, id)
                    && Clean(disk.names.retired[id].entries)
                    && Work(disk.names.retired[id].entries, true) == w - calls * MAX_DELETE_ENTRIES
        decreases if result == Complete then 0 else 1 + w - calls * MAX_DELETE_ENTRIES
      {
        result := DeleteRetiredStateBounded(id);
        calls := calls + 1;
      }
    }

    // ---------- Value records ----------

    method RemoveGenerationValueMetadata(id: Id)
      requires Valid()
      modifies `disk, `history
      ensures Valid() && old(history) <= history
      ensures disk == old(disk).(values := WithoutMetadata(old(disk).values, id))
      ensures forall k :: |old(history)| <= k < |history| ==> history[k].names == old(disk).names
      ensures LosesNone(old(disk), disk, history, |old(history)|, lost)
    {
      if id !in disk.values.records {
        return;
      }
      ghost var d := disk;
      var number := disk.values.records[id].ticket;
      MetadataRemovalSafe(d, id, lost);
      WriteValues(disk.values.(tickets := disk.values.tickets - {number}));
      ghost var m := disk;
      WriteValues(disk.values.(records := disk.values.records - {id}));
      LosesNoneInTwo(d, m, disk, old(history), lost);
    }

    /** Records a successful run of a published state.  No crash point loses a value record, and
        the record of this state is sound afterwards even if it was orphaned before. */
    method RecordSuccessfulUse(id: Id, reachable: Reachability) returns (recorded: bool)
      requires Valid()
      modifies `disk, `history
      ensures Valid()
      ensures recorded <==>
                id in old(disk).names.states && HasManifest(old(disk).names.states[id]) && reachable == Reachable
      ensures !recorded ==> disk == old(disk) && history == old(history)
      ensures recorded ==> history == old(history) + UseSnapshots(old(disk), id)
      ensures StaysSound(old(disk), history, |old(history)|, lost)
      ensures recorded && old(SoundOutside(disk, lost)) ==> SoundOutside(disk, lost - {id})
    {
      if id !in disk.names.states || !HasManifest(disk.names.states[id]) || reachable != Reachable {
        return false;
      }
      ghost var d := disk;
      ghost var snapshots := UseSnapshots(d, id);
      forall k | 0 <= k < |snapshots|
        ensures ValuesSafe(snapshots[k].values) && (SoundOutside(d, lost) ==> SoundOutside(snapshots[k], lost))
      {
        UseSnapshotsSafe(d, id, k);
        UseKeepsSound(d, id, k, lost);
      }
      UseKeepsSound(d, id, |snapshots| - 1, lost);
      WriteUse(id);
      return true;
    }

    method WriteUse(id: Id)
      requires Valid() && id in disk.names.states
      requires forall k :: 0 <= k < |UseSnapshots(disk, id)| ==> ValuesSafe(UseSnapshots(disk, id)[k].values)
      modifies `disk, `history
      ensures Valid() && history == old(history) + UseSnapshots(old(disk), id)
    {
      ghost var snapshots := UseSnapshots(disk, id);
      assert ValuesSafe(snapshots[0].values) && ValuesSafe(snapshots[1].values) && ValuesSafe(snapshots[2].values);
      var record := UsedRecord(disk, id);
      var former := if id in disk.values.records then Some(disk.values.records[id].ticket) else None;
      WriteValues(disk.values.(useSequence := record.lastUse, next := record.ticket));
      WriteValues(disk.values.(tickets := disk.values.tickets[record.ticket := ValueTicket(id, record.lastUse)]));
      WriteValues(disk.values.(records := disk.values.records[id := record]));
      if former.Some? && former.value != record.ticket {
        assert ValuesSafe(snapshots[3].values);
        WriteValues(disk.values.(tickets := disk.values.tickets - {former.value}));
      }
    }

    /** Moves the record of an examined ticket to a new one, cursor first. */
    method RequeueValueTicket(k: nat)
      requires Valid() && disk.values.cursor < k <= disk.values.next && Live(disk.values, k)
      modifies `disk, `history
      ensures Valid()
      ensures history == old(history) + RequeueSnapshots(old(disk), k)
      ensures disk == RequeueSnapshots(old(disk), k)[4]
    {
      ghost var d := disk;
      var id := disk.values.tickets[k].id;
      var record := disk.values.records[id];
      var number := disk.values.next + 1;
      WriteValues(disk.values.(cursor := k));
      WriteValues(disk.values.(next := number));
      WriteValues(disk.values.(tickets := disk.values.tickets[number := ValueTicket(id, record.lastUse)]));
      WriteValues(disk.values.(records := disk.values.records[id := record.(ticket := number)]));
      WriteValues(disk.values.(tickets := disk.values.tickets - {k}));
    }

    // ---------- Eviction under pressure ----------

    /** Examines value ticket `k`: drops it, requeues its record, or evicts its state. */
    method ExamineValueTicket(k: nat, limit: nat, current: Id, first: Look, second: Look)
      returns (evicted: Option<Id>, conflict: bool)
      requires Valid() && disk.values.cursor < k <= limit <= disk.values.next
      modifies `disk, `history
      ensures Valid() && old(history) <= history
      ensures disk.values.cursor <= k && limit <= disk.values.next && disk.values.pressure == old(disk).values.pressure
      ensures evicted.Some? <==> Eligible(old(disk), k, current, first, second)
      ensures conflict ==> evicted.Some?
      ensures evicted.Some? ==> evicted.value == old(disk).values.tickets[k].id
                                && disk.names.states == old(disk).names.states - {evicted.value}
      ensures evicted.Some? ==> EvictedCleanly(old(disk).names, disk.names, history, |old(history)|, evicted.value)
      ensures evicted.None? ==>
                disk.names.states == old(disk).names.states && disk.names.retired == old(disk).names.retired
      ensures Untouched(old(disk).values, disk.values, k, limit)
      ensures PassesSoundly(old(disk), disk, history, |old(history)|, k - 1, k, lost)
      ensures CursorFirst(old(disk), k, current, history, |old(history)|)
    {
      evicted, conflict := None, false;
      ghost var d := disk;
      if !Live(disk.values, k) {
        DropValueTicket(k);
        return;
      }
      var id := disk.values.tickets[k].id;
      if id == current {
        RequeueCurrent(k, limit);
      } else if id !in disk.names.states {
        RemoveExamined(k, limit);
      } else if !HasManifest(disk.names.states[id]) {
        RequeueExamined(k, limit);
      } else if !disk.names.states[id].document.lease {
        DropValueTicket(k);
      } else if Seen(first, id) != Reachable || disk.values.records[id].file != disk.names.states[id].document.file
                || Seen(second, id) != Reachable {
        RequeueExamined(k, limit);
      } else {
        var renamed;
        renamed, conflict := EvictState(id, k, limit);
        if renamed {
          evicted := Some(id);
        }
      }
    }

    method DropValueTicket(k: nat)
      requires Valid() && k > 0
      requires Live(disk.values, k) ==> Legacy(disk.names, disk.values.tickets[k].id)
      modifies `disk, `history
      ensures Valid() && old(history) <= history
      ensures disk == old(disk).(values := old(disk).values.(tickets := old(disk).values.tickets - {k}))
      ensures forall limit :: Untouched(old(disk).values, disk.values, k, limit)
      ensures old(SoundAbove(disk, k - 1, lost)) && disk.values.cursor < k ==>
                SoundAbove(disk, k, lost) && OneMoreSince(history, |old(history)|, lost)
    {
      TicketDropped(disk, k, lost);
      WriteValues(disk.values.(tickets := disk.values.tickets - {k}));
    }

    method RequeueExamined(k: nat, limit: nat)
      requires Valid() && disk.values.cursor < k <= limit <= disk.values.next && Live(disk.values, k)
      modifies `disk, `history
      ensures Valid() && old(history) <= history
      ensures disk.names == old(disk).names && disk.values.pressure == old(disk).values.pressure
      ensures disk.values.cursor == k && disk.values.next == old(disk).values.next + 1
      ensures Untouched(old(disk).values, disk.values, k, limit)
      ensures PassesSoundly(old(disk), disk, history, |old(history)|, k - 1, k, lost)
    {
      RequeueCurrent(k, limit);
    }

    method RequeueCurrent(k: nat, limit: nat)
      requires Valid() && disk.values.cursor < k <= limit <= disk.values.next && Live(disk.values, k)
      modifies `disk, `history
      ensures Valid() && old(history) <= history
      ensures disk == RequeueSnapshots(old(disk), k)[4]
      ensures history == old(history) + RequeueSnapshots(old(disk), k)
      ensures Untouched(old(disk).values, disk.values, k, limit)
      ensures PassesSoundly(old(disk), disk, history, |old(history)|, k - 1, k, lost)
    {
      ghost var d := disk;
      RequeueValueTicket(k);
      if SoundAbove(d, k - 1, lost) {
        RequeueSound(d, k, 4, lost);
        forall i | |old(history)| <= i < |history| ensures OneMore(history[i], lost) {
          RequeueSound(d, k, i - |old(history)|, lost);
          assert SoundOutside(history[i], lost + {d.values.tickets[k].id});
        }
      }
    }

    method RemoveExamined(k: nat, limit: nat)
      requires Valid() && disk.values.cursor < k <= limit && Live(disk.values, k)
      modifies `disk, `history
      ensures Valid() && old(history) <= history
      ensures disk == old(disk).(values := WithoutMetadata(old(disk).values, old(disk).values.tickets[k].id))
      ensures Untouched(old(disk).values, disk.values, k, limit)
      ensures PassesSoundly(old(disk), disk, history, |old(history)|, k - 1, k, lost)
    {
      if SoundAbove(disk, k - 1, lost) {
        LiveMetadataPassed(disk, k, lost);
        SoundLower(disk, k - 1, lost);
      }
      RemoveGenerationValueMetadata(disk.values.tickets[k].id);
    }

    method EvictState(id: Id, k: nat, limit: nat) returns (renamed: bool, conflict: bool)
      requires Valid() && disk.values.cursor < k <= limit <= disk.values.next && Live(disk.values, k)
      requires id == disk.values.tickets[k].id && id in disk.names.states && Lease(disk.names.states[id])
      modifies `disk, `history
      ensures Valid() && old(history) <= history
      ensures renamed <==> id !in old(disk).names.retired
      ensures conflict ==> renamed
      ensures disk.values.cursor <= k && limit <= disk.values.next && disk.values.pressure == old(disk).values.pressure
      ensures renamed ==> disk.names.states == old(disk).names.states - {id}
      ensures !renamed ==> disk.names.states == old(disk).names.states && disk.names.retired == old(disk).names.retired
      ensures renamed ==> EvictedCleanly(old(disk).names, disk.names, history, |old(history)|, id)
      ensures Untouched(old(disk).values, disk.values, k, limit)
      ensures PassesSoundly(old(disk), disk, history, |old(history)|, k - 1, k, lost)
    {
      conflict := false;
      renamed := RetireSoundly(id, k - 1);
      ghost var earlier, e := history, disk;
      if renamed {
        conflict := RemoveAndDelete(id, k, limit);
        DeletedIsEvicted(old(disk).names, e.names, disk.names, history, |old(history)|, |earlier|, id);
      } else {
        RequeueExamined(k, limit);
      }
      PassesJoined(old(disk), e, disk, earlier, history, |old(history)|, k - 1, k - 1, k, lost);
    }

    /** Removes the metadata of a state just retired and deletes what the budget allows. */
    method RemoveAndDelete(id: Id, k: nat, limit: nat) returns (conflict: bool)
      requires Valid() && disk.values.cursor < k <= limit <= disk.values.next && Live(disk.values, k)
      requires id == disk.values.tickets[k].id && id in disk.names.retired
      modifies `disk, `history
      ensures Valid() && old(history) <= history
      ensures disk.values == WithoutMetadata(old(disk).values, id) && disk.names.states == old(disk).names.states
      ensures Untouched(old(disk).values, disk.values, k, limit)
      ensures DeletedCleanly(old(disk).names, disk.names, history, |old(history)|, id)
      ensures PassesSoundly(old(disk), disk, history, |old(history)|, k - 1, k, lost)
    {
      RemoveExamined(k, limit);
      ghost var removed := disk;
      ghost var from := |history|;
      conflict := DeleteJustRetired(id);
      if SoundAbove(removed, k, lost) {
        SoundLower(removed, k, lost);
        NoOrphanSince(history, from, removed, lost);
        SameStatesSound(removed, disk, k, lost);
      }
    }

    /** A bounded deletion as the eviction sees it: a clean state of less work than the budget goes at once. */
    method DeleteJustRetired(id: Id) returns (conflict: bool)
      requires Valid() && id in disk.names.retired
      modifies `disk, `history
      ensures Valid() && old(history) <= history && StatesAndValuesKept(history, |old(history)|, old(disk))
      ensures disk.values == old(disk).values && disk.names.states == old(disk).names.states
      ensures DeletedCleanly(old(disk).names, disk.names, history, |old(history)|, id)
    {
      var result := DeleteRetiredStateBounded(id);
      conflict := result == Conflict;
    }

    method RetireSoundly(id: Id, ghost above: nat) returns (renamed: bool)
      requires Valid() && id in disk.names.states && Lease(disk.names.states[id]) && disk.values.cursor <= above
      modifies `disk, `history
      ensures Valid() && old(history) <= history
      ensures renamed <==> id !in old(disk).names.retired
      ensures disk.values == old(disk).values
      ensures renamed ==> disk.names.states == old(disk).names.states - {id}
      ensures !renamed ==> disk.names.states == old(disk).names.states && disk.names.retired == old(disk).names.retired
      ensures disk.names == if renamed then EvictedNames(old(disk).names, id).(
                                              retired := old(disk).names.retired[id := old(disk).names.states[id]])
                            else Enqueued(old(disk).names, RetiredTicket(id))
      ensures PassesSoundly(old(disk), disk, history, |old(history)|, above, above, lost)
    {
      ghost var d := disk;
      renamed := RetireState(id);
      if SoundAbove(d, above, lost) {
        RetiredSound(d, disk, id, above, lost);
        forall i | |old(history)| <= i < |history| ensures OneMore(history[i], lost) {
          RetiredSound(d, history[i], id, above, lost);
        }
      }
    }

    /** One step of a scan that started on `d` when `from` disks had been written. */
    method ExamineNext(ghost d: Disk, ghost from: nat, ghost reached: nat, ghost processed: nat, k: nat, limit: nat,
                       current: Id, first: Look, second: Look)
      returns (evicted: Option<Id>, conflict: bool)
      requires Valid() && disk.values.cursor < k <= limit <= disk.values.next && from <= |history|
      requires d.values.cursor <= reached && k == reached + 1 == d.values.cursor + processed
      requires Scanning(d, disk, history, from, reached, limit, current, first, second, lost)
      modifies `disk, `history
      ensures Valid() && old(history) <= history
      ensures disk.values.cursor <= k && limit <= disk.values.next && disk.values.pressure == d.values.pressure
      ensures conflict ==> evicted.Some?
      ensures evicted.Some? <==> Eligible(d, k, current, first, second)
      ensures evicted.Some? ==> ScanEnds(d, disk, evicted, processed, current, first, second)
      ensures evicted.Some? && processed == 1 ==>
                EvictedCleanly(d.names, disk.names, history, from, evicted.value)
      ensures evicted.None? ==> Scanning(d, disk, history, from, k, limit, current, first, second, lost)
      ensures PassesSoundly(d, disk, history, from, d.values.cursor, k, lost)
      ensures CursorFirst(d, d.values.cursor + 1, current, history, from)
    {
      ghost var before := disk;
      evicted, conflict := ExamineValueTicket(k, limit, current, first, second);
      ScanAdvances(d, before, disk, k, limit, current, first, second, lost);
    }

    /** Examines at most 32 tickets, all issued before the pass, up to the first eligible one. */
    method ExamineUntilEligible(current: Id, first: Look, second: Look)
      returns (evicted: Option<Id>, conflict: bool, processed: nat, cursor: nat)
      requires Valid()
      modifies `disk, `history
      ensures Valid() && old(history) <= history
      ensures processed <= VALUE_TICKETS_PER_PASS && cursor == old(disk).values.cursor + processed
      ensures disk.values.cursor <= cursor <= old(disk).values.next <= disk.values.next
      ensures ScanEnds(old(disk), disk, evicted, processed, current, first, second)
      ensures evicted.Some? && processed == 1 ==>
                EvictedCleanly(old(disk).names, disk.names, history, |old(history)|, evicted.value)
      ensures conflict ==> evicted.Some?
      ensures PassesSoundly(old(disk), disk, history, |old(history)|, old(disk).values.cursor, cursor, lost)
      ensures CursorFirst(old(disk), old(disk).values.cursor + 1, current, history, |old(history)|)
    {
      evicted, conflict, processed, cursor := None, false, 0, disk.values.cursor;
      var limit := disk.values.next;
      ghost var d := disk;
      ScanStarts(d, limit, current, first, second, lost);
      while processed < VALUE_TICKETS_PER_PASS && cursor < limit
        invariant Valid() && old(history) <= history
        invariant disk.values.cursor <= cursor <= limit <= disk.values.next
        invariant cursor == d.values.cursor + processed && processed <= VALUE_TICKETS_PER_PASS
        invariant Scanning(d, disk, history, |old(history)|, cursor, limit, current, first, second, lost)
        invariant evicted == None && !conflict
      {
        ghost var reached := cursor;
        cursor := cursor + 1;
        processed := processed + 1;
        evicted, conflict := ExamineNext(d, |old(history)|, reached, processed, cursor, limit, current, first, second);
        if evicted.Some? {
          return;
        }
      }
      ScanFound(d, disk, history, |old(history)|, cursor, processed, current, first, second, lost);
    }

    /** The scan of one eviction pass, with the cursor persisted at its end. */
    method ScanValueTickets(current: Id, first: Look, second: Look)
      returns (evicted: Option<Id>, conflict: bool, processed: nat)
      requires Valid()
      modifies `disk, `history
      ensures Valid() && old(history) <= history
      ensures processed <= VALUE_TICKETS_PER_PASS && old(disk).values.cursor + processed <= old(disk).values.next
      ensures ScanEnds(old(disk), disk, evicted, processed, current, first, second)
      ensures evicted.Some? && processed == 1 ==>
                EvictedCleanly(old(disk).names, disk.names, history, |old(history)|, evicted.value)
      ensures conflict ==> evicted.Some? && disk.values.cursor <= old(disk).values.cursor + processed
      ensures !conflict ==> disk.values.cursor == old(disk).values.cursor + processed
      ensures LosesNone(old(disk), disk, history, |old(history)|, lost)
      ensures CursorFirst(old(disk), old(disk).values.cursor + 1, current, history, |old(history)|)
    {
      var cursor;
      evicted, conflict, processed, cursor := ExamineUntilEligible(current, first, second);
      FinishScan(cursor, conflict);
    }

    /** Persists the cursor, unless the deletion of the evicted state was refused. */
    method FinishScan(cursor: nat, conflict: bool)
      requires Valid() && disk.values.cursor <= cursor <= disk.values.next
      modifies `disk, `history
      ensures Valid() && old(history) <= history
      ensures disk == if conflict then old(disk) else old(disk).(values := old(disk).values.(cursor := cursor))
      ensures old(SoundAbove(disk, cursor, lost)) ==>
                SoundOutside(disk, lost) && OneMoreSince(history, |old(history)|, lost)
    {
      if conflict {
        if SoundAbove(disk, cursor, lost) {
          SoundLower(disk, cursor, lost);
        }
      } else {
        WriteValueCursor(cursor);
      }
    }

    /** One eviction pass.  Under pressure it retires exactly the state of the smallest eligible
        ticket among the next 32, and none when there is no such ticket. */
    method RetireOneLowValueState(current: Id, sample: Sample, first: Look, second: Look)
      returns (result: Eviction, processed: nat)
      requires Valid()
      modifies `disk, `history
      ensures Valid() && old(history) <= history
      ensures processed <= VALUE_TICKETS_PER_PASS
      ensures old(disk).values.cursor + processed <= old(disk).values.next
      ensures result == CapacityUnavailable <==> sample.total == 0 || sample.used > sample.total
      ensures result == CapacityUnavailable ==> disk == old(disk)
      ensures result != CapacityUnavailable ==> disk.values.pressure == NextPressure(old(disk).values.pressure, sample)
      ensures result in {OrdinaryFreeSpace, PressureRelieved} <==>
                result != CapacityUnavailable && !NextPressure(old(disk).values.pressure, sample)
      ensures result in {OrdinaryFreeSpace, PressureRelieved} ==> processed == 0 && disk.names == old(disk).names
      ensures result.RetiredLowValue? || result.RecoveryDeferred? ==>
                && EvictsFirst(old(disk), processed, result.id, current, first, second)
                && disk.names.states == old(disk).names.states - {result.id}
                && (processed == 1 ==> EvictedCleanly(old(disk).names, disk.names, history, |old(history)|, result.id))
      ensures result in {PressureScanDeferred, NoEligibleState} ==>
                && NoneEligible(old(disk), old(disk).values.cursor + processed, current, first, second)
                && disk.names.states == old(disk).names.states
      ensures result == NoEligibleState ==> old(disk).values.cursor + processed == old(disk).values.next
      ensures result == PressureScanDeferred ==> processed == VALUE_TICKETS_PER_PASS
      ensures LosesNone(old(disk), disk, history, |old(history)|, lost)
      ensures MovesCurrent(old(disk), current, sample) ==> CursorMoved(old(disk), history, |old(history)|)
    {
      if sample.total == 0 || sample.used > sample.total {
        return CapacityUnavailable, 0;
      }
      var active := disk.values.pressure;
      SetPressure(NextPressure(active, sample));
      if !disk.values.pressure {
        return if active then PressureRelieved else OrdinaryFreeSpace, 0;
      }
      var end := disk.values.next;
      var start := disk.values.cursor;
      ghost var earlier, m := history, disk;
      var evicted, conflict;
      evicted, conflict, processed := ScanValueTickets(current, first, second);
      LosesNoneJoined(old(disk), m, disk, earlier, history, |old(history)|, lost);
      PressureIrrelevant(old(disk), m, disk, evicted, processed, current, first, second);
      if evicted.Some? {
        result := if conflict then RecoveryDeferred(evicted.value) else RetiredLowValue(evicted.value);
      } else {
        result := if start + processed < end then PressureScanDeferred else NoEligibleState;
      }
    }

    method WriteValueCursor(cursor: nat)
      requires Valid() && cursor <= disk.values.next
      modifies `disk, `history
      ensures Valid() && history == old(history) + [disk]
      ensures disk == old(disk).(values := old(disk).values.(cursor := cursor))
      ensures old(SoundAbove(disk, cursor, lost)) ==> SoundOutside(disk, lost) && OneMore(disk, lost)
    {
      WriteValues(disk.values.(cursor := cursor));
      if SoundAbove(old(disk), cursor, lost) {
        SoundHasNoOrphan(disk, lost);
      }
    }

    method SetPressure(active: bool)
      requires Valid()
      modifies `disk, `history
      ensures Valid() && old(history) <= history
      ensures disk == old(disk).(values := old(disk).values.(pressure := active))
      ensures history == old(history) + if old(disk).values.pressure == active then [] else [disk]
      ensures LosesNone(old(disk), disk, history, |old(history)|, lost)
    {
      if disk.values.pressure != active {
        WriteValues(disk.values.(pressure := active));
        if SoundOutside(old(disk), lost) {
          SoundHasNoOrphan(disk, lost);
        }
      }
    }

    // ---------- Collection ----------

    method DeleteUnpublishedStageBounded(stage: StageName) returns (deleted: bool)
      requires Valid() && stage in disk.names.stages
      modifies `disk, `history
      ensures Valid() && old(history) <= history
      ensures StatesAndValuesKept(history, |old(history)|, old(disk))
      ensures deleted <==> |old(disk).names.stages[stage].entries| <= MAX_CREATING_ENTRIES
                           && forall e :: e in old(disk).names.stages[stage].entries ==> StageFile(e)
      ensures disk == if deleted then old(disk).(names := old(disk).names.(stages := old(disk).names.stages - {stage}))
                      else old(disk)
    {
      var entries := disk.names.stages[stage].entries;
      if |entries| > MAX_CREATING_ENTRIES || exists e :: e in entries && !StageFile(e) {
        return false;
      }
      var i := 0;
      while i < |entries|
        invariant Valid() && old(history) <= history && i <= |entries|
        invariant StatesAndValuesKept(history, |old(history)|, old(disk))
        invariant stage in disk.names.stages
        invariant disk == old(disk).(names := old(disk).names.(stages := disk.names.stages))
        invariant disk.names.stages - {stage} == old(disk).names.stages - {stage}
      {
        i := i + 1;
        WriteStage(stage, entries[i..]);
      }
      StageRemoved(disk.names, stage);
      WriteNames(disk.names.(stages := disk.names.stages - {stage}));
      return true;
    }

    method RequeueAndPass(k: nat)
      requires Valid() && k in disk.names.tickets && Covered(disk.names, k - 1)
      requires watch.Stale? ==> k != watch.number
      modifies `disk, `history
      ensures Valid() && old(history) <= history && ScanKept(old(disk).names, disk.names, k)
      ensures disk.names.retired == old(disk).names.retired && disk.names.records == old(disk).names.records
      ensures disk.values == old(disk).values && disk.names.states == old(disk).names.states
      ensures StatesAndValuesKept(history, |old(history)|, old(disk))
    {
      RequeuePasses(disk.names, k);
      RequeueReconcileTicket(k);
    }

    method RemoveAndPass(k: nat)
      requires Valid() && k > 0 && Covered(disk.names, k - 1)
      requires k in disk.names.tickets ==> !Owed(disk.names, disk.names.tickets[k])
      modifies `disk, `history
      ensures Valid() && old(history) <= history && ScanKept(old(disk).names, disk.names, k)
      ensures disk.values == old(disk).values && disk.names.states == old(disk).names.states
      ensures disk.names == Unticketed(old(disk).names, k)
      ensures StatesAndValuesKept(history, |old(history)|, old(disk))
    {
      SettledPasses(disk.names, k);
      RemoveReconcileTicket(k);
    }

    method CollectCreating(k: nat, stage: StageName) returns (outcome: Option<Collection>)
      requires Valid() && k in disk.names.tickets && disk.names.tickets[k] == CreatingTicket(stage)
      requires Covered(disk.names, k - 1)
      modifies `disk, `history
      ensures Valid() && old(history) <= history && ScanKept(old(disk).names, disk.names, k)
      ensures disk.values == old(disk).values && disk.names.states == old(disk).names.states
      ensures StatesAndValuesKept(history, |old(history)|, old(disk))
      ensures outcome.Some? ==> outcome.value in {CreatingRecovery, CreatingRecoveryDeferred}
      ensures disk.names.retired == old(disk).names.retired && disk.names.records == old(disk).names.records
      ensures Harmless(old(disk).names, k) ==> outcome == None && disk.names == Unticketed(old(disk).names, k)
    {
      if stage !in disk.names.stages {
        RemoveAndPass(k);
        return None;
      }
      ghost var n := disk.names;
      var deleted := DeleteUnpublishedStageBounded(stage);
      if deleted {
        KeepsCovered(n, disk.names, k - 1);
        RemoveAndPass(k);
        return Some(CreatingRecovery);
      }
      RequeueAndPass(k);
      return Some(CreatingRecoveryDeferred);
    }

    method CollectRetired(k: nat, id: Id) returns (outcome: Option<Collection>)
      requires Valid() && k in disk.names.tickets && disk.names.tickets[k] == RetiredTicket(id)
      requires Covered(disk.names, k - 1)
      modifies `disk, `history
      ensures Valid() && old(history) <= history
      ensures outcome == Some(Raised) <==> !DirectoryMatches(old(disk).names, id)
      ensures outcome == Some(Raised) ==> disk == old(disk) && history == old(history)
      ensures outcome != Some(Raised) ==> ScanKept(old(disk).names, disk.names, k)
      ensures outcome.Some? ==> outcome.value in {Raised, RetiredRecovery, RetiredRecoveryDeferred}
      ensures MismatchesKept(old(disk).names, disk.names)
      ensures disk.names.states == old(disk).names.states
      ensures LosesNone(old(disk), disk, history, |old(history)|, lost)
    {
      ghost var d := disk;
      if id !in disk.names.retired && id !in disk.names.records {
        RemoveAndPass(k);
        SoundIfKept(d);
        return None;
      }
      var result := DeleteCovered(id, k - 1);
      if result == Conflict {
        return Some(Raised);
      }
      outcome := SettleRetired(k, id, result);
    }

    /** Drops the ticket of a directory that is gone, with the state's metadata, and requeues another. */
    method SettleRetired(k: nat, id: Id, result: Deletion) returns (outcome: Option<Collection>)
      requires Valid() && k in disk.names.tickets && disk.names.tickets[k] == RetiredTicket(id)
      requires Covered(disk.names, k - 1) && (watch.Stale? ==> k != watch.number)
      requires result == Complete ==> id !in disk.names.retired && id !in disk.names.records
      modifies `disk, `history
      ensures Valid() && old(history) <= history && ScanKept(old(disk).names, disk.names, k)
      ensures outcome == Some(if result == Complete then RetiredRecovery else RetiredRecoveryDeferred)
      ensures disk.names.states == old(disk).names.states
      ensures disk.names.retired == old(disk).names.retired && disk.names.records == old(disk).names.records
      ensures LosesNone(old(disk), disk, history, |old(history)|, lost)
    {
      ghost var d := disk;
      if result == Complete {
        RemoveMetadataAndPass(k, id);
        return Some(RetiredRecovery);
      }
      RequeueAndPass(k);
      SoundIfKept(d);
      return Some(RetiredRecoveryDeferred);
    }

    method RemoveMetadataAndPass(k: nat, id: Id)
      requires Valid() && k > 0 && Covered(disk.names, k - 1)
      requires k in disk.names.tickets ==> !Owed(disk.names, disk.names.tickets[k])
      modifies `disk, `history
      ensures Valid() && old(history) <= history && ScanKept(old(disk).names, disk.names, k)
      ensures disk.names.states == old(disk).names.states
      ensures disk.names.retired == old(disk).names.retired && disk.names.records == old(disk).names.records
      ensures LosesNone(old(disk), disk, history, |old(history)|, lost)
    {
      RemoveGenerationValueMetadata(id);
      ghost var from := |history|;
      ghost var e := disk;
      RemoveAndPass(k);
      SoundIfKeptSince(from, e);
    }

    /** Disks that change neither states nor value metadata are as sound as the first. */
    lemma SoundIfKeptSince(from: nat, d: Disk)
      requires Valid() && StatesAndValuesKept(history, from, d)
      requires disk.values == d.values && disk.names.states == d.names.states
      ensures SoundOutside(d, lost) ==> SoundOutside(disk, lost) && OneMoreSince(history, from, lost)
    {
      if SoundOutside(d, lost) {
        NoOrphanSince(history, from, d, lost);
        SameStatesSound(d, disk, d.values.cursor, lost);
      }
    }

    twostate lemma SoundIfKept(d: Disk)
      requires Valid() && StatesAndValuesKept(history, |old(history)|, d)
      requires disk.values == d.values && disk.names.states == d.names.states
      ensures SoundOutside(d, lost) ==> SoundOutside(disk, lost) && OneMoreSince(history, |old(history)|, lost)
    {
      SoundIfKeptSince(|old(history)|, d);
    }

    /** A published state: passed on while current, reachable or unreadable, let go when legacy, and
        retired once its generation is gone. */
    method CollectState(k: nat, id: Id, current: Id, first: Look, second: Look) returns (outcome: Option<Collection>)
      requires Valid() && k in disk.names.tickets && disk.names.tickets[k] == StateTicket(id)
      requires Covered(disk.names, k - 1)
      modifies `disk, `history
      ensures Valid() && old(history) <= history && ScanKept(old(disk).names, disk.names, k)
      ensures outcome.Some? ==> outcome.value == RetiredUnreachable && id != current
      ensures MismatchesKept(old(disk).names, disk.names)
      ensures RetiresOntoRecord(old(disk).names, k, id, current, first, second) ==>
                outcome == None && !DirectoryMatches(disk.names, id)
      ensures id == current ==> disk.names.states == old(disk).names.states
      ensures disk.names.states == old(disk).names.states
              || (disk.names.states == old(disk).names.states - {id} && id in old(disk).names.states
                  && Lease(old(disk).names.states[id])
                  && Seen(first, id) == Unreachable && Seen(second, id) == Unreachable)
      ensures LosesNone(old(disk), disk, history, |old(history)|, lost)
    {
      ghost var d := disk;
      if id != current && id !in disk.names.states {
        RemoveMetadataAndPass(k, id);
        return None;
      }
      if id == current || !HasManifest(disk.names.states[id]) {
        RequeueAndPass(k);
        SoundIfKept(d);
        return None;
      }
      if !disk.names.states[id].document.lease {
        RemoveAndPass(k);
        SoundIfKept(d);
        return None;
      }
      if Seen(first, id) != Unreachable || Seen(second, id) != Unreachable {
        RequeueAndPass(k);
        SoundIfKept(d);
        return None;
      }
      outcome := CollectUnreachable(k, id);
    }

    method CollectUnreachable(k: nat, id: Id) returns (outcome: Option<Collection>)
      requires Valid() && k in disk.names.tickets && disk.names.tickets[k] == StateTicket(id)
      requires Covered(disk.names, k - 1) && id in disk.names.states && Lease(disk.names.states[id])
      modifies `disk, `history
      ensures Valid() && old(history) <= history && ScanKept(old(disk).names, disk.names, k)
      ensures outcome.Some? ==> outcome.value == RetiredUnreachable
      ensures MismatchesKept(old(disk).names, disk.names)
      ensures id !in old(disk).names.retired && id in old(disk).names.records
              && old(disk).names.records[id] != old(disk).names.states[id].inode ==>
                outcome == None && !DirectoryMatches(disk.names, id)
      ensures disk.names.states == old(disk).names.states || disk.names.states == old(disk).names.states - {id}
      ensures LosesNone(old(disk), disk, history, |old(history)|, lost)
    {
      ghost var from := |history|;
      var renamed := RetireAndPass(k, id);
      if !renamed {
        return None;
      }
      RemoveGenerationValueMetadata(id);
      outcome := DeleteUnreachable(k, id);
    }

    /** Deletes what the budget allows of a state just retired; a refusal requeues its state ticket. */
    method DeleteUnreachable(k: nat, id: Id) returns (outcome: Option<Collection>)
      requires Valid() && Covered(disk.names, k) && id in disk.names.retired && k <= disk.names.next
      modifies `disk, `history
      ensures Valid() && old(history) <= history && ScanKept(old(disk).names, disk.names, k)
      ensures outcome == if DirectoryMatches(old(disk).names, id) then Some(RetiredUnreachable) else None
      ensures disk.names.states == old(disk).names.states && MismatchesKept(old(disk).names, disk.names)
      ensures LosesNone(old(disk), disk, history, |old(history)|, lost)
    {
      ghost var e := disk;
      var result := DeleteCovered(id, k);
      if result == Conflict {
        EnqueueKeeps(disk.names, StateTicket(id), k);
        var _ := EnqueueReconcileTicket(StateTicket(id));
        SoundIfKept(e);
        return None;
      }
      return Some(RetiredUnreachable);
    }

    /** A bounded deletion as the collector sees it: whatever was ticketed above a number still is. */
    method DeleteCovered(id: Id, ghost above: nat) returns (result: Deletion)
      requires Valid() && Covered(disk.names, above)
      modifies `disk, `history
      ensures Valid() && old(history) <= history && Covered(disk.names, above)
      ensures disk.values == old(disk).values && disk.names.states == old(disk).names.states
      ensures disk.names.tickets == old(disk).names.tickets && disk.names.next == old(disk).names.next
      ensures disk.names.cursor == old(disk).names.cursor
      ensures result == Conflict <==> !DirectoryMatches(old(disk).names, id)
      ensures result == Conflict ==> disk == old(disk) && history == old(history)
      ensures result == Complete ==> id !in disk.names.retired && id !in disk.names.records
      ensures MismatchesKept(old(disk).names, disk.names)
      ensures LosesNone(old(disk), disk, history, |old(history)|, lost)
    {
      ghost var d := disk;
      result := DeleteRetiredStateBounded(id);
      KeepsCovered(d.names, disk.names, above);
      SoundIfKept(d);
    }

    /** Renames an unreachable state and drops its ticket, or requeues it when the name is taken. */
    method RetireAndPass(k: nat, id: Id) returns (renamed: bool)
      requires Valid() && k in disk.names.tickets && disk.names.tickets[k] == StateTicket(id)
      requires Covered(disk.names, k - 1) && id in disk.names.states && Lease(disk.names.states[id])
      modifies `disk, `history
      ensures Valid() && old(history) <= history && ScanKept(old(disk).names, disk.names, k)
      ensures disk.values == old(disk).values
      ensures disk.names.states == if renamed then old(disk).names.states - {id} else old(disk).names.states
      ensures renamed <==> id !in old(disk).names.retired
      ensures disk.names.records == old(disk).names.records
      ensures disk.names.retired == if renamed then old(disk).names.retired[id := old(disk).names.states[id]]
                                    else old(disk).names.retired
      ensures LosesNone(old(disk), disk, history, |old(history)|, lost)
    {
      ghost var n := disk.names;
      EnqueueKeeps(n, RetiredTicket(id), k - 1);
      renamed := RetireSoundly(id, disk.values.cursor);
      KeepsCovered(Enqueued(n, RetiredTicket(id)), disk.names, k - 1);
      ghost var earlier, e := history, disk;
      PassStateTicket(k, renamed);
      LosesNoneJoined(old(disk), e, disk, earlier, history, |old(history)|, lost);
    }

    /** Lets the scan pass ticket `k`, which goes if its debt is `settled` and is requeued if not. */
    method PassStateTicket(k: nat, settled: bool)
      requires Valid() && k in disk.names.tickets && Covered(disk.names, k - 1)
      requires settled ==> !Owed(disk.names, disk.names.tickets[k])
      requires watch.Stale? ==> k != watch.number
      modifies `disk, `history
      ensures Valid() && old(history) <= history && ScanKept(old(disk).names, disk.names, k)
      ensures disk.names.retired == old(disk).names.retired && disk.names.records == old(disk).names.records
      ensures disk.values == old(disk).values && disk.names.states == old(disk).names.states
      ensures LosesNone(old(disk), disk, history, |old(history)|, lost)
    {
      if settled {
        RemoveAndPass(k);
      } else {
        RequeueAndPass(k);
      }
      SoundIfKeptSince(|old(history)|, old(disk));
    }

    /** One collection pass: at most 32 tickets, each settled or requeued before the persisted
        cursor passes it. */
    method CollectOneUnreachableState(current: Id, first: Look, second: Look)
      returns (outcome: Collection, processed: nat)
      requires Valid()
      modifies `disk, `history
      ensures Valid() && old(history) <= history
      ensures processed <= RECONCILE_TICKETS_PER_PASS
      ensures outcome == Raised ==> disk.names.cursor == old(disk).names.cursor
      ensures outcome != Raised ==> disk.names.cursor == old(disk).names.cursor + processed
      ensures outcome == ScanDeferred ==> processed == RECONCILE_TICKETS_PER_PASS
      ensures outcome == NothingEligible ==> disk.names.cursor == old(disk).names.next
      ensures MeetsMismatch(old(disk).names) ==> outcome == Raised && disk == old(disk) && history == old(history)
      ensures AllReached(old(disk).names, disk.names, current, first, second)
      ensures StateKept(old(disk).names, disk.names, current)
      ensures LosesNone(old(disk), disk, history, |old(history)|, lost)
    {
      var end := disk.names.next;
      var found, cursor;
      found, processed, cursor := ExamineTickets(current, first, second);
      if found == Some(Raised) {
        return Raised, processed;
      }
      WriteReconcileCursor(cursor);
      if found.Some? {
        outcome := found.value;
      } else {
        outcome := if cursor < end then ScanDeferred else NothingEligible;
      }
    }

    method ExamineTickets(current: Id, first: Look, second: Look)
      returns (found: Option<Collection>, processed: nat, cursor: nat)
      requires Valid()
      modifies `disk, `history
      ensures Valid() && disk.names.cursor == old(disk).names.cursor
      ensures cursor == old(disk).names.cursor + processed <= old(disk).names.next <= disk.names.next
      ensures processed <= RECONCILE_TICKETS_PER_PASS
      ensures found.Some? ==> found.value !in {ScanDeferred, NothingEligible}
      ensures found != Some(Raised) ==> Covered(disk.names, cursor) && (watch.Stale? ==> cursor < watch.number)
      ensures found == None ==> processed == RECONCILE_TICKETS_PER_PASS || cursor == old(disk).names.next
      ensures PassEnds(old(disk), old(history), disk, history, found == Some(Raised), current, first, second, lost)
    {
      cursor, processed, found := disk.names.cursor, 0, None;
      var end := disk.names.next;
      PassBegins(disk, history, current, first, second, lost);
      while processed < RECONCILE_TICKETS_PER_PASS && cursor < end
        invariant Valid() && found == None
        invariant disk.names.cursor == old(disk).names.cursor && end == old(disk).names.next <= disk.names.next
        invariant cursor == old(disk).names.cursor + processed <= end && processed <= RECONCILE_TICKETS_PER_PASS
        invariant Covered(disk.names, cursor) && (watch.Stale? ==> cursor < watch.number)
        invariant PassStands(old(disk), old(history), disk, history, cursor, current, first, second, lost)
      {
        ghost var reached := cursor;
        cursor := cursor + 1;
        processed := processed + 1;
        found := ExamineTicket(cursor, reached, old(disk), old(history), current, first, second);
        if found.Some? {
          return;
        }
      }
      PassFinishes(old(disk), old(history), disk, history, cursor, current, first, second, lost);
    }

    /** One step of a pass that started on `d` with `before` behind it. */
    method ExamineTicket(k: nat, ghost reached: nat, ghost d: Disk, ghost before: seq<Disk>, current: Id,
                         first: Look, second: Look)
      returns (found: Option<Collection>)
      requires Valid() && d.names.cursor <= reached && k == reached + 1 && Covered(disk.names, reached)
      requires PassStands(d, before, disk, history, reached, current, first, second, lost)
      modifies `disk, `history
      ensures Valid()
      ensures disk.names.cursor == old(disk).names.cursor && old(disk).names.next <= disk.names.next
      ensures found.Some? ==> found.value !in {ScanDeferred, NothingEligible}
      ensures found != Some(Raised) ==> Covered(disk.names, k) && (watch.Stale? ==> k != watch.number)
      ensures found == None ==> PassStands(d, before, disk, history, k, current, first, second, lost)
      ensures found.Some? ==>
                PassEnds(d, before, disk, history, found == Some(Raised), current, first, second, lost)
    {
      found := CollectTicket(k, current, first, second);
      ReachingAdvances(d.names, old(disk).names, disk.names, k, current, first, second);
      LosesNoneJoined(d, old(disk), disk, old(history), history, |before|, lost);
    }

    method CollectTicket(k: nat, current: Id, first: Look, second: Look) returns (found: Option<Collection>)
      requires Valid() && 0 < k && Covered(disk.names, k - 1)
      modifies `disk, `history
      ensures Valid() && old(history) <= history
      ensures disk.names.cursor == old(disk).names.cursor && old(disk).names.next <= disk.names.next
      ensures found.Some? ==> found.value !in {ScanDeferred, NothingEligible}
      ensures Examines(old(disk).names, disk.names, k, current, first, second)
      ensures Mismatched(old(disk).names, k) ==> found == Some(Raised) && disk == old(disk) && history == old(history)
      ensures Harmless(old(disk).names, k) ==> found == None
      ensures found != Some(Raised) ==> Covered(disk.names, k) && (watch.Stale? ==> k != watch.number)
      ensures StateKept(old(disk).names, disk.names, current)
      ensures LosesNone(old(disk), disk, history, |old(history)|, lost)
    {
      if k !in disk.names.tickets {
        ScanPasses(disk.names, k);
        return None;
      }
      ghost var d := disk;
      match disk.names.tickets[k] {
        case CreatingTicket(stage) =>
          found := CollectCreating(k, stage);
          SoundIfKept(d);
          ExaminesOther(d.names, disk.names, k, current, first, second);
        case RetiredTicket(id) =>
          found := CollectRetired(k, id);
          ExaminesOther(d.names, disk.names, k, current, first, second);
        case StateTicket(id) =>
          found := CollectState(k, id, current, first, second);
      }
    }

    method WriteReconcileCursor(cursor: nat)
      requires Valid() && cursor <= disk.names.next && Covered(disk.names, cursor)
      requires watch.Stale? ==> cursor < watch.number
      modifies `disk, `history
      ensures Valid() && history == old(history) + [disk]
      ensures disk == old(disk).(names := old(disk).names.(cursor := cursor))
      ensures old(SoundOutside(disk, lost)) ==> SoundOutside(disk, lost) && OneMore(disk, lost)
    {
      KeepsCovered(disk.names, disk.names.(cursor := cursor), cursor);
      ghost var d := disk;
      WriteNames(disk.names.(cursor := cursor));
      if SoundOutside(d, lost) {
        SameStatesSound(d, disk, d.values.cursor, lost);
        SoundHasNoOrphan(disk, lost);
      }
    }
  }
}
