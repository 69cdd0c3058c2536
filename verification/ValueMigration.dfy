/** The move from the single v1 value catalog to per-state records and tickets, written so that it
    can be cut off after any write and started again. */
module ValueMigration {
  import opened HotDisk

  datatype LegacyFields = LegacyFields(file: nat, lastUse: nat, useCount: nat)

  datatype Catalog =
    | V1(useSequence: nat, pressure: bool, states: map<Id, LegacyFields>)
    | V2(useSequence: nat, next: nat, cursor: nat, pressure: bool)
    | Absent

  /** What is read where there is no catalog. */
  const EMPTY_CATALOG := V2(0, 0, 0, false)

  datatype Store = Store(catalog: Catalog, tickets: map<nat, ValueTicket>, records: map<Id, ValueRecord>)

  datatype Outcome = Migrated | ConflictingTicket | ConflictingRecord

  // ---------- The order of the tickets ----------

  predicate Before(states: map<Id, LegacyFields>, a: Id, b: Id)
    requires a in states && b in states
  {
    states[a].lastUse < states[b].lastUse || (states[a].lastUse == states[b].lastUse && a < b)
  }

  /** `order` lists every state once, by last use and then identity. */
  ghost predicate IsOrder(states: map<Id, LegacyFields>, order: seq<Id>) {
    && (forall id :: id in order <==> id in states)
    && (forall i, j :: 0 <= i < j < |order| ==> Before(states, order[i], order[j]))
  }

  lemma NextIsNotLater(states: map<Id, LegacyFields>, a: seq<Id>, b: seq<Id>, n: nat)
    requires IsOrder(states, a) && IsOrder(states, b) && n < |a| && n <= |b| && a[..n] == b[..n]
    ensures n < |b| && (b[n] == a[n] || Before(states, b[n], a[n]))
  {
    assert a[n] in states;
    var j :| 0 <= j < |b| && b[j] == a[n];
    assert forall k :: 0 <= k < n ==> b[k] == a[..n][k] && Before(states, a[k], a[n]);
  }

  lemma {:induction false} OrderPrefixUnique(states: map<Id, LegacyFields>, a: seq<Id>, b: seq<Id>, n: nat)
    requires IsOrder(states, a) && IsOrder(states, b) && n <= |a|
    ensures n <= |b| && a[..n] == b[..n]
  {
    if n > 0 {
      OrderPrefixUnique(states, a, b, n - 1);
      NextIsNotLater(states, a, b, n - 1);
      NextIsNotLater(states, b, a, n - 1);
      assert a[..n] == a[..n - 1] + [a[n - 1]];
      assert b[..n] == b[..n - 1] + [b[n - 1]];
    }
  }

  /** There is only one such order, so every rerun numbers the tickets alike. */
  lemma OrderUnique(states: map<Id, LegacyFields>, a: seq<Id>, b: seq<Id>)
    requires IsOrder(states, a) && IsOrder(states, b)
    ensures a == b
  {
    OrderPrefixUnique(states, a, b, |a|);
    OrderPrefixUnique(states, b, a, |b|);
  }

  method Least(states: map<Id, LegacyFields>, rest: set<Id>) returns (least: Id)
    requires rest <= states.Keys && rest != {}
    ensures least in rest && forall id :: id in rest && id != least ==> Before(states, least, id)
  {
    least :| least in rest;
    var left := rest - {least};
    while left != {}
      invariant left <= rest && least in rest && least !in left
      invariant forall id :: id in rest && id !in left && id != least ==> Before(states, least, id)
    {
      var id :| id in left;
      left := left - {id};
      if Before(states, id, least) {
        least := id;
      }
    }
  }

  method SortStates(states: map<Id, LegacyFields>) returns (order: seq<Id>)
    ensures IsOrder(states, order)
  {
    order := [];
    var rest := states.Keys;
    while rest != {}
      invariant rest <= states.Keys
      invariant forall id :: id in order <==> id in states && id !in rest
      invariant forall i, j :: 0 <= i < j < |order| ==> Before(states, order[i], order[j])
      invariant forall i, id :: 0 <= i < |order| && id in rest ==> Before(states, order[i], id)
    {
      var least := Least(states, rest);
      order := order + [least];
      rest := rest - {least};
    }
  }

  // ---------- What is on disk after any prefix of the writes ----------

  function TicketFor(states: map<Id, LegacyFields>, order: seq<Id>, i: nat): ValueTicket
    requires i < |order| && forall id :: id in order ==> id in states
  {
    ValueTicket(order[i], states[order[i]].lastUse)
  }

  function RecordFor(states: map<Id, LegacyFields>, order: seq<Id>, i: nat): ValueRecord
    requires i < |order| && forall id :: id in order ==> id in states
  {
    var fields := states[order[i]];
    ValueRecord(fields.file, fields.lastUse, fields.useCount, i + 1)
  }

  ghost predicate Holds(s: Store, states: map<Id, LegacyFields>, order: seq<Id>, tickets: nat, records: nat)
    requires forall id :: id in order ==> id in states
  {
    && records <= tickets <= |order|
    && (forall k :: k in s.tickets <==> 0 < k <= tickets)
    && (forall k :: 0 < k <= tickets ==> s.tickets[k] == TicketFor(states, order, k - 1))
    && (forall id :: id in s.records <==> id in order[..records])
    && (forall i :: 0 <= i < records ==> order[i] in s.records && s.records[order[i]] == RecordFor(states, order, i))
  }

  /** `s` is the v1 store `origin` after some prefix of the migration's writes. */
  ghost predicate Interrupted(origin: Store, s: Store, order: seq<Id>) {
    Reached(origin, s, order, 0)
  }

  /** As `Interrupted`, with the first `done` states certainly written. */
  ghost predicate Reached(origin: Store, s: Store, order: seq<Id>, done: nat) {
    && origin.catalog.V1? && s.catalog == origin.catalog && IsOrder(origin.catalog.states, order)
    && exists tickets: nat, records: nat ::
         done <= records <= tickets <= records + 1 && Holds(s, origin.catalog.states, order, tickets, records)
  }

  /** `s` is `origin` fully migrated. */
  ghost predicate Final(origin: Store, s: Store, order: seq<Id>) {
    && origin.catalog.V1? && IsOrder(origin.catalog.states, order)
    && s.catalog == V2(origin.catalog.useSequence, |order|, 0, origin.catalog.pressure)
    && Holds(s, origin.catalog.states, order, |order|, |order|)
  }

  /** A v1 catalog is validated on reading: every last use is positive and at most the sequence. */
  predicate ValidV1(c: Catalog) {
    c.V1? && forall id :: id in c.states ==> 0 < c.states[id].lastUse <= c.useSequence
  }

  lemma HoldsDetermines(s: Store, t: Store, states: map<Id, LegacyFields>, order: seq<Id>, tickets: nat, records: nat)
    requires forall id :: id in order ==> id in states
    requires Holds(s, states, order, tickets, records) && Holds(t, states, order, tickets, records)
    ensures s.tickets == t.tickets && s.records == t.records
  {
  }

  /** Any two completed migrations of one catalog, however often either was cut off, leave the same
      records, tickets and catalog. */
  lemma FinalUnique(origin: Store, s: Store, t: Store, a: seq<Id>, b: seq<Id>)
    requires Final(origin, s, a) && Final(origin, t, b)
    ensures s == t
  {
    OrderUnique(origin.catalog.states, a, b);
    HoldsDetermines(s, t, origin.catalog.states, a, |a|, |a|);
  }

  /** The tickets of a migrated store are 1..n in order of last use, then identity. */
  lemma FinalTicketsOrdered(origin: Store, s: Store, order: seq<Id>, a: nat, b: nat)
    requires Final(origin, s, order) && 0 < a < b <= |order|
    ensures a in s.tickets && b in s.tickets
    ensures s.tickets[a].lastUse < s.tickets[b].lastUse
            || (s.tickets[a].lastUse == s.tickets[b].lastUse && s.tickets[a].id < s.tickets[b].id)
    ensures forall k :: k in s.tickets <==> 0 < k <= s.catalog.next
  {
    var states := origin.catalog.states;
    assert s.tickets[a] == TicketFor(states, order, a - 1) && s.tickets[b] == TicketFor(states, order, b - 1);
    assert Before(states, order[a - 1], order[b - 1]);
  }

  /** A migrated store starts out with every record pointing at its own ticket, ahead of the cursor. */
  lemma FinalIsSound(origin: Store, s: Store, order: seq<Id>, names: Names)
    requires Final(origin, s, order) && ValidV1(origin.catalog)
    ensures var v := Values(s.catalog.useSequence, s.catalog.next, s.catalog.cursor, s.catalog.pressure, s.tickets,
                            s.records);
            ValuesSafe(v) && ValueSound(Disk(names, v))
  {
    var v := Values(s.catalog.useSequence, s.catalog.next, s.catalog.cursor, s.catalog.pressure, s.tickets, s.records);
    forall id | id in v.records ensures OwnTicket(v, id) && Points(v, id, 0) {
      var i :| 0 <= i < |order| && order[..|order|][i] == id;
      assert order[i] == id;
      assert s.tickets[i + 1] == TicketFor(origin.catalog.states, order, i);
    }
  }

  // ---------- What is on disk when metadata was removed in between ----------

  /** A v1 store with any of the tickets and records the migration writes, and none other. This is
      what cut-off migrations and removals of metadata leave, in any order. */
  ghost predicate Partial(origin: Store, s: Store, order: seq<Id>) {
    && origin.catalog.V1? && s.catalog == origin.catalog && IsOrder(origin.catalog.states, order)
    && (forall k :: k in s.tickets ==>
          0 < k <= |order| && s.tickets[k] == TicketFor(origin.catalog.states, order, k - 1))
    && (forall id :: id in s.records ==> id in order)
    && (forall i :: 0 <= i < |order| && order[i] in s.records ==>
          s.records[order[i]] == RecordFor(origin.catalog.states, order, i))
  }

  /** The first `done` states have their ticket and record. */
  ghost predicate Done(s: Store, order: seq<Id>, done: nat) {
    && done <= |order|
    && (forall k :: 0 < k <= done ==> k in s.tickets)
    && (forall i :: 0 <= i < done ==> order[i] in s.records)
  }

  lemma HoldsIsPartial(origin: Store, s: Store, order: seq<Id>, tickets: nat, records: nat)
    requires origin.catalog.V1? && s.catalog == origin.catalog && IsOrder(origin.catalog.states, order)
    requires Holds(s, origin.catalog.states, order, tickets, records)
    ensures Partial(origin, s, order)
  {
    forall id | id in s.records ensures id in order {
      assert id in order[..records];
    }
    forall i | 0 <= i < |order| && order[i] in s.records
      ensures s.records[order[i]] == RecordFor(origin.catalog.states, order, i)
    {
      var j :| 0 <= j < records && order[..records][j] == order[i];
      assert i == j;
    }
  }

  lemma InterruptedIsPartial(origin: Store, s: Store, order: seq<Id>)
    requires Interrupted(origin, s, order)
    ensures Partial(origin, s, order)
  {
    var tickets: nat, records: nat :|
      records <= tickets <= records + 1 && Holds(s, origin.catalog.states, order, tickets, records);
    HoldsIsPartial(origin, s, order, tickets, records);
  }

  lemma DoneHolds(origin: Store, s: Store, order: seq<Id>)
    requires Partial(origin, s, order) && Done(s, order, |order|)
    ensures Holds(s, origin.catalog.states, order, |order|, |order|)
  {
    assert order[..|order|] == order;
    forall id | id in order ensures id in s.records {
      var i :| 0 <= i < |order| && order[i] == id;
    }
  }

  /** Removing a state's metadata, all of it or only its ticket, leaves a partial store. */
  lemma RemovalStaysPartial(origin: Store, s: Store, order: seq<Id>, id: Id)
    requires Partial(origin, s, order) && id in s.records
    ensures Partial(origin, s.(tickets := s.tickets - {s.records[id].ticket}), order)
    ensures Partial(origin, s.(records := s.records - {id}), order)
  {
  }

  // ---------- The migration ----------

  lemma NextTicketHolds(s: Store, states: map<Id, LegacyFields>, order: seq<Id>, i: nat)
    requires i < |order| && (forall id :: id in order ==> id in states) && Holds(s, states, order, i, i)
    ensures Holds(s.(tickets := s.tickets[i + 1 := TicketFor(states, order, i)]), states, order, i + 1, i)
  {
  }

  lemma NextRecordHolds(s: Store, states: map<Id, LegacyFields>, order: seq<Id>, i: nat)
    requires i < |order| && IsOrder(states, order) && Holds(s, states, order, i + 1, i)
    ensures Holds(s.(records := s.records[order[i] := RecordFor(states, order, i)]), states, order, i + 1, i + 1)
  {
    var s' := s.(records := s.records[order[i] := RecordFor(states, order, i)]);
    assert order[..i + 1] == order[..i] + [order[i]];
    forall j | 0 <= j <= i ensures order[j] in s'.records && s'.records[order[j]] == RecordFor(states, order, j) {
    }
  }

  lemma PresentExactly(s: Store, states: map<Id, LegacyFields>, order: seq<Id>, t: nat, r: nat, i: nat)
    requires i < |order| && IsOrder(states, order) && Holds(s, states, order, t, r)
    ensures i + 1 in s.tickets <==> i < t
    ensures order[i] in s.records <==> i < r
  {
    if order[i] in s.records {
      var j :| 0 <= j < r && order[..r][j] == order[i];
      assert i == j;
    }
  }

  /** A crash point of a migration: partial, and `exact` says that no metadata was ever removed, in
      which case it is a prefix of the migration's writes. */
  ghost predicate CutOff(origin: Store, s: Store, order: seq<Id>, exact: bool) {
    Partial(origin, s, order) && (exact ==> Interrupted(origin, s, order))
  }

  /** Before the ticket of state `i`. */
  ghost predicate AtTicket(origin: Store, s: Store, order: seq<Id>, i: nat, exact: bool) {
    Partial(origin, s, order) && Done(s, order, i) && (exact ==> Reached(origin, s, order, i))
  }

  /** Between the ticket and the record of state `i`. */
  ghost predicate AtRecord(origin: Store, s: Store, order: seq<Id>, i: nat, exact: bool) {
    && Partial(origin, s, order) && Done(s, order, i) && i < |order| && i + 1 in s.tickets
    && (exact ==> exists tickets: nat, records: nat ::
          i <= records <= tickets <= records + 1 && Holds(s, origin.catalog.states, order, tickets, records))
  }

  lemma TicketStep(origin: Store, s: Store, s': Store, order: seq<Id>, i: nat, exact: bool)
    requires AtTicket(origin, s, order, i, exact) && i < |order|
    requires s' == if i + 1 in s.tickets then s
                   else s.(tickets := s.tickets[i + 1 := TicketFor(origin.catalog.states, order, i)])
    ensures AtRecord(origin, s', order, i, exact)
  {
    if exact && i + 1 !in s.tickets {
      var t: nat, r: nat :| i <= r <= t <= r + 1 && Holds(s, origin.catalog.states, order, t, r);
      PresentExactly(s, origin.catalog.states, order, t, r, i);
      NextTicketHolds(s, origin.catalog.states, order, i);
    }
  }

  lemma RecordIsPartial(origin: Store, s: Store, s': Store, order: seq<Id>, i: nat)
    requires Partial(origin, s, order) && i < |order|
    requires s' == s.(records := s.records[order[i] := RecordFor(origin.catalog.states, order, i)])
    ensures Partial(origin, s', order)
  {
    forall j | 0 <= j < |order| && order[j] in s'.records
      ensures s'.records[order[j]] == RecordFor(origin.catalog.states, order, j)
    {
      assert order[j] == order[i] ==> i == j;
    }
  }

  lemma RecordStep(origin: Store, s: Store, s': Store, order: seq<Id>, i: nat, exact: bool)
    requires AtRecord(origin, s, order, i, exact)
    requires s' == if order[i] in s.records then s
                   else s.(records := s.records[order[i] := RecordFor(origin.catalog.states, order, i)])
    ensures AtTicket(origin, s', order, i + 1, exact)
  {
    if order[i] !in s.records {
      RecordIsPartial(origin, s, s', order, i);
    }
    if exact {
      var t: nat, r: nat :| i <= r <= t <= r + 1 && Holds(s, origin.catalog.states, order, t, r);
      PresentExactly(s, origin.catalog.states, order, t, r, i);
      if order[i] !in s.records {
        NextRecordHolds(s, origin.catalog.states, order, i);
      }
    }
  }

  ghost predicate Keeps(origin: Store, order: seq<Id>, before: seq<Store>, after: seq<Store>, exact: bool) {
    before <= after && forall k :: |before| <= k < |after| ==> CutOff(origin, after[k], order, exact)
  }

  lemma KeepsTransitive(origin: Store, order: seq<Id>, a: seq<Store>, b: seq<Store>, c: seq<Store>, exact: bool)
    requires Keeps(origin, order, a, b, exact) && Keeps(origin, order, b, c, exact)
    ensures Keeps(origin, order, a, c, exact)
  {
    forall k | |a| <= k < |c| ensures CutOff(origin, c[k], order, exact) {
      assert k < |b| ==> c[k] == b[k];
    }
  }

  /** Only crash points of the migration, or its end, were written since `before`. */
  ghost predicate KeepsOrEnds(origin: Store, order: seq<Id>, before: seq<Store>, after: seq<Store>, exact: bool) {
    && before <= after
    && forall k :: |before| <= k < |after| ==>
         CutOff(origin, after[k], order, exact) || Final(origin, after[k], order)
  }

  lemma KeepsThenEnds(origin: Store, order: seq<Id>, a: seq<Store>, b: seq<Store>, s: Store, exact: bool)
    requires Keeps(origin, order, a, b, exact) && Final(origin, s, order)
    ensures KeepsOrEnds(origin, order, a, b + [s], exact)
  {
    forall k | |a| <= k < |b + [s]|
      ensures CutOff(origin, (b + [s])[k], order, exact) || Final(origin, (b + [s])[k], order)
    {
      if k < |b| {
        assert (b + [s])[k] == b[k];
      }
    }
  }

  lemma LastWriteEnds(origin: Store, s: Store, order: seq<Id>)
    requires Partial(origin, s, order) && Done(s, order, |order|)
    ensures Final(origin, s.(catalog := V2(s.catalog.useSequence, |order|, 0, s.catalog.pressure)), order)
  {
    DoneHolds(origin, s, order);
  }

  /** What may happen to a v1 store: a read of the catalog or a removal of a state's metadata, either
      cut off after some of its writes. */
  datatype Event = CutRead(writes: nat) | CutRemoval(id: Id, writes: nat)

  class ValueStore {
    var store: Store
    var history: seq<Store>

    constructor (s: Store)
      ensures store == s && history == [s]
    {
      store := s;
      history := [s];
    }

    method Write(s: Store)
      modifies this
      ensures store == s && history == old(history) + [s]
    {
      store := s;
      history := history + [s];
    }

    method Restart(k: nat)
      requires k < |history|
      modifies this
      ensures store == old(history)[k] && history == old(history) + [store]
    {
      store := history[k];
      history := history + [store];
    }

    /** Writes ticket `i + 1` unless it is there already. */
    method PutTicket(order: seq<Id>, i: nat, ghost origin: Store, ghost exact: bool) returns (conflict: bool)
      requires AtTicket(origin, store, order, i, exact) && i < |order|
      modifies this
      ensures !conflict && AtRecord(origin, store, order, i, exact)
      ensures Keeps(origin, order, old(history), history, exact)
    {
      var expected := TicketFor(store.catalog.states, order, i);
      if i + 1 !in store.tickets {
        Write(store.(tickets := store.tickets[i + 1 := expected]));
        TicketStep(origin, old(store), store, order, i, exact);
        return false;
      }
      TicketStep(origin, store, store, order, i, exact);
      return store.tickets[i + 1] != expected;
    }

    /** Writes the record of the state at `i` unless it is there already. */
    method PutRecord(order: seq<Id>, i: nat, ghost origin: Store, ghost exact: bool) returns (conflict: bool)
      requires AtRecord(origin, store, order, i, exact)
      modifies this
      ensures !conflict && AtTicket(origin, store, order, i + 1, exact)
      ensures Keeps(origin, order, old(history), history, exact)
    {
      var expected := RecordFor(store.catalog.states, order, i);
      if order[i] !in store.records {
        Write(store.(records := store.records[order[i] := expected]));
        RecordStep(origin, old(store), store, order, i, exact);
        return false;
      }
      RecordStep(origin, store, store, order, i, exact);
      return store.records[order[i]] != expected;
    }

    method PutState(order: seq<Id>, i: nat, ghost origin: Store, ghost exact: bool) returns (outcome: Outcome)
      requires AtTicket(origin, store, order, i, exact) && i < |order|
      modifies this
      ensures outcome == Migrated && AtTicket(origin, store, order, i + 1, exact)
      ensures Keeps(origin, order, old(history), history, exact)
    {
      var conflict := PutTicket(order, i, origin, exact);
      if conflict {
        return ConflictingTicket;
      }
      ghost var between := history;
      conflict := PutRecord(order, i, origin, exact);
      KeepsTransitive(origin, order, old(history), between, history, exact);
      if conflict {
        return ConflictingRecord;
      }
      return Migrated;
    }

    /** Puts the ticket and then the record of every state, in order. */
    method PutAll(order: seq<Id>, ghost origin: Store, ghost exact: bool) returns (outcome: Outcome)
      requires CutOff(origin, store, order, exact)
      modifies this
      ensures outcome == Migrated && AtTicket(origin, store, order, |order|, exact)
      ensures Keeps(origin, order, old(history), history, exact)
    {
      for i := 0 to |order|
        invariant AtTicket(origin, store, order, i, exact)
        invariant Keeps(origin, order, old(history), history, exact)
      {
        ghost var before := history;
        outcome := PutState(order, i, origin, exact);
        KeepsTransitive(origin, order, old(history), before, history, exact);
        if outcome != Migrated {
          return;
        }
      }
      return Migrated;
    }

    /** Runs the migration from wherever an earlier one was cut off, to the end, whatever metadata was
        removed since. */
    method Migrate(ghost origin: Store, ghost known: seq<Id>, ghost exact: bool) returns (outcome: Outcome)
      requires CutOff(origin, store, known, exact)
      modifies this
      ensures outcome == Migrated && Final(origin, store, known)
      ensures KeepsOrEnds(origin, known, old(history), history, exact)
    {
      var order := SortStates(store.catalog.states);
      OrderUnique(store.catalog.states, order, known);
      outcome := PutAll(order, origin, exact);
      if outcome == Migrated {
        LastWriteEnds(origin, store, order);
        ghost var before := history;
        Write(store.(catalog := V2(store.catalog.useSequence, |order|, 0, store.catalog.pressure)));
        KeepsThenEnds(origin, order, old(history), before, store, exact);
      }
    }

    /** Reading the catalog migrates a v1 store, leaves a migrated one alone, and reads a missing one as empty. */
    method ReadCatalog(ghost origin: Store, ghost known: seq<Id>, ghost exact: bool) returns (catalog: Catalog)
      requires store.catalog.V1? ==> CutOff(origin, store, known, exact)
      modifies this
      ensures old(store.catalog).V1? ==> Final(origin, store, known) && catalog == store.catalog
      ensures !old(store.catalog).V1? ==> store == old(store) && history == old(history)
      ensures old(store.catalog).V2? ==> catalog == store.catalog
      ensures old(store.catalog).Absent? ==> catalog == EMPTY_CATALOG
      ensures KeepsOrEnds(origin, known, old(history), history, exact)
    {
      if store.catalog.Absent? {
        return EMPTY_CATALOG;
      }
      if store.catalog.V1? {
        var _ := Migrate(origin, known, exact);
      }
      return store.catalog;
    }

    /** Removes the ticket a state's record names and then the record. It never reads the catalog, so
        it may find a migration half done. */
    method RemoveMetadata(id: Id, ghost origin: Store, ghost known: seq<Id>)
      requires Partial(origin, store, known)
      modifies this
      ensures store == old(store).(records := old(store.records) - {id}, tickets := store.tickets)
      ensures store.tickets == if id in old(store.records) then old(store.tickets - {store.records[id].ticket})
                               else old(store.tickets)
      ensures old(history) <= history
      ensures forall k :: |old(history)| <= k < |history| ==> Partial(origin, history[k], known)
    {
      if id in store.records {
        RemovalStaysPartial(origin, store, known, id);
        Write(store.(tickets := store.tickets - {store.records[id].ticket}));
        RemovalStaysPartial(origin, store, known, id);
        Write(store.(records := store.records - {id}));
      }
    }

    /** One event of a run: it has its effect up to the write after which it is cut off. */
    method Interrupt(event: Event, ghost origin: Store, ghost known: seq<Id>)
      requires Partial(origin, store, known) || Final(origin, store, known)
      modifies this
      ensures Partial(origin, store, known) || Final(origin, store, known)
    {
      var start := |history|;
      var before := store;
      match event
      case CutRead(_) =>
        var _ := ReadCatalog(origin, known, false);
      case CutRemoval(id, _) =>
        if store.catalog.V1? {
          RemoveMetadata(id, origin, known);
        }
      var written := |history| - start;
      if event.writes == 0 || written == 0 {
        Write(before);
      } else {
        Restart(start + (if event.writes <= written then event.writes else written) - 1);
      }
    }

    /** Any number of reads and, while the store is v1, removals of metadata, each cut off after any of
        its writes, and then a read that completes. */
    method MigrateThroughCrashes(events: seq<Event>, ghost known: seq<Id>) returns (catalog: Catalog)
      requires store.catalog.V1? && store.tickets == map[] && store.records == map[]
      requires IsOrder(store.catalog.states, known) && history == [store]
      modifies this
      ensures Final(old(store), store, known) && catalog == store.catalog
    {
      ghost var origin := store;
      for i := 0 to |events|
        invariant Partial(origin, store, known) || Final(origin, store, known)
      {
        Interrupt(events[i], origin, known);
      }
      catalog := ReadCatalog(origin, known, false);
    }
  }
}
