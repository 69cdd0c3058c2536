/** The signed fleet snapshot on the status branch: one publisher's update, and any number of
    publishers racing to land theirs. */
module FleetPublication {
  import opened Options

  /** Node names, in their sorting order. */
  type NodeId = nat

  datatype Version = Version(generation: nat, sequence: nat)

  /** One entry of the published list. `key` is the key id it names, `signed` whether its signature and
      payload check out under that key, `shaped` whether it has an entry's keys and size. */
  datatype Item =
    | Junk
    | Entry(node: NodeId, key: Option<nat>, version: Version, content: nat, publishedAt: int, signed: bool,
            shaped: bool)

  /** The reviewed nodes and the key each must sign with. */
  type Trust = map<NodeId, nat>

  type Fleet = seq<Item>

  datatype Reason = Transition | Refresh

  datatype Upserted =
    | Updated(fleet: Fleet, reason: Reason)
    | AlreadyPublished
    | InsideRefreshInterval
    | Rejected

  predicate Verifies(item: Item, trust: Trust) {
    item.Entry? && item.signed && item.node in trust && item.key == Some(trust[item.node])
  }

  /** An entry under another key is kept as it is, provided it is shaped like one. */
  predicate Superseded(item: Item, trust: Trust) {
    item.Entry? && item.node in trust && item.key.Some? && item.key.value != trust[item.node] && item.shaped
  }

  predicate Usable(item: Item, trust: Trust) {
    Verifies(item, trust) || Superseded(item, trust)
  }

  predicate SameOwner(a: Item, b: Item) {
    a.Entry? && b.Entry? && a.node == b.node
  }

  predicate Less(a: Version, b: Version) {
    a.generation < b.generation || (a.generation == b.generation && a.sequence < b.sequence)
  }

  /** The only steps a version may take: one on within a generation, or to one in a later generation. */
  predicate Advances(a: Version, b: Version) {
    || (b.generation == a.generation && b.sequence == a.sequence + 1)
    || (b.generation > a.generation && b.sequence == 1)
  }

  // ---------- Lists of entries ----------

  function Retained(items: Fleet, trust: Trust): Fleet {
    if items == [] then []
    else if items[0].Entry? && items[0].node in trust then [items[0]] + Retained(items[1..], trust)
    else Retained(items[1..], trust)
  }

  predicate Entries(items: Fleet) {
    forall i :: 0 <= i < |items| ==> items[i].Entry?
  }

  predicate UniqueNodes(items: Fleet) {
    Entries(items) && forall i, j :: 0 <= i < j < |items| ==> items[i].node != items[j].node
  }

  predicate Sorted(items: Fleet) {
    Entries(items) && forall i, j :: 0 <= i < j < |items| ==> items[i].node < items[j].node
  }

  function Find(items: Fleet, node: NodeId): (r: Option<nat>)
    requires Entries(items)
    ensures r.Some? ==> r.value < |items| && items[r.value].node == node
    ensures r.None? ==> forall i :: 0 <= i < |items| ==> items[i].node != node
  {
    if items == [] then None
    else if items[0].node == node then Some(0)
    else
      match Find(items[1..], node)
      case None => None
      case Some(i) => Some(i + 1)
  }

  function Insert(item: Item, items: Fleet): Fleet
    requires item.Entry? && Entries(items)
  {
    if items == [] || item.node <= items[0].node then [item] + items
    else [items[0]] + Insert(item, items[1..])
  }

  function Sort(items: Fleet): (r: Fleet)
    requires Entries(items)
    ensures Entries(r) && |r| == |items| && (forall item :: item in r <==> item in items)
  {
    if items == [] then []
    else
      InsertKeeps(items[0], Sort(items[1..]));
      Insert(items[0], Sort(items[1..]))
  }

  lemma {:induction false} InsertKeeps(item: Item, items: Fleet)
    requires item.Entry? && Entries(items)
    ensures var r := Insert(item, items);
            Entries(r) && |r| == |items| + 1 && forall x :: x in r <==> x == item || x in items
  {
    if items != [] && item.node > items[0].node {
      InsertKeeps(item, items[1..]);
    }
  }

  lemma {:induction false} InsertSorts(item: Item, items: Fleet)
    requires item.Entry? && Sorted(items) && forall i :: 0 <= i < |items| ==> items[i].node != item.node
    ensures Sorted(Insert(item, items))
  {
    InsertKeeps(item, items);
    if items != [] && item.node > items[0].node {
      InsertSorts(item, items[1..]);
      InsertKeeps(item, items[1..]);
      var rest := Insert(item, items[1..]);
      forall i | 0 <= i < |rest| ensures items[0].node < rest[i].node {
        assert rest[i] in rest;
      }
    }
  }

  lemma {:induction false} SortSorts(items: Fleet)
    requires UniqueNodes(items)
    ensures Sorted(Sort(items))
  {
    if items != [] {
      SortSorts(items[1..]);
      var rest := Sort(items[1..]);
      forall i | 0 <= i < |rest| ensures rest[i].node != items[0].node {
        assert rest[i] in items[1..];
      }
      InsertSorts(items[0], rest);
    }
  }

  lemma {:induction false} RetainedExact(items: Fleet, trust: Trust)
    ensures Entries(Retained(items, trust)) && |Retained(items, trust)| <= |items|
    ensures forall x :: x in Retained(items, trust) <==> x in items && x.Entry? && x.node in trust
  {
    if items != [] {
      RetainedExact(items[1..], trust);
    }
  }

  // ---------- One update ----------

  function Put(items: Fleet, i: nat, candidate: Item): Fleet
    requires i <= |items|
  {
    if i == |items| then items + [candidate] else items[i := candidate]
  }

  /** The rules for replacing an entry that verifies under the reviewed key. */
  function Replace(items: Fleet, i: nat, candidate: Item, pruned: bool, now: int, interval: int): Upserted
    requires Entries(items) && i < |items| && candidate.Entry?
  {
    var current := items[i];
    var same := candidate.content == current.content;
    if candidate.version == current.version then (if candidate == current then AlreadyPublished else Rejected)
    else if Less(candidate.version, current.version) then Rejected
    else if candidate.version.generation == current.version.generation
            && candidate.version.sequence != current.version.sequence + 1 then Rejected
    else if candidate.version.generation > current.version.generation && candidate.version.sequence != 1 then Rejected
    else if !pruned && same && now - current.publishedAt < interval then InsideRefreshInterval
    else Updated(Sort(Put(items, i, candidate)), if !pruned && same then Refresh else Transition)
  }

  function Upsert(fleet: Fleet, candidate: Item, trust: Trust, now: int, interval: int): Upserted {
    if !Verifies(candidate, trust) || !Entries(fleet) then Rejected
    else
      var items := Retained(fleet, trust);
      RetainedExact(fleet, trust);
      if !UniqueNodes(items) || (exists i :: 0 <= i < |items| && !Usable(items[i], trust)) then Rejected
      else
        match Find(items, candidate.node)
        case None => Updated(Sort(Put(items, |items|, candidate)), Transition)
        case Some(i) =>
          if !Verifies(items[i], trust)
          then if candidate.version.sequence != 1 then Rejected else Updated(Sort(Put(items, i, candidate)), Transition)
          else Replace(items, i, candidate, |items| != |fleet|, now, interval)
  }

  /** The update as the publisher runs it: filter, classify entry by entry, then place the candidate. */
  method UpsertFleet(fleet: Fleet, candidate: Item, trust: Trust, now: int, interval: int) returns (r: Upserted)
    ensures r == Upsert(fleet, candidate, trust, now, interval)
  {
    if !Verifies(candidate, trust) || !Entries(fleet) {
      return Rejected;
    }
    RetainedExact(fleet, trust);
    var retained := Filter(fleet, trust);
    var unique := DistinctNodes(retained);
    if !unique {
      return Rejected;
    }
    var current: set<NodeId> := {};
    for i := 0 to |retained|
      invariant forall j :: 0 <= j < i ==> Usable(retained[j], trust)
      invariant forall j :: 0 <= j < i ==> (retained[j].node in current <==> Verifies(retained[j], trust))
      invariant forall j :: i <= j < |retained| ==> retained[j].node !in current
    {
      if Verifies(retained[i], trust) {
        current := current + {retained[i].node};
      } else if !Superseded(retained[i], trust) {
        return Rejected;
      }
    }
    var place := Find(retained, candidate.node);
    if place.None? {
      return Updated(Sort(retained + [candidate]), Transition);
    }
    var i := place.value;
    if candidate.node !in current {
      if candidate.version.sequence != 1 {
        return Rejected;
      }
      return Updated(Sort(retained[i := candidate]), Transition);
    }
    r := Replace(retained, i, candidate, |retained| != |fleet|, now, interval);
  }

  method Filter(fleet: Fleet, trust: Trust) returns (kept: Fleet)
    ensures kept == Retained(fleet, trust)
  {
    kept := [];
    for i := 0 to |fleet|
      invariant kept + Retained(fleet[i..], trust) == Retained(fleet, trust)
    {
      assert fleet[i..] == [fleet[i]] + fleet[i + 1..];
      if fleet[i].Entry? && fleet[i].node in trust {
        kept := kept + [fleet[i]];
      }
    }
  }

  method DistinctNodes(items: Fleet) returns (ok: bool)
    requires Entries(items)
    ensures ok == UniqueNodes(items)
  {
    var seen: set<NodeId> := {};
    for i := 0 to |items|
      invariant forall j :: 0 <= j < i ==> items[j].node in seen
      invariant forall node :: node in seen ==> exists j :: 0 <= j < i && items[j].node == node
      invariant forall j, k :: 0 <= j < k < i ==> items[j].node != items[k].node
    {
      if items[i].node in seen {
        return false;
      }
      seen := seen + {items[i].node};
    }
    return true;
  }

  // ---------- What one update keeps ----------

  lemma PutUnique(items: Fleet, i: nat, candidate: Item)
    requires UniqueNodes(items) && candidate.Entry? && i <= |items|
    requires if i < |items| then items[i].node == candidate.node
             else forall j :: 0 <= j < |items| ==> items[j].node != candidate.node
    ensures UniqueNodes(Put(items, i, candidate))
    ensures candidate in Put(items, i, candidate)
    ensures forall x :: x in items && x.node != candidate.node ==> x in Put(items, i, candidate)
    ensures forall x :: x in Put(items, i, candidate) ==> x == candidate || (x in items && x.node != candidate.node)
  {
  }

  lemma SameNode(items: Fleet, a: Item, b: Item)
    requires UniqueNodes(items) && a in items && b in items && a.node == b.node
    ensures a == b
  {
  }

  /** What a successful update did to the list of reviewed entries. */
  ghost predicate Step(before: Fleet, candidate: Item, after: Fleet, trust: Trust) {
    && Verifies(candidate, trust) && candidate in after && Sorted(after)
    && (forall x :: x in after ==> Usable(x, trust))
    && (forall x :: x in before && x.Entry? && x.node in trust && x.node != candidate.node ==> x in after)
    && (forall x :: x in after && x != candidate ==> x in before && x.node != candidate.node)
    && (forall x :: x in before && Verifies(x, trust) && x.node == candidate.node ==>
                      Advances(x.version, candidate.version))
  }

  lemma PlacedStep(before: Fleet, items: Fleet, i: nat, candidate: Item, trust: Trust)
    requires items == Retained(before, trust) && UniqueNodes(items) && Verifies(candidate, trust) && i <= |items|
    requires forall j :: 0 <= j < |items| ==> Usable(items[j], trust)
    requires if i < |items| then items[i].node == candidate.node
             else forall j :: 0 <= j < |items| ==> items[j].node != candidate.node
    requires i < |items| && Verifies(items[i], trust) ==> Advances(items[i].version, candidate.version)
    ensures Step(before, candidate, Sort(Put(items, i, candidate)), trust)
  {
    RetainedExact(before, trust);
    PutUnique(items, i, candidate);
    SortSorts(Put(items, i, candidate));
    forall x | x in before && Verifies(x, trust) && x.node == candidate.node
      ensures Advances(x.version, candidate.version)
    {
      var j :| 0 <= j < |items| && items[j] == x;
      if i < |items| {
        SameNode(items, x, items[i]);
      }
    }
  }

  /** Ids stay unique and sorted, every other reviewed entry is kept as it is, and the node's own
      version under its reviewed key takes one allowed step. */
  lemma UpsertSteps(fleet: Fleet, candidate: Item, trust: Trust, now: int, interval: int)
    requires Upsert(fleet, candidate, trust, now, interval).Updated?
    ensures Step(fleet, candidate, Upsert(fleet, candidate, trust, now, interval).fleet, trust)
  {
    RetainedExact(fleet, trust);
    var items := Retained(fleet, trust);
    match Find(items, candidate.node)
    case None => PlacedStep(fleet, items, |items|, candidate, trust);
    case Some(i) => PlacedStep(fleet, items, i, candidate, trust);
  }

  /** Offering what is already there changes nothing. */
  lemma UpsertAgain(fleet: Fleet, candidate: Item, trust: Trust, now: int, interval: int)
    requires Sorted(fleet) && candidate in fleet && Verifies(candidate, trust)
    requires forall x :: x in fleet ==> Usable(x, trust)
    ensures Upsert(fleet, candidate, trust, now, interval) == AlreadyPublished
  {
    RetainedExact(fleet, trust);
    RetainedAll(fleet, trust);
    var i := Find(fleet, candidate.node).value;
    SameNode(fleet, fleet[i], candidate);
  }

  lemma {:induction false} RetainedAll(items: Fleet, trust: Trust)
    requires forall x :: x in items ==> Usable(x, trust)
    ensures Retained(items, trust) == items
  {
    if items != [] {
      assert items[0] in items;
      RetainedAll(items[1..], trust);
    }
  }

  // ---------- Racing publishers ----------

  /** The lists that were head of the branch, in order, and the candidate each landing carried. */
  datatype Branch = Branch(heads: seq<Fleet>, landed: seq<Item>)

  datatype Work = Ready | Fetched(parent: nat, updated: Fleet) | Done

  /** A publisher owns one candidate and tries a bounded number of times. */
  datatype Publisher = Publisher(candidate: Item, now: int, interval: int, left: nat, work: Work)

  datatype System = System(branch: Branch, publishers: map<nat, Publisher>)

  datatype Move =
    | Begin(p: nat, candidate: Item, now: int, interval: int, retries: nat)
    | Fetch(p: nat)
    | Push(p: nat, lands: bool, reported: bool)
    | Quit(p: nat)

  function Head(b: Branch): Fleet
    requires b.heads != []
  {
    b.heads[|b.heads| - 1]
  }

  /** A push lands only on the head it was built on; a landed push may still be reported as failed. */
  ghost function Next(s: System, move: Move, trust: Trust): System
    requires s.branch.heads != []
  {
    match move
    case Begin(p, candidate, now, interval, retries) =>
      if p !in s.publishers && retries <= 3
      then s.(publishers := s.publishers[p := Publisher(candidate, now, interval, retries + 1, Ready)])
      else s
    case Fetch(p) =>
      if p in s.publishers && s.publishers[p].work == Ready && s.publishers[p].left > 0
      then
        var q := s.publishers[p];
        match Upsert(Head(s.branch), q.candidate, trust, q.now, q.interval)
        case Updated(fleet, _) =>
          s.(publishers := s.publishers[p := q.(work := Fetched(|s.branch.heads| - 1, fleet), left := q.left - 1)])
        case _ => s.(publishers := s.publishers[p := q.(work := Done)])
      else s
    case Push(p, lands, reported) =>
      if p in s.publishers && s.publishers[p].work.Fetched?
      then
        var q := s.publishers[p];
        var landing := lands && q.work.parent == |s.branch.heads| - 1;
        var branch :=
          if landing then Branch(s.branch.heads + [q.work.updated], s.branch.landed + [q.candidate]) else s.branch;
        System(branch, s.publishers[p := q.(work := if landing && reported then Done else Ready)])
      else s
    case Quit(p) => s.(publishers := s.publishers - {p})
  }

  ghost function After(s: System, moves: seq<Move>, trust: Trust): (t: System)
    requires s.branch.heads != []
    ensures t.branch.heads != []
  {
    if moves == [] then s else Next(After(s, moves[..|moves| - 1], trust), moves[|moves| - 1], trust)
  }

  /** Consecutive heads are one update apart. */
  ghost predicate Chain(b: Branch, trust: Trust) {
    && |b.heads| == |b.landed| + 1
    && forall k, m :: 0 <= k < |b.landed| && m == k + 1 ==> Step(b.heads[k], b.landed[k], b.heads[m], trust)
  }

  ghost predicate Prepared(s: System, p: nat, trust: Trust)
    requires p in s.publishers && s.publishers[p].work.Fetched?
  {
    var q := s.publishers[p];
    q.work.parent < |s.branch.heads| && Step(s.branch.heads[q.work.parent], q.candidate, q.work.updated, trust)
  }

  ghost predicate Inv(s: System, trust: Trust) {
    && Chain(s.branch, trust)
    && forall p :: p in s.publishers && s.publishers[p].work.Fetched? ==> Prepared(s, p, trust)
  }

  lemma NextKeeps(s: System, move: Move, trust: Trust)
    requires Inv(s, trust)
    ensures Inv(Next(s, move, trust), trust)
    ensures s.branch.heads <= Next(s, move, trust).branch.heads && s.branch.landed <= Next(s, move, trust).branch.landed
  {
    if move.Fetch? && move.p in s.publishers {
      var q := s.publishers[move.p];
      if Upsert(Head(s.branch), q.candidate, trust, q.now, q.interval).Updated? {
        UpsertSteps(Head(s.branch), q.candidate, trust, q.now, q.interval);
      }
    }
  }

  lemma {:induction false} RunsKeep(s: System, moves: seq<Move>, trust: Trust)
    requires Inv(s, trust)
    ensures Inv(After(s, moves, trust), trust)
  {
    if moves != [] {
      RunsKeep(s, moves[..|moves| - 1], trust);
      NextKeeps(After(s, moves[..|moves| - 1], trust), moves[|moves| - 1], trust);
    }
  }

  /** Under its reviewed key, an entry is only ever replaced by one of a greater version. */
  lemma {:induction false} EntryLives(b: Branch, trust: Trust, k: nat, m: nat, x: Item) returns (y: Item)
    requires Chain(b, trust) && k <= m < |b.heads| && x in b.heads[k] && Verifies(x, trust)
    ensures y in b.heads[m] && Verifies(y, trust) && y.node == x.node
    ensures y == x || Less(x.version, y.version)
    ensures (forall j :: k <= j < m ==> !SameOwner(b.landed[j], x)) ==> y == x
    decreases m - k
  {
    if k == m {
      y := x;
    } else {
      y := EntryLives(b, trust, k, m - 1, x);
      var last := b.landed[m - 1];
      assert Step(b.heads[m - 1], last, b.heads[m], trust);
      if last.node == x.node {
        y := last;
      }
    }
  }

  /** Two landings for one node with none for it between. */
  ghost predicate Consecutive(b: Branch, i: nat, j: nat)
    requires i < j < |b.landed|
  {
    SameOwner(b.landed[i], b.landed[j]) && forall k :: i < k < j ==> !SameOwner(b.landed[k], b.landed[i])
  }

  /** Of two landings for one node the later has the greater version, so no candidate lands twice;
      landings that follow each other take exactly one allowed step. */
  lemma LandingsAdvance(b: Branch, trust: Trust, i: nat, j: nat)
    requires Chain(b, trust) && i < j < |b.landed| && SameOwner(b.landed[i], b.landed[j])
    ensures Less(b.landed[i].version, b.landed[j].version) && b.landed[i] != b.landed[j]
    ensures Consecutive(b, i, j) ==> Advances(b.landed[i].version, b.landed[j].version)
  {
    var x := b.landed[i];
    assert Step(b.heads[i], x, b.heads[i + 1], trust);
    var y := EntryLives(b, trust, i + 1, j, x);
    assert Step(b.heads[j], b.landed[j], b.heads[j + 1], trust);
    assert Advances(y.version, b.landed[j].version);
  }

  /** The branch starts with any list at all, well formed or not. */
  ghost function Start(fleet: Fleet): System {
    System(Branch([fleet], []), map[])
  }

  /** For any number of publishers, in any order, with any push failing or reported as failing: every
      published list is sorted without duplicates, versions under the reviewed key only advance, other
      reviewed entries are kept, and no candidate lands twice. */
  lemma EveryRace(fleet: Fleet, moves: seq<Move>, trust: Trust)
    ensures var b := After(Start(fleet), moves, trust).branch;
            && Chain(b, trust)
            && (forall i, j :: 0 <= i < j < |b.landed| && SameOwner(b.landed[i], b.landed[j]) ==>
                                 Less(b.landed[i].version, b.landed[j].version) && b.landed[i] != b.landed[j])
            && (forall i, j :: 0 <= i < j < |b.landed| && Consecutive(b, i, j) ==>
                                 Advances(b.landed[i].version, b.landed[j].version))
  {
    RunsKeep(Start(fleet), moves, trust);
    var b := After(Start(fleet), moves, trust).branch;
    forall i, j | 0 <= i < j < |b.landed| && SameOwner(b.landed[i], b.landed[j])
      ensures Less(b.landed[i].version, b.landed[j].version) && b.landed[i] != b.landed[j]
      ensures Consecutive(b, i, j) ==> Advances(b.landed[i].version, b.landed[j].version)
    {
      LandingsAdvance(b, trust, i, j);
    }
  }

  lemma LandedNeverAgain(b: Branch, trust: Trust, i: nat, now: int, interval: int)
    requires Chain(b, trust) && i < |b.landed|
    ensures var again := Upsert(Head(b), b.landed[i], trust, now, interval);
            && !again.Updated?
            && ((forall k :: i < k < |b.landed| ==> !SameOwner(b.landed[k], b.landed[i])) ==> again == AlreadyPublished)
  {
    var x := b.landed[i];
    var last := |b.landed|;
    assert Step(b.heads[i], x, b.heads[i + 1], trust);
    var y := EntryLives(b, trust, i + 1, last, x);
    assert Step(b.heads[last - 1], b.landed[last - 1], b.heads[last], trust);
    if y == x {
      UpsertAgain(Head(b), x, trust, now, interval);
    } else {
      OlderNeverLands(Head(b), x, y, trust, now, interval);
    }
  }

  lemma OlderNeverLands(fleet: Fleet, x: Item, y: Item, trust: Trust, now: int, interval: int)
    requires y in fleet && Verifies(y, trust) && SameOwner(x, y) && Less(x.version, y.version)
    ensures !Upsert(fleet, x, trust, now, interval).Updated?
  {
    if Upsert(fleet, x, trust, now, interval).Updated? {
      UpsertSteps(fleet, x, trust, now, interval);
      assert false;
    }
  }

  /** A publisher whose push landed but was reported as failed finds its snapshot already published,
      unless a newer one has landed meanwhile; either way it never lands again. */
  lemma RetryAfterLanding(fleet: Fleet, moves: seq<Move>, trust: Trust, i: nat, now: int, interval: int)
    requires i < |After(Start(fleet), moves, trust).branch.landed|
    ensures var b := After(Start(fleet), moves, trust).branch;
            var again := Upsert(Head(b), b.landed[i], trust, now, interval);
            && !again.Updated?
            && ((forall k :: i < k < |b.landed| ==> !SameOwner(b.landed[k], b.landed[i])) ==> again == AlreadyPublished)
  {
    RunsKeep(Start(fleet), moves, trust);
    LandedNeverAgain(After(Start(fleet), moves, trust).branch, trust, i, now, interval);
  }
}
