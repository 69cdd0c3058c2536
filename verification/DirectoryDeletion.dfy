/** How a retired hot-state tree of any depth is removed under a budget, keeping one directory open:
    whatever is nested is first renamed into the root, so that work is only ever done there. */
module DirectoryDeletion {

  /** Device, inode and change time of a directory, as its promoted name spells them out. The change time
      is the one it has when it is promoted; until then nothing below it is touched, and what renaming or
      emptying it does to its time afterwards names nothing. */
  datatype Stamp = Stamp(device: nat, inode: nat, changeTime: nat)

  /** Entry names, by the forms the deleter tells apart.  `Promoted(s)` is the name
      `.delete-v2-<device>-<inode>-<ctime>`; fixed separators make it injective in the stamp. */
  datatype Name = Manifest | Promoted(stamp: Stamp) | Plain(text: string)

  /** What a scan can find.  `Foreign` is an entry of another owner or device, or of a file type
      that is neither regular, symbolic link nor directory. */
  datatype Entry =
    | File(name: Name)
    | Foreign(name: Name)
    | Directory(name: Name, stamp: Stamp, children: seq<Entry>)

  predicate Kept(e: Entry, preserveManifest: bool) {
    preserveManifest && e.name == Manifest
  }

  /** The entries that a completed pass leaves behind. */
  function Preserved(es: seq<Entry>, preserveManifest: bool): seq<Entry> {
    if es == [] then []
    else (if Kept(es[0], preserveManifest) then [es[0]] else []) + Preserved(es[1..], preserveManifest)
  }

  /** Units spent on entries below the root: a nested directory costs a promotion and an rmdir. */
  function NestedWork(es: seq<Entry>): nat {
    if es == [] then 0
    else (match es[0]
          case Directory(_, _, children) => 2 + NestedWork(children)
          case _ => 1) + NestedWork(es[1..])
  }

  function EntryWork(e: Entry): nat {
    match e
    case Directory(_, _, children) => 1 + NestedWork(children)
    case _ => 1
  }

  /** Units needed to empty the root, the preserved manifest excluded. */
  function Work(es: seq<Entry>, preserveManifest: bool): nat {
    if es == [] then 0
    else (if Kept(es[0], preserveManifest) then 0 else EntryWork(es[0])) + Work(es[1..], preserveManifest)
  }

  // ---------- The independent count: files + 2 * directories - top-level directories ----------

  function Files(es: seq<Entry>): nat {
    if es == [] then 0
    else (match es[0]
          case Directory(_, _, children) => Files(children)
          case _ => 1) + Files(es[1..])
  }

  function Directories(es: seq<Entry>): nat {
    if es == [] then 0
    else (match es[0]
          case Directory(_, _, children) => 1 + Directories(children)
          case _ => 0) + Directories(es[1..])
  }

  function TopDirectories(es: seq<Entry>): nat {
    if es == [] then 0
    else (if es[0].Directory? then 1 else 0) + TopDirectories(es[1..])
  }

  function Unkept(es: seq<Entry>, preserveManifest: bool): seq<Entry> {
    if es == [] then []
    else (if Kept(es[0], preserveManifest) then [] else [es[0]]) + Unkept(es[1..], preserveManifest)
  }

  lemma {:induction false} NestedWorkCounts(es: seq<Entry>)
    ensures NestedWork(es) == Files(es) + 2 * Directories(es)
    decreases es
  {
    if es != [] {
      NestedWorkCounts(es[1..]);
      match es[0]
      case Directory(_, _, children) => NestedWorkCounts(children);
      case _ =>
    }
  }

  lemma {:induction false} UnkeptWorkCounts(es: seq<Entry>)
    ensures Work(es, false) == Files(es) + 2 * Directories(es) - TopDirectories(es)
  {
    if es != [] {
      UnkeptWorkCounts(es[1..]);
      match es[0]
      case Directory(_, _, children) => NestedWorkCounts(children);
      case _ =>
    }
  }

  lemma {:induction false} WorkIgnoresKept(es: seq<Entry>, preserveManifest: bool)
    ensures Work(es, preserveManifest) == Work(Unkept(es, preserveManifest), false)
  {
    if es != [] {
      WorkIgnoresKept(es[1..], preserveManifest);
      var rest := Unkept(es[1..], preserveManifest);
      if !Kept(es[0], preserveManifest) {
        assert ([es[0]] + rest)[1..] == rest;
      } else {
        assert [] + rest == rest;
      }
    }
  }

  /** The work measure is what the entries to delete count up to. */
  lemma WorkCountsEntries(es: seq<Entry>, preserveManifest: bool)
    ensures var rest := Unkept(es, preserveManifest);
            Work(es, preserveManifest) == Files(rest) + 2 * Directories(rest) - TopDirectories(rest)
  {
    WorkIgnoresKept(es, preserveManifest);
    UnkeptWorkCounts(Unkept(es, preserveManifest));
  }

  // ---------- Obstacles: foreign entries and taken promotion names ----------

  predicate NoForeign(es: seq<Entry>) {
    es != [] ==>
      && (match es[0]
          case Foreign(_) => false
          case File(_) => true
          case Directory(_, _, children) => NoForeign(children))
      && NoForeign(es[1..])
  }

  /** Stamps of the directories in `es` and below, each one a promotion still to come when `es`
      are the children of a root entry. */
  function Stamps(es: seq<Entry>): multiset<Stamp> {
    if es == [] then multiset{}
    else (match es[0]
          case Directory(_, stamp, children) => multiset{stamp} + Stamps(children)
          case _ => multiset{}) + Stamps(es[1..])
  }

  function EntryClaims(e: Entry): multiset<Stamp> {
    (if e.name.Promoted? then multiset{e.name.stamp} else multiset{})
    + (if e.Directory? then Stamps(e.children) else multiset{})
  }

  /** Promotion names in use at the root or still to be used there.  Promoting a directory moves
      its stamp from the second kind to the first. */
  function Claims(es: seq<Entry>): multiset<Stamp> {
    if es == [] then multiset{} else EntryClaims(es[0]) + Claims(es[1..])
  }

  ghost predicate DistinctClaims(es: seq<Entry>) {
    forall s :: Claims(es)[s] <= 1
  }

  /** Every entry can be removed: none is foreign, and no two promotions want one name. */
  ghost predicate Clean(es: seq<Entry>) {
    NoForeign(es) && DistinctClaims(es)
  }

  // ---------- Distinct inodes leave no collision ----------

  /** A stamp without its change time: the directory itself. */
  function ObjectOf(s: Stamp): Stamp {
    s.(changeTime := 0)
  }

  function Objects(es: seq<Entry>): multiset<Stamp> {
    if es == [] then multiset{}
    else (match es[0]
          case Directory(_, stamp, children) => multiset{ObjectOf(stamp)} + Objects(children)
          case _ => multiset{}) + Objects(es[1..])
  }

  /** A promoted name is held by the very directory it was made from, whatever its time has become. */
  predicate OwnNames(es: seq<Entry>) {
    forall i :: 0 <= i < |es| && es[i].name.Promoted? ==>
                  es[i].Directory? && ObjectOf(es[i].name.stamp) == ObjectOf(es[i].stamp)
  }

  lemma {:induction false} StampsAreObjects(es: seq<Entry>, s: Stamp)
    ensures Stamps(es)[s] <= Objects(es)[ObjectOf(s)]
  {
    if es != [] {
      StampsAreObjects(es[1..], s);
      if es[0].Directory? {
        StampsAreObjects(es[0].children, s);
      }
    }
  }

  lemma {:induction false} ClaimsAreObjects(es: seq<Entry>, s: Stamp)
    requires OwnNames(es)
    ensures Claims(es)[s] <= Objects(es)[ObjectOf(s)]
  {
    if es != [] {
      ClaimsAreObjects(es[1..], s);
      if es[0].Directory? {
        StampsAreObjects(es[0].children, s);
      }
    }
  }

  /** Since directories of one device have distinct inodes, a tree of the owner's own files is clean. */
  lemma DistinctObjectsAreClean(es: seq<Entry>)
    requires NoForeign(es) && OwnNames(es) && forall o :: Objects(es)[o] <= 1
    ensures Clean(es)
  {
    forall s ensures Claims(es)[s] <= 1 {
      ClaimsAreObjects(es, s);
    }
  }

  // ---------- Splitting lemmas ----------

  lemma {:induction false} Split(a: seq<Entry>, b: seq<Entry>, p: bool)
    ensures Work(a + b, p) == Work(a, p) + Work(b, p)
    ensures Preserved(a + b, p) == Preserved(a, p) + Preserved(b, p)
    ensures NoForeign(a + b) <==> NoForeign(a) && NoForeign(b)
    ensures Claims(a + b) == Claims(a) + Claims(b)
  {
    if a == [] {
      assert a + b == b;
      assert Preserved(a, p) + Preserved(b, p) == Preserved(b, p);
    } else {
      assert (a + b)[1..] == a[1..] + b;
      Split(a[1..], b, p);
      var head := if Kept(a[0], p) then [a[0]] else [];
      assert head + (Preserved(a[1..], p) + Preserved(b, p)) == (head + Preserved(a[1..], p)) + Preserved(b, p);
    }
  }

  lemma {:induction false} SplitNested(a: seq<Entry>, b: seq<Entry>)
    ensures NestedWork(a + b) == NestedWork(a) + NestedWork(b)
    ensures NoForeign(a + b) <==> NoForeign(a) && NoForeign(b)
    ensures Stamps(a + b) == Stamps(a) + Stamps(b)
  {
    if a == [] {
      assert a + b == b;
    } else {
      assert (a + b)[1..] == a[1..] + b;
      SplitNested(a[1..], b);
    }
  }

  lemma Singleton(e: Entry, p: bool)
    ensures Work([e], p) == if Kept(e, p) then 0 else EntryWork(e)
    ensures Preserved([e], p) == if Kept(e, p) then [e] else []
    ensures NoForeign([e]) <==> !e.Foreign? && (e.Directory? ==> NoForeign(e.children))
    ensures Claims([e]) == EntryClaims(e)
  {
  }

  lemma SingletonNested(e: Entry)
    ensures NestedWork([e]) == if e.Directory? then 2 + NestedWork(e.children) else 1
    ensures NoForeign([e]) <==> !e.Foreign? && (e.Directory? ==> NoForeign(e.children))
    ensures Stamps([e]) == if e.Directory? then multiset{e.stamp} + Stamps(e.children) else multiset{}
  {
  }

  function Without(es: seq<Entry>, i: nat): seq<Entry>
    requires i < |es|
  {
    es[..i] + es[i + 1..]
  }

  /** What the measures of a root say about one of its entries. */
  lemma At(es: seq<Entry>, i: nat, p: bool)
    requires i < |es| && !Kept(es[i], p)
    ensures Work(es, p) == Work(Without(es, i), p) + EntryWork(es[i])
    ensures Preserved(es, p) == Preserved(Without(es, i), p)
    ensures NoForeign(es) <==> NoForeign(Without(es, i)) && NoForeign([es[i]])
    ensures Claims(es) == Claims(Without(es, i)) + EntryClaims(es[i])
  {
    assert es == es[..i] + ([es[i]] + es[i + 1..]);
    Split(es[..i], [es[i]] + es[i + 1..], p);
    Split([es[i]], es[i + 1..], p);
    Split(es[..i], es[i + 1..], p);
    Singleton(es[i], p);
    assert [] + Preserved(es[i + 1..], p) == Preserved(es[i + 1..], p);
  }

  lemma Replaced(es: seq<Entry>, i: nat, e: Entry, p: bool)
    requires i < |es| && !Kept(es[i], p) && e.name == es[i].name
    ensures Work(es[i := e], p) == Work(Without(es, i), p) + EntryWork(e)
    ensures Preserved(es[i := e], p) == Preserved(es, p)
    ensures NoForeign(es[i := e]) <==> NoForeign(Without(es, i)) && NoForeign([e])
    ensures Claims(es[i := e]) == Claims(Without(es, i)) + EntryClaims(e)
  {
    assert Without(es[i := e], i) == Without(es, i);
    At(es, i, p);
    At(es[i := e], i, p);
  }

  lemma AtNested(es: seq<Entry>, i: nat)
    requires i < |es|
    ensures NestedWork(es) == NestedWork(Without(es, i)) + NestedWork([es[i]])
    ensures NoForeign(es) <==> NoForeign(Without(es, i)) && NoForeign([es[i]])
    ensures Stamps(es) == Stamps(Without(es, i)) + Stamps([es[i]])
  {
    assert es == es[..i] + ([es[i]] + es[i + 1..]);
    SplitNested(es[..i], [es[i]] + es[i + 1..]);
    SplitNested([es[i]], es[i + 1..]);
    SplitNested(es[..i], es[i + 1..]);
  }

  lemma {:induction false} NothingSelectable(es: seq<Entry>, p: bool)
    requires forall e :: e in es ==> Kept(e, p)
    ensures Work(es, p) == 0 && Preserved(es, p) == es
  {
    if es != [] {
      NothingSelectable(es[1..], p);
    }
  }

  // ---------- One unit of work ----------

  /** The four effects a unit of budget can pay for: a root entry is unlinked or, when it is an
      empty directory, removed; a file inside a root directory is unlinked; a directory inside a
      root directory moves to the root under its promoted name. */
  ghost predicate Unit(before: seq<Entry>, after: seq<Entry>, p: bool) {
    || (exists i: nat :: RemovesAt(before, i, after, p))
    || (exists i: nat, j: nat :: RemovesInside(before, i, j, after, p))
  }

  ghost predicate RemovesAt(before: seq<Entry>, i: nat, after: seq<Entry>, p: bool) {
    && i < |before| && !Kept(before[i], p)
    && (before[i].File? || (before[i].Directory? && before[i].children == []))
    && after == Without(before, i)
  }

  /** The root after child `j` has left its directory entry `i`. */
  function Emptied(es: seq<Entry>, i: nat, j: nat): seq<Entry>
    requires i < |es| && es[i].Directory? && j < |es[i].children|
  {
    es[i := es[i].(children := Without(es[i].children, j))]
  }

  ghost predicate RemovesInside(before: seq<Entry>, i: nat, j: nat, after: seq<Entry>, p: bool) {
    && i < |before| && !Kept(before[i], p)
    && before[i].Directory? && j < |before[i].children|
    && var child := before[i].children[j];
       || (child.File? && after == Emptied(before, i, j))
       || (child.Directory? && after == Emptied(before, i, j) + [child.(name := Promoted(child.stamp))])
  }

  /** A unit of work, with what it conserves. */
  ghost predicate Step(before: seq<Entry>, after: seq<Entry>, p: bool) {
    && Unit(before, after, p)
    && Work(after, p) + 1 == Work(before, p)
    && Preserved(after, p) == Preserved(before, p)
    && (NoForeign(before) <==> NoForeign(after))
    && (Clean(before) ==> Clean(after))
  }

  /** Effect on every measure of taking child `j` out of root entry `i`. */
  lemma EmptiedEffect(es: seq<Entry>, i: nat, j: nat, p: bool)
    requires i < |es| && !Kept(es[i], p) && es[i].Directory? && j < |es[i].children|
    ensures Work(es, p) == Work(Emptied(es, i, j), p) + NestedWork([es[i].children[j]])
    ensures Preserved(Emptied(es, i, j), p) == Preserved(es, p)
    ensures NoForeign(es) <==> NoForeign(Emptied(es, i, j)) && NoForeign([es[i].children[j]])
    ensures Claims(es) == Claims(Emptied(es, i, j)) + Stamps([es[i].children[j]])
  {
    EmptiedWork(es, i, j, p);
    EmptiedClaims(es, i, j, p);
  }

  lemma EmptiedWork(es: seq<Entry>, i: nat, j: nat, p: bool)
    requires i < |es| && !Kept(es[i], p) && es[i].Directory? && j < |es[i].children|
    ensures Work(es, p) == Work(Emptied(es, i, j), p) + NestedWork([es[i].children[j]])
    ensures Preserved(Emptied(es, i, j), p) == Preserved(es, p)
  {
    var e := es[i].(children := Without(es[i].children, j));
    AtNested(es[i].children, j);
    At(es, i, p);
    Replaced(es, i, e, p);
    Singleton(es[i], p);
    Singleton(e, p);
  }

  lemma EmptiedClaims(es: seq<Entry>, i: nat, j: nat, p: bool)
    requires i < |es| && !Kept(es[i], p) && es[i].Directory? && j < |es[i].children|
    ensures NoForeign(es) <==> NoForeign(Emptied(es, i, j)) && NoForeign([es[i].children[j]])
    ensures Claims(es) == Claims(Emptied(es, i, j)) + Stamps([es[i].children[j]])
  {
    var e := es[i].(children := Without(es[i].children, j));
    AtNested(es[i].children, j);
    At(es, i, p);
    Replaced(es, i, e, p);
    Singleton(es[i], p);
    Singleton(e, p);
  }

  lemma UnlinkInsideEffect(before: seq<Entry>, i: nat, j: nat, p: bool)
    requires i < |before| && !Kept(before[i], p) && before[i].Directory?
    requires j < |before[i].children| && before[i].children[j].File?
    ensures Step(before, Emptied(before, i, j), p)
  {
    EmptiedEffect(before, i, j, p);
    SingletonNested(before[i].children[j]);
    assert RemovesInside(before, i, j, Emptied(before, i, j), p);
    if DistinctClaims(before) {
      FewerClaims(before, Emptied(before, i, j));
    }
  }

  lemma PromoteEffect(before: seq<Entry>, i: nat, j: nat, p: bool)
    requires i < |before| && !Kept(before[i], p) && before[i].Directory?
    requires j < |before[i].children| && before[i].children[j].Directory?
    ensures var child := before[i].children[j];
            Step(before, Emptied(before, i, j) + [child.(name := Promoted(child.stamp))], p)
  {
    var child := before[i].children[j];
    var promoted := child.(name := Promoted(child.stamp));
    var after := Emptied(before, i, j) + [promoted];
    EmptiedEffect(before, i, j, p);
    SingletonNested(child);
    Split(Emptied(before, i, j), [promoted], p);
    Singleton(promoted, p);
    assert Preserved(Emptied(before, i, j), p) + [] == Preserved(Emptied(before, i, j), p);
    assert RemovesInside(before, i, j, after, p);
    if DistinctClaims(before) {
      FewerClaims(before, after);
    }
  }

  lemma RemoveEffect(before: seq<Entry>, i: nat, p: bool)
    requires i < |before| && !Kept(before[i], p)
    requires before[i].File? || (before[i].Directory? && before[i].children == [])
    ensures Step(before, Without(before, i), p)
  {
    At(before, i, p);
    assert RemovesAt(before, i, Without(before, i), p);
    if DistinctClaims(before) {
      FewerClaims(before, Without(before, i));
    }
  }

  lemma {:induction false} TakenNameIsClaimed(es: seq<Entry>, k: nat, s: Stamp)
    requires k < |es| && es[k].name == Promoted(s)
    ensures Claims(es)[s] >= 1
  {
    if k > 0 {
      TakenNameIsClaimed(es[1..], k - 1, s);
    }
  }

  /** A root entry holding the promoted name of a nested directory claims that name twice. */
  lemma CollisionClaimsTwice(es: seq<Entry>, i: nat, j: nat, k: nat, p: bool)
    requires i < |es| && !Kept(es[i], p) && es[i].Directory?
    requires j < |es[i].children| && es[i].children[j].Directory?
    requires k < |es| && es[k].name == Promoted(es[i].children[j].stamp)
    ensures Claims(es)[es[i].children[j].stamp] >= 2
  {
    EmptiedEffect(es, i, j, p);
    SingletonNested(es[i].children[j]);
    assert Emptied(es, i, j)[k].name == es[k].name;
    TakenNameIsClaimed(Emptied(es, i, j), k, es[i].children[j].stamp);
  }

  lemma FewerClaims(before: seq<Entry>, after: seq<Entry>)
    requires DistinctClaims(before) && Claims(after) <= Claims(before)
    ensures DistinctClaims(after)
  {
  }

  // ---------- The deleter ----------

  /** The budget a pass decrements as it removes entries. */
  class DeleteBudget {
    var remainingEntries: nat

    constructor (limit: nat)
      ensures remainingEntries == limit
    {
      remainingEntries := limit;
    }
  }

  /** A directory held open by descriptor.  `history` lists every content it has had. */
  class HeldDirectory {
    var entries: seq<Entry>
    var history: seq<seq<Entry>>

    constructor (content: seq<Entry>)
      ensures entries == content && history == [content]
    {
      entries := content;
      history := [content];
    }

    method Write(content: seq<Entry>)
      modifies this
      ensures entries == content && history == old(history) + [content]
    {
      entries := content;
      history := history + [content];
    }
  }

  /** Consecutive contents differ by one unit of work, and none touches a preserved entry. */
  ghost predicate UnitByUnit(history: seq<seq<Entry>>, p: bool) {
    && history != []
    && (forall k, m :: 0 <= k < m < |history| && m == k + 1 ==> Unit(history[k], history[m], p))
    && (forall k :: 0 <= k < |history| ==> Keeps(history[0], history[k], k, p))
  }

  /** After `spent` units the preserved entries are the same and the work is `spent` less. */
  ghost predicate Keeps(start: seq<Entry>, now: seq<Entry>, spent: nat, p: bool) {
    && Preserved(now, p) == Preserved(start, p)
    && Work(now, p) + spent == Work(start, p)
    && (NoForeign(start) <==> NoForeign(now))
    && (Clean(start) ==> Clean(now))
  }

  lemma HistoryExtends(history: seq<seq<Entry>>, next: seq<Entry>, p: bool)
    requires UnitByUnit(history, p) && Step(history[|history| - 1], next, p)
    ensures UnitByUnit(history + [next], p)
  {
  }

  /** One scan's choice of an entry that is not preserved, in whatever order the scan returns them. */
  method Select(es: seq<Entry>, p: bool) returns (found: bool, i: nat)
    ensures found <==> exists e :: e in es && !Kept(e, p)
    ensures found ==> i < |es| && !Kept(es[i], p)
  {
    found := exists e :: e in es && !Kept(e, p);
    i := 0;
    if found {
      i :| i < |es| && !Kept(es[i], p);
    }
  }

  method DeleteDirectoryContentsBounded(held: HeldDirectory, budget: DeleteBudget, preserveManifest: bool)
    returns (complete: bool)
    requires held.history == [held.entries]
    modifies held, budget
    ensures UnitByUnit(held.history, preserveManifest)
    ensures held.history[0] == old(held.entries) && held.history[|held.history| - 1] == held.entries
    ensures |held.history| - 1 + budget.remainingEntries == old(budget.remainingEntries)
    ensures complete ==> held.entries == Preserved(old(held.entries), preserveManifest)
    ensures complete ==> (NoForeign(old(held.entries)) <==> NoForeign(held.entries))
    ensures complete ==> Work(old(held.entries), preserveManifest) < old(budget.remainingEntries)
    ensures complete ==>
              budget.remainingEntries == old(budget.remainingEntries) - Work(old(held.entries), preserveManifest)
    ensures Clean(old(held.entries)) ==>
              (complete <==> Work(old(held.entries), preserveManifest) < old(budget.remainingEntries))
    ensures Clean(old(held.entries)) && !complete ==>
              budget.remainingEntries == 0 && Clean(held.entries)
              && Work(held.entries, preserveManifest)
                 == Work(old(held.entries), preserveManifest) - old(budget.remainingEntries)
  {
    ghost var start := held.entries;
    assert Keeps(start, start, 0, preserveManifest);
    while budget.remainingEntries > 0
      invariant UnitByUnit(held.history, preserveManifest)
      invariant held.history[0] == start && held.history[|held.history| - 1] == held.entries
      invariant |held.history| - 1 + budget.remainingEntries == old(budget.remainingEntries)
      decreases budget.remainingEntries
    {
      assert Keeps(start, held.entries, |held.history| - 1, preserveManifest);
      var found, i := Select(held.entries, preserveManifest);
      if !found {
        NothingSelectable(held.entries, preserveManifest);
        return true;
      }
      var stopped := DeleteSelected(held, budget, i, preserveManifest);
      if stopped {
        return false;
      }
    }
    assert Keeps(start, held.entries, |held.history| - 1, preserveManifest);
    return false;
  }

  /** Spends one unit on root entry `i`, or stops at an entry it may not remove. */
  method DeleteSelected(held: HeldDirectory, budget: DeleteBudget, i: nat, p: bool) returns (stopped: bool)
    requires UnitByUnit(held.history, p) && held.history[|held.history| - 1] == held.entries
    requires i < |held.entries| && !Kept(held.entries[i], p) && budget.remainingEntries > 0
    modifies held, budget
    ensures stopped ==> held.entries == old(held.entries) && held.history == old(held.history)
                        && budget.remainingEntries == old(budget.remainingEntries)
                        && !Clean(held.entries)
    ensures !stopped ==> Step(old(held.entries), held.entries, p)
                         && held.history == old(held.history) + [held.entries]
                         && UnitByUnit(held.history, p)
                         && budget.remainingEntries == old(budget.remainingEntries) - 1
  {
    var entry := held.entries[i];
    var after;
    if entry.Foreign? {
      At(held.entries, i, p);
      Singleton(entry, p);
      return true;
    } else if entry.File? || entry.children == [] {
      RemoveEffect(held.entries, i, p);
      after := held.entries[..i] + held.entries[i + 1..];
    } else {
      var j: nat :| j < |entry.children|;
      var child := entry.children[j];
      after := held.entries[i := entry.(children := entry.children[..j] + entry.children[j + 1..])];
      assert after == Emptied(held.entries, i, j);
      if child.Foreign? {
        EmptiedEffect(held.entries, i, j, p);
        SingletonNested(child);
        return true;
      } else if child.File? {
        UnlinkInsideEffect(held.entries, i, j, p);
      } else {
        if exists k :: 0 <= k < |held.entries| && held.entries[k].name == Promoted(child.stamp) {
          ghost var k: nat :| k < |held.entries| && held.entries[k].name == Promoted(child.stamp);
          CollisionClaimsTwice(held.entries, i, j, k, p);
          return true;
        }
        PromoteEffect(held.entries, i, j, p);
        after := after + [child.(name := Promoted(child.stamp))];
      }
    }
    HistoryExtends(held.history, after, p);
    held.Write(after);
    budget.remainingEntries := budget.remainingEntries - 1;
    return false;
  }
}
