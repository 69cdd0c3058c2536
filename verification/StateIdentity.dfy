/** File paths as pathlib sees them: a root flag and a list of components, with their text. */
module Paths {
  type Byte = n: nat | n < 256
  type Text = seq<Byte>

  const SLASH: Byte := 47
  const DOT: Byte := 46
  const GIT: Text := [46, 103, 105, 116]

  datatype Path = Path(absolute: bool, parts: seq<Text>) {
    /** Components are never empty, never "." and hold no separator. */
    predicate Valid() {
      forall i :: 0 <= i < |parts| ==> IsPart(parts[i])
    }

    function Child(part: Text): Path {
      Path(absolute, parts + [part])
    }

    /** `RelativeTo` succeeds exactly on the paths below `base`. */
    predicate Below(base: Path) {
      absolute == base.absolute && base.parts <= parts
    }

    function RelativeTo(base: Path): Path
      requires Below(base)
    {
      Path(false, parts[|base.parts|..])
    }
  }

  predicate IsPart(part: Text) {
    part != [] && part != [DOT] && SLASH !in part
  }

  function Joined(parts: seq<Text>): Text {
    if parts == [] then [] else if |parts| == 1 then parts[0] else parts[0] + [SLASH] + Joined(parts[1..])
  }

  function Print(p: Path): Text {
    if p.absolute then [SLASH] + Joined(p.parts) else if p.parts == [] then [DOT] else Joined(p.parts)
  }

  function Split(text: Text): (r: seq<Text>)
    ensures |r| > 0
  {
    if text == [] then [[]]
    else
      var rest := Split(text[1..]);
      if text[0] == SLASH then [[]] + rest else [[text[0]] + rest[0]] + rest[1..]
  }

  function Kept(parts: seq<Text>): seq<Text> {
    if parts == [] then []
    else if parts[0] == [] || parts[0] == [DOT] then Kept(parts[1..])
    else [parts[0]] + Kept(parts[1..])
  }

  function Parse(text: Text): Path {
    Path(text != [] && text[0] == SLASH, Kept(Split(text)))
  }

  lemma {:induction false} SplitWord(word: Text)
    requires SLASH !in word
    ensures Split(word) == [word]
  {
    if word != [] {
      SplitWord(word[1..]);
      assert word == [word[0]] + word[1..];
    }
  }

  lemma {:induction false} SplitFirst(word: Text, rest: Text)
    requires SLASH !in word
    ensures Split(word + [SLASH] + rest) == [word] + Split(rest)
  {
    var text := word + [SLASH] + rest;
    if word == [] {
      assert text[1..] == rest;
    } else {
      SplitFirst(word[1..], rest);
      assert text[1..] == word[1..] + [SLASH] + rest;
      assert word == [word[0]] + word[1..];
    }
  }

  lemma {:induction false} SplitJoined(parts: seq<Text>)
    requires parts != [] && forall i :: 0 <= i < |parts| ==> IsPart(parts[i])
    ensures Split(Joined(parts)) == parts
  {
    if |parts| == 1 {
      SplitWord(parts[0]);
    } else {
      SplitJoined(parts[1..]);
      SplitFirst(parts[0], Joined(parts[1..]));
    }
  }

  lemma {:induction false} KeptParts(parts: seq<Text>)
    requires forall i :: 0 <= i < |parts| ==> IsPart(parts[i])
    ensures Kept(parts) == parts
  {
    if parts != [] {
      KeptParts(parts[1..]);
    }
  }

  lemma KeptNothing()
    ensures Kept([[]] + [[]]) == [] && Kept([[DOT]]) == []
  {
    var blank: seq<Text> := [[]];
    assert (blank + blank)[1..] == blank && blank[1..] == [] && [[DOT]][1..] == [];
  }

  /** Reading a path's text gives the path back. */
  lemma PrintParse(p: Path)
    requires p.Valid()
    ensures Parse(Print(p)) == p
  {
    KeptParts(p.parts);
    if p.parts == [] {
      SplitWord([]);
      SplitWord([DOT]);
      SplitFirst([], []);
      assert Print(p) == if p.absolute then [] + [SLASH] + [] else [DOT];
      assert Split(Print(p)) == if p.absolute then [[]] + [[]] else [[DOT]];
      KeptNothing();
    } else {
      SplitJoined(p.parts);
      if p.absolute {
        SplitFirst([], Joined(p.parts));
        assert Print(p) == [] + [SLASH] + Joined(p.parts);
        assert ([[]] + p.parts)[1..] == p.parts;
      } else {
        assert p.parts[0][0] in p.parts[0];
        assert Joined(p.parts)[0] == p.parts[0][0];
      }
    }
  }

  lemma PrintInjective(p: Path, q: Path)
    requires p.Valid() && q.Valid() && Print(p) == Print(q)
    ensures p == q
  {
    PrintParse(p);
    PrintParse(q);
  }
}

/** The identity of a hot state: what is hashed, and how a producer manifest gives it back. */
module StateIdentity {
  import opened Paths

  datatype Result<T> = Ok(value: T) | Refused

  datatype Directory = Directory(device: int, inode: int)
  datatype Pointer = Pointer(device: int, inode: int, createdAt: int)

  datatype Worktree = Worktree(
    residentRoot: Directory, taskRoot: Directory, commonGit: Directory, residentGit: Directory, taskGit: Directory,
    residentPointer: Pointer, taskPointer: Pointer, residentRelative: Path, taskRelative: Path)

  datatype Mode = Native | Overlay | Private | PrivateCopy | ReadOnly

  datatype CacheSpec = CacheSpec(path: Path, mode: Mode)

  datatype Generation = Generation(resident: Path, task: Path, specs: seq<CacheSpec>, worktree: Worktree) {
    predicate Valid() {
      && resident.Valid() && task.Valid() && worktree.residentRelative.Valid() && worktree.taskRelative.Valid()
      && forall i :: 0 <= i < |specs| ==> specs[i].path.Valid()
    }
  }

  // ---------- The bytes that are hashed ----------

  const LIMIT: nat := 0x1_0000_0000_0000_0000

  const PREFIX: Text := Ascii("glaeda-hot-run-default-state-v3\0")

  function Ascii(s: string): Text
    requires forall i :: 0 <= i < |s| ==> s[i] < 128 as char
  {
    seq(|s|, i requires 0 <= i < |s| => s[i] as int)
  }

  function ModeText(mode: Mode): Text {
    match mode
    case Native => Ascii("native")
    case Overlay => Ascii("overlay")
    case Private => Ascii("private")
    case PrivateCopy => Ascii("private-copy")
    case ReadOnly => Ascii("ro")
  }

  function Bound(width: nat): nat {
    if width == 0 then 1 else 256 * Bound(width - 1)
  }

  /** `n` in `width` bytes, most significant first. */
  function BigEndian(n: nat, width: nat): (r: Text)
    ensures |r| == width
  {
    if width == 0 then [] else BigEndian(n / 256, width - 1) + [n % 256]
  }

  function Number(n: nat): Text {
    BigEndian(n, 8)
  }

  function Field(text: Text): Text {
    Number(|text|) + text
  }

  function Fields(texts: seq<Text>): Text {
    if texts == [] then [] else Field(texts[0]) + Fields(texts[1..])
  }

  function Numbers(ns: seq<int>): Text
    requires forall i :: 0 <= i < |ns| ==> Word(ns[i])
  {
    if ns == [] then [] else assert Word(ns[0]); Number(ns[0]) + Numbers(ns[1..])
  }

  function SpecFields(specs: seq<CacheSpec>): Text {
    if specs == [] then []
    else Fields([Print(specs[0].path), ModeText(specs[0].mode)]) + SpecFields(specs[1..])
  }

  function Texts(g: Generation): seq<Text> {
    [Print(g.resident), Print(g.task), Print(g.worktree.residentRelative), Print(g.worktree.taskRelative)]
  }

  function DirectoryNumbers(d: Directory): seq<int> {
    [d.device, d.inode]
  }

  function PointerNumbers(p: Pointer): seq<int> {
    [p.device, p.inode, p.createdAt]
  }

  function ObjectNumbers(w: Worktree): seq<int> {
    DirectoryNumbers(w.residentRoot) + DirectoryNumbers(w.taskRoot) + DirectoryNumbers(w.commonGit)
    + DirectoryNumbers(w.residentGit) + DirectoryNumbers(w.taskGit)
    + PointerNumbers(w.residentPointer) + PointerNumbers(w.taskPointer)
  }

  predicate Word(n: int) {
    0 <= n < LIMIT
  }

  /** Every length and number fits the eight bytes it is given; otherwise the encoder raises. */
  predicate Fits(texts: seq<Text>, ns: seq<int>, specs: seq<CacheSpec>) {
    && (forall i :: 0 <= i < |texts| ==> |texts[i]| < LIMIT)
    && (forall i :: 0 <= i < |ns| ==> Word(ns[i]))
    && (forall i :: 0 <= i < |specs| ==> |Print(specs[i].path)| < LIMIT)
  }

  predicate Encodable(g: Generation) {
    Fits(Texts(g), ObjectNumbers(g.worktree), g.specs)
  }

  function Preimage(g: Generation): Text
    requires Encodable(g)
  {
    PREFIX + (Fields(Texts(g)) + (Numbers(ObjectNumbers(g.worktree)) + SpecFields(g.specs)))
  }

  // ---------- Injectivity ----------

  lemma {:induction false} BigEndianInjective(a: nat, b: nat, width: nat)
    requires a < Bound(width) && b < Bound(width) && BigEndian(a, width) == BigEndian(b, width)
    ensures a == b
  {
    if width > 0 {
      var x, y := BigEndian(a / 256, width - 1), BigEndian(b / 256, width - 1);
      assert x == (x + [a % 256])[..width - 1] == (y + [b % 256])[..width - 1] == y;
      assert a % 256 == (x + [a % 256])[width - 1] == (y + [b % 256])[width - 1] == b % 256;
      BigEndianInjective(a / 256, b / 256, width - 1);
    }
  }

  lemma BoundOfWord()
    ensures Bound(8) == LIMIT
  {
  }

  lemma NumberCancels(a: nat, b: nat, x: Text, y: Text)
    requires a < LIMIT && b < LIMIT && Number(a) + x == Number(b) + y
    ensures a == b && x == y
  {
    BoundOfWord();
    assert Number(a) == (Number(a) + x)[..8] == (Number(b) + y)[..8] == Number(b);
    assert x == (Number(a) + x)[8..] == (Number(b) + y)[8..] == y;
    BigEndianInjective(a, b, 8);
  }

  lemma FieldCancels(a: Text, b: Text, x: Text, y: Text)
    requires |a| < LIMIT && |b| < LIMIT && Field(a) + x == Field(b) + y
    ensures a == b && x == y
  {
    assert Field(a) + x == Number(|a|) + (a + x);
    assert Field(b) + y == Number(|b|) + (b + y);
    NumberCancels(|a|, |b|, a + x, b + y);
    assert a == (a + x)[..|a|] == (b + y)[..|b|] == b;
    assert x == (a + x)[|a|..] == (b + y)[|b|..] == y;
  }

  lemma FirstField(a: seq<Text>, x: Text)
    requires a != []
    ensures Fields(a) + x == Field(a[0]) + (Fields(a[1..]) + x)
  {
  }

  lemma {:induction false} FieldsCancel(a: seq<Text>, b: seq<Text>, x: Text, y: Text)
    requires |a| == |b| && Fields(a) + x == Fields(b) + y
    requires forall i :: 0 <= i < |a| ==> |a[i]| < LIMIT && |b[i]| < LIMIT
    ensures a == b && x == y
  {
    if a == [] {
      assert Fields(a) + x == x && Fields(b) + y == y;
    } else {
      FirstField(a, x);
      FirstField(b, y);
      FieldCancels(a[0], b[0], Fields(a[1..]) + x, Fields(b[1..]) + y);
      FieldsCancel(a[1..], b[1..], x, y);
      assert a == [a[0]] + a[1..] && b == [b[0]] + b[1..];
    }
  }

  lemma {:induction false} NumbersCancel(a: seq<int>, b: seq<int>, x: Text, y: Text)
    requires |a| == |b| && (forall i :: 0 <= i < |a| ==> Word(a[i])) && (forall i :: 0 <= i < |b| ==> Word(b[i]))
    requires Numbers(a) + x == Numbers(b) + y
    ensures a == b && x == y
  {
    if a == [] {
      assert Numbers(a) + x == x && Numbers(b) + y == y;
    } else {
      assert Numbers(a) + x == Number(a[0]) + (Numbers(a[1..]) + x);
      assert Numbers(b) + y == Number(b[0]) + (Numbers(b[1..]) + y);
      NumberCancels(a[0], b[0], Numbers(a[1..]) + x, Numbers(b[1..]) + y);
      NumbersCancel(a[1..], b[1..], x, y);
      assert a == [a[0]] + a[1..] && b == [b[0]] + b[1..];
    }
  }

  lemma ModeTextInjective(a: Mode, b: Mode)
    requires ModeText(a) == ModeText(b)
    ensures a == b
  {
    assert |ModeText(Native)| == 6 && |ModeText(Overlay)| == 7 && |ModeText(Private)| == 7;
    assert |ModeText(PrivateCopy)| == 12 && |ModeText(ReadOnly)| == 2;
    assert ModeText(Overlay)[0] == 111 && ModeText(Private)[0] == 112;
  }

  lemma {:induction false} SpecFieldsInjective(a: seq<CacheSpec>, b: seq<CacheSpec>)
    requires forall i :: 0 <= i < |a| ==> a[i].path.Valid() && |Print(a[i].path)| < LIMIT
    requires forall i :: 0 <= i < |b| ==> b[i].path.Valid() && |Print(b[i].path)| < LIMIT
    requires SpecFields(a) == SpecFields(b)
    ensures a == b
  {
    if a != [] && b != [] {
      var x, y := [Print(a[0].path), ModeText(a[0].mode)], [Print(b[0].path), ModeText(b[0].mode)];
      assert |ModeText(a[0].mode)| <= 12 && |ModeText(b[0].mode)| <= 12;
      FieldsCancel(x, y, SpecFields(a[1..]), SpecFields(b[1..]));
      assert x[0] == y[0] && x[1] == y[1];
      PrintInjective(a[0].path, b[0].path);
      ModeTextInjective(a[0].mode, b[0].mode);
      SpecFieldsInjective(a[1..], b[1..]);
      assert a == [a[0]] + a[1..] && b == [b[0]] + b[1..];
    }
  }

  lemma ObjectNumbersInjective(a: Worktree, b: Worktree)
    requires ObjectNumbers(a) == ObjectNumbers(b)
    ensures a.(residentRelative := b.residentRelative, taskRelative := b.taskRelative) == b
  {
    var m, n := ObjectNumbers(a), ObjectNumbers(b);
    assert m[0] == n[0] && m[1] == n[1] && m[2] == n[2] && m[3] == n[3] && m[4] == n[4] && m[5] == n[5];
    assert m[6] == n[6] && m[7] == n[7] && m[8] == n[8] && m[9] == n[9];
    assert m[10] == n[10] && m[11] == n[11] && m[12] == n[12] && m[13] == n[13] && m[14] == n[14] && m[15] == n[15];
  }

  /** Two generations with one pre-image are one generation: no choice of paths, numbers or cache list collides. */
  lemma PreimageInjective(a: Generation, b: Generation)
    requires a.Valid() && b.Valid() && Encodable(a) && Encodable(b) && Preimage(a) == Preimage(b)
    ensures a == b
  {
    var x := Fields(Texts(a)) + (Numbers(ObjectNumbers(a.worktree)) + SpecFields(a.specs));
    var y := Fields(Texts(b)) + (Numbers(ObjectNumbers(b.worktree)) + SpecFields(b.specs));
    assert x == (PREFIX + x)[|PREFIX|..] == (PREFIX + y)[|PREFIX|..] == y;
    FieldsCancel(Texts(a), Texts(b), Numbers(ObjectNumbers(a.worktree)) + SpecFields(a.specs),
                 Numbers(ObjectNumbers(b.worktree)) + SpecFields(b.specs));
    NumbersCancel(ObjectNumbers(a.worktree), ObjectNumbers(b.worktree), SpecFields(a.specs), SpecFields(b.specs));
    SpecFieldsInjective(a.specs, b.specs);
    TextsInjective(a, b);
    ObjectNumbersInjective(a.worktree, b.worktree);
  }

  lemma TextsInjective(a: Generation, b: Generation)
    requires a.Valid() && b.Valid() && Texts(a) == Texts(b)
    ensures a.resident == b.resident && a.task == b.task
    ensures a.worktree.residentRelative == b.worktree.residentRelative
    ensures a.worktree.taskRelative == b.worktree.taskRelative
  {
    assert forall i :: 0 <= i < 4 ==> Texts(a)[i] == Texts(b)[i];
    PrintInjective(a.resident, b.resident);
    PrintInjective(a.task, b.task);
    PrintInjective(a.worktree.residentRelative, b.worktree.residentRelative);
    PrintInjective(a.worktree.taskRelative, b.worktree.taskRelative);
  }

  // ---------- Feeding the digest ----------

  lemma Regroups(a: Text, b: Text, c: Text)
    ensures a + (b + c) == (a + b) + c
  {
  }

  class Digest {
    var fed: Text

    constructor (prefix: Text)
      ensures fed == prefix
    {
      fed := prefix;
    }

    method Update(bytes: Text)
      modifies this
      ensures fed == old(fed) + bytes
    {
      fed := fed + bytes;
    }

    /** Refuses, feeding nothing, a number that does not fit eight bytes. */
    method UpdateNumber(n: int) returns (ok: bool)
      modifies this
      ensures ok == Word(n)
      ensures fed == if ok then old(fed) + Number(n) else old(fed)
    {
      if n < 0 || n >= LIMIT {
        return false;
      }
      Update(BigEndian(n, 8));
      return true;
    }

    method UpdateField(text: Text) returns (ok: bool)
      modifies this
      ensures ok == (|text| < LIMIT)
      ensures ok ==> fed == old(fed) + Field(text)
    {
      ok := UpdateNumber(|text|);
      if ok {
        Update(text);
        assert old(fed) + Field(text) == (old(fed) + Number(|text|)) + text;
      }
    }

    method UpdateFields(texts: seq<Text>) returns (ok: bool)
      modifies this
      ensures ok <==> forall i :: 0 <= i < |texts| ==> |texts[i]| < LIMIT
      ensures ok ==> fed == old(fed) + Fields(texts)
    {
      var i := 0;
      while i < |texts|
        invariant i <= |texts| && forall j :: 0 <= j < i ==> |texts[j]| < LIMIT
        invariant fed + Fields(texts[i..]) == old(fed) + Fields(texts)
      {
        ghost var before := fed;
        ok := UpdateField(texts[i]);
        if !ok {
          return;
        }
        assert texts[i..][1..] == texts[i + 1..];
        Regroups(before, Field(texts[i]), Fields(texts[i + 1..]));
        i := i + 1;
      }
      assert fed + Fields(texts[i..]) == fed;
      return true;
    }

    method UpdateNumbers(ns: seq<int>) returns (ok: bool)
      modifies this
      ensures ok <==> forall i :: 0 <= i < |ns| ==> Word(ns[i])
      ensures ok ==> fed == old(fed) + Numbers(ns)
    {
      var i := 0;
      while i < |ns|
        invariant i <= |ns| && forall j :: 0 <= j < i ==> Word(ns[j])
        invariant (forall j :: 0 <= j < |ns| ==> Word(ns[j])) ==> fed + Numbers(ns[i..]) == old(fed) + Numbers(ns)
      {
        ghost var before := fed;
        ok := UpdateNumber(ns[i]);
        if !ok {
          return;
        }
        if forall j :: 0 <= j < |ns| ==> Word(ns[j]) {
          assert ns[i..][1..] == ns[i + 1..];
          Regroups(before, Number(ns[i]), Numbers(ns[i + 1..]));
        }
        i := i + 1;
      }
      assert fed + Numbers(ns[i..]) == fed;
      return true;
    }

    method UpdateSpecs(specs: seq<CacheSpec>) returns (ok: bool)
      modifies this
      ensures ok <==> forall i :: 0 <= i < |specs| ==> |Print(specs[i].path)| < LIMIT
      ensures ok ==> fed == old(fed) + SpecFields(specs)
    {
      var i := 0;
      while i < |specs|
        invariant i <= |specs| && forall j :: 0 <= j < i ==> |Print(specs[j].path)| < LIMIT
        invariant fed + SpecFields(specs[i..]) == old(fed) + SpecFields(specs)
      {
        ghost var before := fed;
        var texts := [Print(specs[i].path), ModeText(specs[i].mode)];
        assert |texts[1]| <= 12;
        ok := UpdateFields(texts);
        if !ok {
          assert |texts[0]| >= LIMIT;
          return;
        }
        assert |texts[0]| < LIMIT;
        assert specs[i..][1..] == specs[i + 1..];
        Regroups(before, Fields(texts), SpecFields(specs[i + 1..]));
        i := i + 1;
      }
      assert fed + SpecFields(specs[i..]) == fed;
      return true;
    }
  }

  lemma Associates(a: Text, b: Text, c: Text, d: Text)
    ensures ((a + b) + c) + d == a + (b + (c + d))
  {
  }

  method FeedAll(texts: seq<Text>, ns: seq<int>, specs: seq<CacheSpec>) returns (r: Result<Text>)
    ensures r == if Fits(texts, ns, specs)
              then Ok(PREFIX + (Fields(texts) + (Numbers(ns) + SpecFields(specs)))) else Refused
  {
    var digest := new Digest(PREFIX);
    var ok := digest.UpdateFields(texts);
    if ok {
      ok := digest.UpdateNumbers(ns);
      if ok {
        ok := digest.UpdateSpecs(specs);
        if ok {
          Associates(PREFIX, Fields(texts), Numbers(ns), SpecFields(specs));
          return Ok(digest.fed);
        }
      }
    }
    return Refused;
  }

  /** The identity is the digest of the pre-image; the digest stands for its input here. */
  method DefaultStateIdentity(g: Generation) returns (r: Result<Text>)
    ensures r == if Encodable(g) then Ok(Preimage(g)) else Refused
  {
    r := FeedAll(Texts(g), ObjectNumbers(g.worktree), g.specs);
  }

  // ---------- The producer manifest ----------

  datatype Role =
    ResidentRoot | TaskRoot | CommonGit | ResidentGit | TaskGit | ResidentPointer | TaskPointer

  datatype GenerationObject =
    | DirectoryObject(role: Role, path: Text, device: int, inode: int)
    | PointerObject(role: Role, path: Text, device: int, inode: int, createdAt: int)

  datatype CacheView = CacheView(path: Text, mode: Mode)

  datatype Manifest = Manifest(identity: Text, views: seq<CacheView>, objects: seq<GenerationObject>)

  /** Where the Git directories are; the pointers are always `.git` below the two roots. */
  datatype GitPaths = GitPaths(common: Path, resident: Path, task: Path) {
    predicate Valid() {
      common.Valid() && resident.Valid() && task.Valid()
    }
  }

  function DirectoryDocument(role: Role, path: Path, d: Directory): GenerationObject {
    DirectoryObject(role, Print(path), d.device, d.inode)
  }

  function PointerDocument(role: Role, path: Path, p: Pointer): GenerationObject {
    PointerObject(role, Print(path), p.device, p.inode, p.createdAt)
  }

  function Views(specs: seq<CacheSpec>): seq<CacheView> {
    seq(|specs|, i requires 0 <= i < |specs| => CacheView(Print(specs[i].path), specs[i].mode))
  }

  function ProducerManifest(name: Text, g: Generation, git: GitPaths): Result<Manifest> {
    if !Encodable(g) || name != Preimage(g) then Refused
    else
      var w := g.worktree;
      Ok(Manifest(name, Views(g.specs), [
        DirectoryDocument(ResidentRoot, g.resident, w.residentRoot),
        DirectoryDocument(TaskRoot, g.task, w.taskRoot),
        DirectoryDocument(CommonGit, git.common, w.commonGit),
        DirectoryDocument(ResidentGit, git.resident, w.residentGit),
        DirectoryDocument(TaskGit, git.task, w.taskGit),
        PointerDocument(ResidentPointer, g.resident.Child(GIT), w.residentPointer),
        PointerDocument(TaskPointer, g.task.Child(GIT), w.taskPointer)]))
  }

  /** The last object of each role. */
  function ByRole(objects: seq<GenerationObject>): map<Role, GenerationObject> {
    if objects == [] then map[]
    else var last := objects[|objects| - 1]; ByRole(objects[..|objects| - 1])[last.role := last]
  }

  predicate Complete(byRole: map<Role, GenerationObject>) {
    && (forall role :: role in byRole)
    && byRole[ResidentPointer].PointerObject? && byRole[TaskPointer].PointerObject?
  }

  function ReadDirectory(o: GenerationObject): Directory {
    Directory(o.device, o.inode)
  }

  function ReadPointer(o: GenerationObject): Pointer
    requires o.PointerObject?
  {
    Pointer(o.device, o.inode, o.createdAt)
  }

  function ReadSpecs(views: seq<CacheView>): seq<CacheSpec> {
    seq(|views|, i requires 0 <= i < |views| => CacheSpec(Parse(views[i].path), views[i].mode))
  }

  /** The generation a manifest describes, or a refusal when its Git paths are not related as required. */
  function Described(m: Manifest): Result<Generation> {
    var byRole := ByRole(m.objects);
    if !Complete(byRole) then Refused
    else
      var resident, task := Parse(byRole[ResidentRoot].path), Parse(byRole[TaskRoot].path);
      var common := Parse(byRole[CommonGit].path);
      var residentGit, taskGit := Parse(byRole[ResidentGit].path), Parse(byRole[TaskGit].path);
      if Parse(byRole[ResidentPointer].path) != resident.Child(GIT)
         || Parse(byRole[TaskPointer].path) != task.Child(GIT)
      then Refused
      else if !residentGit.Below(common) || !taskGit.Below(common) then Refused
      else Ok(Generation(resident, task, ReadSpecs(m.views), Worktree(
        ReadDirectory(byRole[ResidentRoot]), ReadDirectory(byRole[TaskRoot]), ReadDirectory(byRole[CommonGit]),
        ReadDirectory(byRole[ResidentGit]), ReadDirectory(byRole[TaskGit]),
        ReadPointer(byRole[ResidentPointer]), ReadPointer(byRole[TaskPointer]),
        residentGit.RelativeTo(common), taskGit.RelativeTo(common))))
  }

  function Recompute(m: Manifest): Result<Text> {
    match Described(m)
    case Refused => Refused
    case Ok(g) => if Encodable(g) then Ok(Preimage(g)) else Refused
  }

  /** The recorded relative paths are the ones `RelativeTo` gives. */
  predicate Related(g: Generation, git: GitPaths) {
    && git.resident.Below(git.common) && g.worktree.residentRelative == git.resident.RelativeTo(git.common)
    && git.task.Below(git.common) && g.worktree.taskRelative == git.task.RelativeTo(git.common)
  }

  lemma ReadViews(specs: seq<CacheSpec>)
    requires forall i :: 0 <= i < |specs| ==> specs[i].path.Valid()
    ensures ReadSpecs(Views(specs)) == specs
  {
    forall i | 0 <= i < |specs| ensures ReadSpecs(Views(specs))[i] == specs[i] {
      PrintParse(specs[i].path);
    }
  }

  lemma RolesOf(a: GenerationObject, b: GenerationObject, c: GenerationObject, d: GenerationObject,
                e: GenerationObject, f: GenerationObject, g: GenerationObject)
    ensures ByRole([a, b, c, d, e, f, g])
            == map[a.role := a, b.role := b, c.role := c, d.role := d, e.role := e, f.role := f, g.role := g]
  {
    var all := [a, b, c, d, e, f, g];
    assert all[..6] == [a, b, c, d, e, f] && all[..6][..5] == [a, b, c, d, e] && [a, b, c, d, e][..4] == [a, b, c, d];
    assert [a, b, c, d][..3] == [a, b, c] && [a, b, c][..2] == [a, b] && [a, b][..1] == [a] && [a][..0] == [];
    assert ByRole([a]) == map[a.role := a];
    assert ByRole([a, b, c]) == map[a.role := a, b.role := b, c.role := c];
    assert ByRole([a, b, c, d, e]) == map[a.role := a, b.role := b, c.role := c, d.role := d, e.role := e];
  }

  lemma PathsReadBack(g: Generation, git: GitPaths)
    requires g.Valid() && git.Valid()
    ensures Parse(Print(g.resident)) == g.resident && Parse(Print(g.task)) == g.task
    ensures Parse(Print(git.common)) == git.common
    ensures Parse(Print(git.resident)) == git.resident && Parse(Print(git.task)) == git.task
    ensures Parse(Print(g.resident.Child(GIT))) == g.resident.Child(GIT)
    ensures Parse(Print(g.task.Child(GIT))) == g.task.Child(GIT)
  {
    PrintParse(g.resident);
    PrintParse(g.task);
    PrintParse(git.common);
    PrintParse(git.resident);
    PrintParse(git.task);
    PrintParse(g.resident.Child(GIT));
    PrintParse(g.task.Child(GIT));
  }

  lemma RolesAreFound(name: Text, g: Generation, git: GitPaths)
    requires ProducerManifest(name, g, git).Ok?
    ensures var m := ProducerManifest(name, g, git).value;
            var found := ByRole(m.objects);
            && Complete(found)
            && found[ResidentRoot] == m.objects[0] && found[TaskRoot] == m.objects[1]
            && found[CommonGit] == m.objects[2]
            && found[ResidentGit] == m.objects[3] && found[TaskGit] == m.objects[4]
            && found[ResidentPointer] == m.objects[5] && found[TaskPointer] == m.objects[6]
  {
    var m := ProducerManifest(name, g, git).value;
    var o := m.objects;
    assert o == [o[0], o[1], o[2], o[3], o[4], o[5], o[6]];
    RolesOf(o[0], o[1], o[2], o[3], o[4], o[5], o[6]);
    forall role: Role ensures role in ByRole(o) {
      match role
      case ResidentRoot =>
      case TaskRoot =>
      case CommonGit =>
      case ResidentGit =>
      case TaskGit =>
      case ResidentPointer =>
      case TaskPointer =>
    }
  }

  /** A manifest describes the generation it was built from, with the relative Git paths derived afresh. */
  lemma DescribedIsBuilt(name: Text, g: Generation, git: GitPaths)
    requires g.Valid() && git.Valid() && ProducerManifest(name, g, git).Ok?
    ensures var d := Described(ProducerManifest(name, g, git).value);
            if git.resident.Below(git.common) && git.task.Below(git.common)
            then d == Ok(g.(worktree := g.worktree.(residentRelative := git.resident.RelativeTo(git.common),
                                                    taskRelative := git.task.RelativeTo(git.common))))
            else d == Refused
  {
    RolesAreFound(name, g, git);
    ReadViews(g.specs);
    PathsReadBack(g, git);
  }

  lemma RelativeValid(p: Path, base: Path)
    requires p.Valid() && p.Below(base)
    ensures p.RelativeTo(base).Valid()
  {
  }

  /** Recomputing returns the identity the manifest was built for exactly when the recorded relative
      Git paths are the ones the manifest's own paths give. */
  lemma RecomputeReturnsIdentity(name: Text, g: Generation, git: GitPaths)
    requires g.Valid() && git.Valid() && ProducerManifest(name, g, git).Ok?
    ensures Recompute(ProducerManifest(name, g, git).value) == Ok(name) <==> Related(g, git)
  {
    DescribedIsBuilt(name, g, git);
    var d := Described(ProducerManifest(name, g, git).value);
    if Recompute(ProducerManifest(name, g, git).value) == Ok(name) {
      RelativeValid(git.resident, git.common);
      RelativeValid(git.task, git.common);
      PreimageInjective(d.value, g);
    }
  }
}
