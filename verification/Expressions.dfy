/** Workflow expressions: what they evaluate to in a run, and the kinds the concurrency reader
    computes for them from the trigger event and the declared inputs alone. */
module Expressions {
  import opened Options
  import opened Templates

  datatype Relation = Eq | Ne | Lt | Le | Gt | Ge

  /** A reference, by what the reader knows about it. `Input` is an input whose name marks it as an
      identity; `Other` is every name the identity pattern does not match. */
  datatype Ref =
    | True
    | False
    | Null
    | EventName
    | Format
    | Run(field: string)
    | SourceRun(field: string)
    | PullHead
    | JobOutput(field: string)
    | Input(field: string)
    | Other(field: string)
  {
    predicate Identity() {
      Run? || SourceRun? || PullHead? || JobOutput? || Input?
    }
  }

  datatype Expr =
    | Or(left: Expr, right: Expr)
    | And(left: Expr, right: Expr)
    | Compare(left: Expr, relation: Relation, right: Expr)
    | Not(inner: Expr)
    | Paren(inner: Expr)
    | Str(text: string)
    | Num(number: real)
    | Name(ref: Ref)
    | Call(ref: Ref, args: seq<Expr>)

  datatype Kind = Vary | Const | Falsy

  /** The trigger event a group is read under: none given, triggers that could not be read, or one event. */
  datatype Event = Unstated | Unread | On(name: string)

  datatype Declared = Declared(required: bool, boolean: bool)

  datatype Context = Context(event: Event, inputs: map<string, Declared>)

  const INPUT_EVENTS := {"workflow_dispatch", "workflow_call"}
  const CALL_EVENT := "workflow_call"
  const PR_EVENTS := {"pull_request", "pull_request_target"}

  function Lower(s: string): string {
    seq(|s|, i requires 0 <= i < |s| => if 'A' <= s[i] <= 'Z' then ((s[i] as int) + 32) as char else s[i])
  }

  // ---------- Kinds ----------

  /** `github.event_name == 'x'` or `!=`, which the reader decides when it knows the event. */
  predicate EventTest(e: Expr) {
    && e.Compare? && e.left == Name(EventName) && e.right.Str? && (e.relation.Eq? || e.relation.Ne?)
  }

  function EventTestKinds(event: string, relation: Relation, text: string): set<Kind> {
    if (Lower(event) == Lower(text)) == relation.Eq? then {Const} else {Falsy}
  }

  function NameKinds(ref: Ref, ctx: Context): set<Kind> {
    if ref == True then {Const}
    else if ref == False || ref == Null then {Falsy}
    else if !ref.Identity() then {Const, Falsy}
    else if ctx.event == Unread then {Vary, Falsy}
    else if ref.Input? then
      if ctx.event.On? && ctx.event.name !in INPUT_EVENTS then {Falsy}
      else
        var declared := if ref.field in ctx.inputs then ctx.inputs[ref.field] else Declared(false, false);
        if declared.boolean then {Const, Falsy} else if declared.required then {Vary} else {Vary, Falsy}
    else if ref.SourceRun? && ctx.event.On? && ctx.event.name != "workflow_run" then {Falsy}
    else if ref.PullHead? && ctx.event.On? && ctx.event.name !in PR_EVENTS then {Falsy}
    else {Vary}
  }

  function Referenced(template: string, count: nat): set<nat> {
    set n | n in Used(template, false) && n < count
  }

  function FormatKinds(template: string, args: seq<set<Kind>>): set<Kind> {
    var referenced := Referenced(template, |args|);
    (if exists n :: n in referenced && Vary in args[n] then {Vary} else {})
    + (if forall n :: n in referenced ==> args[n] - {Vary} != {} then {Const} else {})
    + (if Stripped(template) == "" && forall n :: n in referenced ==> Falsy in args[n] then {Falsy} else {})
  }

  function OrKinds(left: set<Kind>, right: set<Kind>): set<Kind> {
    (left - {Falsy}) + (if Falsy in left then right else {})
  }

  function AndKinds(left: set<Kind>, right: set<Kind>): set<Kind> {
    ({Falsy} * left) + (if left - {Falsy} != {} then right else {})
  }

  function CallKinds(ref: Ref, template: Option<string>, args: seq<set<Kind>>): set<Kind>
    requires template.Some? ==> |args| > 0
  {
    if ref == Format && template.Some? then FormatKinds(template.value, args[1..]) else {Const, Falsy}
  }

  function Template(args: seq<Expr>): (r: Option<string>)
    ensures r.Some? ==> |args| > 0
  {
    if args != [] && args[0].Str? then Some(args[0].text) else None
  }

  function Kinds(e: Expr, ctx: Context): set<Kind>
    decreases e
  {
    match e
    case Or(left, right) => OrKinds(Kinds(left, ctx), Kinds(right, ctx))
    case And(left, right) => AndKinds(Kinds(left, ctx), Kinds(right, ctx))
    case Compare(_, relation, right) =>
      if ctx.event.On? && EventTest(e) then EventTestKinds(ctx.event.name, relation, right.text) else {Const, Falsy}
    case Not(_) => {Const, Falsy}
    case Paren(inner) => Kinds(inner, ctx)
    case Str(text) => if text != "" then {Const} else {Falsy}
    case Num(number) => if number == 0.0 then {Falsy} else {Const}
    case Name(ref) => NameKinds(ref, ctx)
    case Call(ref, args) => CallKinds(ref, Template(args), AllKinds(args, ctx))
  }

  function AllKinds(args: seq<Expr>, ctx: Context): (r: seq<set<Kind>>)
    ensures |r| == |args|
    decreases args
  {
    if args == [] then [] else [Kinds(args[0], ctx)] + AllKinds(args[1..], ctx)
  }

  // ---------- Values ----------

  datatype Value = Nothing | Bool(truth: bool) | Number(number: real) | Text(text: string) | Object(field: string)

  predicate Truthy(v: Value) {
    match v
    case Nothing => false
    case Bool(b) => b
    case Number(n) => n != 0.0
    case Text(s) => s != ""
    case Object(_) => true
  }

  /** One run: what references are worth and how the language compares, calls and shows values. */
  datatype Run = Run(
    value: Ref -> Value, compare: (Relation, Value, Value) -> bool, invoke: (Ref, seq<Value>) -> Value,
    show: real -> string, identities: iset<string>)
  {
    ghost predicate Sensible() {
      && "" !in identities
      && (forall n :: show(n) != "")
      && value(Ref.True) == Bool(true) && value(Ref.False) == Bool(false) && value(Ref.Null) == Nothing
      && (forall a, b :: compare(Eq, Text(a), Text(b)) == (Lower(a) == Lower(b)))
      && (forall a, b :: compare(Ne, Text(a), Text(b)) == (Lower(a) != Lower(b)))
    }

    function Show(v: Value): string {
      match v
      case Nothing => ""
      case Bool(b) => if b then "true" else "false"
      case Number(n) => show(n)
      case Text(s) => s
      case Object(_) => "Object"
    }

    function ShowAll(vs: seq<Value>): (r: seq<string>)
      ensures |r| == |vs| && forall i :: 0 <= i < |vs| ==> r[i] == Show(vs[i])
    {
      if vs == [] then [] else [Show(vs[0])] + ShowAll(vs[1..])
    }

    ghost predicate Carries(s: string) {
      exists id :: id in identities && Contains(s, id)
    }

    /** The run of `v` under one kind set: an identity, any truthy value, or a falsy one. */
    ghost predicate Means(v: Value, kinds: set<Kind>) {
      || (Truthy(v) && Const in kinds)
      || (Truthy(v) && Carries(Show(v)) && Vary in kinds)
      || (!Truthy(v) && Falsy in kinds)
    }

    /** The expression's value; `None` when a format string is rejected. */
    function Eval(e: Expr): Option<Value>
      decreases e
    {
      match e
      case Or(left, right) =>
        (match Eval(left) case None => None case Some(v) => if Truthy(v) then Some(v) else Eval(right))
      case And(left, right) =>
        (match Eval(left) case None => None case Some(v) => if Truthy(v) then Eval(right) else Some(v))
      case Compare(left, relation, right) =>
        (match (Eval(left), Eval(right))
         case (Some(a), Some(b)) => Some(Bool(compare(relation, a, b)))
         case _ => None)
      case Not(inner) => (match Eval(inner) case None => None case Some(v) => Some(Bool(!Truthy(v))))
      case Paren(inner) => Eval(inner)
      case Str(text) => Some(Text(text))
      case Num(number) => Some(Number(number))
      case Name(ref) => Some(value(ref))
      case Call(ref, args) => (match EvalAll(args) case None => None case Some(vs) => Apply(ref, vs))
    }

    function EvalAll(args: seq<Expr>): (r: Option<seq<Value>>)
      ensures r.Some? ==> |r.value| == |args|
      decreases args
    {
      if args == [] then Some([])
      else
        match (Eval(args[0]), EvalAll(args[1..]))
        case (Some(v), Some(vs)) => Some([v] + vs)
        case _ => None
    }

    function Apply(ref: Ref, vs: seq<Value>): Option<Value> {
      if ref == Ref.Format && vs != [] then
        match Render(Show(vs[0]), ShowAll(vs[1..]))
        case None => None
        case Some(s) => Some(Text(s))
      else Some(invoke(ref, vs))
    }

    /** What the workflow may rely on about references under an event: `booleans` are the inputs it
        declares as booleans for whichever event really started the run. A called workflow sees the event
        of its caller, which may be any. */
    ghost predicate Provides(ctx: Context, booleans: set<string>) {
      && Sensible()
      && (ctx.event.On? && ctx.event.name != CALL_EVENT ==> value(EventName) == Text(ctx.event.name))
      && (forall ref: Ref :: ref.Identity() ==> Given(ref, ctx, booleans))
    }

    /** The run sees the event it is read under, as every run does that is not a called workflow's. */
    ghost predicate SeesOwnEvent(ctx: Context) {
      ctx.event == On(CALL_EVENT) ==>
        && value(EventName) == Text(CALL_EVENT) && !Truthy(value(PullHead))
        && forall field :: !Truthy(value(SourceRun(field)))
    }

    ghost predicate IsIdentity(v: Value) {
      v.Text? && v.text in identities
    }

    ghost predicate Given(ref: Ref, ctx: Context, booleans: set<string>)
      requires ref.Identity()
    {
      var v := value(ref);
      match ref
      case Run(_) => IsIdentity(v) || (ctx.event.Unread? && !Truthy(v))
      case JobOutput(_) => IsIdentity(v) || (ctx.event.Unread? && !Truthy(v))
      case SourceRun(_) =>
        (match ctx.event
         case Unstated => IsIdentity(v)
         case Unread => IsIdentity(v) || !Truthy(v)
         case On(name) =>
           if name == "workflow_run" then IsIdentity(v) else !Truthy(v) || (name == CALL_EVENT && IsIdentity(v)))
      case PullHead =>
        (match ctx.event
         case Unstated => IsIdentity(v)
         case Unread => IsIdentity(v) || !Truthy(v)
         case On(name) =>
           if name in PR_EVENTS then IsIdentity(v) else !Truthy(v) || (name == CALL_EVENT && IsIdentity(v)))
      case Input(field) =>
        if ctx.event.On? && ctx.event.name !in INPUT_EVENTS then !Truthy(v)
        else
          || IsIdentity(v)
          || field in booleans
          || (!Truthy(v) && (ctx.event.Unread? || field !in ctx.inputs || !ctx.inputs[field].required))
    }
  }

  // ---------- Soundness ----------

  /** Nothing can go wrong with this boolean input: it does not exist under the event, or the reader is
      told that it is one. Under unread triggers it is told of none. */
  predicate Told(ctx: Context, field: string) {
    if ctx.event.On? && ctx.event.name !in INPUT_EVENTS then true
    else !ctx.event.Unread? && field in ctx.inputs && ctx.inputs[field].boolean
  }

  predicate Informed(ctx: Context, booleans: set<string>) {
    forall field :: field in booleans ==> Told(ctx, field)
  }

  /** The reader decides something in `e` by the event: an event test, or whether a pull request's or a
      source run's identity is there. */
  predicate AsksEvent(e: Expr)
    decreases e
  {
    match e
    case Or(left, right) => AsksEvent(left) || AsksEvent(right)
    case And(left, right) => AsksEvent(left) || AsksEvent(right)
    case Compare(_, _, _) => EventTest(e)
    case Paren(inner) => AsksEvent(inner)
    case Name(ref) => ref.PullHead? || ref.SourceRun?
    case Call(_, args) => AnyAsks(args)
    case _ => false
  }

  predicate AnyAsks(args: seq<Expr>)
    decreases args
  {
    args != [] && (AsksEvent(args[0]) || AnyAsks(args[1..]))
  }

  lemma IdentityMeans(run: Run, v: Value, kinds: set<Kind>)
    requires run.Sensible() && run.IsIdentity(v) && Vary in kinds
    ensures run.Means(v, kinds)
  {
    ContainsSelf(v.text);
  }

  lemma NameSound(run: Run, ref: Ref, ctx: Context, booleans: set<string>)
    requires run.Provides(ctx, booleans)
    requires ref.Input? && ref.field in booleans ==> Told(ctx, ref.field)
    requires run.SeesOwnEvent(ctx) || !AsksEvent(Name(ref))
    ensures run.Means(run.value(ref), NameKinds(ref, ctx))
  {
    var v := run.value(ref);
    if ref.Identity() {
      assert run.Given(ref, ctx, booleans);
      if run.IsIdentity(v) && Vary in NameKinds(ref, ctx) {
        IdentityMeans(run, v, NameKinds(ref, ctx));
      }
    }
  }

  ghost predicate AllMean(run: Run, vs: seq<Value>, kinds: seq<set<Kind>>)
    requires |vs| == |kinds|
  {
    forall i :: 0 <= i < |vs| ==> run.Means(vs[i], kinds[i])
  }

  lemma CarriesThrough(run: Run, s: string, part: string)
    requires Contains(s, part) && run.Carries(part)
    ensures run.Carries(s)
  {
    var id :| id in run.identities && Contains(part, id);
    ContainsTransitive(s, part, id);
  }

  lemma FormatSound(run: Run, template: string, vs: seq<Value>, kinds: seq<set<Kind>>)
    requires run.Sensible() && |vs| == |kinds| && AllMean(run, vs, kinds)
    requires Render(template, run.ShowAll(vs)).Some?
    ensures run.Means(Text(Render(template, run.ShowAll(vs)).value), FormatKinds(template, kinds))
  {
    var args := run.ShowAll(vs);
    var out := Render(template, args).value;
    if out == "" {
      EmptyRender(template, args, false);
      forall n | n in Referenced(template, |kinds|) ensures Falsy in kinds[n] {
        assert args[n] == "";
        assert run.Means(vs[n], kinds[n]);
      }
    } else if !(Const in FormatKinds(template, kinds)) {
      var n :| n in Referenced(template, |kinds|) && kinds[n] - {Vary} == {};
      assert run.Means(vs[n], kinds[n]);
      assert Const !in kinds[n] - {Vary} && Falsy !in kinds[n] - {Vary};
      UsedAppears(template, args, false, n);
      CarriesThrough(run, out, args[n]);
    }
  }

  lemma TestEval(run: Run, e: Expr, event: string)
    requires EventTest(e) && run.Sensible() && run.value(EventName) == Text(event)
    ensures run.Eval(e) == Some(Bool((Lower(event) == Lower(e.right.text)) == e.relation.Eq?))
  {
    assert run.Eval(e.left) == Some(Text(event)) && run.Eval(e.right) == Some(Text(e.right.text));
  }

  lemma TestSound(run: Run, e: Expr, ctx: Context, booleans: set<string>)
    requires run.Provides(ctx, booleans) && run.SeesOwnEvent(ctx) && EventTest(e) && run.Eval(e).Some?
    ensures run.Means(run.Eval(e).value, Kinds(e, ctx))
  {
    if ctx.event.On? {
      TestEval(run, e, ctx.event.name);
    }
  }

  /** For every expression, event and run, the value lies in the meaning of the computed kinds. In a
      called workflow that sees its caller's event it does when nothing was decided by the event. */
  lemma {:induction false} Sound(run: Run, e: Expr, ctx: Context, booleans: set<string>)
    requires run.Provides(ctx, booleans) && Informed(ctx, booleans) && run.Eval(e).Some?
    requires run.SeesOwnEvent(ctx) || !AsksEvent(e)
    ensures run.Means(run.Eval(e).value, Kinds(e, ctx))
    decreases e
  {
    match e
    case Or(left, right) =>
      Sound(run, left, ctx, booleans);
      if !Truthy(run.Eval(left).value) {
        Sound(run, right, ctx, booleans);
      }
    case And(left, right) =>
      Sound(run, left, ctx, booleans);
      if Truthy(run.Eval(left).value) {
        Sound(run, right, ctx, booleans);
        assert Const in Kinds(left, ctx) - {Falsy} || Vary in Kinds(left, ctx) - {Falsy};
      }
    case Compare(left, relation, right) =>
      if EventTest(e) {
        TestSound(run, e, ctx, booleans);
      }
    case Not(_) =>
    case Paren(inner) =>
      Sound(run, inner, ctx, booleans);
    case Str(_) =>
    case Num(_) =>
    case Name(ref) =>
      NameSound(run, ref, ctx, booleans);
    case Call(ref, args) =>
      if ref == Format && Template(args).Some? {
        AllSound(run, args, ctx, booleans);
        var vs, kinds := run.EvalAll(args).value, AllKinds(args, ctx);
        assert run.Show(vs[0]) == args[0].text;
        assert AllMean(run, vs[1..], kinds[1..]);
        FormatSound(run, args[0].text, vs[1..], kinds[1..]);
      }
  }

  lemma {:induction false} AllSound(run: Run, args: seq<Expr>, ctx: Context, booleans: set<string>)
    requires run.Provides(ctx, booleans) && Informed(ctx, booleans) && run.EvalAll(args).Some?
    requires run.SeesOwnEvent(ctx) || !AnyAsks(args)
    ensures AllMean(run, run.EvalAll(args).value, AllKinds(args, ctx))
    ensures args != [] && args[0].Str? ==> run.EvalAll(args).value[0] == Text(args[0].text)
    decreases args
  {
    if args != [] {
      Sound(run, args[0], ctx, booleans);
      AllSound(run, args[1..], ctx, booleans);
    }
  }

  // ---------- No empty kind set ----------

  lemma FormatKindsNonEmpty(template: string, kinds: seq<set<Kind>>)
    requires forall i :: 0 <= i < |kinds| ==> kinds[i] != {}
    ensures FormatKinds(template, kinds) != {}
  {
  }

  /** An empty set would read as never shared; it never arises. */
  lemma {:induction false} KindsNonEmpty(e: Expr, ctx: Context)
    ensures Kinds(e, ctx) != {}
    decreases e
  {
    match e
    case Or(left, right) =>
      KindsNonEmpty(left, ctx);
      KindsNonEmpty(right, ctx);
      var k :| k in Kinds(left, ctx);
      if k != Falsy {
        assert k in Kinds(e, ctx);
      }
    case And(left, right) =>
      KindsNonEmpty(left, ctx);
      KindsNonEmpty(right, ctx);
      var k :| k in Kinds(left, ctx);
      if k == Falsy {
        assert k in Kinds(e, ctx);
      } else {
        assert k in Kinds(left, ctx) - {Falsy};
      }
    case Paren(inner) =>
      KindsNonEmpty(inner, ctx);
    case Call(ref, args) =>
      AllKindsNonEmpty(args, ctx);
      if ref == Format && Template(args).Some? {
        FormatKindsNonEmpty(args[0].text, AllKinds(args, ctx)[1..]);
      } else {
        assert Const in Kinds(e, ctx);
      }
    case Compare(_, _, _) =>
      assert Const in Kinds(e, ctx) || Falsy in Kinds(e, ctx);
    case Not(_) =>
      assert Const in Kinds(e, ctx);
    case Str(_) =>
      assert Const in Kinds(e, ctx) || Falsy in Kinds(e, ctx);
    case Num(_) =>
      assert Const in Kinds(e, ctx) || Falsy in Kinds(e, ctx);
    case Name(ref) =>
      assert Const in Kinds(e, ctx) || Falsy in Kinds(e, ctx) || Vary in Kinds(e, ctx);
  }

  lemma {:induction false} AllKindsNonEmpty(args: seq<Expr>, ctx: Context)
    ensures forall i :: 0 <= i < |args| ==> AllKinds(args, ctx)[i] != {}
    decreases args
  {
    if args != [] {
      KindsNonEmpty(args[0], ctx);
      AllKindsNonEmpty(args[1..], ctx);
    }
  }

  // ---------- Where the reader is not informed ----------

  /** A run that sees `event`, whose boolean inputs are all true and whose other identities are all "9f". */
  ghost function SampleRun(ctx: Context, booleans: set<string>, event: string): Run {
    Run.Run((ref: Ref) => match ref
              case True => Bool(true)
              case False => Bool(false)
              case Null => Nothing
              case EventName => Text(event)
              case Run(_) => Text("9f")
              case JobOutput(_) => Text("9f")
              case SourceRun(_) => if ctx.event.On? && event != "workflow_run" then Nothing else Text("9f")
              case PullHead => if ctx.event.On? && event !in PR_EVENTS then Nothing else Text("9f")
              case Input(field) =>
                if ctx.event.On? && ctx.event.name !in INPUT_EVENTS then Nothing
                else if field in booleans then Bool(true) else Text("9f")
              case _ => Nothing,
            (relation: Relation, a: Value, b: Value) =>
              a.Text? && b.Text? && (Lower(a.text) == Lower(b.text)) == relation.Eq?,
            (ref: Ref, vs: seq<Value>) => Nothing, (n: real) => "1", iset{"9f"})
  }

  /** An event the run may see under the context: the trigger's own, or any for a called workflow. */
  predicate MaySee(ctx: Context, event: string) {
    ctx.event.On? && ctx.event.name != CALL_EVENT ==> event == ctx.event.name
  }

  function OwnEvent(ctx: Context): (event: string)
    ensures MaySee(ctx, event)
  {
    if ctx.event.On? then ctx.event.name else ""
  }

  lemma SampleProvides(ctx: Context, booleans: set<string>, event: string)
    requires MaySee(ctx, event)
    ensures SampleRun(ctx, booleans, event).Provides(ctx, booleans)
    ensures event == OwnEvent(ctx) ==> SampleRun(ctx, booleans, event).SeesOwnEvent(ctx)
    ensures !SampleRun(ctx, booleans, event).Carries("true") && !SampleRun(ctx, booleans, event).Carries("x")
  {
    forall i, j | 0 <= i <= j <= 4 ensures "true"[i..j] != "9f" {
      if i < j {
        assert "true"[i..j][0] == "true"[i];
      }
    }
    forall i, j | 0 <= i <= j <= 1 ensures "x"[i..j] != "9f" {
    }
  }

  /** Under any event, an input's value lies in its kinds in every run exactly when it is not a boolean or
      the reader is told that it is one. */
  lemma InputSoundExactly(ctx: Context, booleans: set<string>, field: string)
    ensures (forall run: Run :: run.Provides(ctx, booleans) ==>
                                  run.Means(run.value(Input(field)), NameKinds(Input(field), ctx)))
            <==> (field in booleans ==> Told(ctx, field))
  {
    if field in booleans ==> Told(ctx, field) {
      forall run: Run | run.Provides(ctx, booleans)
        ensures run.Means(run.value(Input(field)), NameKinds(Input(field), ctx))
      {
        NameSound(run, Input(field), ctx, booleans);
      }
    } else {
      var run := SampleRun(ctx, booleans, OwnEvent(ctx));
      SampleProvides(ctx, booleans, OwnEvent(ctx));
      assert run.value(Input(field)) == Bool(true) && run.Show(Bool(true)) == "true";
      assert !run.Means(run.value(Input(field)), NameKinds(Input(field), ctx));
    }
  }

  /** The event that makes the test come out the other way than the reader takes it for a called workflow. */
  function Caller(e: Expr): string
    requires EventTest(e)
  {
    if Lower(e.right.text) == Lower(CALL_EVENT) then "push" else e.right.text
  }

  /** An event test lies in its kinds in every run exactly when the workflow is not a called one, whose
      caller's event may be any. */
  lemma TestSoundExactly(name: string, inputs: map<string, Declared>, booleans: set<string>, e: Expr)
    requires EventTest(e)
    ensures (forall run: Run :: run.Provides(Context(On(name), inputs), booleans) && run.Eval(e).Some? ==>
                                  run.Means(run.Eval(e).value, Kinds(e, Context(On(name), inputs))))
            <==> name != CALL_EVENT
  {
    var ctx := Context(On(name), inputs);
    if name != CALL_EVENT {
      forall run: Run | run.Provides(ctx, booleans) && run.Eval(e).Some?
        ensures run.Means(run.Eval(e).value, Kinds(e, ctx))
      {
        TestSound(run, e, ctx, booleans);
      }
    } else {
      var run := SampleRun(ctx, booleans, Caller(e));
      SampleProvides(ctx, booleans, Caller(e));
      CallerDiffers(e);
      TestEval(run, e, Caller(e));
      assert !run.Means(run.Eval(e).value, Kinds(e, ctx));
    }
  }

  lemma CallerDiffers(e: Expr)
    requires EventTest(e)
    ensures (Lower(Caller(e)) == Lower(e.right.text)) != (Lower(CALL_EVENT) == Lower(e.right.text))
  {
    assert |Lower("push")| == 4 && |Lower(CALL_EVENT)| == 13;
  }

  predicate Shareable(kinds: set<Kind>) {
    kinds - {Vary} != {}
  }

  lemma ShareableByMember(kinds: set<Kind>)
    ensures Shareable(kinds) <==> Const in kinds || Falsy in kinds
  {
    if Shareable(kinds) {
      var k :| k in kinds - {Vary};
      assert k == Const || k == Falsy;
    }
    assert Const in kinds ==> Const in kinds - {Vary};
    assert Falsy in kinds ==> Falsy in kinds - {Vary};
  }

  /** With unread triggers that gap decides nothing: under them no expression at all is read as never shared. */
  lemma {:induction false} UnreadAlwaysShareable(e: Expr, ctx: Context)
    requires ctx.event == Unread
    ensures Shareable(Kinds(e, ctx))
    decreases e
  {
    ShareableByMember(Kinds(e, ctx));
    match e
    case Or(left, right) =>
      UnreadAlwaysShareable(left, ctx);
      UnreadAlwaysShareable(right, ctx);
      ShareableByMember(Kinds(left, ctx));
      ShareableByMember(Kinds(right, ctx));
    case And(left, right) =>
      UnreadAlwaysShareable(left, ctx);
      UnreadAlwaysShareable(right, ctx);
      ShareableByMember(Kinds(left, ctx));
      ShareableByMember(Kinds(right, ctx));
      assert Const in Kinds(left, ctx) ==> Const in Kinds(left, ctx) - {Falsy};
    case Paren(inner) =>
      UnreadAlwaysShareable(inner, ctx);
    case Call(ref, args) =>
      AllUnreadShareable(args, ctx);
    case _ =>
  }

  lemma {:induction false} AllUnreadShareable(args: seq<Expr>, ctx: Context)
    requires ctx.event == Unread
    ensures forall i :: 0 <= i < |args| ==> Shareable(AllKinds(args, ctx)[i])
    decreases args
  {
    if args != [] {
      UnreadAlwaysShareable(args[0], ctx);
      AllUnreadShareable(args[1..], ctx);
    }
  }
}
