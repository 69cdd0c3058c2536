/** Whether two runs carrying different work can get one concurrency group string. */
module ConcurrencyGroups {
  import opened Options
  import opened Templates
  import opened Expressions
  import opened ExpressionParser

  /** A group is literal text and `${{ }}` parts; a part whose text has no tokens is `None`. */
  datatype Piece = Literal(text: string) | Part(tokens: Option<seq<Token>>)

  datatype Declaration = Declaration(event: string, inputs: map<string, Declared>)

  datatype Declarations = PerEvent(found: seq<Declaration>) | Required(names: set<string>)

  function Find(found: seq<Declaration>, event: string): map<string, Declared> {
    if found == [] then map[]
    else if found[0].event == event then found[0].inputs
    else Find(found[1..], event)
  }

  function Merged(found: seq<Declaration>): map<string, Declared> {
    if found == [] then map[] else Merged(found[..|found| - 1]) + found[|found| - 1].inputs
  }

  function Inputs(declarations: Declarations, event: Event): map<string, Declared> {
    match declarations
    case Required(names) => map name | name in names :: Declared(true, false)
    case PerEvent(found) =>
      match event
      case Unstated => Merged(found)
      case Unread => Find(found, "(unread)")
      case On(name) => Find(found, name)
  }

  predicate SharedFor(tokens: Option<seq<Token>>, ctx: Context) {
    match tokens
    case None => true
    case Some(ts) =>
      match Parse(ts, ctx.event.On?)
      case None => true
      case Some(e) => Shareable(Kinds(e, ctx))
  }

  function Cases(events: set<Event>): set<Event> {
    if events == {} then {Unstated} else events
  }

  predicate CanBeShared(group: seq<Piece>, declarations: Declarations, events: set<Event>) {
    exists event :: event in Cases(events) &&
      forall i :: 0 <= i < |group| && group[i].Part? ==>
        SharedFor(group[i].tokens, Context(event, Inputs(declarations, event)))
  }

  /** `text` is what the run puts in place of the piece. A part the grammar has no tree for may be anything. */
  ghost predicate Realises(run: Run, piece: Piece, text: string) {
    match piece
    case Literal(literal) => text == literal
    case Part(None) => true
    case Part(Some(ts)) =>
      forall e: Expr :: WellFormed(e) && Print(e) == ts ==> run.Eval(e).Some? && text == run.Show(run.Eval(e).value)
  }

  function Concat(texts: seq<string>): string {
    if texts == [] then "" else texts[0] + Concat(texts[1..])
  }

  lemma {:induction false} ConcatContains(texts: seq<string>, i: nat)
    requires i < |texts|
    ensures Contains(Concat(texts), texts[i])
  {
    if i == 0 {
      ContainsSelf(texts[0]);
      ContainsWider("", texts[0], Concat(texts[1..]), texts[0]);
      assert Concat(texts) == "" + texts[0] + Concat(texts[1..]);
    } else {
      ConcatContains(texts[1..], i - 1);
      ContainsWider(texts[0], Concat(texts[1..]), "", texts[i]);
      assert Concat(texts) == texts[0] + Concat(texts[1..]) + "";
    }
  }

  /** The reader decides something in the part by the event. */
  predicate PartAsks(tokens: Option<seq<Token>>, event: Event) {
    && tokens.Some? && Parse(tokens.value, event.On?).Some?
    && AsksEvent(Parse(tokens.value, event.On?).value)
  }

  lemma PartCarries(run: Run, ts: seq<Token>, ctx: Context, booleans: set<string>, text: string)
    requires !SharedFor(Some(ts), ctx) && Realises(run, Part(Some(ts)), text)
    requires run.Provides(ctx, booleans) && (ctx.event.Unread? || Informed(ctx, booleans))
    requires run.SeesOwnEvent(ctx) || !PartAsks(Some(ts), ctx.event)
    ensures run.Carries(text)
  {
    ParseReads(ts, ctx.event.On?);
    var e := Parse(ts, ctx.event.On?).value;
    if ctx.event.Unread? {
      UnreadAlwaysShareable(e, ctx);
    } else {
      ShareableByMember(Kinds(e, ctx));
      Sound(run, e, ctx, booleans);
    }
  }

  lemma UnsharedPart(group: seq<Piece>, declarations: Declarations, events: set<Event>, event: Event) returns (i: nat)
    requires !CanBeShared(group, declarations, events) && event in Cases(events)
    ensures i < |group| && group[i].Part? && group[i].tokens.Some?
    ensures !SharedFor(group[i].tokens, Context(event, Inputs(declarations, event)))
  {
    i :| 0 <= i < |group| && group[i].Part? && !SharedFor(group[i].tokens, Context(event, Inputs(declarations, event)));
  }

  /** A group that cannot be shared carries an identity in every run under every declared event, also in
      the runs of a called workflow that see their caller's event if no part asks for the event. */
  lemma UnsharedCarriesIdentity(run: Run, group: seq<Piece>, texts: seq<string>, declarations: Declarations,
                                events: set<Event>, event: Event, booleans: set<string>)
    requires !CanBeShared(group, declarations, events) && event in Cases(events)
    requires run.Provides(Context(event, Inputs(declarations, event)), booleans)
    requires event.Unread? || Informed(Context(event, Inputs(declarations, event)), booleans)
    requires || run.SeesOwnEvent(Context(event, Inputs(declarations, event)))
             || forall i :: 0 <= i < |group| && group[i].Part? ==> !PartAsks(group[i].tokens, event)
    requires |texts| == |group| && forall i :: 0 <= i < |group| ==> Realises(run, group[i], texts[i])
    ensures run.Carries(Concat(texts))
  {
    var ctx := Context(event, Inputs(declarations, event));
    var i := UnsharedPart(group, declarations, events, event);
    assert Realises(run, group[i], texts[i]);
    PartCarries(run, group[i].tokens.value, ctx, booleans, texts[i]);
    ConcatContains(texts, i);
    CarriesThrough(run, Concat(texts), texts[i]);
  }

  /** The group `e` alone passes as unshared, and a run that provides the context gives it `text`, which
      carries no identity. */
  ghost predicate Escapes(run: Run, e: Expr, declarations: Declarations, event: Event, booleans: set<string>,
                          text: string)
  {
    var group := [Part(Some(Print(e)))];
    && !CanBeShared(group, declarations, {event})
    && run.Provides(Context(event, Inputs(declarations, event)), booleans)
    && Realises(run, group[0], text) && !run.Carries(Concat([text]))
  }

  lemma UnsharedAlone(e: Expr, declarations: Declarations, event: Event)
    requires WellFormed(e) && !Chained(e) && Kinds(e, Context(event, Inputs(declarations, event))) == {Vary}
    ensures !CanBeShared([Part(Some(Print(e)))], declarations, {event})
  {
    ParsePrinted(e, event.On?);
    assert [Part(Some(Print(e)))][0].Part?;
  }

  lemma RealisesAlone(run: Run, e: Expr, text: string)
    requires WellFormed(e) && run.Eval(e).Some? && run.Show(run.Eval(e).value) == text
    ensures Realises(run, Part(Some(Print(e))), text)
  {
    forall f: Expr | WellFormed(f) && Print(f) == Print(e) ensures f == e {
      Unambiguous(e, f);
    }
  }

  lemma EscapesAlone(run: Run, e: Expr, declarations: Declarations, event: Event, booleans: set<string>, text: string)
    requires WellFormed(e) && !Chained(e) && Kinds(e, Context(event, Inputs(declarations, event))) == {Vary}
    requires run.Provides(Context(event, Inputs(declarations, event)), booleans)
    requires run.Eval(e).Some? && run.Show(run.Eval(e).value) == text && !run.Carries(text)
    ensures Escapes(run, e, declarations, event, booleans, text)
  {
    UnsharedAlone(e, declarations, event);
    RealisesAlone(run, e, text);
    assert [text][1..] == [] && Concat([text]) == text;
  }

  /** The first condition is exact: under any event that was read, an input that is a boolean and not declared
      to the reader as one makes `inputs.<field> || github.sha` pass as unshared, and a run gives it `true`. */
  lemma UntoldBooleanEscapes(declarations: Declarations, event: Event, booleans: set<string>, field: string)
    requires !event.Unread? && field in booleans && !Told(Context(event, Inputs(declarations, event)), field)
    ensures var ctx := Context(event, Inputs(declarations, event));
            var run := SampleRun(ctx, booleans, OwnEvent(ctx));
            && run.SeesOwnEvent(ctx)
            && Escapes(run, Or(Name(Input(field)), Name(Ref.Run("sha"))), declarations, event, booleans, "true")
  {
    var ctx := Context(event, Inputs(declarations, event));
    var e := Or(Name(Input(field)), Name(Ref.Run("sha")));
    var run := SampleRun(ctx, booleans, OwnEvent(ctx));
    SampleProvides(ctx, booleans, OwnEvent(ctx));
    assert run.Eval(e.left) == Some(Bool(true));
    assert run.Eval(e) == Some(Bool(true)) && Kinds(e, ctx) == {Vary};
    EscapesAlone(run, e, declarations, event, booleans, "true");
  }

  /** A choice by an event test between an identity and a constant, with the identity where the reader
      takes a called workflow to go: `test && 'x' || github.sha` or `test && github.sha || 'x'`. */
  function ChoiceBy(test: Expr): Expr
    requires EventTest(test)
  {
    if Kinds(test, Context(On(CALL_EVENT), map[])) == {Falsy} then Or(And(test, Str("x")), Name(Ref.Run("sha")))
    else Or(And(test, Name(Ref.Run("sha"))), Str("x"))
  }

  lemma ChoiceKinds(test: Expr, ctx: Context)
    requires EventTest(test) && ctx.event == On(CALL_EVENT)
    ensures Kinds(ChoiceBy(test), ctx) == {Vary}
  {
    assert Kinds(test, ctx) == Kinds(test, Context(On(CALL_EVENT), map[]));
    if Kinds(test, ctx) == {Falsy} {
      assert Kinds(ChoiceBy(test).left, ctx) == {Falsy};
    } else {
      assert Kinds(test, ctx) == {Const} && {Const} - {Falsy} == {Const};
      assert Kinds(ChoiceBy(test).left, ctx) == {Vary};
    }
  }

  lemma ChoiceReadable(test: Expr)
    requires EventTest(test)
    ensures WellFormed(ChoiceBy(test)) && !Chained(ChoiceBy(test))
  {
    assert WellFormed(test.left) && WellFormed(test.right) && WellFormed(test);
    assert WellFormed(ChoiceBy(test).left.right) && WellFormed(ChoiceBy(test).left);
    assert !Chained(test.left) && !Chained(test.right) && !Chained(test);
    assert !Chained(ChoiceBy(test).left.right) && !Chained(ChoiceBy(test).left);
  }

  lemma ChoiceEval(run: Run, test: Expr)
    requires EventTest(test) && run.Sensible() && run.value(EventName) == Text(Caller(test))
    ensures run.Eval(ChoiceBy(test)) == Some(Text("x"))
  {
    CallerDiffers(test);
    TestEval(run, test, Caller(test));
    var decided := Kinds(test, Context(On(CALL_EVENT), map[])) == {Falsy};
    assert run.Eval(test) == Some(Bool(decided));
    assert run.Eval(ChoiceBy(test).left) == Some(if decided then Text("x") else Bool(false));
  }

  /** So is the second: in a called workflow a choice by any event test passes as unshared, and a run with
      another caller gives it `x`. */
  lemma CalledWorkflowEscapes(declarations: Declarations, booleans: set<string>, test: Expr)
    requires EventTest(test)
    ensures var ctx := Context(On(CALL_EVENT), Inputs(declarations, On(CALL_EVENT)));
            var run := SampleRun(ctx, booleans, Caller(test));
            Escapes(run, ChoiceBy(test), declarations, On(CALL_EVENT), booleans, "x")
  {
    var ctx := Context(On(CALL_EVENT), Inputs(declarations, On(CALL_EVENT)));
    SampleProvides(ctx, booleans, Caller(test));
    ChoiceKinds(test, ctx);
    ChoiceReadable(test);
    ChoiceEval(SampleRun(ctx, booleans, Caller(test)), test);
    EscapesAlone(SampleRun(ctx, booleans, Caller(test)), ChoiceBy(test), declarations, On(CALL_EVENT), booleans, "x");
  }

  /** With no readable triggers, or no `${{ }}` part at all, every group counts as shared. */
  lemma SharedByDefault(group: seq<Piece>, declarations: Declarations, events: set<Event>)
    requires Unread in events || forall i :: 0 <= i < |group| ==> group[i].Literal?
    ensures CanBeShared(group, declarations, events)
  {
    var event :| event in Cases(events) && (Unread in events ==> event == Unread);
    var ctx := Context(event, Inputs(declarations, event));
    forall i | 0 <= i < |group| && group[i].Part? ensures SharedFor(group[i].tokens, ctx) {
      if group[i].tokens.Some? {
        var parsed := Parse(group[i].tokens.value, false);
        if parsed.Some? {
          UnreadAlwaysShareable(parsed.value, ctx);
        }
      }
    }
  }
}
