/** The concurrency reader's recursive-descent parser, and the grammar it accepts. */
module ExpressionParser {
  import opened Options
  import opened Expressions

  datatype Token =
    | OrOr
    | AndAnd
    | Bang
    | Open
    | Close
    | Comma
    | Rel(relation: Relation)
    | StrToken(text: string)
    | NumToken(number: real)
    | Word(ref: Ref)

  // ---------- Trees and their token form ----------

  function Level(e: Expr): nat {
    match e
    case Or(_, _) => 0
    case And(_, _) => 1
    case Compare(_, _, _) => 2
    case Not(_) => 3
    case _ => 4
  }

  /** Every operand binds at least as tightly as its place needs: operators associate to the left. */
  predicate WellFormed(e: Expr)
    decreases e
  {
    match e
    case Or(left, right) => WellFormed(left) && WellFormed(right) && Level(right) >= 1
    case And(left, right) => WellFormed(left) && WellFormed(right) && Level(left) >= 1 && Level(right) >= 2
    case Compare(left, _, right) => WellFormed(left) && WellFormed(right) && Level(left) >= 2 && Level(right) >= 3
    case Not(inner) => WellFormed(inner) && Level(inner) >= 3
    case Paren(inner) => WellFormed(inner)
    case Call(_, args) => AllWellFormed(args)
    case _ => true
  }

  predicate AllWellFormed(args: seq<Expr>)
    decreases args
  {
    args == [] || (WellFormed(args[0]) && AllWellFormed(args[1..]))
  }

  function Print(e: Expr): seq<Token>
    decreases e
  {
    match e
    case Or(left, right) => Print(left) + ([OrOr] + Print(right))
    case And(left, right) => Print(left) + ([AndAnd] + Print(right))
    case Compare(left, relation, right) => Print(left) + ([Rel(relation)] + Print(right))
    case Not(inner) => [Bang] + Print(inner)
    case Paren(inner) => [Open] + (Print(inner) + [Close])
    case Str(text) => [StrToken(text)]
    case Num(number) => [NumToken(number)]
    case Name(ref) => [Word(ref)]
    case Call(ref, args) => [Word(ref), Open] + (PrintAll(args) + [Close])
  }

  function PrintAll(args: seq<Expr>): seq<Token>
    decreases args
  {
    if args == [] then []
    else if |args| == 1 then Print(args[0])
    else Print(args[0]) + ([Comma] + PrintAll(args[1..]))
  }

  // ---------- The parser ----------

  datatype Parsed = Tree(tree: Expr, rest: seq<Token>) | Refused
  datatype ParsedArgs = Args(args: seq<Expr>, rest: seq<Token>) | ArgsRefused

  predicate Starts(ts: seq<Token>, token: Token) {
    ts != [] && ts[0] == token
  }

  predicate StartsRel(ts: seq<Token>) {
    ts != [] && ts[0].Rel?
  }

  /** The next three tokens are an event test. */
  predicate EventAhead(ts: seq<Token>) {
    && |ts| > 2 && ts[0] == Word(EventName) && (ts[1] == Rel(Eq) || ts[1] == Rel(Ne)) && ts[2].StrToken?
  }

  function ParseOr(ts: seq<Token>, known: bool): (r: Parsed)
    ensures r.Tree? ==> |r.rest| < |ts|
    decreases |ts|, 9
  {
    match ParseAnd(ts, known)
    case Refused => Refused
    case Tree(left, rest) => OrTail(left, rest, known)
  }

  function OrTail(left: Expr, ts: seq<Token>, known: bool): (r: Parsed)
    ensures r.Tree? ==> |r.rest| <= |ts|
    decreases |ts|, 0
  {
    if !Starts(ts, OrOr) then Tree(left, ts)
    else
      match ParseAnd(ts[1..], known)
      case Refused => Refused
      case Tree(right, rest) => OrTail(Or(left, right), rest, known)
  }

  function ParseAnd(ts: seq<Token>, known: bool): (r: Parsed)
    ensures r.Tree? ==> |r.rest| < |ts|
    decreases |ts|, 8
  {
    match ParseCompare(ts, known)
    case Refused => Refused
    case Tree(left, rest) => AndTail(left, rest, known)
  }

  function AndTail(left: Expr, ts: seq<Token>, known: bool): (r: Parsed)
    ensures r.Tree? ==> |r.rest| <= |ts|
    decreases |ts|, 0
  {
    if !Starts(ts, AndAnd) then Tree(left, ts)
    else
      match ParseCompare(ts[1..], known)
      case Refused => Refused
      case Tree(right, rest) => AndTail(And(left, right), rest, known)
  }

  /** When the event is known an event test is read whole, and nothing may be compared with it. */
  function ParseCompare(ts: seq<Token>, known: bool): (r: Parsed)
    ensures r.Tree? ==> |r.rest| < |ts|
    decreases |ts|, 7
  {
    if known && EventAhead(ts) then Tree(Compare(Name(EventName), ts[1].relation, Str(ts[2].text)), ts[3..])
    else ParseChain(ts, known)
  }

  function ParseChain(ts: seq<Token>, known: bool): (r: Parsed)
    ensures r.Tree? ==> |r.rest| < |ts|
    decreases |ts|, 6
  {
    match ParseUnary(ts, known)
    case Refused => Refused
    case Tree(left, rest) => CompareTail(left, rest, known)
  }

  function CompareTail(left: Expr, ts: seq<Token>, known: bool): (r: Parsed)
    ensures r.Tree? ==> |r.rest| <= |ts|
    decreases |ts|, 0
  {
    if !StartsRel(ts) then Tree(left, ts)
    else
      match ParseUnary(ts[1..], known)
      case Refused => Refused
      case Tree(right, rest) => CompareTail(Compare(left, ts[0].relation, right), rest, known)
  }

  function ParseUnary(ts: seq<Token>, known: bool): (r: Parsed)
    ensures r.Tree? ==> |r.rest| < |ts|
    decreases |ts|, 5
  {
    if !Starts(ts, Bang) then ParsePrimary(ts, known)
    else
      match ParseUnary(ts[1..], known)
      case Refused => Refused
      case Tree(inner, rest) => Tree(Not(inner), rest)
  }

  function ParsePrimary(ts: seq<Token>, known: bool): (r: Parsed)
    ensures r.Tree? ==> |r.rest| < |ts|
    decreases |ts|, 4
  {
    if ts == [] then Refused
    else
      match ts[0]
      case Open =>
        (match ParseOr(ts[1..], known)
         case Refused => Refused
         case Tree(inner, rest) => if Starts(rest, Close) then Tree(Paren(inner), rest[1..]) else Refused)
      case StrToken(text) => Tree(Str(text), ts[1..])
      case NumToken(number) => Tree(Num(number), ts[1..])
      case Word(ref) => if Starts(ts[1..], Open) then ParseCall(ref, ts[2..], known) else Tree(Name(ref), ts[1..])
      case _ => Refused
  }

  function ParseCall(ref: Ref, ts: seq<Token>, known: bool): (r: Parsed)
    ensures r.Tree? ==> |r.rest| < |ts|
    decreases |ts|, 12
  {
    match ParseList(ts, known)
    case ArgsRefused => Refused
    case Args(args, rest) => if Starts(rest, Close) then Tree(Call(ref, args), rest[1..]) else Refused
  }

  function ParseList(ts: seq<Token>, known: bool): (r: ParsedArgs)
    ensures r.Args? ==> |r.rest| <= |ts|
    decreases |ts|, 11
  {
    if Starts(ts, Close) then Args([], ts) else ParseArgs(ts, known)
  }

  function ParseArgs(ts: seq<Token>, known: bool): (r: ParsedArgs)
    ensures r.Args? ==> |r.rest| < |ts| && |r.args| > 0
    decreases |ts|, 10
  {
    match ParseOr(ts, known)
    case Refused => ArgsRefused
    case Tree(first, rest) =>
      if !Starts(rest, Comma) then Args([first], rest)
      else
        match ParseArgs(rest[1..], known)
        case ArgsRefused => ArgsRefused
        case Args(more, rest') => Args([first] + more, rest')
  }

  function Parse(ts: seq<Token>, known: bool): Option<Expr> {
    match ParseOr(ts, known)
    case Refused => None
    case Tree(e, rest) => if rest == [] then Some(e) else None
  }

  // ---------- Whatever is accepted is the token form of the tree read ----------

  ghost predicate Reads(r: Parsed, ts: seq<Token>, level: nat) {
    r.Tree? ==> WellFormed(r.tree) && Level(r.tree) >= level && ts == Print(r.tree) + r.rest
  }

  lemma {:induction false} OrReads(ts: seq<Token>, known: bool)
    ensures Reads(ParseOr(ts, known), ts, 0)
    decreases |ts|, 9
  {
    AndReads(ts, known);
    var r := ParseAnd(ts, known);
    if r.Tree? {
      OrTailReads(ts, r.tree, r.rest, known);
    }
  }

  lemma {:induction false} OrTailReads(whole: seq<Token>, left: Expr, ts: seq<Token>, known: bool)
    requires WellFormed(left) && whole == Print(left) + ts
    ensures Reads(OrTail(left, ts, known), whole, 0)
    decreases |ts|, 0
  {
    if Starts(ts, OrOr) {
      AndReads(ts[1..], known);
      var r := ParseAnd(ts[1..], known);
      if r.Tree? {
        assert whole == Print(Or(left, r.tree)) + r.rest;
        OrTailReads(whole, Or(left, r.tree), r.rest, known);
      }
    }
  }

  lemma {:induction false} AndReads(ts: seq<Token>, known: bool)
    ensures Reads(ParseAnd(ts, known), ts, 1)
    decreases |ts|, 8
  {
    CompareReads(ts, known);
    var r := ParseCompare(ts, known);
    if r.Tree? {
      AndTailReads(ts, r.tree, r.rest, known);
    }
  }

  lemma {:induction false} AndTailReads(whole: seq<Token>, left: Expr, ts: seq<Token>, known: bool)
    requires WellFormed(left) && Level(left) >= 1 && whole == Print(left) + ts
    ensures Reads(AndTail(left, ts, known), whole, 1)
    decreases |ts|, 0
  {
    if Starts(ts, AndAnd) {
      CompareReads(ts[1..], known);
      var r := ParseCompare(ts[1..], known);
      if r.Tree? {
        assert whole == Print(And(left, r.tree)) + r.rest;
        AndTailReads(whole, And(left, r.tree), r.rest, known);
      }
    }
  }

  lemma {:induction false} CompareReads(ts: seq<Token>, known: bool)
    ensures Reads(ParseCompare(ts, known), ts, 2)
    decreases |ts|, 7
  {
    if known && EventAhead(ts) {
      var e := Compare(Name(EventName), ts[1].relation, Str(ts[2].text));
      assert Print(e) == [ts[0], ts[1], ts[2]];
    } else {
      ChainReads(ts, known);
    }
  }

  lemma {:induction false} ChainReads(ts: seq<Token>, known: bool)
    ensures Reads(ParseChain(ts, known), ts, 2)
    decreases |ts|, 6
  {
    UnaryReads(ts, known);
    var r := ParseUnary(ts, known);
    if r.Tree? {
      CompareTailReads(ts, r.tree, r.rest, known);
    }
  }

  lemma {:induction false} CompareTailReads(whole: seq<Token>, left: Expr, ts: seq<Token>, known: bool)
    requires WellFormed(left) && Level(left) >= 2 && whole == Print(left) + ts
    ensures Reads(CompareTail(left, ts, known), whole, 2)
    decreases |ts|, 0
  {
    if StartsRel(ts) {
      UnaryReads(ts[1..], known);
      var r := ParseUnary(ts[1..], known);
      if r.Tree? {
        var e := Compare(left, ts[0].relation, r.tree);
        assert whole == Print(e) + r.rest;
        CompareTailReads(whole, e, r.rest, known);
      }
    }
  }

  lemma {:induction false} UnaryReads(ts: seq<Token>, known: bool)
    ensures Reads(ParseUnary(ts, known), ts, 3)
    decreases |ts|, 5
  {
    if Starts(ts, Bang) {
      UnaryReads(ts[1..], known);
      var r := ParseUnary(ts[1..], known);
      if r.Tree? {
        assert ts == Print(Not(r.tree)) + r.rest;
      }
    } else {
      PrimaryReads(ts, known);
    }
  }

  lemma {:induction false} PrimaryReads(ts: seq<Token>, known: bool)
    ensures Reads(ParsePrimary(ts, known), ts, 4)
    decreases |ts|, 4
  {
    if ts != [] {
      match ts[0]
      case Open =>
        OrReads(ts[1..], known);
        var r := ParseOr(ts[1..], known);
        if r.Tree? && Starts(r.rest, Close) {
          assert ts == Print(Paren(r.tree)) + r.rest[1..];
        }
      case Word(ref) =>
        if Starts(ts[1..], Open) {
          CallReads(ref, ts, ts[2..], known);
        }
      case _ =>
    }
  }

  lemma {:induction false} CallReads(ref: Ref, whole: seq<Token>, ts: seq<Token>, known: bool)
    requires whole == [Word(ref), Open] + ts
    ensures Reads(ParseCall(ref, ts, known), whole, 4)
    decreases |ts|, 11
  {
    if Starts(ts, Close) {
      assert whole == Print(Call(ref, [])) + ts[1..];
    } else {
      ArgsRead(ts, known);
      var r := ParseArgs(ts, known);
      if r.Args? && Starts(r.rest, Close) {
        assert whole == Print(Call(ref, r.args)) + r.rest[1..];
      }
    }
  }

  lemma {:induction false} ArgsRead(ts: seq<Token>, known: bool)
    ensures var r := ParseArgs(ts, known); r.Args? ==> AllWellFormed(r.args) && ts == PrintAll(r.args) + r.rest
    decreases |ts|, 10
  {
    OrReads(ts, known);
    var r := ParseOr(ts, known);
    if r.Tree? && Starts(r.rest, Comma) {
      ArgsRead(r.rest[1..], known);
      var more := ParseArgs(r.rest[1..], known);
      if more.Args? {
        assert ([r.tree] + more.args)[1..] == more.args;
        assert ts == PrintAll([r.tree] + more.args) + more.rest;
      }
    } else if r.Tree? {
      assert [r.tree][1..] == [];
      assert PrintAll([r.tree]) == Print(r.tree);
    }
  }

  /** Accepted tokens are exactly the printed form of the tree the parser read. */
  lemma ParseReads(ts: seq<Token>, known: bool)
    requires Parse(ts, known).Some?
    ensures WellFormed(Parse(ts, known).value) && ts == Print(Parse(ts, known).value)
  {
    OrReads(ts, known);
    var r := ParseOr(ts, known);
    assert Print(r.tree) + [] == Print(r.tree);
  }

  // ---------- Every tree's token form is read back, unless an event test is compared again ----------

  /** Somewhere an event test is the left operand of a further comparison. */
  predicate Chained(e: Expr)
    decreases e
  {
    match e
    case Or(left, right) => Chained(left) || Chained(right)
    case And(left, right) => Chained(left) || Chained(right)
    case Compare(left, _, right) => EventTest(left) || Chained(left) || Chained(right)
    case Not(inner) => Chained(inner)
    case Paren(inner) => Chained(inner)
    case Call(_, args) => AnyChained(args)
    case _ => false
  }

  predicate AnyChained(args: seq<Expr>)
    decreases args
  {
    args != [] && (Chained(args[0]) || AnyChained(args[1..]))
  }

  /** The leftmost comparison of the chain is an event test. */
  predicate LedByTest(e: Expr)
    decreases e
  {
    e.Compare? && (EventTest(e) || LedByTest(e.left))
  }

  /** Some operand of the chain holds a chained event test inside. */
  predicate OperandChained(e: Expr)
    decreases e
  {
    if e.Compare? then OperandChained(e.left) || Chained(e.right) else Chained(e)
  }

  /** What may follow an operand of the given level. */
  predicate Stops(ts: seq<Token>, level: nat) {
    || ts == [] || ts[0] == Close || ts[0] == Comma
    || (level >= 1 && ts[0] == OrOr) || (level >= 2 && ts[0] == AndAnd) || (level >= 3 && ts[0].Rel?)
  }

  predicate Stuck(r: Parsed) {
    r.Tree? ==> StartsRel(r.rest)
  }

  lemma {:induction false} ChainedSplits(e: Expr)
    ensures e.Compare? ==> (Chained(e) <==> OperandChained(e) || (LedByTest(e) && !EventTest(e)))
    ensures EventTest(e) ==> !Chained(e)
    decreases e
  {
    if e.Compare? {
      ChainedSplits(e.left);
    }
  }

  lemma FirstToken(e: Expr, rest: seq<Token>)
    requires Level(e) >= 3
    ensures var ts := Print(e) + rest;
            && ts != []
            && (ts[0].Word? ==> (e == Name(ts[0].ref) && ts[1..] == rest) || (e.Call? && Starts(ts[1..], Open)))
            && (ts[0].StrToken? ==> e == Str(ts[0].text))
  {
  }

  /** The three tokens ahead are an event test exactly when the chain is led by one. */
  lemma {:induction false} AheadIsLed(e: Expr, rest: seq<Token>)
    requires WellFormed(e) && e.Compare?
    ensures EventAhead(Print(e) + rest) <==> LedByTest(e)
    ensures LedByTest(e) && !EventTest(e) ==> |Print(e)| > 3 && Print(e)[3].Rel?
    decreases e
  {
    var after := [Rel(e.relation)] + Print(e.right) + rest;
    assert Print(e) + rest == Print(e.left) + after;
    if e.left.Compare? {
      AheadIsLed(e.left, after);
    } else {
      FirstToken(e.left, after);
      FirstToken(e.right, rest);
    }
  }

  lemma NothingAhead(e: Expr, rest: seq<Token>)
    requires WellFormed(e) && Level(e) >= 3 && Stops(rest, 2)
    ensures !EventAhead(Print(e) + rest)
  {
  }

  lemma {:induction false} OrParses(e: Expr, rest: seq<Token>, known: bool)
    requires WellFormed(e) && Stops(rest, 1)
    ensures var r := ParseOr(Print(e) + rest, known);
            if known && Chained(e) then Stuck(r) else r == OrTail(e, rest, known)
    decreases e, 5
  {
    if e.Or? {
      var after := [OrOr] + (Print(e.right) + rest);
      assert Print(e) + rest == Print(e.left) + after;
      assert after[1..] == Print(e.right) + rest;
      OrParses(e.left, after, known);
      AndParses(e.right, rest, known);
    } else {
      AndParses(e, rest, known);
    }
  }

  lemma AndTailStep(left: Expr, right: Expr, rest: seq<Token>, known: bool)
    requires var r := ParseCompare(Print(right) + rest, known);
             if known && Chained(right) then Stuck(r) else r == Tree(right, rest)
    ensures var r := AndTail(left, [AndAnd] + (Print(right) + rest), known);
            if known && Chained(right) then Stuck(r) else r == AndTail(And(left, right), rest, known)
  {
    assert ([AndAnd] + (Print(right) + rest))[1..] == Print(right) + rest;
  }

  lemma {:induction false} AndParses(e: Expr, rest: seq<Token>, known: bool)
    requires WellFormed(e) && Level(e) >= 1 && Stops(rest, 2)
    ensures var r := ParseAnd(Print(e) + rest, known);
            if known && Chained(e) then Stuck(r) else r == AndTail(e, rest, known)
    decreases e, 4
  {
    if e.And? {
      var after := [AndAnd] + (Print(e.right) + rest);
      assert Print(e) + rest == Print(e.left) + after;
      assert after[1..] == Print(e.right) + rest;
      AndParses(e.left, after, known);
      CompareParses(e.right, rest, known);
      AndTailStep(e.left, e.right, rest, known);
    } else {
      CompareParses(e, rest, known);
    }
  }

  lemma {:induction false} CompareParses(e: Expr, rest: seq<Token>, known: bool)
    requires WellFormed(e) && Level(e) >= 2 && Stops(rest, 2)
    ensures var r := ParseCompare(Print(e) + rest, known);
            if known && Chained(e) then Stuck(r) else r == Tree(e, rest)
    decreases e, 3
  {
    ChainedSplits(e);
    ChainParses(e, rest, known);
    if e.Compare? {
      AheadIsLed(e, rest);
    } else {
      NothingAhead(e, rest);
    }
  }

  lemma {:induction false} ChainParses(e: Expr, rest: seq<Token>, known: bool)
    requires WellFormed(e) && Level(e) >= 2 && Stops(rest, 3)
    ensures var r := ParseChain(Print(e) + rest, known);
            if known && OperandChained(e) then r == Refused else r == CompareTail(e, rest, known)
    decreases e, 2
  {
    if e.Compare? {
      var after := [Rel(e.relation)] + (Print(e.right) + rest);
      assert Print(e) + rest == Print(e.left) + after;
      assert after[1..] == Print(e.right) + rest;
      ChainParses(e.left, after, known);
      UnaryParses(e.right, rest, known);
    } else {
      UnaryParses(e, rest, known);
    }
  }

  lemma ParenParses(inner: Expr, rest: seq<Token>, known: bool)
    requires var r := ParseOr(Print(inner) + ([Close] + rest), known);
             if known && Chained(inner) then Stuck(r) else r == OrTail(inner, [Close] + rest, known)
    ensures var r := ParseUnary(Print(Paren(inner)) + rest, known);
            if known && Chained(inner) then r == Refused else r == Tree(Paren(inner), rest)
  {
    var ts := Print(Paren(inner)) + rest;
    assert ts[1..] == Print(inner) + ([Close] + rest);
    assert ([Close] + rest)[1..] == rest;
  }

  lemma {:induction false} UnaryParses(e: Expr, rest: seq<Token>, known: bool)
    requires WellFormed(e) && Level(e) >= 3 && Stops(rest, 3)
    ensures var r := ParseUnary(Print(e) + rest, known);
            if known && Chained(e) then r == Refused else r == Tree(e, rest)
    decreases e, 1
  {
    var ts := Print(e) + rest;
    match e
    case Not(inner) =>
      assert ts[1..] == Print(inner) + rest;
      UnaryParses(inner, rest, known);
    case Paren(inner) =>
      OrParses(inner, [Close] + rest, known);
      ParenParses(inner, rest, known);
    case Str(_) =>
      assert ts[1..] == rest;
    case Num(_) =>
      assert ts[1..] == rest;
    case Name(_) =>
      assert ts[1..] == rest;
    case Call(ref, args) =>
      assert ts[2..] == PrintAll(args) + ([Close] + rest);
      CallParses(ref, args, rest, known);
  }

  lemma {:induction false} CallParses(ref: Ref, args: seq<Expr>, rest: seq<Token>, known: bool)
    requires AllWellFormed(args)
    ensures var r := ParseCall(ref, PrintAll(args) + ([Close] + rest), known);
            if known && AnyChained(args) then r == Refused else r == Tree(Call(ref, args), rest)
    decreases args, 7
  {
    var after := [Close] + rest;
    assert after[1..] == rest;
    if args == [] {
      assert PrintAll(args) + after == after;
    } else {
      ArgsParse(args, after, known);
      NoneClose(args, after);
    }
  }

  lemma {:induction false} FirstIsNotClose(e: Expr)
    ensures Print(e) != [] && Print(e)[0] != Close
    decreases e
  {
    match e
    case Or(left, _) => FirstIsNotClose(left);
    case And(left, _) => FirstIsNotClose(left);
    case Compare(left, _, _) => FirstIsNotClose(left);
    case _ =>
  }

  lemma NoneClose(args: seq<Expr>, after: seq<Token>)
    requires args != []
    ensures !Starts(PrintAll(args) + after, Close)
  {
    FirstIsNotClose(args[0]);
  }

  lemma OneArgParses(e: Expr, rest: seq<Token>, known: bool)
    requires Starts(rest, Close)
    requires var r := ParseOr(Print(e) + rest, known);
             if known && Chained(e) then Stuck(r) else r == OrTail(e, rest, known)
    ensures ArgsOutcome(ParseArgs(PrintAll([e]) + rest, known), [e], rest, known)
  {
    assert PrintAll([e]) == Print(e);
    assert [e][1..] == [];
    assert AnyChained([e]) == Chained(e);
  }

  predicate ArgsOutcome(r: ParsedArgs, args: seq<Expr>, rest: seq<Token>, known: bool) {
    if known && AnyChained(args) then r.ArgsRefused? || StartsRel(r.rest) else r == Args(args, rest)
  }

  lemma MoreArgsParse(first: Expr, more: seq<Expr>, rest: seq<Token>, known: bool)
    requires more != [] && ArgsOutcome(ParseArgs(PrintAll(more) + rest, known), more, rest, known)
    requires var after := [Comma] + (PrintAll(more) + rest);
             var r := ParseOr(Print(first) + after, known);
             if known && Chained(first) then Stuck(r) else r == OrTail(first, after, known)
    ensures ArgsOutcome(ParseArgs(PrintAll([first] + more) + rest, known), [first] + more, rest, known)
  {
    var args := [first] + more;
    var after := [Comma] + (PrintAll(more) + rest);
    assert args[1..] == more;
    assert PrintAll(args) + rest == Print(first) + after;
    assert after[1..] == PrintAll(more) + rest;
    assert AnyChained(args) == (Chained(first) || AnyChained(more));
    var r := ParseOr(Print(first) + after, known);
    if known && Chained(first) {
      assert r.Tree? ==> !Starts(r.rest, Comma);
    } else {
      assert r == Tree(first, after) && Starts(after, Comma);
    }
  }

  lemma {:induction false} ArgsParse(args: seq<Expr>, rest: seq<Token>, known: bool)
    requires args != [] && AllWellFormed(args) && Starts(rest, Close)
    ensures ArgsOutcome(ParseArgs(PrintAll(args) + rest, known), args, rest, known)
    decreases args, 6
  {
    if |args| == 1 {
      OrParses(args[0], rest, known);
      OneArgParses(args[0], rest, known);
      assert args == [args[0]];
    } else {
      OrParses(args[0], [Comma] + (PrintAll(args[1..]) + rest), known);
      ArgsParse(args[1..], rest, known);
      MoreArgsParse(args[0], args[1..], rest, known);
      assert [args[0]] + args[1..] == args;
    }
  }

  /** The token form of a tree is read back as that tree, or refused when the event is known and
      an event test is compared again. */
  lemma ParsePrinted(e: Expr, known: bool)
    requires WellFormed(e)
    ensures Parse(Print(e), known) == if known && Chained(e) then None else Some(e)
  {
    assert Print(e) + [] == Print(e);
    OrParses(e, [], known);
  }

  /** No two trees share a token form. */
  lemma Unambiguous(e: Expr, f: Expr)
    requires WellFormed(e) && WellFormed(f) && Print(e) == Print(f)
    ensures e == f
  {
    ParsePrinted(e, false);
    ParsePrinted(f, false);
  }

  // ---------- Trees without parentheses ----------

  /** Parenthesises just the operands that bind too loosely. */
  function Minimal(e: Expr): Expr
    decreases e, 0
  {
    match e
    case Or(left, right) => Or(Operand(left, 0), Operand(right, 1))
    case And(left, right) => And(Operand(left, 1), Operand(right, 2))
    case Compare(left, relation, right) => Compare(Operand(left, 2), relation, Operand(right, 3))
    case Not(inner) => Not(Operand(inner, 3))
    case Paren(inner) => Paren(Minimal(inner))
    case Call(ref, args) => Call(ref, AllMinimal(args))
    case _ => e
  }

  function Operand(e: Expr, level: nat): Expr
    decreases e, 1
  {
    if Level(e) >= level then Minimal(e) else Paren(Minimal(e))
  }

  function AllMinimal(args: seq<Expr>): (r: seq<Expr>)
    ensures |r| == |args|
    decreases args, 0
  {
    if args == [] then [] else [Minimal(args[0])] + AllMinimal(args[1..])
  }

  lemma {:induction false} MinimalWellFormed(e: Expr)
    ensures WellFormed(Minimal(e)) && Level(Minimal(e)) == Level(e)
    decreases e
  {
    match e
    case Or(left, right) =>
      MinimalWellFormed(left);
      MinimalWellFormed(right);
    case And(left, right) =>
      MinimalWellFormed(left);
      MinimalWellFormed(right);
    case Compare(left, _, right) =>
      MinimalWellFormed(left);
      MinimalWellFormed(right);
    case Not(inner) =>
      MinimalWellFormed(inner);
    case Paren(inner) =>
      MinimalWellFormed(inner);
    case Call(_, args) =>
      AllMinimalWellFormed(args);
    case _ =>
  }

  lemma {:induction false} AllMinimalWellFormed(args: seq<Expr>)
    ensures AllWellFormed(AllMinimal(args))
    decreases args
  {
    if args != [] {
      MinimalWellFormed(args[0]);
      AllMinimalWellFormed(args[1..]);
    }
  }

  lemma LeafOperand(e: Expr, level: nat)
    requires level <= 4
    ensures Operand(e, level).Name? <==> e.Name?
    ensures Operand(e, level).Str? <==> e.Str?
    ensures e.Name? || e.Str? ==> Operand(e, level) == e
  {
  }

  lemma {:induction false} MinimalKinds(e: Expr, ctx: Context)
    ensures Kinds(Minimal(e), ctx) == Kinds(e, ctx)
    decreases e
  {
    match e
    case Or(left, right) =>
      MinimalKinds(left, ctx);
      MinimalKinds(right, ctx);
    case And(left, right) =>
      MinimalKinds(left, ctx);
      MinimalKinds(right, ctx);
    case Compare(left, _, right) =>
      LeafOperand(left, 2);
      LeafOperand(right, 3);
    case Paren(inner) =>
      MinimalKinds(inner, ctx);
    case Call(_, args) =>
      AllMinimalKinds(args, ctx);
    case _ =>
  }

  lemma {:induction false} AllMinimalKinds(args: seq<Expr>, ctx: Context)
    ensures AllKinds(AllMinimal(args), ctx) == AllKinds(args, ctx) && Template(AllMinimal(args)) == Template(args)
    decreases args
  {
    if args != [] {
      MinimalKinds(args[0], ctx);
      AllMinimalKinds(args[1..], ctx);
      assert AllMinimal(args)[1..] == AllMinimal(args[1..]);
    }
  }

  /** Any tree at all: its minimally parenthesised tokens are refused or give the tree's own kinds. */
  lemma ParseMinimal(e: Expr, ctx: Context)
    ensures var r := Parse(Print(Minimal(e)), ctx.event.On?);
            if ctx.event.On? && Chained(Minimal(e)) then r == None else r.Some? && Kinds(r.value, ctx) == Kinds(e, ctx)
  {
    MinimalWellFormed(e);
    ParsePrinted(Minimal(e), ctx.event.On?);
    MinimalKinds(e, ctx);
  }

  // ---------- The reader itself ----------

  /** The kinds found and the tokens left are those of the tree the grammar gives. */
  ghost predicate Agrees(r: Parsed, kinds: Option<set<Kind>>, rest: seq<Token>, ctx: Context) {
    match r
    case Refused => kinds == None
    case Tree(e, left) => kinds == Some(Kinds(e, ctx)) && rest == left
  }

  ghost predicate ArgsAgree(r: ParsedArgs, read: Option<(seq<set<Kind>>, Option<string>)>, rest: seq<Token>,
                            ctx: Context)
  {
    match r
    case ArgsRefused => read == None
    case Args(trees, left) => read == Some((AllKinds(trees, ctx), Template(trees))) && rest == left
  }

  ghost function Prepend(done: seq<Expr>, r: ParsedArgs): ParsedArgs {
    match r
    case ArgsRefused => ArgsRefused
    case Args(args, rest) => Args(done + args, rest)
  }

  /** What a call comes to, from what its list came to. */
  lemma CallAgrees(ref: Ref, ts: seq<Token>, read: Option<(seq<set<Kind>>, Option<string>)>, rest: seq<Token>,
                   ctx: Context)
    requires ArgsAgree(ParseList(ts, ctx.event.On?), read, rest, ctx)
    ensures read.None? || !Starts(rest, Close) ==> ParseCall(ref, ts, ctx.event.On?) == Refused
    ensures read.Some? ==> (read.value.1.Some? ==> |read.value.0| > 0)
    ensures read.Some? && Starts(rest, Close) ==>
              var kinds := CallKinds(ref, read.value.1, read.value.0);
              Agrees(ParseCall(ref, ts, ctx.event.On?), Some(kinds), rest[1..], ctx)
  {
    if read.Some? {
      var args := ParseList(ts, ctx.event.On?).args;
      assert Kinds(Call(ref, args), ctx) == CallKinds(ref, Template(args), AllKinds(args, ctx));
    }
  }

  lemma {:induction false} AllKindsAppend(args: seq<Expr>, e: Expr, ctx: Context)
    ensures AllKinds(args + [e], ctx) == AllKinds(args, ctx) + [Kinds(e, ctx)]
  {
    if args == [] {
      assert args + [e] == [e] && [e][1..] == [];
    } else {
      AllKindsAppend(args[1..], e, ctx);
      assert (args + [e])[1..] == args[1..] + [e];
    }
  }

  lemma SingleToken(ts: seq<Token>, known: bool)
    requires ParseOr(ts, known).Tree?
    ensures var r := ParseOr(ts, known);
            if |r.rest| + 1 == |ts| && ts[0].StrToken? then r.tree == Str(ts[0].text) else !r.tree.Str?
  {
    OrReads(ts, known);
    var e := ParseOr(ts, known).tree;
    match e
    case Or(left, right) =>
      FirstIsNotClose(left);
    case And(left, right) =>
      FirstIsNotClose(left);
    case Compare(left, _, right) =>
      FirstIsNotClose(left);
    case _ =>
  }

  /** A comparison the reader reaches by the long way round is not an event test. */
  lemma TestIsAhead(ts: seq<Token>, known: bool)
    requires ParseUnary(ts, known).Tree? && StartsRel(ParseUnary(ts, known).rest)
    requires ParseUnary(ParseUnary(ts, known).rest[1..], known).Tree?
    ensures var r := ParseUnary(ts, known);
            EventTest(Compare(r.tree, r.rest[0].relation, ParseUnary(r.rest[1..], known).tree)) ==> EventAhead(ts)
  {
    UnaryReads(ts, known);
    var r := ParseUnary(ts, known);
    UnaryReads(r.rest[1..], known);
  }

  lemma ArgsStep(done: seq<Expr>, ts: seq<Token>, ctx: Context)
    requires ParseOr(ts, ctx.event.On?).Tree?
    ensures var known := ctx.event.On?;
            var r := ParseOr(ts, known);
            && AllKinds(done + [r.tree], ctx) == AllKinds(done, ctx) + [Kinds(r.tree, ctx)]
            && Template(done + [r.tree]) == (if done == [] then Template([r.tree]) else Template(done))
            && Prepend(done, ParseArgs(ts, known))
               == if Starts(r.rest, Comma) then Prepend(done + [r.tree], ParseArgs(r.rest[1..], known))
                  else Args(done + [r.tree], r.rest)
  {
    var r := ParseOr(ts, ctx.event.On?);
    AllKindsAppend(done, r.tree, ctx);
    if Starts(r.rest, Comma) {
      var more := ParseArgs(r.rest[1..], ctx.event.On?);
      if more.Args? {
        assert done + ([r.tree] + more.args) == done + [r.tree] + more.args;
      }
    }
  }

  class Reader {
    const tokens: seq<Token>
    const ctx: Context
    var at: nat

    constructor (tokens: seq<Token>, ctx: Context)
      ensures this.tokens == tokens && this.ctx == ctx && at == 0
    {
      this.tokens := tokens;
      this.ctx := ctx;
      at := 0;
    }

    predicate Next(token: Token)
      reads this
    {
      at < |tokens| && tokens[at] == token
    }

    method ReadOr() returns (kinds: Option<set<Kind>>)
      requires at <= |tokens|
      modifies this
      ensures old(at) <= at <= |tokens| && (kinds.Some? ==> at > old(at))
      ensures Agrees(ParseOr(tokens[old(at)..], ctx.event.On?), kinds, tokens[at..], ctx)
      decreases |tokens| - at, 9
    {
      ghost var left := ParseAnd(tokens[at..], ctx.event.On?);
      kinds := ReadAnd();
      if kinds.None? {
        return;
      }
      ghost var tree := left.tree;
      while Next(OrOr)
        invariant old(at) < at <= |tokens| && kinds == Some(Kinds(tree, ctx))
        invariant ParseOr(tokens[old(at)..], ctx.event.On?) == OrTail(tree, tokens[at..], ctx.event.On?)
        decreases |tokens| - at
      {
        assert tokens[at..][1..] == tokens[at + 1..];
        at := at + 1;
        ghost var next := ParseAnd(tokens[at..], ctx.event.On?);
        var right := ReadAnd();
        if right.None? {
          return None;
        }
        kinds := Some(OrKinds(kinds.value, right.value));
        tree := Or(tree, next.tree);
      }
    }

    method ReadAnd() returns (kinds: Option<set<Kind>>)
      requires at <= |tokens|
      modifies this
      ensures old(at) <= at <= |tokens| && (kinds.Some? ==> at > old(at))
      ensures Agrees(ParseAnd(tokens[old(at)..], ctx.event.On?), kinds, tokens[at..], ctx)
      decreases |tokens| - at, 8
    {
      ghost var left := ParseCompare(tokens[at..], ctx.event.On?);
      kinds := ReadCompare();
      if kinds.None? {
        return;
      }
      ghost var tree := left.tree;
      while Next(AndAnd)
        invariant old(at) < at <= |tokens| && kinds == Some(Kinds(tree, ctx))
        invariant ParseAnd(tokens[old(at)..], ctx.event.On?) == AndTail(tree, tokens[at..], ctx.event.On?)
        decreases |tokens| - at
      {
        assert tokens[at..][1..] == tokens[at + 1..];
        at := at + 1;
        ghost var next := ParseCompare(tokens[at..], ctx.event.On?);
        var right := ReadCompare();
        if right.None? {
          return None;
        }
        assert Kinds(And(tree, next.tree), ctx) == AndKinds(kinds.value, right.value);
        kinds := Some(AndKinds(kinds.value, right.value));
        tree := And(tree, next.tree);
      }
    }

    method ReadCompare() returns (kinds: Option<set<Kind>>)
      requires at <= |tokens|
      modifies this
      ensures old(at) <= at <= |tokens| && (kinds.Some? ==> at > old(at))
      ensures Agrees(ParseCompare(tokens[old(at)..], ctx.event.On?), kinds, tokens[at..], ctx)
      decreases |tokens| - at, 7
    {
      if ctx.event.On? && at + 2 < |tokens| {
        var left, op, right := tokens[at], tokens[at + 1], tokens[at + 2];
        if left == Word(EventName) && (op == Rel(Eq) || op == Rel(Ne)) && right.StrToken? {
          assert EventAhead(tokens[at..]);
          at := at + 3;
          return Some(EventTestKinds(ctx.event.name, op.relation, right.text));
        }
      }
      assert !(ctx.event.On? && EventAhead(tokens[at..]));
      kinds := ReadChain();
    }

    method ReadChain() returns (kinds: Option<set<Kind>>)
      requires at <= |tokens| && !(ctx.event.On? && EventAhead(tokens[at..]))
      modifies this
      ensures old(at) <= at <= |tokens| && (kinds.Some? ==> at > old(at))
      ensures Agrees(ParseChain(tokens[old(at)..], ctx.event.On?), kinds, tokens[at..], ctx)
      decreases |tokens| - at, 6
    {
      ghost var known := ctx.event.On?;
      ghost var left := ParseUnary(tokens[at..], known);
      kinds := ReadUnary();
      if kinds.None? {
        return;
      }
      ghost var tree := left.tree;
      while at < |tokens| && tokens[at].Rel?
        invariant old(at) < at <= |tokens| && kinds == Some(Kinds(tree, ctx))
        invariant tree.Compare? || left == Tree(tree, tokens[at..])
        invariant ParseChain(tokens[old(at)..], known) == CompareTail(tree, tokens[at..], known)
        decreases |tokens| - at
      {
        ghost var relation := tokens[at].relation;
        assert tokens[at..][1..] == tokens[at + 1..];
        at := at + 1;
        ghost var next := ParseUnary(tokens[at..], known);
        var right := ReadUnary();
        if right.None? {
          return None;
        }
        if !tree.Compare? {
          TestIsAhead(tokens[old(at)..], known);
        }
        kinds := Some({Const, Falsy});
        tree := Compare(tree, relation, next.tree);
      }
    }

    method ReadUnary() returns (kinds: Option<set<Kind>>)
      requires at <= |tokens|
      modifies this
      ensures old(at) <= at <= |tokens| && (kinds.Some? ==> at > old(at))
      ensures Agrees(ParseUnary(tokens[old(at)..], ctx.event.On?), kinds, tokens[at..], ctx)
      decreases |tokens| - at, 5
    {
      if Next(Bang) {
        assert tokens[at..][1..] == tokens[at + 1..];
        at := at + 1;
        kinds := ReadUnary();
        return if kinds.Some? then Some({Const, Falsy}) else None;
      }
      kinds := ReadPrimary();
    }

    method ReadPrimary() returns (kinds: Option<set<Kind>>)
      requires at <= |tokens|
      modifies this
      ensures old(at) <= at <= |tokens| && (kinds.Some? ==> at > old(at))
      ensures Agrees(ParsePrimary(tokens[old(at)..], ctx.event.On?), kinds, tokens[at..], ctx)
      decreases |tokens| - at, 4
    {
      if at == |tokens| {
        return None;
      }
      var token := tokens[at];
      assert tokens[at..][1..] == tokens[at + 1..];
      at := at + 1;
      match token
      case Open =>
        kinds := ReadOr();
        if kinds.Some? {
          if !Next(Close) {
            return None;
          }
          assert tokens[at..][1..] == tokens[at + 1..];
          at := at + 1;
        }
      case StrToken(text) => return Some(if text != "" then {Const} else {Falsy});
      case NumToken(number) => return Some(if number == 0.0 then {Falsy} else {Const});
      case Word(ref) =>
        if Next(Open) {
          assert tokens[old(at)..][2..] == tokens[at + 1..];
          kinds := ReadCall(ref);
        } else {
          return Some(NameKinds(ref, ctx));
        }
      case _ => return None;
    }

    method ReadCall(ref: Ref) returns (kinds: Option<set<Kind>>)
      requires Next(Open)
      modifies this
      ensures old(at) <= at <= |tokens| && (kinds.Some? ==> at > old(at))
      ensures Agrees(ParseCall(ref, tokens[old(at) + 1..], ctx.event.On?), kinds, tokens[at..], ctx)
      decreases |tokens| - at, 3
    {
      at := at + 1;
      var read := ReadList();
      CallAgrees(ref, tokens[old(at) + 1..], read, tokens[at..], ctx);
      if read.None? || !Next(Close) {
        return None;
      }
      assert tokens[at..][1..] == tokens[at + 1..];
      at := at + 1;
      kinds := Some(CallKinds(ref, read.value.1, read.value.0));
    }

    method ReadList() returns (read: Option<(seq<set<Kind>>, Option<string>)>)
      requires at <= |tokens|
      modifies this
      ensures old(at) <= at <= |tokens|
      ensures ArgsAgree(ParseList(tokens[old(at)..], ctx.event.On?), read, tokens[at..], ctx)
      decreases |tokens| - at, 12
    {
      if Next(Close) {
        return Some(([], None));
      }
      read := ReadArgs();
    }

    /** One argument, and its text when it is a single string token. */
    method ReadArg() returns (kinds: Option<set<Kind>>, single: Option<string>)
      requires at <= |tokens|
      modifies this
      ensures old(at) <= at <= |tokens| && (kinds.Some? ==> at > old(at))
      ensures Agrees(ParseOr(tokens[old(at)..], ctx.event.On?), kinds, tokens[at..], ctx)
      ensures kinds.Some? ==> single == Template([ParseOr(tokens[old(at)..], ctx.event.On?).tree])
      decreases |tokens| - at, 10
    {
      var start := at;
      kinds := ReadOr();
      single := None;
      if kinds.Some? {
        SingleToken(tokens[start..], ctx.event.On?);
        if at == start + 1 && tokens[start].StrToken? {
          single := Some(tokens[start].text);
        }
      }
    }

    method ReadArgs() returns (read: Option<(seq<set<Kind>>, Option<string>)>)
      requires at <= |tokens|
      modifies this
      ensures old(at) <= at <= |tokens| && (read.Some? ==> at > old(at))
      ensures ArgsAgree(ParseArgs(tokens[old(at)..], ctx.event.On?), read, tokens[at..], ctx)
      decreases |tokens| - at, 11
    {
      ghost var known := ctx.event.On?;
      ghost var whole := ParseArgs(tokens[at..], known);
      var args: seq<set<Kind>>, template: Option<string> := [], None;
      ghost var done: seq<Expr> := [];
      var more := true;
      while more
        invariant old(at) <= at <= |tokens| && (done != [] ==> old(at) < at) && (!more ==> done != [])
        invariant args == AllKinds(done, ctx) && template == Template(done)
        invariant whole == if more then Prepend(done, ParseArgs(tokens[at..], known)) else Args(done, tokens[at..])
        decreases |tokens| - at, more
      {
        ghost var ts := tokens[at..];
        var kinds, single := ReadArg();
        if kinds.None? {
          return None;
        }
        ArgsStep(done, ts, ctx);
        if args == [] {
          template := single;
        }
        args := args + [kinds.value];
        done := done + [ParseOr(ts, known).tree];
        more := Next(Comma);
        if more {
          assert tokens[at..][1..] == tokens[at + 1..];
          at := at + 1;
        }
      }
      return Some((args, template));
    }

    /** Reads the whole expression or refuses it. */
    method Read() returns (kinds: Option<set<Kind>>)
      requires at == 0
      modifies this
      ensures match Parse(tokens, ctx.event.On?)
              case None => kinds == None
              case Some(e) => kinds == Some(Kinds(e, ctx)) && kinds.value != {}
    {
      assert tokens[0..] == tokens;
      kinds := ReadOr();
      if kinds.Some? && at < |tokens| {
        return None;
      }
      if kinds.Some? {
        KindsNonEmpty(Parse(tokens, ctx.event.On?).value, ctx);
      }
    }
  }
}
