/** Format strings of the workflow expression language: `{N}` is a placeholder, `{{` and `}}` are escapes. */
module Templates {
  import opened Options

  predicate Digit(c: char) {
    '0' <= c <= '9'
  }

  function Digits(t: string): (n: nat)
    ensures n <= |t| && (forall i :: 0 <= i < n ==> Digit(t[i])) && (n < |t| ==> !Digit(t[n]))
  {
    if t == [] || !Digit(t[0]) then 0 else 1 + Digits(t[1..])
  }

  function Decimal(t: string): nat
    requires forall i :: 0 <= i < |t| ==> Digit(t[i])
  {
    if t == [] then 0
    else assert Digit(t[|t| - 1]); 10 * Decimal(t[..|t| - 1]) + (t[|t| - 1] as int - '0' as int)
  }

  /** `t` starts with `{`, at least one digit and `}`. */
  predicate Placeholder(t: string) {
    t != [] && t[0] == '{' && var n := Digits(t[1..]); n > 0 && n + 1 < |t| && t[n + 1] == '}'
  }

  function Width(t: string): (n: nat)
    requires Placeholder(t)
    ensures 2 < n <= |t| && t[n - 1] == '}' && forall i :: 0 < i < n - 1 ==> Digit(t[i])
  {
    Digits(t[1..]) + 2
  }

  function Index(t: string): nat
    requires Placeholder(t)
  {
    Decimal(t[1..Width(t) - 1])
  }

  /** What the expression language makes of a template; `None` when it rejects it. */
  function Render(t: string, args: seq<string>): Option<string>
    decreases |t|
  {
    if t == [] then Some([])
    else if t[0] == '{' && |t| > 1 && t[1] == '{' then Prefixed("{", Render(t[2..], args))
    else if t[0] == '{' then
      if Placeholder(t) && Index(t) < |args| then Prefixed(args[Index(t)], Render(t[Width(t)..], args)) else None
    else if t[0] == '}' then
      if |t| > 1 && t[1] == '}' then Prefixed("}", Render(t[2..], args)) else None
    else Prefixed([t[0]], Render(t[1..], args))
  }

  function Prefixed(s: string, r: Option<string>): Option<string> {
    match r
    case None => None
    case Some(rest) => Some(s + rest)
  }

  /** The placeholder numbers the reader sees: it skips any placeholder right after a brace.
      `open` says whether the character before `t` was `{`. */
  function Used(t: string, open: bool): set<nat>
    decreases |t|
  {
    if t == [] then {}
    else if !open && Placeholder(t) then {Index(t)} + Used(t[Width(t)..], false)
    else Used(t[1..], t[0] == '{')
  }

  /** The template without its placeholders. */
  function Stripped(t: string): string
    decreases |t|
  {
    if t == [] then []
    else if Placeholder(t) then Stripped(t[Width(t)..])
    else [t[0]] + Stripped(t[1..])
  }

  ghost predicate Contains(s: string, part: string) {
    exists i, j :: 0 <= i <= j <= |s| && s[i..j] == part
  }

  lemma ContainsSelf(s: string)
    ensures Contains(s, s)
  {
    assert s[0..|s|] == s;
  }

  lemma ContainsWider(a: string, s: string, b: string, part: string)
    requires Contains(s, part)
    ensures Contains(a + s + b, part)
  {
    var i, j :| 0 <= i <= j <= |s| && s[i..j] == part;
    assert (a + s + b)[|a| + i..|a| + j] == part;
  }

  lemma ContainsTransitive(s: string, t: string, u: string)
    requires Contains(s, t) && Contains(t, u)
    ensures Contains(s, u)
  {
    var i, j :| 0 <= i <= j <= |s| && s[i..j] == t;
    assert s == s[..i] + t + s[j..];
    ContainsWider(s[..i], t, s[j..], u);
  }

  lemma {:induction false} UsedSkips(t: string, n: nat, open: bool)
    requires 0 < n <= |t| && forall i :: 0 <= i < n ==> t[i] != '{'
    ensures Used(t, open) == Used(t[n..], false)
  {
    if n > 1 {
      UsedSkips(t[1..], n - 1, false);
      assert t[1..][n - 1..] == t[n..];
    }
  }

  /** Every argument the reader counts as used appears in the rendered text. */
  lemma {:induction false} UsedAppears(t: string, args: seq<string>, open: bool, n: nat)
    requires Render(t, args).Some? && n in Used(t, open)
    ensures n < |args| && Contains(Render(t, args).value, args[n])
    decreases |t|
  {
    var out := Render(t, args).value;
    if t[0] == '{' && |t| > 1 && t[1] == '{' {
      assert t[1..][1..] == t[2..];
      UsedAppears(t[2..], args, true, n);
      ContainsWider("{", Render(t[2..], args).value, "", args[n]);
      assert out == "{" + Render(t[2..], args).value + "";
    } else if t[0] == '{' {
      var rest := Render(t[Width(t)..], args).value;
      if n == Index(t) {
        ContainsSelf(args[n]);
        ContainsWider("", args[n], rest, args[n]);
        assert out == "" + args[n] + rest;
      } else {
        if open {
          UsedSkips(t[1..], Width(t) - 1, true);
          assert t[1..][Width(t) - 1..] == t[Width(t)..];
        }
        UsedAppears(t[Width(t)..], args, false, n);
        ContainsWider(args[Index(t)], rest, "", args[n]);
        assert out == args[Index(t)] + rest + "";
      }
    } else {
      var k := if t[0] == '}' then 2 else 1;
      UsedSkips(t, k, open);
      UsedAppears(t[k..], args, false, n);
      ContainsWider(t[..1], Render(t[k..], args).value, "", args[n]);
      assert out == t[..1] + Render(t[k..], args).value + "";
    }
  }

  /** A rendered text is empty only for a template of placeholders alone, all of them empty. */
  lemma {:induction false} EmptyRender(t: string, args: seq<string>, open: bool)
    requires Render(t, args) == Some("")
    ensures Stripped(t) == "" && forall n :: n in Used(t, open) ==> n < |args| && args[n] == ""
    decreases |t|
  {
    if t != [] {
      assert Placeholder(t);
      EmptyRender(t[Width(t)..], args, false);
      if open {
        UsedSkips(t[1..], Width(t) - 1, true);
        assert t[1..][Width(t) - 1..] == t[Width(t)..];
      }
    }
  }
}
