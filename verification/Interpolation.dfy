/** `${NAME}` interpolation of the configuration text: a one-pass substitution, set
    against a printer of literal and variable segments. */
module Interpolation {
  import opened Seqs

  datatype Error = Unterminated | EmptyName | Unset(name: string)

  datatype Outcome = Text(text: string) | Bad(error: Error)

  /** The first index of `${`, or the length of the text. */
  function FindOpen(s: string): (i: nat)
    ensures i <= |s|
    ensures i < |s| ==> i + 2 <= |s| && s[i] == '$' && s[i + 1] == '{'
  {
    if |s| < 2 then |s|
    else if s[0] == '$' && s[1] == '{' then 0
    else 1 + FindOpen(s[1..])
  }

  /** What the text begins with: no placeholder at all, one that is never closed, or a
      placeholder with the literal before it and the text after it. */
  datatype Piece =
    | Plain
    | Unclosed(literal: string, open: string)
    | Placeholder(literal: string, name: string, rest: string)

  function Next(text: string): (p: Piece)
    ensures p.Placeholder? ==> |p.rest| < |text|
  {
    var start := FindOpen(text);
    if start == |text| then Plain
    else
      var after := text[start + 2..];
      var end := IndexOf(after, '}');
      if end == |after| then Unclosed(text[..start], after)
      else Placeholder(text[..start], after[..end], after[end + 1..])
  }

  /** What the loop computes from the rest of the text. */
  function Substituted(text: string, env: map<string, string>): Outcome
    decreases |text|
  {
    match Next(text)
    case Plain => Text(text)
    case Unclosed(_, _) => Bad(Unterminated)
    case Placeholder(literal, name, rest) =>
      if name == "" then Bad(EmptyName)
      else if name !in env then Bad(Unset(name))
      else Prefixed(literal + env[name], Substituted(rest, env))
  }

  function Prefixed(prefix: string, o: Outcome): Outcome {
    match o
    case Text(t) => Text(prefix + t)
    case Bad(e) => o
  }

  lemma PrefixedTwice(a: string, b: string, o: Outcome)
    ensures Prefixed(a, Prefixed(b, o)) == Prefixed(a + b, o)
    ensures Prefixed("", o) == o
  {
    if o.Text? { assert a + (b + o.text) == (a + b) + o.text && "" + o.text == o.text; }
  }

  method SubstituteEnvVars(text: string, env: map<string, string>) returns (r: Outcome)
    ensures r == Substituted(text, env)
  {
    hide Prefixed, FindOpen, IndexOf, Substituted;
    var out: string := "";
    var rest := text;
    PrefixedTwice("", "", Substituted(text, env));
    var start := FindOpen(rest);
    while start < |rest|
      invariant start == FindOpen(rest)
      invariant Substituted(text, env) == Prefixed(out, Substituted(rest, env))
      decreases |rest|
    {
      OneStep(out, rest, env);
      var after := rest[start + 2..];
      var end := IndexOf(after, '}');
      if end == |after| { return Bad(Unterminated); }
      var name := after[..end];
      if name == "" { return Bad(EmptyName); }
      if name !in env { return Bad(Unset(name)); }
      out := out + rest[..start];
      out := out + env[name];
      rest := after[end + 1..];
      start := FindOpen(rest);
    }
    LastStep(out, rest, env);
    out := out + rest;
    r := Text(out);
  }

  /** One pass of the loop. */
  lemma OneStep(out: string, rest: string, env: map<string, string>)
    requires FindOpen(rest) < |rest|
    ensures var start := FindOpen(rest);
      var after := rest[start + 2..];
      var end := IndexOf(after, '}');
      var whole := Prefixed(out, Substituted(rest, env));
      && (end == |after| ==> whole == Bad(Unterminated))
      && (end < |after| && after[..end] == "" ==> whole == Bad(EmptyName))
      && (end < |after| && after[..end] != "" && after[..end] !in env ==> whole == Bad(Unset(after[..end])))
      && (end < |after| && after[..end] != "" && after[..end] in env ==>
            whole == Prefixed(out + rest[..start] + env[after[..end]], Substituted(after[end + 1..], env)))
  {
    hide Prefixed, FindOpen, IndexOf, Substituted;
    SubstitutedAt(rest, env);
    var start := FindOpen(rest);
    var after := rest[start + 2..];
    var end := IndexOf(after, '}');
    PrefixedBad(out, Unterminated);
    PrefixedBad(out, EmptyName);
    if end < |after| {
      var name := after[..end];
      PrefixedBad(out, Unset(name));
      if name in env {
        PrefixedTwice(out, rest[..start] + env[name], Substituted(after[end + 1..], env));
        assert out + rest[..start] + env[name] == out + (rest[..start] + env[name]);
      }
    }
  }

  lemma SubstitutedAt(rest: string, env: map<string, string>)
    requires FindOpen(rest) < |rest|
    ensures var start := FindOpen(rest);
      var after := rest[start + 2..];
      var end := IndexOf(after, '}');
      Substituted(rest, env)
      == if end == |after| then Bad(Unterminated)
         else if after[..end] == "" then Bad(EmptyName)
         else if after[..end] !in env then Bad(Unset(after[..end]))
         else Prefixed(rest[..start] + env[after[..end]], Substituted(after[end + 1..], env))
  {
    hide Prefixed, FindOpen, IndexOf;
  }

  lemma LastStep(out: string, rest: string, env: map<string, string>)
    requires FindOpen(rest) == |rest|
    ensures Prefixed(out, Substituted(rest, env)) == Text(out + rest)
  {
    PrefixedText(out, rest);
  }

  lemma PrefixedBad(prefix: string, e: Error)
    ensures Prefixed(prefix, Bad(e)) == Bad(e)
  {
  }

  lemma PrefixedText(prefix: string, t: string)
    ensures Prefixed(prefix, Text(t)) == Text(prefix + t)
  {
  }

  // ----- Segments -----

  datatype Segment = Literal(text: string) | Var(name: string)

  function PrintOne(x: Segment): string {
    match x
    case Literal(t) => t
    case Var(name) => "${" + name + "}"
  }

  function Print(segments: seq<Segment>): string {
    if segments == [] then "" else PrintOne(segments[0]) + Print(segments[1..])
  }

  /** Literals are non-empty, hold no `${` and do not touch; names hold no `}`. */
  predicate Readable(segments: seq<Segment>) {
    segments == [] ||
    (Readable(segments[1..]) &&
     match segments[0]
     case Literal(t) => t != "" && FindOpen(t) == |t| && (|segments| > 1 ==> segments[1].Var?)
     case Var(name) => '}' !in name)
  }

  /** The segments left to right: a value is inserted as it is and never looked into. */
  function Evaluated(segments: seq<Segment>, env: map<string, string>): Outcome {
    if segments == [] then Text("")
    else
      match segments[0]
      case Literal(t) => Prefixed(t, Evaluated(segments[1..], env))
      case Var(name) =>
        if name == "" then Bad(EmptyName)
        else if name !in env then Bad(Unset(name))
        else Prefixed(env[name], Evaluated(segments[1..], env))
  }

  /** A text as segments, and what follows a `${` that is never closed. */
  datatype Reading = Reading(segments: seq<Segment>, open: Option<string>)

  function Read(text: string): Reading
    decreases |text|
  {
    match Next(text)
    case Plain => Reading(Lit(text), None)
    case Unclosed(literal, open) => Reading(Lit(literal), Some(open))
    case Placeholder(literal, name, rest) =>
      Reading(Lit(literal) + ([Var(name)] + Read(rest).segments), Read(rest).open)
  }

  function Lit(t: string): seq<Segment> { if t == "" then [] else [Literal(t)] }

  function PrintReading(r: Reading): string {
    Print(r.segments) + (if r.open.Some? then "${" + r.open.value else "")
  }

  // ----- Where the next placeholder is -----

  lemma {:induction false} FindOpenOfPrefix(s: string, k: nat)
    requires k <= FindOpen(s)
    ensures FindOpen(s[..k]) == k
  {
    if |s| >= 2 && k > 0 {
      assert s[..k][1..] == s[1..][..k - 1];
      FindOpenOfPrefix(s[1..], k - 1);
    }
  }

  /** Nothing opens inside `t`; a `$` at its end opens nothing either before another `$`. */
  lemma {:induction false} FindOpenAfter(t: string, rest: string)
    requires FindOpen(t) == |t| && (rest == "" || rest[0] == '$')
    ensures FindOpen(t + rest) == |t| + FindOpen(rest)
  {
    if t == "" {
      assert t + rest == rest;
    } else {
      assert (t + rest)[1..] == t[1..] + rest;
      assert FindOpen(t[1..]) == |t[1..]|;
      FindOpenAfter(t[1..], rest);
    }
  }

  lemma SplitAt(s: string, i: nat, mark: string)
    requires i + |mark| <= |s| && s[i..i + |mark|] == mark
    ensures s == s[..i] + (mark + s[i + |mark|..])
  {
  }

  /** The pieces make up the text, nothing opens in the literal and nothing closes early. */
  ghost predicate PiecesOf(text: string, p: Piece) {
    match p
    case Plain => FindOpen(text) == |text|
    case Unclosed(literal, open) =>
      text == literal + ("${" + open) && FindOpen(literal) == |literal| && '}' !in open
    case Placeholder(literal, name, rest) =>
      text == literal + Placed(name, rest) && FindOpen(literal) == |literal| && '}' !in name
  }

  lemma NextPrints(text: string)
    ensures PiecesOf(text, Next(text))
  {
    hide FindOpen, IndexOf;
    var start := FindOpen(text);
    if start < |text| {
      FindOpenOfPrefix(text, start);
      var literal, after := text[..start], text[start + 2..];
      SplitAt(text, start, "${");
      var end := IndexOf(after, '}');
      if end < |after| {
        var name, rest := after[..end], after[end + 1..];
        SplitAt(after, end, "}");
        assert after == name + ("}" + rest);
        assert Next(text) == Placeholder(literal, name, rest);
      } else {
        assert after[..end] == after;
        assert Next(text) == Unclosed(literal, after);
      }
    }
  }

  function Placed(name: string, rest: string): string { "${" + (name + ("}" + rest)) }

  lemma Concats(a: string, b: string)
    ensures (a + b)[..|a|] == a && (a + b)[|a|..] == b
  {
  }

  /** And a literal, a placeholder and more are the pieces of the text they make up. */
  lemma NextOfPrinted(literal: string, name: string, rest: string)
    requires FindOpen(literal) == |literal| && '}' !in name
    ensures Next(literal + Placed(name, rest)) == Placeholder(literal, name, rest)
  {
    var tail := Placed(name, rest);
    var text := literal + tail;
    FindOpenAfter(literal, tail);
    assert FindOpen(tail) == 0;
    hide FindOpen;
    Concats(literal, tail);
    Concats("${", name + ("}" + rest));
    var after := text[|literal| + 2..];
    assert after == tail[2..];
    Concats(name, "}" + rest);
    Concats("}", rest);
    assert after[|name|..][0] == '}' && after[|name|..][1..] == rest;
    IndexOfUnique(after, '}', |name|);
    assert after[|name| + 1..] == after[|name|..][1..];
  }

  // ----- Reading and printing -----

  lemma PrintCons(x: Segment, rest: seq<Segment>)
    ensures Print([x] + rest) == PrintOne(x) + Print(rest)
  {
    assert ([x] + rest)[1..] == rest;
  }

  lemma PrintLit(t: string, rest: seq<Segment>)
    ensures Print(Lit(t) + rest) == t + Print(rest)
  {
    if t == "" {
      assert Lit(t) + rest == rest && t + Print(rest) == Print(rest);
    } else {
      PrintCons(Literal(t), rest);
    }
  }

  lemma EvaluatedLit(t: string, rest: seq<Segment>, env: map<string, string>)
    ensures Evaluated(Lit(t) + rest, env) == Prefixed(t, Evaluated(rest, env))
  {
    if t == "" {
      assert Lit(t) + rest == rest;
      PrefixedTwice("", "", Evaluated(rest, env));
    } else {
      assert (Lit(t) + rest)[1..] == rest;
    }
  }

  lemma ReadableLit(t: string, rest: seq<Segment>)
    requires FindOpen(t) == |t| && Readable(rest) && (rest == [] || rest[0].Var?)
    ensures Readable(Lit(t) + rest)
  {
    if t == "" {
      assert Lit(t) + rest == rest;
    } else {
      assert (Lit(t) + rest)[1..] == rest;
    }
  }

  lemma LitAlone(t: string)
    ensures Lit(t) + [] == Lit(t)
  {
  }

  /** One pass over the text is the evaluation of its segments, then of an unclosed `${`. */
  lemma {:induction false} SubstitutionEvaluates(text: string, env: map<string, string>)
    ensures var r := Read(text);
            var v := Evaluated(r.segments, env);
            Substituted(text, env) == if v.Text? && r.open.Some? then Bad(Unterminated) else v
    decreases |text|
  {
    hide Next, Prefixed, Lit;
    match Next(text)
    case Plain =>
      LitAlone(text);
      EvaluatedLit(text, [], env);
      PrefixedText(text, "");
      assert text + "" == text;
    case Unclosed(literal, open) =>
      LitAlone(literal);
      EvaluatedLit(literal, [], env);
      PrefixedText(literal, "");
    case Placeholder(literal, name, rest) =>
      SubstitutionEvaluates(rest, env);
      var tail := [Var(name)] + Read(rest).segments;
      assert tail[1..] == Read(rest).segments;
      EvaluatedLit(literal, tail, env);
      PrefixedBad(literal, EmptyName);
      PrefixedBad(literal, Unset(name));
      if name in env {
        PrefixedTwice(literal, env[name], Evaluated(Read(rest).segments, env));
        PrefixedKind(literal + env[name], Evaluated(Read(rest).segments, env));
      }
  }

  lemma PrefixedKind(prefix: string, o: Outcome)
    ensures Prefixed(prefix, o).Text? <==> o.Text?
    ensures o.Bad? ==> Prefixed(prefix, o) == o
    ensures Prefixed(prefix, Bad(Unterminated)) == Bad(Unterminated)
  {
  }

  /** Reading loses nothing and yields readable segments. */
  lemma {:induction false} ReadThenPrint(text: string)
    ensures PrintReading(Read(text)) == text
    ensures Readable(Read(text).segments)
    ensures Read(text).open.Some? ==> '}' !in Read(text).open.value
    decreases |text|
  {
    hide Next, Lit, Print, FindOpen, Placed;
    NextPrints(text);
    PrintNothing();
    match Next(text)
    case Plain =>
      LitAlone(text);
      PrintLit(text, []);
      ReadableLit(text, []);
      assert text + "" == text;
    case Unclosed(literal, open) =>
      LitAlone(literal);
      PrintLit(literal, []);
      ReadableLit(literal, []);
      assert literal + "" == literal;
    case Placeholder(literal, name, rest) =>
      ReadThenPrint(rest);
      var r := Read(rest);
      var tail := [Var(name)] + r.segments;
      assert tail[1..] == r.segments;
      ReadableLit(literal, tail);
      PrintPlaced(literal, name, r);
  }

  lemma PrintPlaced(literal: string, name: string, r: Reading)
    ensures PrintReading(Reading(Lit(literal) + ([Var(name)] + r.segments), r.open)) == literal + Placed(name, PrintReading(r))
  {
    PrintLit(literal, [Var(name)] + r.segments);
    PrintCons(Var(name), r.segments);
    hide Print, Lit;
    var end := if r.open.Some? then "${" + r.open.value else "";
    assert literal + ("${" + name + "}" + Print(r.segments)) + end
        == literal + ("${" + (name + ("}" + (Print(r.segments) + end))));
  }

  lemma PrintNothing()
    ensures Print([]) == ""
  {
  }

  /** Reading undoes printing: the segments of a text are the only readable ones. */
  lemma {:induction false} PrintThenRead(segments: seq<Segment>)
    requires Readable(segments)
    ensures Read(Print(segments)) == Reading(segments, None)
    decreases |segments|
  {
    hide Next, Print, FindOpen;
    PrintNothing();
    NextOfPlain("");
    if segments != [] && segments[0].Var? {
      assert segments == Lit("") + ([segments[0]] + segments[1..]);
      PrintThenRead(segments[1..]);
      ReadVar("", segments[0].name, segments[1..]);
    } else if segments != [] {
      var t := segments[0].text;
      NextOfPlain(t);
      if |segments| == 1 {
        assert segments == Lit(t) && Lit(t) + [] == Lit(t) && t + "" == t;
        PrintLit(t, []);
      } else {
        assert Readable(segments[1..]);
        assert segments[1..][1..] == segments[2..];
        assert segments == Lit(t) + ([segments[1]] + segments[2..]);
        PrintThenRead(segments[2..]);
        ReadVar(t, segments[1].name, segments[2..]);
      }
    }
  }

  lemma NextOfPlain(t: string)
    requires t == "" || FindOpen(t) == |t|
    ensures Next(t) == Plain && FindOpen("") == 0
  {
  }

  /** Reading a literal, possibly empty, then a variable, then more. */
  lemma ReadVar(t: string, name: string, more: seq<Segment>)
    requires FindOpen(t) == |t| && '}' !in name && Read(Print(more)) == Reading(more, None)
    ensures Read(Print(Lit(t) + ([Var(name)] + more))) == Reading(Lit(t) + ([Var(name)] + more), None)
  {
    hide Next, Print, FindOpen, Lit;
    PrintLit(t, [Var(name)] + more);
    PrintCons(Var(name), more);
    assert PrintOne(Var(name)) + Print(more) == Placed(name, Print(more));
    NextOfPrinted(t, name, Print(more));
  }

  /** So substitution undoes printing, for every list of readable segments. */
  lemma SubstitutionOfPrinted(segments: seq<Segment>, env: map<string, string>)
    requires Readable(segments)
    ensures Substituted(Print(segments), env) == Evaluated(segments, env)
  {
    PrintThenRead(segments);
    SubstitutionEvaluates(Print(segments), env);
  }

  predicate BadName(name: string, env: map<string, string>) { name == "" || name !in env }

  lemma {:induction false} EvaluationFails(segments: seq<Segment>, env: map<string, string>)
    ensures Evaluated(segments, env).Bad? <==> exists x :: x in segments && x.Var? && BadName(x.name, env)
  {
    if segments != [] {
      EvaluationFails(segments[1..], env);
      assert segments == [segments[0]] + segments[1..];
    }
  }

  /** Substitution fails exactly on an empty, an unset or an unterminated placeholder. */
  lemma SubstitutionFails(text: string, env: map<string, string>)
    ensures Substituted(text, env).Bad?
       <==> Read(text).open.Some? || exists x :: x in Read(text).segments && x.Var? && BadName(x.name, env)
  {
    SubstitutionEvaluates(text, env);
    EvaluationFails(Read(text).segments, env);
  }

  /** The segments with each variable replaced by its value. */
  function Filled(segments: seq<Segment>, env: map<string, string>): seq<Segment> {
    seq(|segments|, i requires 0 <= i < |segments| =>
      match segments[i]
      case Literal(t) => Literal(t)
      case Var(name) => Literal(if name in env then env[name] else ""))
  }

  predicate Good(x: Segment, env: map<string, string>) { x.Literal? || !BadName(x.name, env) }

  ghost predicate AllGood(segments: seq<Segment>, env: map<string, string>) {
    forall i :: 0 <= i < |segments| ==> Good(segments[i], env)
  }

  /** The i-th segment is the first variable that is empty or unset. */
  ghost predicate FirstBad(segments: seq<Segment>, env: map<string, string>, i: nat) {
    i < |segments| && !Good(segments[i], env) && forall j :: 0 <= j < i ==> Good(segments[j], env)
  }

  /** Evaluation is the text with the values filled in. */
  lemma {:induction false} EvaluationFills(segments: seq<Segment>, env: map<string, string>)
    requires AllGood(segments, env)
    ensures Evaluated(segments, env) == Text(Print(Filled(segments, env)))
  {
    if segments != [] {
      var rest := segments[1..];
      assert forall i :: 0 <= i < |rest| ==> rest[i] == segments[i + 1];
      EvaluationFills(rest, env);
      assert Filled(segments, env)[1..] == Filled(rest, env);
    }
  }

  /** Or it says what is wrong with the first bad variable. */
  lemma {:induction false} EvaluationBlames(segments: seq<Segment>, env: map<string, string>, i: nat)
    requires FirstBad(segments, env, i)
    ensures Evaluated(segments, env) == Bad(if segments[i].name == "" then EmptyName else Unset(segments[i].name))
  {
    if i > 0 {
      var rest := segments[1..];
      assert forall k :: 0 <= k < |rest| ==> rest[k] == segments[k + 1];
      EvaluationBlames(rest, env, i - 1);
      assert Good(segments[0], env);
    }
  }

  /** What substitution gives for a text: its values filled in when every placeholder is good
      and closed; the error of the first empty or unset one; else that of the open one. */
  lemma SubstitutionMeans(text: string, env: map<string, string>)
    ensures var r := Read(text);
      && (AllGood(r.segments, env) && r.open.None? ==> Substituted(text, env) == Text(Print(Filled(r.segments, env))))
      && (AllGood(r.segments, env) && r.open.Some? ==> Substituted(text, env) == Bad(Unterminated))
      && (forall i: nat :: FirstBad(r.segments, env, i) ==>
            Substituted(text, env) == Bad(if r.segments[i].name == "" then EmptyName else Unset(r.segments[i].name)))
  {
    hide Read, Substituted, Evaluated, Filled, Print, AllGood;
    SubstitutionEvaluates(text, env);
    var segments := Read(text).segments;
    if AllGood(segments, env) { EvaluationFills(segments, env); }
    forall i: nat | FirstBad(segments, env, i)
      ensures Evaluated(segments, env) == Bad(if segments[i].name == "" then EmptyName else Unset(segments[i].name)) {
      EvaluationBlames(segments, env, i);
    }
  }
}
