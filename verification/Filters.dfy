/** The native filters: the rules of the configuration, their validation and compilation,
    and what each filter matches. */
module Filters {
  import opened Seqs
  import opened Text
  import opened Calls

  datatype View = View(from: string, subject: string, headers: seq<(string, string)>)

  /** What the regex engine answers: whether a pattern compiles, and whether it matches. */
  datatype Regex = Regex(valid: string -> bool, matches: (string, string) -> bool)

  datatype NativeFilter =
    | ListUnsubscribe
    | SenderIn(senders: seq<string>)
    | SubjectRegex(pattern: string)
    | HeaderMatch(header: string, valuePattern: string)

  datatype CompiledFilter = CompiledFilter(filter: NativeFilter, kind: string, tag: string)

  predicate HasHeader(view: View, name: string) {
    exists i :: 0 <= i < |view.headers| && EqualsIgnoringCase(view.headers[i].0, name)
  }

  predicate HeaderMatches(view: View, name: string, pattern: string, rx: Regex) {
    exists i :: 0 <= i < |view.headers| && EqualsIgnoringCase(view.headers[i].0, name)
             && rx.matches(pattern, view.headers[i].1)
  }

  predicate Matches(filter: NativeFilter, view: View, rx: Regex) {
    match filter
    case ListUnsubscribe => HasHeader(view, "List-Unsubscribe")
    case SenderIn(senders) => SenderListed(view.from, senders)
    case SubjectRegex(pattern) => rx.matches(pattern, view.subject)
    case HeaderMatch(header, pattern) => HeaderMatches(view, header, pattern, rx)
  }

  /** The address between the last `<` and the last `>`, else the whole value. */
  function SenderAddress(from: string): string {
    var open, close := LastIndexOf(from, '<'), LastIndexOf(from, '>');
    Lower(Trim(if 0 <= open < close then from[open + 1..close] else from))
  }

  /** What follows the last `@`; the whole address when it has none. */
  function SenderDomain(address: string): string { address[LastIndexOf(address, '@') + 1..] }

  predicate Lists(sender: string, address: string) {
    var entry := Lower(Trim(sender));
    entry != "" && (entry == address || entry == SenderDomain(address))
  }

  predicate SenderListed(from: string, senders: seq<string>) {
    exists sender :: sender in senders && Lists(sender, SenderAddress(from))
  }

  // ----- Rules -----

  datatype Rule = Rule(
    senderIn: Option<seq<string>>,
    subjectRegex: Option<string>,
    listUnsubscribe: Option<bool>,
    headerMatch: Option<(string, string)>,
    tag: string)

  function Count(b: bool): nat { if b then 1 else 0 }

  function TypeCount(rule: Rule): nat {
    Count(rule.senderIn.Some?) + Count(rule.subjectRegex.Some?)
    + Count(rule.listUnsubscribe == Some(true)) + Count(rule.headerMatch.Some?)
  }

  predicate Blank(s: string) { Trim(s) == "" }

  /** The filter part of the configuration's validation. */
  predicate ValidRule(rule: Rule) {
    && !Blank(rule.tag)
    && TypeCount(rule) == 1
    && (rule.senderIn.Some? ==> exists s :: s in rule.senderIn.value && !Blank(s))
    && (rule.subjectRegex.Some? ==> !Blank(rule.subjectRegex.value))
    && (rule.headerMatch.Some? ==> !Blank(rule.headerMatch.value.0) && !Blank(rule.headerMatch.value.1))
  }

  /** One rule compiled: nothing when it declares no filter, an error for a bad pattern. */
  function CompileRule(rule: Rule, rx: Regex): Option<seq<CompiledFilter>> {
    if rule.senderIn.Some? then
      Some([CompiledFilter(SenderIn(rule.senderIn.value), "sender_in", rule.tag)])
    else if rule.subjectRegex.Some? then
      if rx.valid(rule.subjectRegex.value)
      then Some([CompiledFilter(SubjectRegex(rule.subjectRegex.value), "subject_regex", rule.tag)]) else None
    else if rule.listUnsubscribe == Some(true) then
      Some([CompiledFilter(ListUnsubscribe, "list_unsubscribe", rule.tag)])
    else if rule.headerMatch.Some? then
      var (header, pattern) := rule.headerMatch.value;
      if rx.valid(pattern) then Some([CompiledFilter(HeaderMatch(header, pattern), "header_match", rule.tag)]) else None
    else Some([])
  }

  function Pattern(rule: Rule): Option<string> {
    if rule.subjectRegex.Some? then rule.subjectRegex
    else if rule.headerMatch.Some? then Some(rule.headerMatch.value.1) else None
  }

  /** A list of rules compiles when every pattern a rule uses does. */
  method CompileFilters(rules: seq<Rule>, rx: Regex) returns (r: Option<seq<CompiledFilter>>)
    ensures r.None? <==> exists i :: 0 <= i < |rules| && CompileRule(rules[i], rx).None?
    ensures r.Some? && (forall i :: 0 <= i < |rules| ==> ValidRule(rules[i])) ==>
      |r.value| == |rules| && forall i :: 0 <= i < |rules| ==> CompileRule(rules[i], rx) == Some([r.value[i]])
  {
    hide CompileRule, ValidRule, Pattern;
    var compiled := [];
    for i := 0 to |rules|
      invariant forall j :: 0 <= j < i ==> CompileRule(rules[j], rx).Some?
      invariant (forall j :: 0 <= j < |rules| ==> ValidRule(rules[j])) ==>
        |compiled| == i && forall j :: 0 <= j < i ==> CompileRule(rules[j], rx) == Some([compiled[j]])
    {
      match CompileRule(rules[i], rx) {
        case None => return None;
        case Some(filters) =>
          ValidRuleCompiles(rules[i], rx);
          assert |filters| == 1 ==> filters == [filters[0]];
          compiled := compiled + filters;
      }
    }
    r := Some(compiled);
  }

  /** A validated rule becomes one filter carrying its tag, unless its pattern is invalid. */
  lemma ValidRuleCompiles(rule: Rule, rx: Regex)
    ensures CompileRule(rule, rx).None? ==> Pattern(rule).Some? && !rx.valid(Pattern(rule).value)
    ensures ValidRule(rule) && CompileRule(rule, rx).Some? ==>
      |CompileRule(rule, rx).value| == 1 && CompileRule(rule, rx).value[0].tag == rule.tag
    ensures ValidRule(rule) && Pattern(rule).Some? && !rx.valid(Pattern(rule).value) ==> CompileRule(rule, rx).None?
  {
  }

  /** What a compiled rule matches, by the rule's own fields. */
  ghost predicate DoesAsRuled(rule: Rule, filter: NativeFilter, view: View, rx: Regex) {
    && (rule.senderIn.Some? ==> (Matches(filter, view, rx) <==> SenderListed(view.from, rule.senderIn.value)))
    && (rule.subjectRegex.Some? ==> (Matches(filter, view, rx) <==> rx.matches(rule.subjectRegex.value, view.subject)))
    && (rule.listUnsubscribe == Some(true) ==>
          (Matches(filter, view, rx) <==> exists h :: h in view.headers && Lower(h.0) == Lower("List-Unsubscribe")))
    && (rule.headerMatch.Some? ==>
          (Matches(filter, view, rx) <==> exists h :: h in view.headers && Lower(h.0) == Lower(rule.headerMatch.value.0)
                                                    && rx.matches(rule.headerMatch.value.1, h.1)))
  }

  /** The filter of a validated rule matches exactly what the rule says, under its type's name. */
  lemma RuleDoesAsRuled(rule: Rule, view: View, rx: Regex)
    requires ValidRule(rule) && CompileRule(rule, rx).Some? && |CompileRule(rule, rx).value| == 1
    ensures var f := CompileRule(rule, rx).value[0];
      && DoesAsRuled(rule, f.filter, view, rx) && f.tag == rule.tag
      && (f.kind == if rule.senderIn.Some? then "sender_in" else if rule.subjectRegex.Some? then "subject_regex"
                    else if rule.listUnsubscribe == Some(true) then "list_unsubscribe" else "header_match")
  {
    hide Lower, SenderListed, Blank;
    forall i | 0 <= i < |view.headers| ensures view.headers[i] in view.headers {}
  }

  /** Some character is not white space. */
  predicate HasText(s: string) { exists i :: 0 <= i < |s| && !IsSpace(s[i]) }

  lemma {:induction false} NothingToTrim(s: string)
    requires !HasText(s)
    ensures TrimStart(s) == ""
  {
    if s != "" {
      assert IsSpace(s[0]);
      assert forall i :: 0 <= i < |s| - 1 ==> s[1..][i] == s[i + 1];
      NothingToTrim(s[1..]);
    }
  }

  lemma {:induction false} TextStays(s: string)
    requires HasText(s)
    ensures HasText(TrimStart(s)) && TrimEnd(s) != ""
  {
    var k :| 0 <= k < |s| && !IsSpace(s[k]);
    TrimEndKeepsSome(s, k);
    if IsSpace(s[0]) {
      assert s[1..][k - 1] == s[k];
      TextStays(s[1..]);
    }
  }

  lemma BlankMeans(s: string)
    ensures Blank(s) <==> !HasText(s)
  {
    if HasText(s) {
      TextStays(s);
      TextStays(TrimStart(s));
    } else {
      NothingToTrim(s);
    }
  }

  predicate OnlyOne(a: bool, b: bool, c: bool, d: bool) {
    (a && !b && !c && !d) || (!a && b && !c && !d) || (!a && !b && c && !d) || (!a && !b && !c && d)
  }

  /** Exactly which rules pass validation. */
  lemma ValidExactlyWhen(rule: Rule)
    ensures ValidRule(rule) <==>
      && HasText(rule.tag)
      && OnlyOne(rule.senderIn.Some?, rule.subjectRegex.Some?, rule.listUnsubscribe == Some(true), rule.headerMatch.Some?)
      && (rule.senderIn.Some? ==> exists s :: s in rule.senderIn.value && HasText(s))
      && (rule.subjectRegex.Some? ==> HasText(rule.subjectRegex.value))
      && (rule.headerMatch.Some? ==> HasText(rule.headerMatch.value.0) && HasText(rule.headerMatch.value.1))
  {
    hide Blank, HasText;
    forall s ensures Blank(s) <==> !HasText(s) { BlankMeans(s); }
  }
}
