/** The suggester: a scan report turned into filter rules, and what those rules do when
    the filter engine runs them over the scanned messages. */
module Suggester {
  import opened Seqs
  import opened Text
  import opened Filters
  import opened Addresses
  import opened Ranking
  import opened Scan

  datatype Kind =
    | SenderList(senders: seq<string>)
    | HeaderPattern(header: string, pattern: string)
    | Unsubscribable

  datatype Suggestion = Suggestion(name: string, kind: Kind, tag: string, evidence: nat)

  /** The dimensions of the scan that are triage categories. */
  datatype Report = Report(
    newsletters: seq<Entry>, mailingLists: seq<Entry>, services: seq<Entry>, contacts: seq<Contact>, flagged: nat)

  // ----- Suggesting -----

  function Received(contacts: seq<Contact>): seq<Entry> {
    seq(|contacts|, i requires 0 <= i < |contacts| => Entry(contacts[i].address, contacts[i].received))
  }

  function AtLeast(minimum: nat): Entry -> bool { (e: Entry) => e.count >= minimum }

  /** A rule listing the entries that clear the threshold one by one. */
  function SenderPart(name: string, tag: string, entries: seq<Entry>, minimum: nat): seq<Suggestion> {
    var kept := Select(entries, AtLeast(minimum));
    if kept == [] then [] else [Suggestion(name, SenderList(Keys(kept)), tag, Sum(kept))]
  }

  /** A rule for a whole category, when its messages clear the threshold together. */
  function CategoryPart(name: string, kind: Kind, tag: string, evidence: nat, minimum: nat): seq<Suggestion> {
    if evidence >= minimum then [Suggestion(name, kind, tag, evidence)] else []
  }

  function Suggested(r: Report, minimum: nat): seq<Suggestion> {
    CategoryPart("scan-newsletter", Unsubscribable, "newsletter", Sum(r.newsletters), minimum)
    + CategoryPart("scan-mailing-list", HeaderPattern("List-Id", "."), "mailing-list", Sum(r.mailingLists), minimum)
    + SenderPart("scan-notification", "notification", r.services, minimum)
    + SenderPart("scan-vip", "vip", Received(r.contacts), minimum)
    + CategoryPart("scan-spam-confirmed", HeaderPattern("X-Spam-Flag", "(?i)yes"), "spam", r.flagged, minimum)
  }

  method Suggest(r: Report, minimum: nat) returns (filters: seq<Suggestion>)
    ensures filters == Suggested(r, minimum)
  {
    hide Sum, Select, AtLeast, Keys, Received;
    filters := [];
    var newsletterMessages := Sum(r.newsletters);
    if newsletterMessages >= minimum {
      filters := [Suggestion("scan-newsletter", Unsubscribable, "newsletter", newsletterMessages)];
    }
    var listMessages := Sum(r.mailingLists);
    if listMessages >= minimum {
      filters := filters + [Suggestion("scan-mailing-list", HeaderPattern("List-Id", "."), "mailing-list", listMessages)];
    }
    var services := Select(r.services, AtLeast(minimum));
    if services != [] {
      filters := filters + [Suggestion("scan-notification", SenderList(Keys(services)), "notification", Sum(services))];
    }
    var contacts := Select(Received(r.contacts), AtLeast(minimum));
    if contacts != [] {
      filters := filters + [Suggestion("scan-vip", SenderList(Keys(contacts)), "vip", Sum(contacts))];
    }
    if r.flagged >= minimum {
      filters := filters + [Suggestion("scan-spam-confirmed", HeaderPattern("X-Spam-Flag", "(?i)yes"), "spam", r.flagged)];
    }
  }

  /** The suggestion as a rule of the configuration. */
  function RuleOf(s: Suggestion): Rule {
    match s.kind
    case SenderList(senders) => Rule(Some(senders), None, None, None, s.tag)
    case HeaderPattern(header, pattern) => Rule(None, None, None, Some((header, pattern)), s.tag)
    case Unsubscribable => Rule(None, None, Some(true), None, s.tag)
  }

  // ----- The scan the report came from -----

  /** The headers the scan read stand in the message's header list, trimmed and not empty. */
  ghost predicate Drawn(m: Scanned) {
    && (m.headers.listUnsubscribe ==> HasHeader(ViewOf(m), "List-Unsubscribe"))
    && (m.headers.listId.Some? ==> Stands(m, "List-Id", m.headers.listId.value))
    && (m.headers.spamFlag.Some? ==> Stands(m, "X-Spam-Flag", m.headers.spamFlag.value))
  }

  ghost predicate Stands(m: Scanned, name: string, value: string) {
    value != "" && Trim(value) == value
    && exists i :: 0 <= i < |m.raw| && EqualsIgnoringCase(m.raw[i].0, name) && m.raw[i].1 == value
  }

  /** The filter engine's view of the same message. */
  function ViewOf(m: Scanned): View { View(m.from, m.subject, m.raw) }

  /** The report holds what the analyzers return for this inbox and these sent messages. */
  ghost predicate IsScanOf(r: Report, inbox: seq<Scanned>, sent: seq<seq<string>>) {
    var received := Tally(KeysOf(inbox, SenderKey));
    var sentTo := Tally(Recipients(sent));
    && IsTop(r.newsletters, Tally(KeysOf(inbox, NewsletterKey)), TOP_NEWSLETTER_DOMAINS)
    && IsTop(r.mailingLists, Tally(KeysOf(inbox, ListKey)), TOP_LISTS)
    && IsTop(r.services, Tally(KeysOf(inbox, ServiceKey)), TOP_NOTIFICATION_SERVICES)
    && IsTop(AsEntries(r.contacts), Exchanged(received, sentTo), TOP_BIDIRECTIONAL)
    && (forall c :: c in r.contacts ==> CountedOnBothSides(c, received, sentTo))
    && r.flagged == |Select(inbox, IsFlagged)|
  }

  /** All that is asked of the regex engine. */
  ghost predicate UsualRegex(rx: Regex) {
    && rx.valid(".") && rx.valid("(?i)yes")
    && (forall v: string :: v != "" && !IsSpace(v[0]) ==> rx.matches(".", v))
    && (forall v: string :: EqualsIgnoringCase(v, "yes") ==> rx.matches("(?i)yes", v))
  }

  // ----- Counting matches -----

  function Hits(filter: NativeFilter, rx: Regex): Scanned -> bool { (m: Scanned) => Matches(filter, ViewOf(m), rx) }

  function KeyListed(key: Scanned -> Option<string>, listed: seq<string>): Scanned -> bool {
    (m: Scanned) => key(m).Some? && key(m).value in listed
  }

  lemma {:induction false} SelectIsMonotone(s: seq<Scanned>, p: Scanned -> bool, q: Scanned -> bool)
    requires forall x :: x in s && p(x) ==> q(x)
    ensures |Select(s, p)| <= |Select(s, q)|
  {
    if s != [] {
      SelectIsMonotone(s[..|s| - 1], p, q);
      assert s[|s| - 1] in s;
    }
  }

  lemma {:induction false} KeyedCount(inbox: seq<Scanned>, key: Scanned -> Option<string>, listed: seq<string>)
    ensures |Select(KeysOf(inbox, key), Listed(listed))| == |Select(inbox, KeyListed(key, listed))|
  {
    if inbox != [] {
      var front, last := inbox[..|inbox| - 1], inbox[|inbox| - 1];
      KeyedCount(front, key, listed);
      assert inbox == front + [last];
      KeysOfOneMore(front, last, key);
      SelectSnoc(front, last, KeyListed(key, listed));
      if key(last).Some? { SelectSnoc(KeysOf(front, key), key(last).value, Listed(listed)); }
    }
  }

  /** Entries with distinct keys and true counts: their counts add up to the messages
      counted under one of their keys. */
  lemma EvidenceIsMessages(entries: seq<Entry>, inbox: seq<Scanned>, key: Scanned -> Option<string>)
    requires Distinct(Keys(entries))
    requires FromCounts(entries, Tally(KeysOf(inbox, key)))
    ensures Sum(entries) == |Select(inbox, KeyListed(key, Keys(entries)))|
  {
    TallyCounts(KeysOf(inbox, key));
    SumIsOccurrences(entries, multiset(KeysOf(inbox, key)));
    OccurrencesCount(Keys(entries), KeysOf(inbox, key));
    KeyedCount(inbox, key, Keys(entries));
  }

  lemma TopKeysAreDistinct(r: seq<Entry>, counts: map<string, nat>, k: nat)
    requires IsTop(r, counts, k)
    ensures Distinct(Keys(r)) && FromCounts(r, counts)
  {
    SortedKeysAreDistinct(r, counts);
  }

  lemma {:induction false} KeptKeysAreDistinct(entries: seq<Entry>, minimum: nat)
    requires Distinct(Keys(entries))
    ensures Distinct(Keys(Select(entries, AtLeast(minimum))))
    ensures forall e :: e in Select(entries, AtLeast(minimum)) ==> e in entries
  {
    SelectMembers(entries, AtLeast(minimum));
    if entries != [] {
      var front, last := entries[..|entries| - 1], entries[|entries| - 1];
      assert Keys(front) == Keys(entries)[..|entries| - 1];
      KeptKeysAreDistinct(front, minimum);
      SelectMembers(front, AtLeast(minimum));
      var kept := Select(front, AtLeast(minimum));
      forall i | 0 <= i < |kept| ensures kept[i].key != last.key {
        assert kept[i] in kept && kept[i] in front;
        var j :| 0 <= j < |front| && front[j] == kept[i];
        assert Keys(entries)[j] != Keys(entries)[|front|];
      }
      assert Keys(kept + [last]) == Keys(kept) + [last.key];
    }
  }

  // ----- Each rule -----

  /** The From values a sender rule can be trusted with. */
  predicate CleanSender(from: string) { SingleBrackets(from) && !BlankAfterAt(from) }

  predicate Doubtful(m: Scanned) { !CleanSender(m.from) }

  /** How far a rule may fall short of its evidence: a sender rule by its doubtful senders. */
  function Shortfall(kind: Kind, inbox: seq<Scanned>): nat {
    if kind.SenderList? then |Select(inbox, Doubtful)| else 0
  }

  /** The rule passes validation, compiles to one filter, and that filter matches as many
      scanned messages as the suggestion claims, up to the shortfall. */
  ghost predicate Works(s: Suggestion, inbox: seq<Scanned>, rx: Regex) {
    && ValidRule(RuleOf(s))
    && CompileRule(RuleOf(s), rx).Some? && |CompileRule(RuleOf(s), rx).value| == 1
    && var f := CompileRule(RuleOf(s), rx).value[0];
       f.tag == s.tag && |Select(inbox, Hits(f.filter, rx))| + Shortfall(s.kind, inbox) >= s.evidence
  }

  lemma NotBlank(s: string)
    requires s != "" && (!IsSpace(s[0]) || !IsSpace(s[|s| - 1]))
    ensures !Blank(s)
  {
    if !IsSpace(s[0]) {
      assert TrimStart(s) == s;
      TrimEndKeepsSome(s, 0);
    } else {
      TrimStartKeepsSome(s);
    }
  }

  lemma FixedTextsAreNotBlank()
    ensures !Blank("newsletter") && !Blank("mailing-list") && !Blank("notification") && !Blank("vip") && !Blank("spam")
    ensures !Blank("List-Id") && !Blank(".") && !Blank("X-Spam-Flag") && !Blank("(?i)yes")
  {
    hide Blank;
    NotBlank("newsletter");
    NotBlank("mailing-list");
    NotBlank("notification");
    NotBlank("vip");
    NotBlank("spam");
    NotBlank("List-Id");
    NotBlank(".");
    NotBlank("X-Spam-Flag");
    NotBlank("(?i)yes");
  }

  lemma NewsletterRuleWorks(entries: seq<Entry>, inbox: seq<Scanned>, rx: Regex)
    requires IsTop(entries, Tally(KeysOf(inbox, NewsletterKey)), TOP_NEWSLETTER_DOMAINS)
    requires forall m :: m in inbox ==> Drawn(m)
    ensures Works(Suggestion("scan-newsletter", Unsubscribable, "newsletter", Sum(entries)), inbox, rx)
  {
    hide Select, Sum, KeysOf, Tally, IsTop, HasHeader, Blank, DomainKey, Stands;
    TopKeysAreDistinct(entries, Tally(KeysOf(inbox, NewsletterKey)), TOP_NEWSLETTER_DOMAINS);
    EvidenceIsMessages(entries, inbox, NewsletterKey);
    forall m | m in inbox && KeyListed(NewsletterKey, Keys(entries))(m) ensures Hits(ListUnsubscribe, rx)(m) {
      assert NewsletterKey(m).Some?;
    }
    SelectIsMonotone(inbox, KeyListed(NewsletterKey, Keys(entries)), Hits(ListUnsubscribe, rx));
    FixedTextsAreNotBlank();
  }

  lemma HeaderStandsMatches(m: Scanned, name: string, value: string, pattern: string, rx: Regex)
    requires Stands(m, name, value) && rx.matches(pattern, value)
    ensures Matches(HeaderMatch(name, pattern), ViewOf(m), rx)
  {
  }

  lemma ListRuleWorks(entries: seq<Entry>, inbox: seq<Scanned>, rx: Regex)
    requires IsTop(entries, Tally(KeysOf(inbox, ListKey)), TOP_LISTS)
    requires UsualRegex(rx) && forall m :: m in inbox ==> Drawn(m)
    ensures Works(Suggestion("scan-mailing-list", HeaderPattern("List-Id", "."), "mailing-list", Sum(entries)), inbox, rx)
  {
    hide Select, Sum, KeysOf, Tally, IsTop, HeaderMatches, Blank, NormalizeListId, Trim;
    TopKeysAreDistinct(entries, Tally(KeysOf(inbox, ListKey)), TOP_LISTS);
    EvidenceIsMessages(entries, inbox, ListKey);
    var f := HeaderMatch("List-Id", ".");
    forall m | m in inbox && KeyListed(ListKey, Keys(entries))(m) ensures Hits(f, rx)(m) {
      assert ListKey(m).Some?;
      TrimmedEnds(m.headers.listId.value);
      HeaderStandsMatches(m, "List-Id", m.headers.listId.value, ".", rx);
    }
    SelectIsMonotone(inbox, KeyListed(ListKey, Keys(entries)), Hits(f, rx));
    FixedTextsAreNotBlank();
  }

  lemma SpamRuleWorks(inbox: seq<Scanned>, rx: Regex)
    requires UsualRegex(rx) && forall m :: m in inbox ==> Drawn(m)
    ensures Works(Suggestion("scan-spam-confirmed", HeaderPattern("X-Spam-Flag", "(?i)yes"), "spam", |Select(inbox, IsFlagged)|),
                  inbox, rx)
  {
    hide Select, HeaderMatches, Blank, Trim, Lower;
    var f := HeaderMatch("X-Spam-Flag", "(?i)yes");
    forall m | m in inbox && IsFlagged(m) ensures Hits(f, rx)(m) {
      HeaderStandsMatches(m, "X-Spam-Flag", m.headers.spamFlag.value, "(?i)yes", rx);
    }
    SelectIsMonotone(inbox, IsFlagged, Hits(f, rx));
    FixedTextsAreNotBlank();
  }

  // ----- The sender rules -----

  /** A rule listing the key of a clean sender matches that sender. */
  ghost predicate Answers(key: Scanned -> Option<string>) {
    forall m, senders :: key(m).Some? && CleanSender(m.from) && key(m).value in senders ==> SenderListed(m.from, senders)
  }

  ghost predicate NeverBlank(key: Scanned -> Option<string>) { forall m :: key(m).Some? ==> !Blank(key(m).value) }

  lemma DomainsAnswer()
    ensures Answers(ServiceKey)
  {
    hide SenderListed, ScanDomain, SingleBrackets, BlankAfterAt, IsNotification, Lower, Trim;
    forall m, senders | ServiceKey(m).Some? && CleanSender(m.from) && ServiceKey(m).value in senders
      ensures SenderListed(m.from, senders) {
      DomainInListMatches(m.from, senders);
    }
  }

  lemma DomainsAreNotBlank()
    ensures NeverBlank(ServiceKey)
  {
    hide LastIndexOf, Blank, IsNotification, Lower, Trim, FirstBracketed;
    forall m | ServiceKey(m).Some? ensures !Blank(ServiceKey(m).value) {
      AddressShape(m.from);
      NotBlank(ScanDomain(m.from).value);
    }
  }

  lemma AddressesAnswer()
    ensures Answers(SenderKey) && NeverBlank(SenderKey)
  {
    hide SenderListed, ScanAddress, SingleBrackets, BlankAfterAt, Blank;
    forall m, senders | SenderKey(m).Some? && CleanSender(m.from) && SenderKey(m).value in senders
      ensures SenderListed(m.from, senders) {
      ListedAddressMatches(m.from, senders);
    }
    forall m | SenderKey(m).Some? ensures !Blank(SenderKey(m).value) {
      AddressShape(m.from);
      TrimmedEnds(SenderKey(m).value);
      NotBlank(SenderKey(m).value);
    }
  }

  lemma {:induction false} SelectIsCovered(
    s: seq<Scanned>, p: Scanned -> bool, q: Scanned -> bool, d: Scanned -> bool)
    requires forall x :: x in s && p(x) ==> q(x) || d(x)
    ensures |Select(s, p)| <= |Select(s, q)| + |Select(s, d)|
  {
    if s != [] {
      SelectIsCovered(s[..|s| - 1], p, q, d);
      assert s[|s| - 1] in s;
    }
  }

  lemma {:induction false} ListedKeyIsSomeones(inbox: seq<Scanned>, key: Scanned -> Option<string>)
    ensures forall k :: k in KeysOf(inbox, key) ==> exists m :: m in inbox && key(m) == Some(k)
  {
    if inbox != [] {
      ListedKeyIsSomeones(inbox[..|inbox| - 1], key);
      forall k | k in KeysOf(inbox, key) ensures exists m :: m in inbox && key(m) == Some(k) {
        if k !in KeysOf(inbox[..|inbox| - 1], key) {
          assert inbox[|inbox| - 1] in inbox && key(inbox[|inbox| - 1]) == Some(k);
        }
      }
    }
  }

  /** Truly counted entries make a sender rule that works, for any key it answers to. */
  lemma SenderPartWorks(
    name: string, tag: string, entries: seq<Entry>, minimum: nat, inbox: seq<Scanned>,
    key: Scanned -> Option<string>, rx: Regex)
    requires Distinct(Keys(entries)) && FromCounts(entries, Tally(KeysOf(inbox, key)))
    requires Answers(key) && NeverBlank(key) && !Blank(tag)
    ensures forall s :: s in SenderPart(name, tag, entries, minimum) ==> Works(s, inbox, rx)
  {
    hide Select, Sum, KeysOf, Tally, Blank, AtLeast, SenderListed, CleanSender;
    var kept := Select(entries, AtLeast(minimum));
    KeptKeysAreDistinct(entries, minimum);
    if kept != [] {
      var senders := Keys(kept);
      EvidenceIsMessages(kept, inbox, key);
      SelectIsCovered(inbox, KeyListed(key, senders), Hits(SenderIn(senders), rx), Doubtful);
      assert kept[0] in kept && senders[0] in senders;
      TallyCounts(KeysOf(inbox, key));
      ListedKeyIsSomeones(inbox, key);
      assert !Blank(senders[0]);
    }
  }

  /** The contacts of a ranking, as entries counted by what was received from them. */
  lemma ContactsAreCounted(contacts: seq<Contact>, received: map<string, nat>, sentTo: map<string, nat>)
    requires IsTop(AsEntries(contacts), Exchanged(received, sentTo), TOP_BIDIRECTIONAL)
    requires forall c :: c in contacts ==> CountedOnBothSides(c, received, sentTo)
    ensures Distinct(Keys(Received(contacts))) && FromCounts(Received(contacts), received)
  {
    TopKeysAreDistinct(AsEntries(contacts), Exchanged(received, sentTo), TOP_BIDIRECTIONAL);
    assert Keys(Received(contacts)) == Keys(AsEntries(contacts));
    forall e | e in Received(contacts) ensures e.key in received && e.count == received[e.key] {
      var i :| 0 <= i < |contacts| && Received(contacts)[i] == e;
      assert contacts[i] in contacts;
    }
  }

  /** Every suggestion made from a scan passes validation, compiles to one filter, and that
      filter matches at least as many of the scanned messages as the suggestion claims;
      only a sender rule may fall short, by at most the messages with a doubtful sender. */
  lemma SuggestionsWork(r: Report, inbox: seq<Scanned>, sent: seq<seq<string>>, minimum: nat, rx: Regex)
    requires IsScanOf(r, inbox, sent) && UsualRegex(rx)
    requires forall m :: m in inbox ==> Drawn(m)
    ensures forall s :: s in Suggested(r, minimum) ==> Works(s, inbox, rx)
  {
    hide Works, IsTop, Tally, KeysOf, Recipients, Select, Sum, Blank, Drawn, UsualRegex, SenderPart, Answers, NeverBlank;
    FixedTextsAreNotBlank();
    NewsletterRuleWorks(r.newsletters, inbox, rx);
    ListRuleWorks(r.mailingLists, inbox, rx);
    SpamRuleWorks(inbox, rx);
    TopKeysAreDistinct(r.services, Tally(KeysOf(inbox, ServiceKey)), TOP_NOTIFICATION_SERVICES);
    DomainsAnswer();
    DomainsAreNotBlank();
    SenderPartWorks("scan-notification", "notification", r.services, minimum, inbox, ServiceKey, rx);
    ContactsAreCounted(r.contacts, Tally(KeysOf(inbox, SenderKey)), Tally(Recipients(sent)));
    AddressesAnswer();
    SenderPartWorks("scan-vip", "vip", Received(r.contacts), minimum, inbox, SenderKey, rx);
  }

  /** With clean senders no rule falls short. */
  lemma CleanSuggestionsWork(r: Report, inbox: seq<Scanned>, sent: seq<seq<string>>, minimum: nat, rx: Regex, s: Suggestion)
    requires IsScanOf(r, inbox, sent) && UsualRegex(rx) && s in Suggested(r, minimum)
    requires forall m :: m in inbox ==> Drawn(m) && CleanSender(m.from)
    ensures CompileRule(RuleOf(s), rx).Some? && |CompileRule(RuleOf(s), rx).value| == 1
    ensures |Select(inbox, Hits(CompileRule(RuleOf(s), rx).value[0].filter, rx))| >= s.evidence
  {
    hide IsScanOf, UsualRegex, Suggested, Drawn, CleanSender, Select, ValidRule, CompileRule;
    SuggestionsWork(r, inbox, sent, minimum, rx);
    SelectNone(inbox, Doubtful);
  }

  /** One notification is enough to see when a domain rule fails: its suggestion claims one
      message, and matches it if and only if no white space follows the sender's last `@`. */
  lemma OneServiceMessage(m: Scanned, minimum: nat, rx: Regex)
    requires ServiceKey(m).Some? && SingleBrackets(m.from) && minimum <= 1
    ensures IsTop([Entry(ServiceKey(m).value, 1)], Tally(KeysOf([m], ServiceKey)), TOP_NOTIFICATION_SERVICES)
    ensures SenderPart("scan-notification", "notification", [Entry(ServiceKey(m).value, 1)], minimum)
         == [Suggestion("scan-notification", SenderList([ServiceKey(m).value]), "notification", 1)]
    ensures |Select([m], Hits(SenderIn([ServiceKey(m).value]), rx))| >= 1 <==> !BlankAfterAt(m.from)
  {
    hide IsNotification, SingleBrackets, BlankAfterAt, SenderListed, ScanAddress, IsTop, SenderPart;
    OneServiceReport(m, minimum);
    var f := Hits(SenderIn([ServiceKey(m).value]), rx);
    ListedDomainMatches(m.from);
    if BlankAfterAt(m.from) { SelectNone([m], f); } else { SelectAll([m], f); }
  }

  lemma OneServiceReport(m: Scanned, minimum: nat)
    requires ServiceKey(m).Some? && minimum <= 1
    ensures IsTop([Entry(ServiceKey(m).value, 1)], Tally(KeysOf([m], ServiceKey)), TOP_NOTIFICATION_SERVICES)
    ensures SenderPart("scan-notification", "notification", [Entry(ServiceKey(m).value, 1)], minimum)
         == [Suggestion("scan-notification", SenderList([ServiceKey(m).value]), "notification", 1)]
  {
    hide ServiceKey, Tally, KeysOf, Select;
    var d := ServiceKey(m).value;
    var services := [Entry(d, 1)];
    KeysOfOne(m, ServiceKey);
    OneTallied(d);
    SelectAll(services, AtLeast(minimum));
    assert Keys(services) == [d];
    assert services[..0] == [];
    assert Sum(services) == Sum(services[..0]) + 1;
  }

  lemma OneTallied(d: string)
    ensures Tally([d]) == map[d := 1]
  {
    assert [d][..0] == [];
  }

  // ----- Scanning and suggesting -----

  /** The scan behind the suggester: each analyzer over the same inbox. */
  method Analyze(inbox: seq<Scanned>, sent: seq<seq<string>>) returns (r: Report)
    ensures IsScanOf(r, inbox, sent)
  {
    hide IsTop, Tally, KeysOf, Recipients, Select, CountedOnBothSides;
    var contacts := Bidirectional(inbox, sent);
    var newsletters := DetectNewsletters(inbox);
    var lists := DetectMailingLists(inbox);
    var services := DetectNotificationServices(inbox);
    var flagged := CountFlagged(inbox);
    r := Report(NewsletterEntries(newsletters), lists, services, contacts, flagged);
  }
}
