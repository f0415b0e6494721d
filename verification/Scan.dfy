/** The scan's analyzers: each loops over the inbox, updates a hash map, and ranks it. */
module Scan {
  import opened Seqs
  import opened Text
  import opened Addresses
  import opened Ranking

  /** The technical headers the scan reads, trimmed, absent when empty. */
  datatype Headers = Headers(
    listUnsubscribe: bool,
    listId: Option<string>,
    autoSubmitted: Option<string>,
    precedence: Option<string>,
    spamFlag: Option<string>)

  /** A message of the inbox: its full header list, and what the scan read from it. */
  datatype Scanned = Scanned(from: string, subject: string, date: int, raw: seq<(string, string)>, headers: Headers)

  const TOP_SENDERS := 50
  const TOP_DOMAINS := 50
  const TOP_BIDIRECTIONAL := 30
  const TOP_NEWSLETTER_DOMAINS := 50
  const TOP_LISTS := 50
  const TOP_NOTIFICATION_SERVICES := 50
  const TOP_NGRAMS := 30

  // ----- The key each dimension counts a message under, if it counts it -----

  function SenderKey(m: Scanned): Option<string> { ScanAddress(m.from) }

  function DomainKey(m: Scanned): Option<string> { ScanDomain(m.from) }

  function NewsletterKey(m: Scanned): Option<string> {
    if m.headers.listUnsubscribe then DomainKey(m) else None
  }

  function NormalizeListId(raw: string): string { Lower(Trim(FirstBracketed(raw))) }

  function ListKey(m: Scanned): Option<string> {
    if m.headers.listId.None? || NormalizeListId(m.headers.listId.value) == "" then None
    else Some(NormalizeListId(m.headers.listId.value))
  }

  predicate AutoSubmittedMarksAutomation(value: Option<string>) {
    value.Some? && !EqualsIgnoringCase(Trim(value.value), "no")
  }

  predicate PrecedenceMarksAutomation(value: Option<string>) {
    value.Some? && Lower(Trim(value.value)) in ["bulk", "list", "junk"]
  }

  function WithoutPunctuation(s: string): string {
    if s == "" then ""
    else (if s[0] == '.' || s[0] == '-' || s[0] == '_' then "" else [s[0]]) + WithoutPunctuation(s[1..])
  }

  predicate IsNoReplySender(from: string) {
    var a := ScanAddress(from);
    a.Some? &&
      var at := LastIndexOf(a.value, '@');
      at >= 0 && WithoutPunctuation(Lower(a.value[..at])) in ["noreply", "donotreply"]
  }

  predicate IsNotification(m: Scanned) {
    || AutoSubmittedMarksAutomation(m.headers.autoSubmitted)
    || PrecedenceMarksAutomation(m.headers.precedence)
    || IsNoReplySender(m.from)
  }

  /** The address, cut at its last `@`, has this local part. */
  ghost predicate HasLocalPart(address: string, local: string) { exists domain :: CutAt(address, local, domain) }

  /** The local part reads noreply or donotreply without its punctuation and case. */
  ghost predicate NoReply(address: string) {
    exists local :: HasLocalPart(address, local) && Select(Lower(local), Plain()) in ["noreply", "donotreply"]
  }

  function Plain(): char -> bool { (c: char) => c != '.' && c != '-' && c != '_' }

  lemma {:induction false} WithoutPunctuationSelects(s: string)
    ensures WithoutPunctuation(s) == Select(s, Plain())
  {
    if s != "" {
      WithoutPunctuationSelects(s[1..]);
      SelectAppend([s[0]], s[1..], Plain());
      assert s == [s[0]] + s[1..] && [s[0]][..0] == [];
    }
  }

  /** An automated message shows one of three marks: `Auto-Submitted` with anything but "no",
      a bulk `Precedence`, or a sender called noreply or donotreply up to `.`, `-` and `_`. */
  lemma NotificationMeans(m: Scanned)
    ensures IsNotification(m) <==>
      || (m.headers.autoSubmitted.Some? && Lower(Trim(m.headers.autoSubmitted.value)) != "no")
      || (m.headers.precedence.Some? && (Lower(Trim(m.headers.precedence.value)) == "bulk"
          || Lower(Trim(m.headers.precedence.value)) == "list" || Lower(Trim(m.headers.precedence.value)) == "junk"))
      || (ScanAddress(m.from).Some? && NoReply(ScanAddress(m.from).value))
  {
    hide Trim, ScanAddress, HasLocalPart, Select, Lower;
    LowerNo();
    if ScanAddress(m.from).Some? {
      var a := ScanAddress(m.from).value;
      var at := LastIndexOf(a, '@');
      forall local ensures HasLocalPart(a, local) <==> at >= 0 && local == a[..at] { LocalPartIs(a, local); }
      if at >= 0 { WithoutPunctuationSelects(Lower(a[..at])); }
    }
  }

  lemma LowerNo()
    ensures Lower("no") == "no"
  {
  }

  lemma LocalPartIs(address: string, local: string)
    ensures HasLocalPart(address, local) <==> LastIndexOf(address, '@') >= 0 && local == address[..LastIndexOf(address, '@')]
  {
    hide LastIndexOf, CutAt;
    var at := LastIndexOf(address, '@');
    forall domain { CutIsLast(address, local, domain); }
    if at >= 0 && local == address[..at] { assert CutAt(address, local, address[at + 1..]); }
  }

  function ServiceKey(m: Scanned): Option<string> { if IsNotification(m) then DomainKey(m) else None }

  predicate IsFlagged(m: Scanned) {
    m.headers.spamFlag.Some? && EqualsIgnoringCase(Trim(m.headers.spamFlag.value), "yes")
  }

  /** Under which key each dimension counts a message: a newsletter and an automated message
      under its sender's domain, a list message under its list id without name, brackets,
      surrounding space and case. */
  lemma KeysMean(m: Scanned, k: string)
    ensures SenderKey(m) == Some(k) <==> ScanAddress(m.from) == Some(k)
    ensures DomainKey(m) == Some(k) <==> ScanDomain(m.from) == Some(k)
    ensures NewsletterKey(m) == Some(k) <==> m.headers.listUnsubscribe && ScanDomain(m.from) == Some(k)
    ensures ServiceKey(m) == Some(k) <==> IsNotification(m) && ScanDomain(m.from) == Some(k)
    ensures ListKey(m) == Some(k)
      <==> m.headers.listId.Some? && k != "" && exists inner :: Inside(m.headers.listId.value, inner) && k == Lower(Trim(inner))
  {
    hide ScanAddress, ScanDomain, IsNotification, Lower, Trim, Inside, FirstBracketed;
    if m.headers.listId.Some? { FirstBracketedMeans(m.headers.listId.value); }
  }

  /** A message is flagged when the header says yes, in any case and spacing. */
  lemma FlaggedMeans(m: Scanned)
    ensures IsFlagged(m) <==> m.headers.spamFlag.Some? && Lower(Trim(m.headers.spamFlag.value)) == "yes"
  {
    hide Trim;
    assert Lower("yes") == "yes";
  }

  // ----- Counting -----

  function AsList(key: Option<string>): seq<string> { if key.Some? then [key.value] else [] }

  /** The keys of the counted messages, in inbox order. */
  function KeysOf(inbox: seq<Scanned>, key: Scanned -> Option<string>): seq<string> {
    if inbox == [] then []
    else KeysOf(inbox[..|inbox| - 1], key) + AsList(key(inbox[|inbox| - 1]))
  }

  /** The counting loop of every single-key analyzer. */
  method CountBy(inbox: seq<Scanned>, key: Scanned -> Option<string>) returns (counts: map<string, nat>)
    ensures counts == Tally(KeysOf(inbox, key))
  {
    hide Bumped;
    counts := map[];
    for i := 0 to |inbox|
      invariant counts == Tally(KeysOf(inbox[..i], key))
    {
      assert inbox[..i + 1][..i] == inbox[..i];
      var before := KeysOf(inbox[..i], key);
      match key(inbox[i]) {
        case Some(k) =>
          TallySnoc(before, k);
          counts := Bumped(counts, k);
        case None =>
          assert before + [] == before;
      }
    }
    assert inbox[..|inbox|] == inbox;
  }

  method TopSenders(inbox: seq<Scanned>) returns (r: seq<Entry>)
    ensures IsTop(r, Tally(KeysOf(inbox, SenderKey)), TOP_SENDERS)
  {
    var counts := CountBy(inbox, SenderKey);
    r := Rank(counts, TOP_SENDERS);
  }

  method TopDomains(inbox: seq<Scanned>) returns (r: seq<Entry>)
    ensures IsTop(r, Tally(KeysOf(inbox, DomainKey)), TOP_DOMAINS)
  {
    var counts := CountBy(inbox, DomainKey);
    r := Rank(counts, TOP_DOMAINS);
  }

  method DetectMailingLists(inbox: seq<Scanned>) returns (r: seq<Entry>)
    ensures IsTop(r, Tally(KeysOf(inbox, ListKey)), TOP_LISTS)
  {
    var counts := CountBy(inbox, ListKey);
    r := Rank(counts, TOP_LISTS);
  }

  method DetectNotificationServices(inbox: seq<Scanned>) returns (r: seq<Entry>)
    ensures IsTop(r, Tally(KeysOf(inbox, ServiceKey)), TOP_NOTIFICATION_SERVICES)
  {
    var counts := CountBy(inbox, ServiceKey);
    r := Rank(counts, TOP_NOTIFICATION_SERVICES);
  }

  lemma KeysOfOne(m: Scanned, key: Scanned -> Option<string>)
    ensures KeysOf([m], key) == AsList(key(m)) && KeysOf([], key) == []
  {
    assert [m][..0] == [] && [] + AsList(key(m)) == AsList(key(m));
  }

  function KeyList(key: Scanned -> Option<string>): Scanned -> seq<string> { (m: Scanned) => AsList(key(m)) }

  lemma {:induction false} KeysAreGathered(inbox: seq<Scanned>, key: Scanned -> Option<string>)
    ensures KeysOf(inbox, key) == Gathered(inbox, KeyList(key))
  {
    if inbox != [] { KeysAreGathered(inbox[..|inbox| - 1], key); }
  }

  /** The tally of a key does not depend on the inbox's order. */
  lemma TallyOfReordered(a: seq<Scanned>, b: seq<Scanned>, key: Scanned -> Option<string>)
    requires multiset(a) == multiset(b)
    ensures Tally(KeysOf(a, key)) == Tally(KeysOf(b, key))
  {
    hide KeysOf, Tally, Gathered;
    KeysAreGathered(a, key);
    KeysAreGathered(b, key);
    GatheredPermutation(a, b, KeyList(key));
    TallyIgnoresOrder(KeysOf(a, key), KeysOf(b, key));
  }

  /** A ranking depends neither on the inbox's order nor on the hash map's. */
  lemma RankingIgnoresOrder(a: seq<Scanned>, b: seq<Scanned>, key: Scanned -> Option<string>, k: nat, r: seq<Entry>, q: seq<Entry>)
    requires multiset(a) == multiset(b)
    requires IsTop(r, Tally(KeysOf(a, key)), k) && IsTop(q, Tally(KeysOf(b, key)), k)
    ensures r == q
  {
    TallyOfReordered(a, b, key);
    TopIsUnique(r, q, Tally(KeysOf(a, key)), k);
  }

  // ----- Newsletters: messages and distinct senders of a domain -----

  datatype NewsletterDomain = NewsletterDomain(domain: string, messages: nat, distinctSenders: nat)

  /** The addresses newsletters of `domain` came from. */
  function SendersAt(inbox: seq<Scanned>, domain: string): set<string> {
    set m | m in inbox && NewsletterKey(m) == Some(domain) && SenderKey(m).Some? :: SenderKey(m).value
  }

  lemma SendersOfOneMore(front: seq<Scanned>, m: Scanned, domain: string)
    ensures SendersAt(front + [m], domain)
         == SendersAt(front, domain) + (if NewsletterKey(m) == Some(domain) then {SenderKey(m).value} else {})
  {
    hide ScanAddress;
    assert forall x :: x in front + [m] <==> x in front || x == m;
  }

  /** The loop of `DetectNewsletters`: two maps filled side by side. */
  method GatherNewsletters(inbox: seq<Scanned>) returns (messages: map<string, nat>, senders: map<string, set<string>>)
    ensures messages == Tally(KeysOf(inbox, NewsletterKey))
    ensures forall d :: SendersAt(inbox, d) == if d in senders then senders[d] else {}
  {
    hide ScanAddress, SendersAt, Bumped, KeysOf;
    messages, senders := map[], map[];
    NoSenders();
    NoKeys(NewsletterKey);
    for i := 0 to |inbox|
      invariant messages == Tally(KeysOf(inbox[..i], NewsletterKey))
      invariant forall d :: SendersAt(inbox[..i], d) == if d in senders then senders[d] else {}
    {
      assert inbox[..i + 1] == inbox[..i] + [inbox[i]];
      forall d { SendersOfOneMore(inbox[..i], inbox[i], d); }
      KeysOfOneMore(inbox[..i], inbox[i], NewsletterKey);
      if inbox[i].headers.listUnsubscribe && DomainKey(inbox[i]).Some? {
        var domain, address := DomainKey(inbox[i]).value, SenderKey(inbox[i]).value;
        TallySnoc(KeysOf(inbox[..i], NewsletterKey), domain);
        messages := Bumped(messages, domain);
        senders := senders[domain := (if domain in senders then senders[domain] else {}) + {address}];
      }
    }
    assert inbox[..|inbox|] == inbox;
  }

  lemma NoKeys(key: Scanned -> Option<string>)
    ensures Tally(KeysOf([], key)) == map[]
  {
  }

  lemma KeysOfOneMore(front: seq<Scanned>, m: Scanned, key: Scanned -> Option<string>)
    ensures KeysOf(front + [m], key) == if key(m).Some? then KeysOf(front, key) + [key(m).value] else KeysOf(front, key)
  {
    assert (front + [m])[..|front|] == front;
    assert KeysOf(front, key) + [] == KeysOf(front, key);
  }

  method DetectNewsletters(inbox: seq<Scanned>) returns (r: seq<NewsletterDomain>)
    ensures IsTop(NewsletterEntries(r), Tally(KeysOf(inbox, NewsletterKey)), TOP_NEWSLETTER_DOMAINS)
    ensures forall n :: n in r ==> n.distinctSenders == |SendersAt(inbox, n.domain)|
  {
    hide IsTop, SendersAt, KeysOf, Tally;
    var messages, senders := GatherNewsletters(inbox);
    var ranked := Rank(messages, TOP_NEWSLETTER_DOMAINS);
    r := seq(|ranked|, i requires 0 <= i < |ranked| =>
      NewsletterDomain(ranked[i].key, ranked[i].count, if ranked[i].key in senders then |senders[ranked[i].key]| else 0));
    assert NewsletterEntries(r) == ranked;
  }

  function NewsletterEntries(r: seq<NewsletterDomain>): seq<Entry> {
    seq(|r|, i requires 0 <= i < |r| => Entry(r[i].domain, r[i].messages))
  }

  lemma ReorderedMembers(a: seq<Scanned>, b: seq<Scanned>)
    requires multiset(a) == multiset(b)
    ensures forall m :: m in a <==> m in b
  {
    forall m ensures m in a <==> m in b {
      assert m in multiset(a) <==> m in a;
      assert m in multiset(b) <==> m in b;
    }
  }

  /** The newsletter ranking, distinct senders included, does not depend on the inbox's order. */
  lemma NewslettersIgnoreOrder(a: seq<Scanned>, b: seq<Scanned>, r: seq<NewsletterDomain>, q: seq<NewsletterDomain>)
    requires multiset(a) == multiset(b)
    requires IsTop(NewsletterEntries(r), Tally(KeysOf(a, NewsletterKey)), TOP_NEWSLETTER_DOMAINS)
    requires IsTop(NewsletterEntries(q), Tally(KeysOf(b, NewsletterKey)), TOP_NEWSLETTER_DOMAINS)
    requires forall n :: n in r ==> n.distinctSenders == |SendersAt(a, n.domain)|
    requires forall n :: n in q ==> n.distinctSenders == |SendersAt(b, n.domain)|
    ensures r == q
  {
    hide IsTop, Tally, KeysOf, NewsletterKey, SenderKey;
    RankingIgnoresOrder(a, b, NewsletterKey, TOP_NEWSLETTER_DOMAINS, NewsletterEntries(r), NewsletterEntries(q));
    ReorderedMembers(a, b);
    forall d ensures SendersAt(a, d) == SendersAt(b, d) {}
    assert |NewsletterEntries(r)| == |r| && |NewsletterEntries(q)| == |q|;
    forall i | 0 <= i < |r| ensures r[i] == q[i] {
      assert NewsletterEntries(r)[i] == NewsletterEntries(q)[i];
      assert r[i] in r && q[i] in q;
    }
  }

  lemma NoSenders()
    ensures forall d :: SendersAt([], d) == {}
  {
  }

  // ----- Two-way contacts -----

  datatype Contact = Contact(address: string, received: nat, sentTo: nat)

  /** The addresses of every recipient of the sent messages, in order. */
  function Recipients(sent: seq<seq<string>>): seq<string> {
    if sent == [] then [] else Recipients(sent[..|sent| - 1]) + AddressesIn(sent[|sent| - 1])
  }

  function AddressesIn(to: seq<string>): seq<string> {
    if to == [] then [] else AddressesIn(to[..|to| - 1]) + AsList(ScanAddress(to[|to| - 1]))
  }

  method CountRecipients(sent: seq<seq<string>>) returns (counts: map<string, nat>)
    ensures counts == Tally(Recipients(sent))
  {
    hide Tally, AddressesIn;
    counts := map[];
    NothingTallied();
    for i := 0 to |sent|
      invariant counts == Tally(Recipients(sent[..i]))
    {
      assert sent[..i + 1][..i] == sent[..i];
      counts := CountTo(sent[i], counts, Recipients(sent[..i]));
    }
    assert sent[..|sent|] == sent;
  }

  lemma NothingTallied()
    ensures Tally([]) == map[]
  {
  }

  /** The inner loop: the recipients of one message. */
  method CountTo(to: seq<string>, before: map<string, nat>, ghost keys: seq<string>) returns (counts: map<string, nat>)
    requires before == Tally(keys)
    ensures counts == Tally(keys + AddressesIn(to))
  {
    hide Tally, Bumped, ScanAddress;
    counts := before;
    assert keys + AddressesIn([]) == keys;
    for j := 0 to |to|
      invariant counts == Tally(keys + AddressesIn(to[..j]))
    {
      assert to[..j + 1][..j] == to[..j];
      var address := ScanAddress(to[j]);
      if address.Some? {
        assert keys + (AddressesIn(to[..j]) + [address.value]) == keys + AddressesIn(to[..j]) + [address.value];
        TallySnoc(keys + AddressesIn(to[..j]), address.value);
        counts := Bumped(counts, address.value);
      } else {
        assert AddressesIn(to[..j]) + [] == AddressesIn(to[..j]);
      }
    }
    assert to[..|to|] == to;
  }

  /** Messages exchanged with each address met on both sides. */
  function Exchanged(received: map<string, nat>, sentTo: map<string, nat>): map<string, nat> {
    map a | a in received && a in sentTo :: received[a] + sentTo[a]
  }

  function AsEntries(contacts: seq<Contact>): seq<Entry> {
    seq(|contacts|, i requires 0 <= i < |contacts| => Entry(contacts[i].address, contacts[i].received + contacts[i].sentTo))
  }

  /** A contact carries the counts of its address on both sides. */
  ghost predicate CountedOnBothSides(c: Contact, received: map<string, nat>, sentTo: map<string, nat>) {
    && c.address in received && c.received == received[c.address]
    && c.address in sentTo && c.sentTo == sentTo[c.address]
  }

  method Bidirectional(inbox: seq<Scanned>, sent: seq<seq<string>>) returns (r: seq<Contact>)
    ensures IsTop(AsEntries(r), Exchanged(Tally(KeysOf(inbox, SenderKey)), Tally(Recipients(sent))), TOP_BIDIRECTIONAL)
    ensures forall c :: c in r ==> CountedOnBothSides(c, Tally(KeysOf(inbox, SenderKey)), Tally(Recipients(sent)))
  {
    hide Tally, KeysOf, Recipients;
    var received := CountBy(inbox, SenderKey);
    var sentTo := CountRecipients(sent);
    r := RankContacts(received, sentTo);
  }

  method RankContacts(received: map<string, nat>, sentTo: map<string, nat>) returns (r: seq<Contact>)
    ensures IsTop(AsEntries(r), Exchanged(received, sentTo), TOP_BIDIRECTIONAL)
    ensures forall c :: c in r ==> CountedOnBothSides(c, received, sentTo)
  {
    hide IsTop;
    var ranked := Rank(Exchanged(received, sentTo), TOP_BIDIRECTIONAL);
    TopHasCounts(ranked, Exchanged(received, sentTo), TOP_BIDIRECTIONAL);
    r := seq(|ranked|, i requires 0 <= i < |ranked| => Contact(ranked[i].key, received[ranked[i].key], sentTo[ranked[i].key]));
    assert AsEntries(r) == ranked;
  }

  lemma TopHasCounts(r: seq<Entry>, counts: map<string, nat>, k: nat)
    requires IsTop(r, counts, k)
    ensures forall i :: 0 <= i < |r| ==> r[i].key in counts && r[i].count == counts[r[i].key]
  {
    assert forall i :: 0 <= i < |r| ==> r[i] in r;
  }

  /** Someone was written to exactly when some sent message names the address. */
  lemma {:induction false} RecipientsMean(sent: seq<seq<string>>, a: string)
    ensures a in Recipients(sent) <==> exists m, to :: m in sent && to in m && ScanAddress(to) == Some(a)
  {
    hide ScanAddress, AddressesIn;
    if sent != [] {
      var front, last := sent[..|sent| - 1], sent[|sent| - 1];
      assert sent == front + [last];
      RecipientsMean(front, a);
      AddressesMean(last, a);
      if a in AddressesIn(last) {
        var to :| to in last && ScanAddress(to) == Some(a);
        assert last in sent;
      }
    }
  }

  lemma {:induction false} AddressesMean(to: seq<string>, a: string)
    ensures a in AddressesIn(to) <==> exists x :: x in to && ScanAddress(x) == Some(a)
  {
    hide ScanAddress;
    if to != [] {
      var front, last := to[..|to| - 1], to[|to| - 1];
      assert to == front + [last];
      AddressesMean(front, a);
    }
  }

  function AddressList(): seq<string> -> seq<string> { (to: seq<string>) => AddressesIn(to) }

  lemma {:induction false} RecipientsAreGathered(sent: seq<seq<string>>)
    ensures Recipients(sent) == Gathered(sent, AddressList())
  {
    if sent != [] { RecipientsAreGathered(sent[..|sent| - 1]); }
  }

  /** The contacts stand by messages exchanged, received and sent together; equal numbers by
      address; and they are the busiest met on both sides. */
  lemma ContactsAreRanked(r: seq<Contact>, received: map<string, nat>, sentTo: map<string, nat>)
    requires IsTop(AsEntries(r), Exchanged(received, sentTo), TOP_BIDIRECTIONAL)
    ensures |r| <= 30
    ensures forall i, j :: 0 <= i < j < |r| ==> r[i].received + r[i].sentTo >= r[j].received + r[j].sentTo
    ensures forall i, j :: 0 <= i < j < |r| && r[i].received + r[i].sentTo == r[j].received + r[j].sentTo ==>
      KeyFirst(r[i].address, r[j].address)
    ensures forall a, i :: a in received && a in sentTo && (forall j :: 0 <= j < |r| ==> r[j].address != a) && 0 <= i < |r| ==>
      received[a] + sentTo[a] <= r[i].received + r[i].sentTo
  {
    hide KeyFirst;
    TopIsRanked(AsEntries(r), Exchanged(received, sentTo), TOP_BIDIRECTIONAL);
    var entries := AsEntries(r);
    assert |entries| == |r| && forall i :: 0 <= i < |r| ==> entries[i] == Entry(r[i].address, r[i].received + r[i].sentTo);
    var counts := Exchanged(received, sentTo);
    forall a, i | a in received && a in sentTo && (forall j :: 0 <= j < |r| ==> r[j].address != a) && 0 <= i < |r|
      ensures received[a] + sentTo[a] <= r[i].received + r[i].sentTo {
      assert forall j :: 0 <= j < |entries| ==> entries[j].key != a;
      assert a in counts && Entry(a, counts[a]) !in entries;
      assert counts[a] <= entries[i].count;
    }
  }

  /** The two-way contacts, with their counts, depend neither on the inbox's order nor on
      that of the sent messages. */
  lemma ContactsIgnoreOrder(
    a: seq<Scanned>, b: seq<Scanned>, sentA: seq<seq<string>>, sentB: seq<seq<string>>, r: seq<Contact>, q: seq<Contact>)
    requires multiset(a) == multiset(b) && multiset(sentA) == multiset(sentB)
    requires IsTop(AsEntries(r), Exchanged(Tally(KeysOf(a, SenderKey)), Tally(Recipients(sentA))), TOP_BIDIRECTIONAL)
    requires IsTop(AsEntries(q), Exchanged(Tally(KeysOf(b, SenderKey)), Tally(Recipients(sentB))), TOP_BIDIRECTIONAL)
    requires forall c :: c in r ==> CountedOnBothSides(c, Tally(KeysOf(a, SenderKey)), Tally(Recipients(sentA)))
    requires forall c :: c in q ==> CountedOnBothSides(c, Tally(KeysOf(b, SenderKey)), Tally(Recipients(sentB)))
    ensures r == q
  {
    hide IsTop, Tally, KeysOf, Recipients, Gathered, Exchanged;
    TallyOfReordered(a, b, SenderKey);
    RecipientsAreGathered(sentA);
    RecipientsAreGathered(sentB);
    GatheredPermutation(sentA, sentB, AddressList());
    TallyIgnoresOrder(Recipients(sentA), Recipients(sentB));
    TopIsUnique(AsEntries(r), AsEntries(q), Exchanged(Tally(KeysOf(a, SenderKey)), Tally(Recipients(sentA))), TOP_BIDIRECTIONAL);
    assert |AsEntries(r)| == |r| && |AsEntries(q)| == |q|;
    forall i | 0 <= i < |r| ensures r[i] == q[i] {
      assert AsEntries(r)[i] == AsEntries(q)[i];
      assert r[i] in r && q[i] in q;
    }
  }

  // ----- Spam flags -----

  method CountFlagged(inbox: seq<Scanned>) returns (flagged: nat)
    ensures flagged == |Select(inbox, IsFlagged)|
  {
    hide IsFlagged;
    flagged := 0;
    for i := 0 to |inbox|
      invariant flagged == |Select(inbox[..i], IsFlagged)|
    {
      assert inbox[..i + 1] == inbox[..i] + [inbox[i]];
      SelectSnoc(inbox[..i], inbox[i], IsFlagged);
      if IsFlagged(inbox[i]) { flagged := flagged + 1; }
    }
    assert inbox[..|inbox|] == inbox;
  }
}
