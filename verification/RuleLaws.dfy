/** Exactly which messages the suggested sender rules match: how many of their evidence they
    miss, and when the two of them overlap. */
module RuleLaws {
  import opened Seqs
  import opened Text
  import opened Filters
  import opened Addresses
  import opened Ranking
  import opened Scan
  import opened Suggester

  /** The domains the notification rule lists. */
  function ServiceDomains(r: Report, minimum: nat): seq<string> { Keys(Select(r.services, AtLeast(minimum))) }

  /** The addresses the contact rule lists. */
  function VipAddresses(r: Report, minimum: nat): seq<string> { Keys(Select(Received(r.contacts), AtLeast(minimum))) }

  lemma KeptKeysAreSomeones(entries: seq<Entry>, minimum: nat, inbox: seq<Scanned>, key: Scanned -> Option<string>)
    requires FromCounts(entries, Tally(KeysOf(inbox, key)))
    ensures forall k :: k in Keys(Select(entries, AtLeast(minimum))) ==> exists m :: m in inbox && key(m) == Some(k)
  {
    hide Tally, KeysOf, Select;
    SelectMembers(entries, AtLeast(minimum));
    TallyCounts(KeysOf(inbox, key));
    ListedKeyIsSomeones(inbox, key);
    var kept := Select(entries, AtLeast(minimum));
    forall k | k in Keys(kept) ensures k in KeysOf(inbox, key) {
      var i :| 0 <= i < |kept| && kept[i].key == k;
      assert kept[i] in kept;
    }
  }

  /** The rules list scanned domains and scanned addresses, each the key of some message. */
  lemma ListedAreScanned(r: Report, inbox: seq<Scanned>, sent: seq<seq<string>>, minimum: nat)
    requires IsScanOf(r, inbox, sent)
    ensures forall d :: d in ServiceDomains(r, minimum) ==> IsDomain(d) && exists m :: m in inbox && ScanDomain(m.from) == Some(d)
    ensures forall a :: a in VipAddresses(r, minimum) ==> WellShaped(a)
  {
    hide IsTop, Tally, KeysOf, Recipients, Select, IsDomain, WellShaped, ScanAddress, IsNotification, Keys;
    TopKeysAreDistinct(r.services, Tally(KeysOf(inbox, ServiceKey)), TOP_NOTIFICATION_SERVICES);
    KeptKeysAreSomeones(r.services, minimum, inbox, ServiceKey);
    ContactsAreCounted(r.contacts, Tally(KeysOf(inbox, SenderKey)), Tally(Recipients(sent)));
    KeptKeysAreSomeones(Received(r.contacts), minimum, inbox, SenderKey);
    forall d | d in ServiceDomains(r, minimum) ensures IsDomain(d) && exists m :: m in inbox && ScanDomain(m.from) == Some(d) {
      var m :| m in inbox && ServiceKey(m) == Some(d);
      ScannedDomain(m.from);
    }
    forall a | a in VipAddresses(r, minimum) ensures WellShaped(a) {
      var m :| m in inbox && SenderKey(m) == Some(a);
      AddressShape(m.from);
    }
  }

  // ----- Which rules are suggested -----

  /** The keys of the entries that have the count, in the ranking's order, each as often. */
  ghost predicate Keep(listed: seq<string>, entries: seq<Entry>, minimum: nat) {
    forall k :: k in listed <==> exists e :: e in entries && e.key == k && e.count >= minimum
  }

  lemma KeptKeys(entries: seq<Entry>, minimum: nat)
    ensures Keep(Keys(Select(entries, AtLeast(minimum))), entries, minimum)
    ensures Select(entries, AtLeast(minimum)) != [] <==> exists e :: e in entries && e.count >= minimum
  {
    hide Select;
    SelectMembers(entries, AtLeast(minimum));
    var kept := Select(entries, AtLeast(minimum));
    var keys := Keys(kept);
    forall k ensures k in keys <==> exists e :: e in entries && e.key == k && e.count >= minimum {
      if k in keys {
        var i :| 0 <= i < |keys| && keys[i] == k;
        assert kept[i] in kept;
      }
      if e :| e in entries && e.key == k && e.count >= minimum {
        assert e in kept;
        var i :| 0 <= i < |kept| && kept[i] == e;
        assert keys[i] == k;
      }
    }
    if kept != [] { assert kept[0] in kept; }
    if e :| e in entries && e.count >= minimum { assert e in kept; }
  }

  /** The suggestions, by the report: each category in this order, exactly when its threshold
      is reached, and nothing else. */
  lemma SuggestedExactlyWhen(r: Report, minimum: nat)
    ensures exists services, vips ::
      && Suggested(r, minimum)
         == (if Sum(r.newsletters) >= minimum
             then [Suggestion("scan-newsletter", Unsubscribable, "newsletter", Sum(r.newsletters))] else [])
          + (if Sum(r.mailingLists) >= minimum
             then [Suggestion("scan-mailing-list", HeaderPattern("List-Id", "."), "mailing-list", Sum(r.mailingLists))] else [])
          + services + vips
          + (if r.flagged >= minimum
             then [Suggestion("scan-spam-confirmed", HeaderPattern("X-Spam-Flag", "(?i)yes"), "spam", r.flagged)] else [])
      && IsSenderRule(services, "scan-notification", "notification", r.services, minimum)
      && IsSenderRule(vips, "scan-vip", "vip", Received(r.contacts), minimum)
  {
    hide Sum, SenderPart, IsSenderRule;
    SenderRule("scan-notification", "notification", r.services, minimum);
    SenderRule("scan-vip", "vip", Received(r.contacts), minimum);
  }

  /** One rule listing exactly the entries that reach the threshold one by one, with their
      counts summed up; none when there is no such entry. */
  ghost predicate IsSenderRule(part: seq<Suggestion>, name: string, tag: string, entries: seq<Entry>, minimum: nat) {
    && (part == [] <==> forall e :: e in entries ==> e.count < minimum)
    && (part != [] ==> |part| == 1 && part[0].name == name && part[0].tag == tag)
    && (part != [] ==> part[0].kind.SenderList? && Keep(part[0].kind.senders, entries, minimum))
    && (part != [] ==> part[0].evidence == Sum(Select(entries, AtLeast(minimum))))
  }

  lemma SenderRule(name: string, tag: string, entries: seq<Entry>, minimum: nat)
    ensures IsSenderRule(SenderPart(name, tag, entries, minimum), name, tag, entries, minimum)
  {
    hide Select, Sum, Keys, AtLeast, Keep;
    KeptKeys(entries, minimum);
  }

  // ----- How much of its evidence a sender rule misses -----

  function Both(p: Scanned -> bool, q: Scanned -> bool): Scanned -> bool { (m: Scanned) => p(m) && q(m) }

  lemma {:induction false} SplitCount(s: seq<Scanned>, p: Scanned -> bool, q: Scanned -> bool, missed: Scanned -> bool)
    requires forall m :: m in s ==> (missed(m) <==> p(m) && !q(m))
    ensures |Select(s, p)| == |Select(s, Both(p, q))| + |Select(s, missed)|
  {
    if s != [] {
      SplitCount(s[..|s| - 1], p, q, missed);
      assert s[|s| - 1] in s;
    }
  }

  /** Counted under a listed domain, but what the filter engine reads off the sender is none
      of the listed domains trimmed. */
  ghost predicate DomainOverlooked(m: Scanned, domains: seq<string>) {
    KeyListed(ServiceKey, domains)(m) && !TrimmedIn(domains, SenderDomain(SenderAddress(m.from)))
  }

  /** Counted under a listed address, but the filter engine reads off another address, and
      that one is not listed. */
  predicate AddressOverlooked(m: Scanned, addresses: seq<string>) {
    KeyListed(SenderKey, addresses)(m) && SenderAddress(m.from) !in addresses
  }

  lemma OverlookedDomain(m: Scanned, domains: seq<string>, rx: Regex)
    requires forall d :: d in domains ==> IsDomain(d)
    ensures DomainOverlooked(m, domains) <==> KeyListed(ServiceKey, domains)(m) && !Hits(SenderIn(domains), rx)(m)
  {
    hide ServiceKey, SenderListed, TrimmedIn, SenderAddress, SenderDomain, IsDomain;
    DomainListMatches(m.from, domains);
  }

  lemma OverlookedAddress(m: Scanned, addresses: seq<string>, rx: Regex)
    requires forall a :: a in addresses ==> WellShaped(a)
    ensures AddressOverlooked(m, addresses) <==> KeyListed(SenderKey, addresses)(m) && !Hits(SenderIn(addresses), rx)(m)
  {
    hide SenderKey, SenderListed, SenderAddress, WellShaped;
    AddressListMatches(m.from, addresses);
  }

  /** Of the messages that are its evidence, the notification rule misses exactly the
      overlooked ones. */
  lemma ServiceEvidenceIsExact(r: Report, inbox: seq<Scanned>, sent: seq<seq<string>>, minimum: nat, rx: Regex, missed: Scanned -> bool)
    requires IsScanOf(r, inbox, sent)
    requires forall m :: m in inbox ==> (missed(m) <==> DomainOverlooked(m, ServiceDomains(r, minimum)))
    ensures var listed := ServiceDomains(r, minimum);
      Sum(Select(r.services, AtLeast(minimum)))
      == |Select(inbox, Both(KeyListed(ServiceKey, listed), Hits(SenderIn(listed), rx)))| + |Select(inbox, missed)|
  {
    hide IsTop, Tally, KeysOf, Recipients, Select, IsDomain, WellShaped, KeyListed, Hits, DomainOverlooked, Keys, Sum, AtLeast;
    var listed := ServiceDomains(r, minimum);
    ListedAreScanned(r, inbox, sent, minimum);
    TopKeysAreDistinct(r.services, Tally(KeysOf(inbox, ServiceKey)), TOP_NOTIFICATION_SERVICES);
    KeptKeysAreDistinct(r.services, minimum);
    EvidenceIsMessages(Select(r.services, AtLeast(minimum)), inbox, ServiceKey);
    forall m | m in inbox ensures missed(m) <==> KeyListed(ServiceKey, listed)(m) && !Hits(SenderIn(listed), rx)(m) {
      OverlookedDomain(m, listed, rx);
    }
    SplitCount(inbox, KeyListed(ServiceKey, listed), Hits(SenderIn(listed), rx), missed);
  }

  /** And so does the contact rule. */
  lemma VipEvidenceIsExact(r: Report, inbox: seq<Scanned>, sent: seq<seq<string>>, minimum: nat, rx: Regex, missed: Scanned -> bool)
    requires IsScanOf(r, inbox, sent)
    requires forall m :: m in inbox ==> (missed(m) <==> AddressOverlooked(m, VipAddresses(r, minimum)))
    ensures var listed := VipAddresses(r, minimum);
      Sum(Select(Received(r.contacts), AtLeast(minimum)))
      == |Select(inbox, Both(KeyListed(SenderKey, listed), Hits(SenderIn(listed), rx)))| + |Select(inbox, missed)|
  {
    hide IsTop, Tally, KeysOf, Recipients, Select, IsDomain, WellShaped, KeyListed, Hits, AddressOverlooked, Keys, Sum, AtLeast, Received;
    var listed := VipAddresses(r, minimum);
    ListedAreScanned(r, inbox, sent, minimum);
    ContactsAreCounted(r.contacts, Tally(KeysOf(inbox, SenderKey)), Tally(Recipients(sent)));
    KeptKeysAreDistinct(Received(r.contacts), minimum);
    EvidenceIsMessages(Select(Received(r.contacts), AtLeast(minimum)), inbox, SenderKey);
    forall m | m in inbox ensures missed(m) <==> KeyListed(SenderKey, listed)(m) && !Hits(SenderIn(listed), rx)(m) {
      OverlookedAddress(m, listed, rx);
    }
    SplitCount(inbox, KeyListed(SenderKey, listed), Hits(SenderIn(listed), rx), missed);
  }

  // ----- Overlapping rules -----

  /** A suggested sender rule of this name matches the message. */
  ghost predicate HitBy(r: Report, minimum: nat, name: string, m: Scanned, rx: Regex) {
    exists s :: s in Suggested(r, minimum) && s.kind.SenderList? && s.name == name && Hits(SenderIn(s.kind.senders), rx)(m)
  }

  lemma HitByNotification(r: Report, minimum: nat, m: Scanned, rx: Regex)
    ensures HitBy(r, minimum, "scan-notification", m, rx) <==> SenderListed(m.from, ServiceDomains(r, minimum))
  {
    hide Select, Sum, SenderListed, Keys, AtLeast, Received;
    NoSenderListed(m.from);
    TwoNames();
    if SenderListed(m.from, ServiceDomains(r, minimum)) {
      NothingKept(r.services, minimum);
      var part := SenderPart("scan-notification", "notification", r.services, minimum);
      assert part[0] in part && part[0] in Suggested(r, minimum);
    }
  }

  lemma HitByVip(r: Report, minimum: nat, m: Scanned, rx: Regex)
    ensures HitBy(r, minimum, "scan-vip", m, rx) <==> SenderListed(m.from, VipAddresses(r, minimum))
  {
    hide Select, Sum, SenderListed, Keys, AtLeast, Received;
    NoSenderListed(m.from);
    TwoNames();
    if SenderListed(m.from, VipAddresses(r, minimum)) {
      NothingKept(Received(r.contacts), minimum);
      var part := SenderPart("scan-vip", "vip", Received(r.contacts), minimum);
      assert part[0] in part && part[0] in Suggested(r, minimum);
    }
  }

  lemma TwoNames()
    ensures "scan-notification" != "scan-vip"
  {
    assert |"scan-notification"| != |"scan-vip"|;
  }

  lemma NoSenderListed(from: string)
    ensures !SenderListed(from, [])
  {
  }

  lemma NothingKept(entries: seq<Entry>, minimum: nat)
    ensures Select(entries, AtLeast(minimum)) == [] ==> Keys(Select(entries, AtLeast(minimum))) == []
  {
  }

  /** The two suggested sender rules both match a message if and only if its scanned address
      is a listed contact and its scanned domain a listed service up to leading white space;
      in an inbox of clean senders, if and only if both are listed as they are. */
  lemma OverlapExactlyWhen(r: Report, inbox: seq<Scanned>, sent: seq<seq<string>>, minimum: nat, m: Scanned, rx: Regex)
    requires IsScanOf(r, inbox, sent) && SingleBrackets(m.from) && ScanAddress(m.from).Some?
    ensures HitBy(r, minimum, "scan-notification", m, rx) && HitBy(r, minimum, "scan-vip", m, rx)
      <==> TrimmedIn(ServiceDomains(r, minimum), ScanDomain(m.from).value) && ScanAddress(m.from).value in VipAddresses(r, minimum)
    ensures (forall x :: x in inbox ==> CleanSender(x.from)) ==>
      (HitBy(r, minimum, "scan-notification", m, rx) && HitBy(r, minimum, "scan-vip", m, rx)
       <==> ScanDomain(m.from).value in ServiceDomains(r, minimum) && ScanAddress(m.from).value in VipAddresses(r, minimum))
  {
    hide IsScanOf, HitBy, ServiceDomains, VipAddresses, ScanAddress, SenderAddress, SenderDomain, DomainOf, SenderListed,
         Lower, Trim, IsSpace, LastIndexOf, SingleBrackets;
    var domains := ServiceDomains(r, minimum);
    HitByNotification(r, minimum, m, rx);
    HitByVip(r, minimum, m, rx);
    ListedAreScanned(r, inbox, sent, minimum);
    AddressShape(m.from);
    ExtractorsAgree(m.from);
    DomainListMatches(m.from, domains);
    AddressListMatches(m.from, VipAddresses(r, minimum));
    if forall x :: x in inbox ==> CleanSender(x.from) {
      forall d | d in domains ensures Trim(d) == d {
        var x :| x in inbox && ScanDomain(x.from) == Some(d);
        assert CleanSender(x.from);
        TrimmedIsFixed(d);
      }
    }
  }

  // ----- An inbox whose suggestions overlap -----

  /** One automated message from someone who was also written to. */
  function OneMessage(): Scanned {
    Scanned("a@x", "", 0, [], Headers(false, None, Some("auto"), None, None))
  }

  function OneReport(): Report { Report([], [], [Entry("x", 1)], [Contact("a@x", 1, 1)], 0) }

  lemma PlainScan()
    ensures ScanAddress("a@x") == Some("a@x") && ScanDomain("a@x") == Some("x") && CleanSender("a@x")
  {
    hide Lower, Trim, IndexOf, LastIndexOf, IsSpace;
    var from := "a@x";
    assert '<' !in from && '>' !in from;
    PlainLetters();
    AlreadyPlain(from);
    LastIndexIs(from, '@', 1);
    assert from[2..] == "x";
    assert !IsSpace("x"[0]);
  }

  lemma AutoIsAutomatic()
    ensures IsNotification(OneMessage())
  {
    hide IsNoReplySender, PrecedenceMarksAutomation;
    TrimmedIsFixed("auto");
    assert |Lower("auto")| != |Lower("no")|;
  }

  lemma KeysOfOneMessage()
    ensures KeysOf([OneMessage()], ServiceKey) == ["x"] && KeysOf([OneMessage()], SenderKey) == ["a@x"]
    ensures KeysOf([OneMessage()], NewsletterKey) == [] && KeysOf([OneMessage()], ListKey) == []
    ensures Recipients([["a@x"]]) == ["a@x"]
    ensures Select([OneMessage()], IsFlagged) == []
  {
    hide KeysOf, ScanAddress, DomainOf, IsNotification;
    PlainScan();
    AutoIsAutomatic();
    KeysOfOne(OneMessage(), ServiceKey);
    KeysOfOne(OneMessage(), SenderKey);
    KeysOfOne(OneMessage(), NewsletterKey);
    KeysOfOne(OneMessage(), ListKey);
    assert [["a@x"]][..0] == [] && ["a@x"][..0] == [];
    SelectNone([OneMessage()], IsFlagged);
  }

  lemma OneReportIsItsScan()
    ensures IsScanOf(OneReport(), [OneMessage()], [["a@x"]])
  {
    hide KeysOf, Recipients, Select, OneMessage, Tally;
    KeysOfOneMessage();
    OneTallied("x");
    OneTallied("a@x");
    NothingTallied();
    assert AsEntries(OneReport().contacts) == [Entry("a@x", 2)];
    assert Exchanged(map["a@x" := 1], map["a@x" := 1]) == map["a@x" := 2];
  }

  /** The scan of this inbox suggests both sender rules, and both match its message. */
  lemma BothRulesCanBeSuggested(rx: Regex)
    ensures IsScanOf(OneReport(), [OneMessage()], [["a@x"]])
    ensures HitBy(OneReport(), 1, "scan-notification", OneMessage(), rx) && HitBy(OneReport(), 1, "scan-vip", OneMessage(), rx)
  {
    hide IsScanOf, HitBy, ScanAddress, ScanDomain, SingleBrackets, BlankAfterAt, Select;
    OneReportIsItsScan();
    PlainScan();
    SelectAll([Entry("x", 1)], AtLeast(1));
    SelectAll([Entry("a@x", 1)], AtLeast(1));
    assert Received(OneReport().contacts) == [Entry("a@x", 1)];
    assert Keys([Entry("x", 1)]) == ["x"] && Keys([Entry("a@x", 1)]) == ["a@x"];
    assert "x" in ServiceDomains(OneReport(), 1) && "a@x" in VipAddresses(OneReport(), 1);
    OverlapExactlyWhen(OneReport(), [OneMessage()], [["a@x"]], 1, OneMessage(), rx);
  }
}
