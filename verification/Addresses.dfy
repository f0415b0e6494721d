/** The scan's address extractor, and where it agrees with the filter engine's. */
module Addresses {
  import opened Seqs
  import opened Text
  import opened Filters

  /** What stands between the first `<` and the first `>`, else the whole value. */
  function FirstBracketed(raw: string): string {
    var open, close := IndexOf(raw, '<'), IndexOf(raw, '>');
    if open < close < |raw| then raw[open + 1..close] else raw
  }

  /** What follows the last `@`, when something does. */
  function DomainOf(address: string): Option<string> {
    var at := LastIndexOf(address, '@');
    if at >= 0 && at + 1 < |address| then Some(address[at + 1..]) else None
  }

  predicate IsAddress(value: string) { LastIndexOf(value, '@') > 0 && DomainOf(value).Some? }

  /** The lowercased address of a From or To value, when it has the shape of one. */
  function ScanAddress(raw: string): Option<string> {
    var address := Lower(Trim(FirstBracketed(raw)));
    if IsAddress(address) then Some(address) else None
  }

  function ScanDomain(raw: string): Option<string> {
    var a := ScanAddress(raw);
    if a.None? then None else DomainOf(a.value)
  }

  // ----- What is extracted -----

  /** The first `<` stands before the first `>`. */
  ghost predicate Brackets(raw: string, i: nat, j: nat)
    requires i < j < |raw|
  {
    raw[i] == '<' && raw[j] == '>' && '<' !in raw[..i] && '>' !in raw[..j]
  }

  /** `inner` stands between the first brackets; without them it is all of the value. */
  ghost predicate Inside(raw: string, inner: string) {
    || (exists i, j :: 0 <= i < j < |raw| && Brackets(raw, i, j) && inner == raw[i + 1..j])
    || (inner == raw && forall i, j :: 0 <= i < j < |raw| ==> !Brackets(raw, i, j))
  }

  lemma FirstBracketedMeans(raw: string)
    ensures forall inner :: Inside(raw, inner) <==> inner == FirstBracketed(raw)
  {
    var open, close := IndexOf(raw, '<'), IndexOf(raw, '>');
    if open < close < |raw| { assert Brackets(raw, open, close); }
    forall i, j | 0 <= i < j < |raw| && Brackets(raw, i, j) ensures i == open && j == close {
      IndexOfUnique(raw, '<', i);
      IndexOfUnique(raw, '>', j);
    }
  }

  /** The address, cut at its last `@`. */
  ghost predicate CutAt(address: string, local: string, domain: string) {
    address == local + "@" + domain && '@' !in domain
  }

  lemma CutIsLast(address: string, local: string, domain: string)
    ensures CutAt(address, local, domain)
      <==> (var at := LastIndexOf(address, '@'); at >= 0 && local == address[..at] && domain == address[at + 1..])
  {
    hide LastIndexOf;
    var at := LastIndexOf(address, '@');
    if CutAt(address, local, domain) {
      assert address[|local|] == '@';
      assert forall i :: |local| < i < |address| ==> address[i] == domain[i - |local| - 1] && domain[i - |local| - 1] in domain;
      assert at == |local|;
    }
    if at >= 0 { assert address == address[..at] + "@" + address[at + 1..]; }
  }

  /** An address is extracted when what stands inside the brackets, trimmed and lowercased,
      has something on both sides of its last `@`. */
  lemma AddressMeans(raw: string, a: string)
    ensures ScanAddress(raw) == Some(a)
      <==> (exists inner :: Inside(raw, inner) && a == Lower(Trim(inner)))
           && exists local, domain :: CutAt(a, local, domain) && local != "" && domain != ""
  {
    hide Lower, Trim, FirstBracketed, LastIndexOf, Inside, CutAt;
    FirstBracketedMeans(raw);
    forall local, domain { CutIsLast(a, local, domain); }
    var at := LastIndexOf(a, '@');
    if at >= 0 { assert CutAt(a, a[..at], a[at + 1..]); }
  }

  lemma DomainMeans(raw: string, d: string)
    ensures ScanDomain(raw) == Some(d)
      <==> ScanAddress(raw).Some? && d != "" && exists local :: CutAt(ScanAddress(raw).value, local, d) && local != ""
  {
    hide Lower, Trim, FirstBracketed, LastIndexOf, CutAt;
    if ScanAddress(raw).Some? {
      var a := ScanAddress(raw).value;
      var at := LastIndexOf(a, '@');
      forall local, domain { CutIsLast(a, local, domain); }
      assert CutAt(a, a[..at], a[at + 1..]);
    }
  }

  // ----- The two extractors -----

  predicate AtMostOnce(s: string, c: char) { forall i, j :: 0 <= i < j < |s| ==> !(s[i] == c && s[j] == c) }

  /** At most one `<` and at most one `>`. */
  predicate SingleBrackets(from: string) { AtMostOnce(from, '<') && AtMostOnce(from, '>') }

  lemma OnlyOne(s: string, c: char)
    requires AtMostOnce(s, c)
    ensures LastIndexOf(s, c) == if IndexOf(s, c) < |s| then IndexOf(s, c) else -1
  {
    var i, k := IndexOf(s, c), LastIndexOf(s, c);
    if k >= 0 {
      assert s[k] == c && s[i] == c;
    }
  }

  /** With single brackets the first-bracket and the last-bracket extractors agree. */
  lemma ExtractorsAgree(from: string)
    requires SingleBrackets(from) && ScanAddress(from).Some?
    ensures SenderAddress(from) == ScanAddress(from).value
  {
    hide Lower, Trim;
    OnlyOne(from, '<');
    OnlyOne(from, '>');
  }

  /** With two bracket pairs they need not. */
  lemma ExtractorsCanDisagree()
    ensures ScanAddress("<a@x><b@y>") == Some("a@x") && SenderAddress("<a@x><b@y>") == "b@y"
  {
    hide Lower, Trim, IndexOf, LastIndexOf;
    var from := "<a@x><b@y>";
    FirstPair(from);
    LastIndexIs("a@x", '@', 1);
    LastIndexIs(from, '<', 5);
    LastIndexIs(from, '>', 9);
    ThreeFrom(from, 6);
    PlainLetters();
    AlreadyPlain("a@x");
    AlreadyPlain("b@y");
  }

  lemma ThreeFrom(s: string, i: nat)
    requires i + 3 <= |s|
    ensures s[i..i + 3] == [s[i], s[i + 1], s[i + 2]]
  {
  }

  lemma FirstPair(from: string)
    requires from == "<a@x><b@y>"
    ensures FirstBracketed(from) == "a@x"
  {
    hide IndexOf;
    IndexOfUnique(from, '<', 0);
    IndexOfUnique(from, '>', 4);
    assert from[1..4] == "a@x";
  }

  predicate Plainly(c: char) { LowerChar(c) == c && !IsSpace(c) }

  lemma PlainLetters()
    ensures Plainly('a') && Plainly('b') && Plainly('x') && Plainly('y') && Plainly('@')
  {
  }

  lemma AlreadyPlain(s: string)
    requires |s| == 3 && Plainly(s[0]) && Plainly(s[1]) && Plainly(s[2])
    ensures Lower(Trim(s)) == s
  {
    TrimmedIsFixed(s);
    hide Trim, LowerChar, IsSpace;
    assert Lower(s) == s;
  }

  lemma {:induction false} LastIndexIs(s: string, c: char, i: nat)
    requires i < |s| && s[i] == c && forall j :: i < j < |s| ==> s[j] != c
    ensures LastIndexOf(s, c) == i
  {
    if i < |s| - 1 { LastIndexIs(s[..|s| - 1], c, i); }
  }

  /** The shape of an extracted address: lowercase, trimmed, with a non-empty domain of its own. */
  ghost predicate WellShaped(a: string) {
    && a != "" && Lower(a) == a && Trim(a) == a && '@' in a && DomainOf(a) == Some(SenderDomain(a))
    && SenderDomain(a) != "" && '@' !in SenderDomain(a) && Lower(SenderDomain(a)) == SenderDomain(a)
    && !IsSpace(SenderDomain(a)[|SenderDomain(a)| - 1])
  }

  lemma TrimmedEnds(s: string)
    requires Trim(s) == s && s != ""
    ensures !IsSpace(s[0]) && !IsSpace(s[|s| - 1])
  {
  }

  lemma AddressShape(raw: string)
    requires ScanAddress(raw).Some?
    ensures WellShaped(ScanAddress(raw).value)
  {
    hide Lower, Trim, FirstBracketed;
    var a := ScanAddress(raw).value;
    LoweredIsTrimmed(FirstBracketed(raw));
    TrimmedEnds(a);
    var at := LastIndexOf(a, '@');
    LowerOfSlice(a, at + 1, |a|);
    assert a[at + 1..|a|] == a[at + 1..];
  }

  /** A rule listing the address a message was counted under matches that message. */
  lemma ListedAddressMatches(from: string, senders: seq<string>)
    requires SingleBrackets(from) && ScanAddress(from).Some? && ScanAddress(from).value in senders
    ensures SenderListed(from, senders)
  {
    hide Lower, Trim, FirstBracketed, LastIndexOf;
    AddressShape(from);
    ExtractorsAgree(from);
    assert Lists(ScanAddress(from).value, SenderAddress(from));
  }

  /** The domain a message was counted under begins with white space. */
  predicate BlankAfterAt(from: string) { ScanDomain(from).Some? && IsSpace(ScanDomain(from).value[0]) }

  lemma LeadingSpaceIsLost(s: string)
    requires s != "" && IsSpace(s[0])
    ensures Trim(s) != s
  {
  }

  lemma TrimKeepsAbsence(s: string, c: char)
    requires c !in s
    ensures c !in Trim(s)
  {
    var i, j := TrimIsSlice(s);
  }

  /** A rule listing exactly the domain a message was counted under matches that message
      if and only if no white space follows its last `@`. */
  lemma ListedDomainMatches(from: string)
    requires SingleBrackets(from) && ScanDomain(from).Some?
    ensures SenderListed(from, [ScanDomain(from).value]) <==> !BlankAfterAt(from)
  {
    hide Lower, Trim, FirstBracketed, LastIndexOf, SenderAddress, ScanAddress, IsSpace;
    AddressShape(from);
    ExtractorsAgree(from);
    var a, d := ScanAddress(from).value, ScanDomain(from).value;
    LowerOfTrim(d);
    if IsSpace(d[0]) {
      LeadingSpaceIsLost(d);
      TrimKeepsAbsence(d, '@');
    } else {
      TrimmedIsFixed(d);
    }
    assert Lists(d, a) <==> !BlankAfterAt(from);
    assert d in [d];
  }

  /** The domain of `a@ x` is counted with its space and then looked for without it. */
  lemma ABlankDomainIsMissed()
    ensures SingleBrackets("a@ x") && ScanDomain("a@ x") == Some(" x") && !SenderListed("a@ x", [" x"])
  {
    hide Lower, Trim, IndexOf, LastIndexOf, SenderListed;
    var from := "a@ x";
    assert '<' !in from && '>' !in from;
    PlainLetters();
    TrimmedIsFixed(from);
    LowerOfFour(from);
    LastIndexIs(from, '@', 1);
    assert from[2..] == " x";
    ListedDomainMatches(from);
  }

  lemma LowerOfFour(s: string)
    requires |s| == 4 && LowerChar(s[0]) == s[0] && LowerChar(s[1]) == s[1] && LowerChar(s[2]) == s[2] && LowerChar(s[3]) == s[3]
    ensures Lower(s) == s
  {
  }

  lemma DomainInListMatches(from: string, senders: seq<string>)
    requires SingleBrackets(from) && ScanDomain(from).Some? && !BlankAfterAt(from)
    requires ScanDomain(from).value in senders
    ensures SenderListed(from, senders)
  {
    hide Lower, Trim, FirstBracketed, LastIndexOf, ScanDomain;
    ListedDomainMatches(from);
    assert Lists(ScanDomain(from).value, SenderAddress(from));
  }

  // ----- Lists of scanned addresses and domains -----

  /** What every scanned domain is. */
  ghost predicate IsDomain(d: string) {
    d != "" && Lower(d) == d && '@' !in d && !IsSpace(d[|d| - 1])
  }

  lemma ScannedDomain(from: string)
    requires ScanDomain(from).Some?
    ensures IsDomain(ScanDomain(from).value)
  {
    hide Lower, Trim, DomainOf, SenderDomain, ScanAddress, IsSpace;
    AddressShape(from);
  }

  lemma DomainHasNoAt(address: string)
    ensures '@' !in SenderDomain(address)
    ensures '@' !in address ==> SenderDomain(address) == address
  {
  }

  lemma ScannedAddressIsListed(a: string, address: string)
    requires WellShaped(a)
    ensures Lists(a, address) <==> a == address
  {
    hide Lower, Trim, SenderDomain, DomainOf;
    DomainHasNoAt(address);
  }

  /** A list of scanned addresses matches exactly the senders whose last-bracket address is in it. */
  lemma AddressListMatches(from: string, addresses: seq<string>)
    requires forall a :: a in addresses ==> WellShaped(a)
    ensures SenderListed(from, addresses) <==> SenderAddress(from) in addresses
  {
    hide WellShaped, Lists, SenderAddress;
    forall a | a in addresses ensures Lists(a, SenderAddress(from)) <==> a == SenderAddress(from) {
      ScannedAddressIsListed(a, SenderAddress(from));
    }
  }

  /** So a rule for the one address a message was counted under matches it if and only if the
      two extractors agree on it. */
  lemma ListedAddressExactly(from: string)
    requires ScanAddress(from).Some?
    ensures SenderListed(from, [ScanAddress(from).value]) <==> SenderAddress(from) == ScanAddress(from).value
  {
    hide SenderListed, SenderAddress, ScanAddress, WellShaped;
    AddressShape(from);
    AddressListMatches(from, [ScanAddress(from).value]);
  }

  ghost predicate TrimmedIn(domains: seq<string>, domain: string) { exists d :: d in domains && Trim(d) == domain }

  lemma ScannedDomainIsListed(d: string, address: string)
    requires IsDomain(d)
    ensures Lists(d, address) <==> Trim(d) == SenderDomain(address)
  {
    hide Lower, Trim, SenderDomain, IsSpace;
    LowerOfTrim(d);
    TrimKeepsAbsence(d, '@');
    TrimStartKeepsSome(d);
    TrimIsTwoTrims(d);
    DomainHasNoAt(address);
  }

  lemma TrimIsTwoTrims(s: string)
    ensures Trim(s) == TrimEnd(TrimStart(s))
  {
  }

  /** A list of scanned domains matches exactly the senders whose last-bracket domain is one
      of them trimmed. */
  lemma DomainListMatches(from: string, domains: seq<string>)
    requires forall d :: d in domains ==> IsDomain(d)
    ensures SenderListed(from, domains) <==> TrimmedIn(domains, SenderDomain(SenderAddress(from)))
  {
    hide IsDomain, Lists, SenderAddress, SenderDomain, Trim;
    forall d | d in domains ensures Lists(d, SenderAddress(from)) <==> Trim(d) == SenderDomain(SenderAddress(from)) {
      ScannedDomainIsListed(d, SenderAddress(from));
    }
  }

  /** With single brackets and no listed domain that begins with white space, exactly the
      messages counted under a listed domain are matched. */
  lemma CountedDomainsMatch(from: string, domains: seq<string>)
    requires SingleBrackets(from) && ScanDomain(from).Some?
    requires forall d :: d in domains ==> IsDomain(d) && !IsSpace(d[0])
    ensures SenderListed(from, domains) <==> ScanDomain(from).value in domains
  {
    hide Lower, Trim, FirstBracketed, LastIndexOf, SenderAddress, IsSpace, SenderListed;
    AddressShape(from);
    ExtractorsAgree(from);
    DomainListMatches(from, domains);
    forall d | d in domains ensures Trim(d) == d { TrimmedIsFixed(d); }
  }

  /** A domain listed with a leading space matches the sender whose domain it is without it,
      although that sender was not counted under it. */
  lemma ABlankDomainMatchesAnother()
    ensures ScanDomain("a@x") == Some("x") && "x" !in [" x"] && SenderListed("a@x", [" x"])
  {
    hide Lower, Trim, IndexOf, LastIndexOf, SenderListed, IsSpace;
    var from := "a@x";
    assert '<' !in from && '>' !in from;
    PlainLetters();
    AlreadyPlain(from);
    LastIndexIs(from, '@', 1);
    assert from[2..] == "x";
    ABlankDomainIsMissed();
    ScannedDomain("a@ x");
    TrimmedBlank();
    DomainListMatches(from, [" x"]);
    assert " x" in [" x"];
  }

  lemma TrimmedBlank()
    ensures Trim(" x") == "x" && " x" != "x"
  {
    assert " x"[1..] == "x";
    assert TrimStart(" x") == TrimStart("x");
  }
}
