/** Folder names: Berger's own writeback folders, INBOX, and the scan's folder classes. */
module Folders {
  import opened Seqs
  import opened Text

  predicate IsSeparator(c: char) { c == '/' || c == '.' }

  function SkipSeparators(s: string): string {
    if s != "" && IsSeparator(s[0]) then SkipSeparators(s[1..]) else s
  }

  /** The first segment of a path that does not begin with a separator. */
  function Segment(s: string): string {
    if s == "" || IsSeparator(s[0]) then "" else [s[0]] + Segment(s[1..])
  }

  lemma {:induction false} SegmentIsPrefix(s: string)
    ensures |Segment(s)| <= |s| && Segment(s) == s[..|Segment(s)|]
  {
    if s != "" && !IsSeparator(s[0]) { SegmentIsPrefix(s[1..]); }
  }

  /** `Berger/...`, or `INBOX/Berger/...` with INBOX in any case; `/` and `.` both separate. */
  predicate IsBergerFolder(mailbox: string) {
    var path := SkipSeparators(Trim(mailbox));
    var first := Segment(path);
    SegmentIsPrefix(path);
    first == "Berger"
    || (EqualsIgnoringCase(first, "INBOX") && Segment(SkipSeparators(path[|first|..])) == "Berger")
  }

  /** A logical path with `/` replaced by the server's hierarchy separator. */
  function ServerPath(folder: string, separator: string): string {
    if folder == "" then ""
    else (if folder[0] == '/' then separator else [folder[0]]) + ServerPath(folder[1..], separator)
  }

  predicate IsInbox(mailbox: string) { EqualsIgnoringCase(mailbox, "INBOX") }

  /** What the poller keeps. */
  predicate Polled(mailbox: Option<string>) {
    var name := if mailbox.Some? then mailbox.value else "";
    !IsBergerFolder(name) && IsInbox(name)
  }

  datatype FolderClass = Inbox | Sent | Other

  const SENT_FOLDER_NAMES := ["sent", "sent mail", "sent items", "sent messages",
    "envoy\U{e9}s", "\U{e9}l\U{e9}ments envoy\U{e9}s", "messages envoy\U{e9}s", "brouillons envoy\U{e9}s"]

  /** The last segment that is not blank. */
  function FolderLeaf(path: string): string {
    if path == "" then ""
    else if IsSeparator(path[|path| - 1]) then FolderLeaf(path[..|path| - 1])
    else
      var k := LastSeparator(path) + 1;
      if Trim(path[k..]) != "" then path[k..] else FolderLeaf(path[..k])
  }

  function LastSeparator(s: string): (i: int)
    ensures -1 <= i < |s| && (i >= 0 ==> IsSeparator(s[i]))
    ensures s != "" && !IsSeparator(s[|s| - 1]) ==> i < |s| - 1
  {
    if s == "" then -1 else if IsSeparator(s[|s| - 1]) then |s| - 1 else LastSeparator(s[..|s| - 1])
  }

  function ClassifyFolder(mailbox: string): FolderClass {
    if IsBergerFolder(mailbox) then Other
    else if IsInbox(Trim(mailbox)) then Inbox
    else if Lower(Trim(FolderLeaf(Trim(mailbox)))) in SENT_FOLDER_NAMES then Sent
    else Other
  }

  // ----- Berger never triages its own output -----

  lemma {:induction false} TrimEndKeeps(s: string, k: nat)
    requires k < |s| && !IsSpace(s[k])
    ensures |TrimEnd(s)| > k
  {
    if IsSpace(s[|s| - 1]) { TrimEndKeeps(s[..|s| - 1], k); }
  }

  lemma {:induction false} SegmentAppend(p: string, rest: string)
    requires forall i :: 0 <= i < |p| ==> !IsSeparator(p[i])
    requires rest == "" || IsSeparator(rest[0])
    ensures Segment(p + rest) == p
  {
    if p == "" {
      assert p + rest == rest;
    } else {
      SegmentAppend(p[1..], rest);
      assert (p + rest)[1..] == p[1..] + rest;
    }
  }

  lemma {:induction false} ServerPathAppend(p: string, rest: string, separator: string)
    requires forall i :: 0 <= i < |p| ==> p[i] != '/'
    ensures ServerPath(p + rest, separator) == p + ServerPath(rest, separator)
  {
    if p == "" {
      assert p + rest == rest;
    } else {
      ServerPathAppend(p[1..], rest, separator);
      assert (p + rest)[1..] == p[1..] + rest;
    }
  }

  lemma BergerPrefix(rest: string)
    requires rest != "" && IsSeparator(rest[0])
    ensures IsBergerFolder("Berger" + rest)
  {
    var path := "Berger" + rest;
    TrimEndKeeps(path, 5);
    assert TrimStart(path) == path;
    var t := Trim(path);
    assert t == "Berger" + t[6..];
    assert |t| > 6 ==> t[6] == path[6] == rest[0];
    SegmentAppend("Berger", t[6..]);
    assert SkipSeparators(t) == t;
  }

  /** A copy Berger wrote is never polled back, whatever the server's separator; with `/` or
      `.` the read-side check recognises it, and the scan never counts it. */
  lemma OwnFoldersAreNotPolled(f: string, separator: string)
    ensures var path := ServerPath("Berger/" + f, separator);
      && !Polled(Some(path))
      && (separator == "/" || separator == "." ==> IsBergerFolder(path) && ClassifyFolder(path) == Other)
  {
    hide IsBergerFolder;
    var path := ServerPath("Berger/" + f, separator);
    var rest := separator + ServerPath(f, separator);
    assert path == "Berger" + rest by {
      ServerPathAppend("Berger", "/" + f, separator);
      assert "Berger/" + f == "Berger" + ("/" + f) && ("/" + f)[1..] == f;
    }
    assert Lower(path)[0] == 'b' && Lower("INBOX")[0] == 'i';
    if separator == "/" || separator == "." {
      BergerPrefix(rest);
    }
  }

  /** Polling keeps exactly the messages of INBOX: the own-folder check never decides. */
  lemma PolledIsInbox(mailbox: Option<string>)
    ensures Polled(mailbox) <==> mailbox.Some? && Lower(mailbox.value) == "inbox"
  {
    hide IsBergerFolder;
    assert Lower("INBOX") == "inbox" && Lower("") == "";
    var name := if mailbox.Some? then mailbox.value else "";
    if IsInbox(name) { InboxIsNotBerger(name); }
  }

  /** The scan takes a folder for INBOX exactly when it is called so, up to case and
      surrounding space. */
  lemma ScanInbox(mailbox: string)
    ensures ClassifyFolder(mailbox) == Inbox <==> Lower(Trim(mailbox)) == "inbox"
  {
    hide IsBergerFolder, FolderLeaf, Lower;
    LowerInbox();
    if IsInbox(Trim(mailbox)) {
      InboxIsNotBerger(Trim(mailbox));
      TrimTwice(mailbox);
    }
  }

  lemma LowerInbox()
    ensures Lower("INBOX") == "inbox"
  {
  }

  lemma TrimTwice(s: string)
    ensures IsBergerFolder(s) == IsBergerFolder(Trim(s))
  {
    TrimmedIsFixed(Trim(s));
  }

  lemma InboxIsNotBerger(name: string)
    requires IsInbox(name)
    ensures name != "" && !IsBergerFolder(name)
  {
    assert Lower("INBOX") == "inbox";
    assert |name| == 5 && Lower(name) == "inbox";
    forall i | 0 <= i < 5 ensures !IsSpace(name[i]) && !IsSeparator(name[i]) { assert Lower(name)[i] == "inbox"[i]; }
    TrimmedIsFixed(name);
    SegmentOfPlain(name);
    assert Segment(name) == name && Lower(name)[0] == 'i';
    assert SkipSeparators(name) == name && SkipSeparators(name[5..]) == "";
  }

  lemma {:induction false} SegmentOfPlain(s: string)
    requires forall i :: 0 <= i < |s| ==> !IsSeparator(s[i])
    ensures Segment(s) == s
  {
    if s != "" { SegmentOfPlain(s[1..]); }
  }

  // ----- When two logical folders are one on the server -----

  predicate SameOnServer(c: char, d: char, separator: char) {
    c == d || (c in {'/', separator} && d in {'/', separator})
  }

  /** Equal but for `/` in one standing where the separator stands in the other. */
  predicate SameUpToSeparator(f: string, g: string, separator: char) {
    |f| == |g| && forall i :: 0 <= i < |f| ==> SameOnServer(f[i], g[i], separator)
  }

  /** Two logical folders have the same path on a server if and only if they are equal up to
      its separator; with `/` itself that is, if and only if they are equal. */
  lemma {:induction false} PathsCollide(f: string, g: string, separator: char)
    ensures ServerPath(f, [separator]) == ServerPath(g, [separator]) <==> SameUpToSeparator(f, g, separator)
    ensures separator == '/' && SameUpToSeparator(f, g, separator) ==> f == g
  {
    if f != "" && g != "" {
      PathsCollide(f[1..], g[1..], separator);
      var p, q := ServerPath(f, [separator]), ServerPath(g, [separator]);
      assert p[1..] == ServerPath(f[1..], [separator]) && q[1..] == ServerPath(g[1..], [separator]);
      assert p == [p[0]] + p[1..] && q == [q[0]] + q[1..];
      if SameUpToSeparator(f, g, separator) {
        assert SameOnServer(f[0], g[0], separator);
        forall i | 0 <= i < |f| - 1 ensures SameOnServer(f[1..][i], g[1..][i], separator) {
          assert SameOnServer(f[i + 1], g[i + 1], separator);
        }
      } else if |f| == |g| {
        var i :| 0 <= i < |f| && !SameOnServer(f[i], g[i], separator);
        if i > 0 { assert f[1..][i - 1] == f[i] && g[1..][i - 1] == g[i]; }
      }
    }
  }
}
