/** Incremental polling: paging through the archive's messages dated at or after the
    watermark less a safety margin. */
module Poller {
  import opened Seqs
  import opened Calls
  import opened Folders
  import opened Pipeline

  const SAFETY_MARGIN_MS := 172_800_000  // 48 hours
  const PAGE_SIZE := 200
  const I64_MIN: int := -0x8000_0000_0000_0000

  /** The saturating subtraction of the margin. */
  function Since(watermark: int): int {
    if watermark - SAFETY_MARGIN_MS < I64_MIN then I64_MIN else watermark - SAFETY_MARGIN_MS
  }

  function DatedFrom(since: int): Envelope -> bool { (e: Envelope) => e.date >= since }
  function InInbox(): Envelope -> bool { (e: Envelope) => Polled(e.mailbox) }

  /** The messages a search matches, in the archive's date order. */
  function Window(archive: seq<Envelope>, since: int): seq<Envelope> { Select(archive, DatedFrom(since)) }

  function Min(a: int, b: int): int { if a < b then a else b }

  function Page(window: seq<Envelope>, page: nat): (r: seq<Envelope>)
    requires page >= 1
    ensures |r| <= PAGE_SIZE
  {
    window[Min(PAGE_SIZE * (page - 1), |window|)..Min(PAGE_SIZE * page, |window|)]
  }

  /** The watermark after a poll: the old one or the latest date seen. */
  function Advanced(watermark: int, seen: seq<Envelope>): int {
    if seen == [] then watermark
    else
      var w := Advanced(watermark, seen[..|seen| - 1]);
      if seen[|seen| - 1].date > w then seen[|seen| - 1].date else w
  }

  /** The new watermark is the greatest of the old one and the dates seen. */
  lemma {:induction false} AdvancedIsMax(watermark: int, seen: seq<Envelope>)
    ensures Advanced(watermark, seen) >= watermark
    ensures forall e :: e in seen ==> Advanced(watermark, seen) >= e.date
    ensures Advanced(watermark, seen) == watermark || exists e :: e in seen && e.date == Advanced(watermark, seen)
  {
    if seen != [] {
      AdvancedIsMax(watermark, seen[..|seen| - 1]);
      assert seen == seen[..|seen| - 1] + [seen[|seen| - 1]];
      assert seen[|seen| - 1] in seen;
    }
  }

  datatype Sweep = Sweep(tick: nat, ok: bool)

  /** The page requests for `n` more messages: one a page, up to a short page or a failure. */
  function Sweeping(n: nat, t: nat, o: Oracle): Sweep {
    if o(t).fault != Fine then Sweep(t + 1, false)
    else if n < PAGE_SIZE then Sweep(t + 1, true)
    else Sweeping(n - PAGE_SIZE, t + 1, o)
  }

  /** A sweep that succeeds took exactly n div 200 + 1 requests, and fails only by a fault. */
  lemma {:induction false} SweepRequests(n: nat, t: nat, o: Oracle)
    ensures var s := Sweeping(n, t, o);
      && t < s.tick <= t + n / PAGE_SIZE + 1
      && (s.ok ==> s.tick == t + n / PAGE_SIZE + 1)
      && (s.ok <==> AllFine(o, t, t + n / PAGE_SIZE + 1))
      && (!s.ok ==> o(s.tick - 1).fault != Fine)
    decreases n
  {
    if o(t).fault == Fine && n >= PAGE_SIZE {
      SweepRequests(n - PAGE_SIZE, t + 1, o);
      assert n / PAGE_SIZE == (n - PAGE_SIZE) / PAGE_SIZE + 1;
    }
  }

  datatype PollOutcome = PollOutcome(envelopes: seq<Envelope>, watermark: int)

  /** What polling returns when every request succeeds. */
  function PollResult(archive: seq<Envelope>, watermark: int): PollOutcome {
    var window := Window(archive, Since(watermark));
    PollOutcome(Select(window, InInbox()), Advanced(watermark, window))
  }

  /** The archive of one account, and the requests it has answered. */
  class Source {
    const net: Network
    const archive: seq<Envelope>
    var requests: nat

    constructor (net: Network, archive: seq<Envelope>)
      ensures this.net == net && this.archive == archive && requests == 0
    {
      this.net := net;
      this.archive := archive;
      requests := 0;
    }

    method SearchMessages(since: int, page: nat) returns (r: Result<seq<Envelope>>)
      requires page >= 1
      modifies this, net
      ensures net.tick == old(net.tick) + 1 && requests == old(requests) + 1
      ensures r == if net.oracle(old(net.tick)).fault == Fine then Ok(Page(Window(archive, since), page)) else Err(Io)
    {
      var a := net.Call();
      requests := requests + 1;
      r := if a.fault == Fine then Ok(Page(Window(archive, since), page)) else Err(Io);
    }
  }

  method PollAccount(source: Source, watermark: int) returns (r: Result<PollOutcome>)
    modifies source, source.net
    ensures var sweep := Sweeping(|Window(source.archive, Since(watermark))|, old(source.net.tick), source.net.oracle);
      && source.net.tick == sweep.tick
      && source.requests == old(source.requests) + (sweep.tick - old(source.net.tick))
      && r == if sweep.ok then Ok(PollResult(source.archive, watermark)) else Err(Io)
  {
    hide Select, Advanced, Since;
    var since := Since(watermark);
    ghost var window := Window(source.archive, since);
    ghost var start := source.net.tick;
    var envelopes: seq<Envelope> := [];
    var page := 1;
    while true
      invariant page >= 1 && PAGE_SIZE * (page - 1) <= |window|
      invariant envelopes == window[..PAGE_SIZE * (page - 1)]
      invariant source.net.tick >= start && source.requests == old(source.requests) + (source.net.tick - start)
      invariant Sweeping(|window|, start, source.net.oracle)
             == Sweeping(|window| - PAGE_SIZE * (page - 1), source.net.tick, source.net.oracle)
      decreases |window| - PAGE_SIZE * (page - 1)
    {
      var result := source.SearchMessages(since, page);
      if result.Err? { return Err(Io); }
      var isLastPage := |result.value| < PAGE_SIZE;
      envelopes := envelopes + result.value;
      if isLastPage { break; }
      page := page + 1;
    }
    assert envelopes == window;
    var latest := Latest(watermark, envelopes);
    var kept := RetainInbox(envelopes);
    r := Ok(PollOutcome(kept, latest));
  }

  method Latest(watermark: int, envelopes: seq<Envelope>) returns (latest: int)
    ensures latest == Advanced(watermark, envelopes)
  {
    latest := watermark;
    for i := 0 to |envelopes|
      invariant latest == Advanced(watermark, envelopes[..i])
    {
      assert envelopes[..i + 1][..i] == envelopes[..i];
      if envelopes[i].date > latest { latest := envelopes[i].date; }
    }
    assert envelopes[..|envelopes|] == envelopes;
  }

  method RetainInbox(envelopes: seq<Envelope>) returns (kept: seq<Envelope>)
    ensures kept == Select(envelopes, InInbox())
  {
    hide Select, Polled;
    SelectNone([], InInbox());
    kept := [];
    for i := 0 to |envelopes|
      invariant kept == Select(envelopes[..i], InInbox())
    {
      assert envelopes[..i + 1] == envelopes[..i] + [envelopes[i]];
      SelectSnoc(envelopes[..i], envelopes[i], InInbox());
      if Polled(envelopes[i].mailbox) { kept := kept + [envelopes[i]]; }
    }
    assert envelopes[..|envelopes|] == envelopes;
  }

  /** A successful poll hands on every INBOX message dated in the window and nothing else,
      each as often as the archive holds it, in the archive's order. */
  lemma PollIsExact(archive: seq<Envelope>, watermark: int)
    ensures var r := PollResult(archive, watermark);
      && (forall e :: e in r.envelopes ==> e in archive && e.date >= Since(watermark) && Polled(e.mailbox))
      && (forall e :: e in archive && e.date >= Since(watermark) && Polled(e.mailbox) ==> e in r.envelopes)
      && (Distinct(archive) ==> Distinct(r.envelopes))
      && r.envelopes == Select(archive, HandedOn(watermark))
      && r.watermark >= watermark
  {
    var window := Window(archive, Since(watermark));
    SelectMembers(archive, DatedFrom(Since(watermark)));
    SelectMembers(window, InInbox());
    AdvancedIsMax(watermark, window);
    SelectTwice(archive, watermark);
  }

  function HandedOn(watermark: int): Envelope -> bool {
    (e: Envelope) => e.date >= Since(watermark) && Polled(e.mailbox)
  }

  lemma {:induction false} SelectTwice(archive: seq<Envelope>, watermark: int)
    ensures Select(Window(archive, Since(watermark)), InInbox()) == Select(archive, HandedOn(watermark))
  {
    hide Select, Polled, Since;
    SelectNone([], InInbox());
    SelectNone([], DatedFrom(Since(watermark)));
    SelectNone([], HandedOn(watermark));
    if archive != [] {
      var front, last := archive[..|archive| - 1], archive[|archive| - 1];
      SelectTwice(front, watermark);
      assert archive == front + [last];
      SelectSnoc(front, last, DatedFrom(Since(watermark)));
      SelectSnoc(front, last, HandedOn(watermark));
      SelectSnoc(Window(front, Since(watermark)), last, InInbox());
    }
  }
}
