/** The scan's other dimensions: mail per hour of the day, a stride sample of the subjects'
    languages, and recurring subject phrases. */
module Profiles {
  import opened Seqs
  import opened Text
  import opened Timestamp
  import opened Ranking

  // ----- Hourly volume -----

  function InHour(hour: int): int -> bool { (date: int) => HourBucket(date) == hour }

  /** How many dates fall into each hour. */
  function Histogram(dates: seq<int>): seq<nat> {
    seq(24, hour requires 0 <= hour < 24 => |Select(dates, InHour(hour))|)
  }

  function Total(counts: seq<nat>): nat { if counts == [] then 0 else Total(counts[..|counts| - 1]) + counts[|counts| - 1] }

  lemma HistogramOfOneMore(dates: seq<int>, date: int)
    ensures 0 <= HourBucket(date) < 24
    ensures Histogram(dates + [date]) == Histogram(dates)[HourBucket(date) := Histogram(dates)[HourBucket(date)] + 1]
  {
    hide HourBucket;
    BucketInRange(date);
    forall hour | 0 <= hour < 24
      ensures |Select(dates + [date], InHour(hour))|
           == |Select(dates, InHour(hour))| + (if hour == HourBucket(date) then 1 else 0) {
      SelectSnoc(dates, date, InHour(hour));
    }
  }

  lemma BucketInRange(date: int)
    ensures 0 <= HourBucket(date) < 24
  {
  }

  lemma {:induction false} TotalOfOneMore(counts: seq<nat>, i: nat)
    requires i < |counts|
    ensures Total(counts[i := counts[i] + 1]) == Total(counts) + 1
  {
    var front := counts[..|counts| - 1];
    if i < |front| {
      TotalOfOneMore(front, i);
      assert counts[i := counts[i] + 1][..|counts| - 1] == front[i := front[i] + 1];
    } else {
      assert counts[i := counts[i] + 1][..|counts| - 1] == front;
    }
  }

  lemma {:induction false} TotalOfZeros(counts: seq<nat>)
    requires forall i :: 0 <= i < |counts| ==> counts[i] == 0
    ensures Total(counts) == 0
  {
    if counts != [] { TotalOfZeros(counts[..|counts| - 1]); }
  }

  lemma NothingInAnyHour()
    ensures Histogram([]) == seq(24, _ => 0)
  {
  }

  /** Every message falls into exactly one hour. */
  lemma {:induction false} HoursCoverTheInbox(dates: seq<int>)
    ensures Total(Histogram(dates)) == |dates|
  {
    hide HourBucket;
    if dates == [] {
      TotalOfZeros(Histogram(dates));
    } else {
      var front, last := dates[..|dates| - 1], dates[|dates| - 1];
      HoursCoverTheInbox(front);
      assert dates == front + [last];
      HistogramOfOneMore(front, last);
      TotalOfOneMore(Histogram(front), HourBucket(last));
    }
  }

  /** `hour` is the lowest index of the maximum. */
  ghost predicate IsBusiest(hourly: seq<nat>, hour: nat) {
    && hour < |hourly|
    && (forall h :: 0 <= h < |hourly| ==> hourly[h] <= hourly[hour])
    && (forall h :: 0 <= h < hour ==> hourly[h] < hourly[hour])
  }

  method AnalyzeVolume(dates: seq<int>) returns (hourly: seq<nat>, busiest: nat, peak: nat)
    ensures hourly == Histogram(dates) && Total(hourly) == |dates|
    ensures IsBusiest(hourly, busiest) && peak == hourly[busiest]
  {
    hide HourBucket, Select, Total;
    var buckets := new nat[24](_ => 0);
    NothingInAnyHour();
    for i := 0 to |dates|
      invariant buckets[..] == Histogram(dates[..i])
    {
      assert dates[..i + 1] == dates[..i] + [dates[i]];
      HistogramOfOneMore(dates[..i], dates[i]);
      var hour := HourBucket(dates[i]);
      buckets[hour] := buckets[hour] + 1;
    }
    assert dates[..|dates|] == dates;
    HoursCoverTheInbox(dates);
    hourly := buckets[..];
    busiest := 0;
    for h := 1 to 24
      invariant IsBusiest(hourly[..h], busiest)
    {
      assert hourly[..h + 1] == hourly[..h] + [hourly[h]];
      if hourly[h] > hourly[busiest] { busiest := h; }
    }
    assert hourly[..24] == hourly;
    peak := hourly[busiest];
  }

  // ----- The language sample -----

  const SAMPLE_FLOOR := 50

  function SampleTarget(n: nat): nat {
    if n <= SAMPLE_FLOOR then n else if n / 10 > SAMPLE_FLOOR then n / 10 else SAMPLE_FLOOR
  }

  function Stride(n: nat): (stride: nat)
    requires n > 0
    ensures stride > 0
  {
    var stride := n / SampleTarget(n);
    if stride > 1 then stride else 1
  }

  /** Every `stride`-th element, from the first. */
  function Sample(s: seq<string>, stride: nat): seq<string>
    requires stride > 0
  {
    if s == [] then [] else [s[0]] + (if |s| <= stride then [] else Sample(s[stride..], stride))
  }

  /** The sample has as many elements as `|s| / stride` rounded up. */
  lemma {:induction false} SampleLength(s: seq<string>, stride: nat)
    requires stride > 0 && s != []
    ensures stride * (|Sample(s, stride)| - 1) < |s| <= stride * |Sample(s, stride)|
    decreases |s|
  {
    if |s| > stride {
      SampleLength(s[stride..], stride);
      var k := |Sample(s[stride..], stride)|;
      OneMoreTime(stride, k + 1);
      OneMoreTime(stride, k);
    }
  }

  /** The k-th sampled subject stands at position `k * stride`. */
  lemma {:induction false} SamplePosition(s: seq<string>, stride: nat, k: nat)
    requires stride > 0 && k < |Sample(s, stride)|
    ensures 0 <= stride * k < |s| && Sample(s, stride)[k] == s[stride * k]
    decreases |s|
  {
    if k > 0 {
      SamplePosition(s[stride..], stride, k - 1);
      OneMoreTime(stride, k);
      var p := stride * (k - 1);
      assert s[stride..][p] == s[stride + p];
    }
  }

  lemma OneMoreTime(q: nat, k: int)
    ensures q * k == q * (k - 1) + q
  {
  }

  lemma Monotone(q: nat, a: int, b: int)
    ensures a <= b ==> q * a <= q * b
  {
    if a <= b { assert q * (b - a) >= 0; }
  }

  /** At least the target and less than twice the target is sampled; from 500 subjects on,
      exactly a tenth rounded up. */
  lemma SampleSize(s: seq<string>)
    requires s != []
    ensures SampleTarget(|s|) <= |Sample(s, Stride(|s|))| < 2 * SampleTarget(|s|)
    ensures |s| >= 500 ==> |Sample(s, Stride(|s|))| == (|s| + 9) / 10
  {
    hide Stride, Sample;
    var n, k := |s|, |Sample(s, Stride(|s|))|;
    SampleLength(s, Stride(n));
    if n >= 500 {
      TenthStride(n);
    } else if n > SAMPLE_FLOOR {
      SmallStride(n, Stride(n), k);
    } else {
      QuotientIs(n, n, 1);
      UnitStride(n);
    }
  }

  lemma UnitStride(n: nat)
    requires 0 < n <= SAMPLE_FLOOR && n / n == 1
    ensures Stride(n) == 1
  {
  }

  lemma TenthStride(n: nat)
    requires n >= 500
    ensures Stride(n) == 10
  {
    var q := n / 10;
    assert SampleTarget(n) == q;
    QuotientIs(n, q, 10);
  }

  lemma QuotientIs(n: nat, q: nat, m: nat)
    requires q > 0 && m * q <= n < (m + 1) * q
    ensures n / q == m
  {
    var d := n / q;
    assert q * d <= n < q * (d + 1);
    Monotone(q, d + 1, m);
    Monotone(q, m + 1, d);
  }

  lemma SmallStride(n: nat, stride: nat, k: nat)
    requires SAMPLE_FLOOR < n < 500 && stride == Stride(n)
    requires stride * (k - 1) < n <= stride * k
    ensures 50 <= k < 100
  {
    assert SampleTarget(n) == 50;
    assert 50 * stride <= n <= 50 * stride + 49 && 1 <= stride <= 9;
    Monotone(stride, k, 49);
    Monotone(stride, 99, k - 1);
  }

  function AsList(found: Option<string>): seq<string> { if found.Some? then [found.value] else [] }

  /** What the language detector finds, where it finds something. */
  function Detections(subjects: seq<string>, detect: string -> Option<string>): seq<string> {
    if subjects == [] then [] else AsList(detect(subjects[0])) + Detections(subjects[1..], detect)
  }

  /** What it finds in the sample taken from position `i` on. */
  function DetectionsFrom(subjects: seq<string>, i: nat, stride: nat, detect: string -> Option<string>): seq<string>
    requires stride > 0
  {
    if i < |subjects| then Detections(Sample(subjects[i..], stride), detect) else []
  }

  lemma OneSampled(subjects: seq<string>, i: nat, stride: nat, detect: string -> Option<string>)
    requires stride > 0 && i < |subjects|
    ensures DetectionsFrom(subjects, i, stride, detect)
         == AsList(detect(subjects[i])) + DetectionsFrom(subjects, i + stride, stride, detect)
  {
    hide AsList;
    var s := subjects[i..];
    var rest := if |s| <= stride then [] else Sample(s[stride..], stride);
    assert i + stride < |subjects| ==> s[stride..] == subjects[i + stride..];
    assert Sample(s, stride) == [s[0]] + rest && ([s[0]] + rest)[1..] == rest;
    assert Detections(Sample(s, stride), detect) == AsList(detect(subjects[i])) + Detections(rest, detect);
  }

  method CountLanguages(subjects: seq<string>, detect: string -> Option<string>)
    returns (counts: map<string, nat>, detected: nat)
    requires subjects != []
    ensures counts == Tally(Detections(Sample(subjects, Stride(|subjects|)), detect))
    ensures detected == |Detections(Sample(subjects, Stride(|subjects|)), detect)|
  {
    hide Bumped, Tally, Stride, Sample, Detections, DetectionsFrom;
    var stride := Stride(|subjects|);
    counts, detected := map[], 0;
    ghost var found: seq<string> := [];
    ghost var all := DetectionsFrom(subjects, 0, stride, detect);
    var i := 0;
    NothingCounted();
    WholeSample(subjects, stride, detect);
    while i < |subjects|
      invariant counts == Tally(found) && detected == |found|
      invariant all == found + DetectionsFrom(subjects, i, stride, detect)
      decreases |subjects| - i
    {
      OneSampled(subjects, i, stride, detect);
      ghost var rest := DetectionsFrom(subjects, i + stride, stride, detect);
      assert found + (AsList(detect(subjects[i])) + rest) == (found + AsList(detect(subjects[i]))) + rest;
      match detect(subjects[i]) {
        case Some(code) =>
          TallySnoc(found, code);
          counts, detected := Bumped(counts, code), detected + 1;
        case None =>
          assert found + [] == found;
      }
      found := found + AsList(detect(subjects[i]));
      i := i + stride;
    }
    NothingBeyond(subjects, i, stride, detect);
    assert all == found;
  }

  lemma WholeSample(subjects: seq<string>, stride: nat, detect: string -> Option<string>)
    requires stride > 0 && subjects != []
    ensures DetectionsFrom(subjects, 0, stride, detect) == Detections(Sample(subjects, stride), detect)
  {
    assert subjects[0..] == subjects;
  }

  lemma NothingBeyond(subjects: seq<string>, i: nat, stride: nat, detect: string -> Option<string>)
    requires stride > 0 && i >= |subjects|
    ensures DetectionsFrom(subjects, i, stride, detect) == []
  {
  }

  // ----- Subject phrases -----

  const TOP_NGRAMS := 30
  const MIN_TOKEN_LEN := 3

  const STOPWORDS: seq<string> := [
    "les", "des", "une", "aux", "dans", "pour", "par", "sur", "avec", "sans", "cette", "ces",
    "que", "qui", "vous", "votre", "vos", "nous", "notre", "est", "son", "ses", "the", "and",
    "for", "with", "are", "this", "that", "your", "you", "our", "from", "has", "have", "was",
    "will", "fwd"]

  predicate IsAlphanumeric(c: char) { 'a' <= c <= 'z' || 'A' <= c <= 'Z' || '0' <= c <= '9' }

  /** The pieces between the characters that are not alphanumeric, empty ones included. */
  function Pieces(s: string): (r: seq<string>)
    ensures r != []
  {
    if s == "" then [""]
    else
      var r := Pieces(s[..|s| - 1]);
      if IsAlphanumeric(s[|s| - 1]) then r[..|r| - 1] + [r[|r| - 1] + [s[|s| - 1]]] else r + [""]
  }

  predicate IsToken(piece: string) { |piece| >= MIN_TOKEN_LEN && piece !in STOPWORDS }

  function CleanTokens(subject: string): seq<string> { Select(Pieces(Lower(subject)), IsToken) }

  predicate OneWord(s: string) { forall c :: c in s ==> IsAlphanumeric(c) }

  lemma {:induction false} PiecesAreWords(s: string)
    ensures forall w :: w in Pieces(s) ==> OneWord(w)
  {
    if s != "" {
      var front := Pieces(s[..|s| - 1]);
      PiecesAreWords(s[..|s| - 1]);
      assert front[|front| - 1] in front;
      forall w | w in Pieces(s) ensures OneWord(w) {
        if w in front { assert OneWord(w); }
      }
    }
  }

  /** The windows of `size` consecutive tokens. */
  function Windows(tokens: seq<string>, size: nat): seq<seq<string>>
    requires size > 0
  {
    if |tokens| < size then [] else Windows(tokens[..|tokens| - 1], size) + [tokens[|tokens| - size..]]
  }

  function Join(words: seq<string>): string {
    if words == [] then "" else if |words| == 1 then words[0] else words[0] + " " + Join(words[1..])
  }

  function Joined(windows: seq<seq<string>>): seq<string> {
    seq(|windows|, i requires 0 <= i < |windows| => Join(windows[i]))
  }

  function Phrases(subjects: seq<string>): seq<string> {
    if subjects == [] then []
    else
      var tokens := CleanTokens(subjects[|subjects| - 1]);
      Phrases(subjects[..|subjects| - 1]) + Joined(Windows(tokens, 2)) + Joined(Windows(tokens, 3))
  }

  method TopSubjectNgrams(subjects: seq<string>) returns (r: seq<Entry>)
    ensures IsTop(r, Tally(Phrases(subjects)), TOP_NGRAMS)
  {
    hide IsTop, CleanTokens, Tally, Windows, Joined;
    var counts := map[];
    NothingCounted();
    for i := 0 to |subjects|
      invariant counts == Tally(Phrases(subjects[..i]))
    {
      assert subjects[..i + 1][..i] == subjects[..i];
      var tokens := CleanTokens(subjects[i]);
      ghost var before := Phrases(subjects[..i]);
      counts := CountWindows(tokens, 2, counts, before);
      counts := CountWindows(tokens, 3, counts, before + Joined(Windows(tokens, 2)));
    }
    assert subjects[..|subjects|] == subjects;
    r := Rank(counts, TOP_NGRAMS);
  }

  function PhrasesIn(): string -> seq<string> {
    (subject: string) => Joined(Windows(CleanTokens(subject), 2)) + Joined(Windows(CleanTokens(subject), 3))
  }

  lemma {:induction false} PhrasesAreGathered(subjects: seq<string>)
    ensures Phrases(subjects) == Gathered(subjects, PhrasesIn())
  {
    hide Joined, Windows, CleanTokens;
    if subjects != [] { PhrasesAreGathered(subjects[..|subjects| - 1]); }
  }

  /** The ranking of phrases does not depend on the inbox's order. */
  lemma NgramsIgnoreOrder(a: seq<string>, b: seq<string>, r: seq<Entry>, q: seq<Entry>)
    requires multiset(a) == multiset(b)
    requires IsTop(r, Tally(Phrases(a)), TOP_NGRAMS) && IsTop(q, Tally(Phrases(b)), TOP_NGRAMS)
    ensures r == q
  {
    hide IsTop, Tally, Phrases, Gathered;
    PhrasesAreGathered(a);
    PhrasesAreGathered(b);
    GatheredPermutation(a, b, PhrasesIn());
    TallyIgnoresOrder(Phrases(a), Phrases(b));
    TopIsUnique(r, q, Tally(Phrases(a)), TOP_NGRAMS);
  }

  lemma NothingCounted()
    ensures Tally([]) == map[]
  {
  }

  /** The inner loop: the windows of one size over one subject's tokens. */
  method CountWindows(tokens: seq<string>, size: nat, before: map<string, nat>, ghost keys: seq<string>)
    returns (counts: map<string, nat>)
    requires size > 0 && before == Tally(keys)
    ensures counts == Tally(keys + Joined(Windows(tokens, size)))
  {
    hide Tally, Bumped, Join, Joined, Windows;
    counts := before;
    assert keys + [] == keys;
    NoWindows(tokens[..if |tokens| < size then |tokens| else size - 1], size);
    if |tokens| < size {
      assert tokens[..|tokens|] == tokens;
    } else {
      for start := 0 to |tokens| - size + 1
        invariant counts == Tally(keys + Joined(Windows(tokens[..start + size - 1], size)))
      {
        var window := tokens[start..start + size];
        WindowsOfOneMore(tokens, start, size);
        ghost var done := Joined(Windows(tokens[..start + size - 1], size));
        assert keys + (done + [Join(window)]) == keys + done + [Join(window)];
        TallySnoc(keys + done, Join(window));
        counts := Bumped(counts, Join(window));
      }
      assert tokens[..|tokens|] == tokens;
    }
  }

  lemma NoWindows(tokens: seq<string>, size: nat)
    requires |tokens| < size
    ensures Joined(Windows(tokens, size)) == []
  {
  }

  lemma WindowsOfOneMore(tokens: seq<string>, start: nat, size: nat)
    requires size > 0 && start + size <= |tokens|
    ensures Joined(Windows(tokens[..start + size], size))
         == Joined(Windows(tokens[..start + size - 1], size)) + [Join(tokens[start..start + size])]
  {
    hide Join;
    var part := tokens[..start + size];
    assert part[..|part| - 1] == tokens[..start + size - 1] && part[|part| - size..] == tokens[start..start + size];
  }

  lemma {:induction false} WindowCount(tokens: seq<string>, size: nat)
    requires size > 0
    ensures |Windows(tokens, size)| == if |tokens| < size then 0 else |tokens| - size + 1
  {
    if |tokens| >= size { WindowCount(tokens[..|tokens| - 1], size); }
  }

  /** The i-th window is the `size` tokens from the i-th on. */
  lemma {:induction false} WindowAt(tokens: seq<string>, size: nat, i: nat)
    requires size > 0 && i + size <= |tokens| && |Windows(tokens, size)| == |tokens| - size + 1
    ensures Windows(tokens, size)[i] == tokens[i..i + size]
  {
    hide Windows;
    var n := |tokens| - 1;
    WindowCount(tokens[..n], size);
    OneMoreWindow(tokens, size);
    if i + size <= n {
      WindowAt(tokens[..n], size, i);
      SliceOfFront(tokens, n, i, i + size);
    }
  }

  lemma OneMoreWindow(tokens: seq<string>, size: nat)
    requires 0 < size <= |tokens|
    ensures Windows(tokens, size) == Windows(tokens[..|tokens| - 1], size) + [tokens[|tokens| - size..|tokens|]]
  {
    assert tokens[|tokens| - size..] == tokens[|tokens| - size..|tokens|];
  }

  lemma SliceOfFront<T>(s: seq<T>, n: nat, i: nat, j: nat)
    requires i <= j <= n <= |s|
    ensures s[..n][i..j] == s[i..j]
  {
  }

  /** Every token is lowercase and alphanumeric, has at least three characters and is no stopword. */
  lemma TokensAreClean(subject: string, w: string)
    requires w in CleanTokens(subject)
    ensures |w| >= 3 && w !in STOPWORDS && OneWord(w) && Lower(w) == w
  {
    hide Pieces, OneWord, LowerChar;
    SelectMembers(Pieces(Lower(subject)), IsToken);
    PiecesAreWords(Lower(subject));
    PiecesAreSlices(Lower(subject), w);
    var i, j :| 0 <= i <= j <= |subject| && w == Lower(subject)[i..j];
    LowerIsIdempotent(subject);
    LowerOfSlice(Lower(subject), i, j);
  }

  lemma {:induction false} LastPieceIsSuffix(s: string) returns (k: nat)
    ensures k <= |s| && Pieces(s)[|Pieces(s)| - 1] == s[k..]
  {
    if s == "" {
      k := 0;
    } else {
      var n := |s| - 1;
      k := LastPieceIsSuffix(s[..n]);
      if IsAlphanumeric(s[n]) {
        assert s[k..] == s[..n][k..] + [s[n]];
      } else {
        k := |s|;
      }
    }
  }

  lemma {:induction false} PiecesAreSlices(s: string, w: string)
    requires w in Pieces(s)
    ensures exists i, j :: 0 <= i <= j <= |s| && w == s[i..j]
  {
    if s == "" {
      assert w == s[0..0];
    } else {
      var n := |s| - 1;
      var k := LastPieceIsSuffix(s);
      assert s[k..] == s[k..|s|];
      if w in Pieces(s[..n]) {
        PiecesAreSlices(s[..n], w);
        var i, j :| 0 <= i <= j <= n && w == s[..n][i..j];
        SliceOfFront(s, n, i, j);
      } else {
        assert w == Pieces(s)[|Pieces(s)| - 1];
      }
    }
  }

  lemma {:induction false} WindowsHoldTokens(tokens: seq<string>, size: nat, w: seq<string>)
    requires size > 0 && w in Windows(tokens, size)
    ensures |w| == size && forall x :: x in w ==> x in tokens
  {
    var front := tokens[..|tokens| - 1];
    if w in Windows(front, size) {
      WindowsHoldTokens(front, size, w);
    }
  }

  /** A phrase of the subject: two or three of its tokens in a row. */
  ghost predicate IsPhraseOf(phrase: string, tokens: seq<string>) {
    exists i: nat, size: nat :: 2 <= size <= 3 && IsWindow(phrase, tokens, i, size)
  }

  /** The `size` tokens from the i-th on, joined. */
  predicate IsWindow(phrase: string, tokens: seq<string>, i: nat, size: nat) {
    i + size <= |tokens| && phrase == Join(tokens[i..i + size])
  }

  lemma JoinedWindows(tokens: seq<string>, size: nat, phrase: string)
    requires size > 0
    ensures phrase in Joined(Windows(tokens, size))
      <==> exists i: nat :: IsWindow(phrase, tokens, i, size)
  {
    hide Windows, Join;
    WindowCount(tokens, size);
    var windows := Windows(tokens, size);
    forall i | 0 <= i < |windows| ensures windows[i] == tokens[i..i + size] { WindowAt(tokens, size, i); }
    if phrase in Joined(windows) {
      var i :| 0 <= i < |windows| && Joined(windows)[i] == phrase;
      assert IsWindow(phrase, tokens, i, size);
    }
    if i: nat :| IsWindow(phrase, tokens, i, size) {
      assert Joined(windows)[i] == phrase;
    }
  }

  /** The phrases counted are those of the subjects; every window of two and of three tokens
      counts once. */
  lemma {:induction false} PhrasesMean(subjects: seq<string>, phrase: string)
    ensures phrase in Phrases(subjects) <==> exists s :: s in subjects && IsPhraseOf(phrase, CleanTokens(s))
  {
    hide Joined, Windows, CleanTokens, Join;
    if subjects != [] {
      var front, last := subjects[..|subjects| - 1], subjects[|subjects| - 1];
      assert subjects == front + [last];
      PhrasesMean(front, phrase);
      var tokens := CleanTokens(last);
      JoinedWindows(tokens, 2, phrase);
      JoinedWindows(tokens, 3, phrase);
      assert phrase in Phrases(subjects)
        <==> phrase in Phrases(front) || phrase in Joined(Windows(tokens, 2)) || phrase in Joined(Windows(tokens, 3));
    }
  }

  lemma PhrasesOfSubject(subject: string)
    ensures var n := |CleanTokens(subject)|;
      |Phrases([subject])| == (if n < 2 then 0 else n - 1) + (if n < 3 then 0 else n - 2)
  {
    hide CleanTokens, Windows;
    WindowCount(CleanTokens(subject), 2);
    WindowCount(CleanTokens(subject), 3);
    assert [subject][..0] == [];
  }

  /** The windows of two subjects have the same phrase only if they are the same words, so
      counting phrases counts windows. */
  lemma PhrasesAreWindows(s: string, t: string, a: nat, b: nat, v: seq<string>, w: seq<string>)
    requires a > 0 && b > 0 && v in Windows(CleanTokens(s), a) && w in Windows(CleanTokens(t), b)
    ensures Join(v) == Join(w) <==> v == w
  {
    hide Windows, Pieces, IsToken, Join, OneWord;
    WindowsHoldTokens(CleanTokens(s), a, v);
    WindowsHoldTokens(CleanTokens(t), b, w);
    SelectMembers(Pieces(Lower(s)), IsToken);
    SelectMembers(Pieces(Lower(t)), IsToken);
    PiecesAreWords(Lower(s));
    PiecesAreWords(Lower(t));
    if Join(v) == Join(w) { PhraseTellsItsWords(v, w); }
  }

  /** Words without spaces can be read back from their phrase. */
  lemma {:induction false} PhraseTellsItsWords(v: seq<string>, w: seq<string>)
    requires |v| > 0 && |w| > 0
    requires (forall x :: x in v ==> OneWord(x)) && (forall x :: x in w ==> OneWord(x))
    requires Join(v) == Join(w)
    ensures v == w
  {
    FirstWord(v);
    FirstWord(w);
    var i, j := |v[0]|, |w[0]|;
    FirstNotShorter(v, w);
    FirstNotShorter(w, v);
    assert v[0] == w[0];
    if |v| > 1 {
      assert Join(v)[i + 1..] == Join(v[1..]) && Join(w)[i + 1..] == Join(w[1..]);
      PhraseTellsItsWords(v[1..], w[1..]);
      assert v == [v[0]] + v[1..] && w == [w[0]] + w[1..];
    } else {
      assert v == [v[0]] && w == [w[0]];
    }
  }

  lemma FirstNotShorter(v: seq<string>, w: seq<string>)
    requires |v| > 0 && |w| > 0 && Join(v) == Join(w)
    requires forall x :: x in w ==> OneWord(x)
    ensures |v[0]| >= |w[0]|
  {
    hide Join;
    FirstWord(v);
    FirstWord(w);
    NoSpaceInside(w[0]);
    assert forall i :: 0 <= i < |w[0]| ==> Join(w)[i] == Join(w)[..|w[0]|][i];
  }

  lemma NoSpaceInside(word: string)
    requires OneWord(word)
    ensures forall i :: 0 <= i < |word| ==> word[i] != ' '
  {
    forall i | 0 <= i < |word| ensures word[i] != ' ' { assert word[i] in word; }
  }

  lemma FirstWord(w: seq<string>)
    requires |w| > 0
    ensures |w[0]| <= |Join(w)| && Join(w)[..|w[0]|] == w[0]
    ensures |w| > 1 ==> |Join(w)| > |w[0]| && Join(w)[|w[0]|] == ' '
    ensures |w| > 1 ==> Join(w)[|w[0]| + 1..] == Join(w[1..])
    ensures |w| == 1 ==> |Join(w)| == |w[0]|
  {
  }
}
