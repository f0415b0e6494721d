/** What the configuration and the classifier ask for, said by their own fields: which tags a
    message gets, which rows they leave, which actions and webhooks they lead to. */
module ConfigLaws {
  import opened Seqs
  import opened Text
  import opened Calls
  import opened Filters
  import opened Actions
  import opened ActionLaws
  import opened WritebackLaws
  import Folders
  import opened Sidecar
  import opened Webhooks
  import opened Pipeline
  import opened EmissionLaws
  import opened ProcessLaws
  import opened RepeatLaws
  import opened Daemon
  import opened DaemonLaws

  // ----- Native tags -----

  /** The i-th filter matches and carries the tag. */
  predicate TaggedBy(filters: seq<CompiledFilter>, view: View, rx: Regex, tag: string, i: nat) {
    i < |filters| && Matches(filters[i].filter, view, rx) && filters[i].tag == tag
  }

  /** It is the first one to. */
  ghost predicate FirstTaggedBy(filters: seq<CompiledFilter>, view: View, rx: Regex, tag: string, i: nat) {
    TaggedBy(filters, view, rx, tag, i) && forall j :: 0 <= j < i ==> !TaggedBy(filters, view, rx, tag, j)
  }

  /** `at` lists, in order, exactly the indices of the filters that match. */
  ghost predicate AreMatching(filters: seq<CompiledFilter>, view: View, rx: Regex, at: seq<nat>) {
    && (forall k :: 0 <= k < |at| ==> at[k] < |filters| && Matches(filters[at[k]].filter, view, rx))
    && (forall j, k :: 0 <= j < k < |at| ==> at[j] < at[k])
    && (forall i :: 0 <= i < |filters| && Matches(filters[i].filter, view, rx) ==> i in at)
  }

  lemma {:induction false} MatchingAt(filters: seq<CompiledFilter>, view: View, rx: Regex) returns (at: seq<nat>)
    ensures AreMatching(filters, view, rx, at)
    ensures |MatchingFilters(filters, view, rx)| == |at|
    ensures forall k :: 0 <= k < |at| ==> MatchingFilters(filters, view, rx)[k] == filters[at[k]]
  {
    hide Matches;
    at := [];
    if filters != [] {
      var n := |filters| - 1;
      at := MatchingAt(filters[..n], view, rx);
      assert forall i :: 0 <= i < n ==> filters[..n][i] == filters[i];
      if Matches(filters[n].filter, view, rx) { at := at + [n]; }
    }
  }

  /** A message gets a native tag if and only if a matching filter carries it. */
  lemma NativeTags(filters: seq<CompiledFilter>, view: View, rx: Regex, tag: string)
    ensures tag in FilterTags(filters, view, rx) <==> exists i: nat :: TaggedBy(filters, view, rx, tag, i)
  {
    hide Matches, MatchingFilters, Dedup;
    var at := MatchingAt(filters, view, rx);
    var m := MatchingFilters(filters, view, rx);
    DedupMembers(TagsOfFilters(m));
    if tag in FilterTags(filters, view, rx) {
      var k :| 0 <= k < |m| && TagsOfFilters(m)[k] == tag;
      assert TaggedBy(filters, view, rx, tag, at[k]);
    }
    if i: nat :| TaggedBy(filters, view, rx, tag, i) {
      var k :| 0 <= k < |at| && at[k] == i;
      assert TagsOfFilters(m)[k] == tag;
    }
  }

  /** Native tags stand in the order of their first matching filters. */
  lemma NativeTagsInOrder(filters: seq<CompiledFilter>, view: View, rx: Regex, a: nat, b: nat, i: nat, j: nat)
    requires a < b < |FilterTags(filters, view, rx)|
    requires FirstTaggedBy(filters, view, rx, FilterTags(filters, view, rx)[a], i)
    requires FirstTaggedBy(filters, view, rx, FilterTags(filters, view, rx)[b], j)
    ensures i < j
  {
    hide Matches, MatchingFilters, Dedup;
    var at := MatchingAt(filters, view, rx);
    var m := MatchingFilters(filters, view, rx);
    var all, tags := TagsOfFilters(m), FilterTags(filters, view, rx);
    DedupKeepsFirstOccurrences(all, a, b);
    var k, l := IndexOf(all, tags[a]), IndexOf(all, tags[b]);
    assert TaggedBy(filters, view, rx, tags[a], at[k]) && TaggedBy(filters, view, rx, tags[b], at[l]);
    assert i <= at[k];
    var e :| 0 <= e < |at| && at[e] == j;
    assert all[e] == tags[b];
    assert forall d :: 0 <= d < l ==> all[..l][d] == all[d];
    assert e >= l;
  }

  // ----- Match rows -----

  /** The rows are those of the matching filters, in declaration order, then the classifier's. */
  ghost predicate MatchRowsOf(s: Settings, env: Envelope, rows: seq<MatchRow>, at: seq<nat>) {
    && AreMatching(s.filters, s.view(env), s.rx, at)
    && |rows| == |at| + (if s.llm.Some? then 1 else 0)
    && (forall k :: 0 <= k < |at| ==> rows[k] == MatchRow(env.mid, s.filters[at[k]].kind, s.filters[at[k]].tag))
    && (s.llm.Some? ==> rows[|at|] == MatchRow(env.mid, "llm", "llm"))
  }

  lemma FiredRowsMean(s: Settings, env: Envelope)
    ensures exists at :: MatchRowsOf(s, env, FiredRows(s, env), at)
  {
    hide Matches, MatchingFilters;
    var at := MatchingAt(s.filters, s.view(env), s.rx);
    assert MatchRowsOf(s, env, FiredRows(s, env), at);
  }

  // ----- Classifier tags -----

  /** The first `{` to the last `}` of the text, or all of it when they do not stand so. */
  ghost predicate JsonSpan(text: string, json: string) {
    || (exists i, j :: 0 <= i <= j < |text| && Spans(text, i, j) && json == text[i..j + 1])
    || (json == text && forall i, j :: 0 <= i <= j < |text| ==> !Spans(text, i, j))
  }

  ghost predicate Spans(text: string, i: nat, j: nat)
    requires i <= j < |text|
  {
    text[i] == '{' && text[j] == '}' && '{' !in text[..i] && '}' !in text[j + 1..]
  }

  lemma ExtractedSpan(text: string)
    ensures JsonSpan(text, ExtractJson(text))
    ensures forall json :: JsonSpan(text, json) ==> json == ExtractJson(text)
  {
    var start, end := IndexOf(text, '{'), LastIndexOf(text, '}');
    if 0 <= start <= end { assert Spans(text, start, end); }
    forall i, j | 0 <= i <= j < |text| && Spans(text, i, j) ensures i == start && j == end {
      IndexOfUnique(text, '{', i);
      LastIs(text, '}', j);
    }
  }

  lemma LastIs(text: string, c: char, j: nat)
    requires j < |text| && text[j] == c && c !in text[j + 1..]
    ensures LastIndexOf(text, c) == j
  {
    var k := LastIndexOf(text, c);
    assert forall i :: j < i < |text| ==> text[i] == text[j + 1..][i - j - 1];
  }

  /** The model's reply decodes to `c`. */
  ghost predicate RepliesWith(llm: Llm, completion: Option<string>, json: string, c: Classification) {
    completion.Some? && JsonSpan(completion.value, json) && llm.decode(json) == Some(c)
  }

  /** The native tags, in front, and otherwise exactly the tags `asked`; none twice. */
  ghost predicate TagsAre(tags: seq<string>, native: seq<string>, asked: set<string>) {
    native <= tags && Distinct(tags) && forall t :: t in tags <==> t in native || t in asked
  }

  function AskedBy(c: Classification): set<string> {
    {"cat/" + c.category} + (if c.needsReply then {"needs-reply"} else {}) + (if c.priority >= 4 then {"priority-high"} else {})
  }

  lemma MergedTags(native: seq<string>, more: seq<string>, asked: set<string>)
    requires Distinct(native) && forall t :: t in more <==> t in asked
    ensures TagsAre(Merged(native, more), native, asked)
  {
    hide Dedup, Select;
    DedupMembers(more);
    SelectMembers(Dedup(more), NotAmong(native));
    DistinctConcat(native, Select(Dedup(more), NotAmong(native)));
  }

  lemma ClassificationAsks(c: Classification)
    ensures forall t :: t in ClassificationTags(c) <==> t in AskedBy(c)
  {
  }

  lemma CalledTags(llm: Llm, env: Envelope, native: seq<string>, w: World, o: Oracle)
    requires Distinct(native)
    ensures var p := CallingModel(llm, env, native, w, o);
      var reply := o(w.tick).completion;
      && p.status.Ready?
      && (forall json, c :: RepliesWith(llm, reply, json, c) ==>
            TagsAre(p.status.tags, native, AskedBy(c)) && p.status.decision == Some(DecisionRow(env.mid, llm.promptHash(env), json)))
      && ((forall json, c :: !RepliesWith(llm, reply, json, c)) ==>
            TagsAre(p.status.tags, native, {"llm_error"}) && p.status.decision.None?)
  {
    hide ExtractJson, Merged, JsonSpan, TagsAre, ClassificationTags, AskedBy;
    var reply := o(w.tick).completion;
    MergedTags(native, [LLM_ERROR_TAG], {"llm_error"});
    if reply.Some? {
      var json := ExtractJson(reply.value);
      ExtractedSpan(reply.value);
      var decoded := llm.decode(json);
      if decoded.Some? {
        ClassificationAsks(decoded.value);
        MergedTags(native, ClassificationTags(decoded.value), AskedBy(decoded.value));
        assert RepliesWith(llm, reply, json, decoded.value);
      }
    }
  }

  /** An attempt that gets past the classifier: a reply that decodes gives its category, and
      the reply and priority tags exactly when it says so, and is kept as a decision; any
      other outcome gives the error tag and no decision. */
  lemma ClassifierTags(s: Settings, env: Envelope, w: World, o: Oracle)
    requires Sound(w.db) && s.llm.Some? && Preparing(s, env, w, o).status.Ready?
    ensures var status := Preparing(s, env, w, o).status;
      var llm := s.llm.value;
      var native, reply := FilterTags(s.filters, s.view(env), s.rx), o(w.tick + 3).completion;
      && (forall json, c :: RepliesWith(llm, reply, json, c) ==>
            TagsAre(status.tags, native, AskedBy(c)) && status.decision == Some(DecisionRow(env.mid, llm.promptHash(env), json)))
      && ((forall json, c :: !RepliesWith(llm, reply, json, c)) ==>
            TagsAre(status.tags, native, {"llm_error"}) && status.decision.None?)
  {
    hide FilterTags, Cached, CallingModel, RepliesWith, TagsAre, Merged, ClassificationTags, Ledger, Sound, AskedBy;
    var native := FilterTags(s.filters, s.view(env), s.rx);
    TagsAreDistinct(s.filters, s.view(env), s.rx, []);
    CacheAlwaysMisses(s, env, w, s.llm.value.promptHash(env));
    CalledTags(s.llm.value, env, native, w.(tick := w.tick + 3), o);
  }

  // ----- Actions -----

  /** The configuration of a tag asks for this action. */
  predicate Asks(actions: map<string, TagActions>, tag: string, x: Action) {
    tag in actions &&
    match x
    case CopyTo(folder) => actions[tag].copyTo == Some(folder)
    case MoveTo(folder) => actions[tag].moveTo == Some(folder)
    case MarkSeen => actions[tag].markSeen
    case MarkFlagged => actions[tag].markFlagged
  }

  /** Within a tag: copy, move, then the flags. */
  function Turn(x: Action): nat {
    match x
    case CopyTo(_) => 0
    case MoveTo(_) => 1
    case MarkSeen => 2
    case MarkFlagged => 3
  }

  /** `origin` names for each action a tag that asks for it. */
  ghost predicate Sourced(resolved: seq<Action>, origin: seq<nat>, tags: seq<string>, actions: map<string, TagActions>) {
    |origin| == |resolved| && forall k :: 0 <= k < |origin| ==> origin[k] < |tags| && Asks(actions, tags[origin[k]], resolved[k])
  }

  /** The actions stand tag by tag, and within a tag by turn. */
  ghost predicate TagByTag(resolved: seq<Action>, origin: seq<nat>)
    requires |origin| == |resolved|
  {
    forall k, l :: 0 <= k < l < |origin| ==>
      origin[k] < origin[l] || (origin[k] == origin[l] && Turn(resolved[k]) < Turn(resolved[l]))
  }

  ghost predicate HasFrom(resolved: seq<Action>, origin: seq<nat>, i: nat, x: Action)
    requires |origin| == |resolved|
  {
    exists k :: 0 <= k < |origin| && origin[k] == i && resolved[k] == x
  }

  /** No action a tag asks for is missing. */
  ghost predicate Complete(resolved: seq<Action>, origin: seq<nat>, tags: seq<string>, actions: map<string, TagActions>)
    requires |origin| == |resolved|
  {
    forall i, x :: 0 <= i < |tags| && Asks(actions, tags[i], x) ==> HasFrom(resolved, origin, i, x)
  }

  ghost predicate AskedInOrder(resolved: seq<Action>, origin: seq<nat>, tags: seq<string>, actions: map<string, TagActions>) {
    Sourced(resolved, origin, tags, actions) && TagByTag(resolved, origin) && Complete(resolved, origin, tags, actions)
  }

  lemma PrimitivesAsked(a: TagActions)
    ensures forall x :: x in PrimitivesOf(a) <==>
      || (x.CopyTo? && a.copyTo == Some(x.folder)) || (x.MoveTo? && a.moveTo == Some(x.folder))
      || (x.MarkSeen? && a.markSeen) || (x.MarkFlagged? && a.markFlagged)
  {
  }

  lemma PrimitivesInTurn(a: TagActions)
    ensures var r := PrimitivesOf(a); forall k, l :: 0 <= k < l < |r| ==> Turn(r[k]) < Turn(r[l])
  {
  }

  lemma OneTagAsks(actions: map<string, TagActions>, tag: string)
    ensures var r := ActionsOfTag(actions, tag);
      && (forall k :: 0 <= k < |r| ==> Asks(actions, tag, r[k]))
      && (forall k, l :: 0 <= k < l < |r| ==> Turn(r[k]) < Turn(r[l]))
    ensures forall x :: Asks(actions, tag, x) ==> x in ActionsOfTag(actions, tag)
  {
    hide PrimitivesOf, Turn;
    if tag in actions {
      PrimitivesAsked(actions[tag]);
      PrimitivesInTurn(actions[tag]);
      assert forall k :: 0 <= k < |PrimitivesOf(actions[tag])| ==> PrimitivesOf(actions[tag])[k] in PrimitivesOf(actions[tag]);
    }
  }

  lemma {:induction false} ResolvedFrom(tags: seq<string>, actions: map<string, TagActions>) returns (origin: seq<nat>)
    ensures AskedInOrder(Resolved(tags, actions), origin, tags, actions)
  {
    hide ActionsOfTag, Asks, TagByTag, Complete;
    origin := [];
    if tags == [] {
      NothingAskedInOrder(actions);
    } else {
      var n := |tags| - 1;
      var front := ResolvedFrom(tags[..n], actions);
      OneTagAsks(actions, tags[n]);
      var before, own := Resolved(tags[..n], actions), ActionsOfTag(actions, tags[n]);
      origin := front + seq(|own|, _ => n);
      OneMoreSourced(before, own, front, tags, actions);
      OneMoreComplete(before, own, front, tags, actions);
    }
  }

  lemma NothingAskedInOrder(actions: map<string, TagActions>)
    ensures AskedInOrder([], [], [], actions)
  {
  }

  lemma OneMoreSourced(before: seq<Action>, own: seq<Action>, front: seq<nat>, tags: seq<string>, actions: map<string, TagActions>)
    requires tags != [] && Sourced(before, front, tags[..|tags| - 1], actions) && TagByTag(before, front)
    requires forall k :: 0 <= k < |own| ==> Asks(actions, tags[|tags| - 1], own[k])
    requires forall k, l :: 0 <= k < l < |own| ==> Turn(own[k]) < Turn(own[l])
    ensures var origin := front + seq(|own|, _ => |tags| - 1);
      Sourced(before + own, origin, tags, actions) && TagByTag(before + own, origin)
  {
    hide Asks, Turn;
  }

  lemma OneMoreComplete(before: seq<Action>, own: seq<Action>, front: seq<nat>, tags: seq<string>, actions: map<string, TagActions>)
    requires tags != [] && |front| == |before| && Complete(before, front, tags[..|tags| - 1], actions)
    requires forall x :: Asks(actions, tags[|tags| - 1], x) ==> x in own
    ensures Complete(before + own, front + seq(|own|, _ => |tags| - 1), tags, actions)
  {
    hide Asks;
    var n := |tags| - 1;
    var resolved, origin := before + own, front + seq(|own|, _ => n);
    forall i, x | 0 <= i < |tags| && Asks(actions, tags[i], x) ensures HasFrom(resolved, origin, i, x) {
      if i < n {
        assert Asks(actions, tags[..n][i], x);
        assert HasFrom(before, front, i, x);
        var k :| 0 <= k < |front| && front[k] == i && before[k] == x;
        assert origin[k] == i && resolved[k] == x;
      } else {
        assert Asks(actions, tags[n], x) && x in own;
        var k :| 0 <= k < |own| && own[k] == x;
        assert origin[|before| + k] == i && resolved[|before| + k] == x;
      }
    }
  }

  /** The actions of the tags: each one asked for by a tag's own fields, in order. */
  lemma ActionsInOrder(tags: seq<string>, actions: map<string, TagActions>)
    ensures exists origin :: AskedInOrder(Resolved(tags, actions), origin, tags, actions)
  {
    var origin := ResolvedFrom(tags, actions);
  }

  /** An action is resolved if and only if some tag is configured with it. */
  lemma AskedFor(tags: seq<string>, actions: map<string, TagActions>, x: Action)
    ensures x in Resolved(tags, actions) <==> exists t :: t in tags && Asks(actions, t, x)
  {
    hide Resolved, Asks;
    var origin := ResolvedFrom(tags, actions);
    if x in Resolved(tags, actions) {
      var k :| 0 <= k < |origin| && Resolved(tags, actions)[k] == x;
      assert tags[origin[k]] in tags && Asks(actions, tags[origin[k]], x);
    }
    if t :| t in tags && Asks(actions, t, x) {
      var i :| 0 <= i < |tags| && tags[i] == t;
      assert HasFrom(Resolved(tags, actions), origin, i, x);
    }
  }

  predicate MovedByConfig(tags: seq<string>, actions: map<string, TagActions>) {
    exists t :: t in tags && t in actions && actions[t].moveTo.Some?
  }

  lemma MovesAreConfigured(tags: seq<string>, actions: map<string, TagActions>)
    ensures HasMove(Resolved(tags, actions)) <==> MovedByConfig(tags, actions)
  {
    hide Resolved;
    var r := Resolved(tags, actions);
    if i :| 0 <= i < |r| && r[i].MoveTo? {
      AskedFor(tags, actions, r[i]);
      var t :| t in tags && Asks(actions, t, r[i]);
      assert actions[t].moveTo.Some?;
    }
    if t :| t in tags && t in actions && actions[t].moveTo.Some? {
      AskedFor(tags, actions, MoveTo(actions[t].moveTo.value));
      assert Asks(actions, t, MoveTo(actions[t].moveTo.value));
    }
  }

  /** A recorded attempt has delivered what its tags' configuration asks for; right after it
      the message is still in INBOX if and only if it was and no tag has a `move_to`. */
  lemma RecordedIsDelivered(s: Settings, env: Envelope, account: nat, w: World, o: Oracle)
    requires Sound(w.db) && 1 <= account <= |w.db.accounts|
    requires Process(s, env, account, w, o).attempt.recorded
    ensures var p := Process(s, env, account, w, o);
      && CarriedOut(w.mail, p.w.mail, env.uid, Resolved(p.attempt.tags, s.actions))
      && (env.uid in p.w.mail.inbox <==> env.uid in w.mail.inbox && !MovedByConfig(p.attempt.tags, s.actions))
  {
    hide Process, Sound, Preparing, Run, Resolved, Consolidate, Reaches, Touched, At, AuditOf, Conserved, Ledger, NativeTagsFirst, MovedByConfig;
    var p := Process(s, env, account, w, o);
    AttemptRuns(s, env, account, w, o);
    ProcessSteps(s, env, account, w, o);
    var t := RunStart(s, w);
    RunFailsByFault(p.attempt.plan, env.uid, w.mail, t, o);
    SuccessDelivers(Resolved(p.attempt.tags, s.actions), env.uid, w.mail, t, o);
    MovesAreConfigured(p.attempt.tags, s.actions);
  }

  /** Whatever fails, an attempt changes no folder but Berger's own, and nothing it writes is
      polled back. */
  lemma AttemptTouchesOnlyOwn(s: Settings, env: Envelope, account: nat, w: World, o: Oracle, path: string)
    requires Sound(w.db) && 1 <= account <= |w.db.accounts|
    requires Touched(w.mail, Process(s, env, account, w, o).w.mail, path)
    ensures OwnPath(path)
    ensures forall separator :: !Folders.Polled(Some(Folders.ServerPath(path, separator)))
  {
    hide Process, Sound, Preparing, Run, Touched, OwnPath, Folders.Polled, Folders.ServerPath;
    AttemptRuns(s, env, account, w, o);
    var p := Process(s, env, account, w, o);
    RunTouchesOnlyOwn(p.attempt.plan, env.uid, w.mail, RunStart(s, w), o, path);
    forall separator ensures !Folders.Polled(Some(Folders.ServerPath(path, separator))) {
      WrittenIsNotPolled(p.attempt.plan, env.uid, w.mail, RunStart(s, w), o, path, separator);
    }
  }

  // ----- Webhooks -----

  /** A tag of the message refers to the webhook, which is configured and whose `when` list is
      empty or names a tag of the message. */
  ghost predicate CalledFor(s: Settings, tags: seq<string>, name: string) {
    && (exists t :: t in tags && t in s.actions && s.actions[t].webhook == Some(name))
    && name in s.hooks
    && (s.hooks[name].when == [] || exists t :: t in s.hooks[name].when && t in tags)
  }

  lemma {:induction false} ReferredHooks(tags: seq<string>, actions: map<string, TagActions>, name: string)
    ensures name in HooksOfTags(tags, actions) <==> exists t :: t in tags && t in actions && actions[t].webhook == Some(name)
  {
    if tags != [] {
      var front, last := tags[..|tags| - 1], tags[|tags| - 1];
      assert tags == front + [last];
      ReferredHooks(front, actions, name);
      if last in actions && actions[last].webhook == Some(name) { assert last in tags; }
    }
  }

  /** Which webhooks are called for. */
  lemma NamesCalledFor(s: Settings, tags: seq<string>, name: string)
    ensures name in HookNames(s, tags) && Wanted(s, tags, name) <==> CalledFor(s, tags, name)
  {
    hide HooksOfTags, Dedup;
    ReferredHooks(tags, s.actions, name);
    DedupMembers(HooksOfTags(tags, s.actions));
  }

  /** A message's deliveries: one for each webhook called for whose body renders, no other,
      in the order in which the tags first refer to them. */
  lemma DeliveredHooks(s: Settings, env: Envelope, tags: seq<string>, w: World, o: Oracle)
    requires env.mid in Ledger(w.db)
    ensures var names := HookNames(s, tags);
      var shots := Shooting(s, tags, names, w.tick, o).shots;
      && EmitAll(s, env.mid, tags, names, w, o).w.deliveries == w.deliveries + DeliveriesOf(env.mid, shots)
      && (forall k :: 0 <= k < |shots| ==> CalledFor(s, tags, shots[k].name) && shots[k].hook == s.hooks[shots[k].name])
      && (forall i :: 0 <= i < |names| && CalledFor(s, tags, names[i]) && o(RenderCall(s, tags, names, i, w.tick, o)).renders ==>
            exists k :: 0 <= k < |shots| && shots[k].name == names[i])
      && (forall name :: CalledFor(s, tags, name) ==> name in names)
  {
    hide HookNames, EmitAll, Shooting, Wanted, CalledFor, Select, ShotAt, Firing, Ledger, RenderCall;
    var names := HookNames(s, tags);
    var firing := Firing(s, tags, names, w.tick, o);
    EmissionIsExact(s, env.mid, tags, names, w, o);
    ShotsAreTheFiring(s, tags, names, w.tick, o);
    forall name ensures name in names && Wanted(s, tags, name) <==> CalledFor(s, tags, name) { NamesCalledFor(s, tags, name); }
    ShotsOfNames(s, tags, names, w.tick, o);
  }

  lemma ShotsOfNames(s: Settings, tags: seq<string>, names: seq<string>, t: nat, o: Oracle)
    ensures var shots := Shooting(s, tags, names, t, o).shots;
      && (forall k :: 0 <= k < |shots| ==>
            shots[k].name in names && Wanted(s, tags, shots[k].name) && shots[k].hook == s.hooks[shots[k].name])
      && (forall i :: 0 <= i < |names| && Wanted(s, tags, names[i]) && o(RenderCall(s, tags, names, i, t, o)).renders ==>
            exists k :: 0 <= k < |shots| && shots[k].name == names[i])
  {
    hide Shooting, Firing, Hook.FiresFor, RenderCall;
    ShotsAreTheFiring(s, tags, names, t, o);
    var shots, firing := Shooting(s, tags, names, t, o).shots, Firing(s, tags, names, t, o);
    forall i | 0 <= i < |names| && Wanted(s, tags, names[i]) && o(RenderCall(s, tags, names, i, t, o)).renders
      ensures exists k :: 0 <= k < |shots| && shots[k].name == names[i] {
      assert Fires(s, tags, names, i, t, o);
      var k :| 0 <= k < |firing| && firing[k] == i;
      assert ShotOf(s, tags, names, firing[k], t, o, shots[k]);
    }
  }

  // ----- The ledger row -----

  lemma {:induction false} FirstMessageStays(db: Db, rows: seq<Row>)
    requires rows != [] && rows[0].Message?
    ensures rows[0].message in AddAll(db, rows).messages
  {
    var front := rows[..|rows| - 1];
    if front == [] {
      assert AddAll(db, front) == db;
    } else {
      FirstMessageStays(db, front);
    }
  }

  /** The ledger row of a recorded message says whose it is and what it was, and under which
      configuration it was triaged. */
  lemma LedgerRowSays(s: Settings, env: Envelope, account: nat, w: World, o: Oracle)
    requires Process(s, env, account, w, o).attempt.recorded
    ensures MessageRow(env.mid, account, env.subject, env.from, env.date, s.configHash)
         in Process(s, env, account, w, o).w.db.messages
  {
    hide Preparing, Run, Consolidate, Resolved, Rows, SaveAll, EmitAll, HookNames;
    var prep := Preparing(s, env, w, o);
    var tags, decision := prep.status.tags, prep.status.decision;
    var plan := Consolidate(Resolved(tags, s.actions));
    var run := Run(plan, env.uid, prep.w.mail, prep.w.tick, o);
    var rows := Rows(s, env, account, decision, tags, plan);
    var rec := SaveAll(rows, prep.w.db, run.at.tick, o);
    SaveAllIsPrefix(rows, prep.w.db, run.at.tick, o);
    LedgerRowIsFirst(s, env, account, decision, tags, plan);
    assert rec.done > 0;
    FirstMessageStays(prep.w.db, rows[..rec.done]);
    EmissionKeepsMessages(s, env.mid, tags, HookNames(s, tags),
      prep.w.(mail := run.at.box, tick := rec.at.tick, db := rec.at.db), o);
  }

  lemma {:induction false} EmissionKeepsMessages(s: Settings, mid: string, tags: seq<string>, names: seq<string>, w: World, o: Oracle)
    ensures EmitAll(s, mid, tags, names, w, o).w.db.messages == w.db.messages
  {
    hide Delivered;
    if names != [] { EmissionKeepsMessages(s, mid, tags, names[..|names| - 1], w, o); }
  }

  // ----- The audit trail of a run -----

  /** The action's row says what was done and where. */
  ghost predicate RowSays(row: ActionRow, mid: string, x: Action) {
    && row.mid == mid
    && (x.CopyTo? ==> row == ActionRow(mid, "copy_to", Some(x.folder)))
    && (x.MoveTo? ==> row == ActionRow(mid, "move_to", Some(x.folder)))
    && (x.MarkSeen? ==> row == ActionRow(mid, "mark_seen", None))
    && (x.MarkFlagged? ==> row == ActionRow(mid, "mark_flagged", None))
  }

  /** In every later state, the trail of a processed message says: its tags, of which the
      native ones come first; the actions its tags' configuration asks for, consolidated; and
      the filters that match it. */
  lemma AuditMeans(s: Settings, start: System, events: seq<Event>, o: Oracle, a: Attempt)
    requires Initial(start) && a in RunOf(s, start, events, o).history && a.outcome.Processed?
    ensures var trail := AuditOf(RunOf(s, start, events, o).w.db, a.env.mid);
      && |trail.tags| == |a.tags| && (forall k :: 0 <= k < |a.tags| ==> trail.tags[k] == TagRow(a.env.mid, a.tags[k]))
      && |trail.actions| == |a.plan| && (forall k :: 0 <= k < |a.plan| ==> RowSays(trail.actions[k], a.env.mid, a.plan[k]))
      && (exists at :: MatchRowsOf(s, a.env, trail.matches, at))
  {
    hide RunOf, Initial, AuditOf, FiredRows, Consolidate, Resolved, MatchRowsOf;
    AuditIntegrity(s, start, events, o, a);
    FiredRowsMean(s, a.env);
  }

  /** A new ledger row means that some attempt carried out, to the end, what the fields of its
      tags' configuration ask for. */
  ghost predicate Obeyed(s: Settings, a: Attempt) {
    && a.recorded && a.ran == |a.plan|
    && (forall f :: CopyTo(f) in a.plan <==>
          (exists t :: t in a.tags && Asks(s.actions, t, CopyTo(f))) && !(exists t :: t in a.tags && Asks(s.actions, t, MoveTo(f))))
    && (HasMove(a.plan) <==> MovedByConfig(a.tags, s.actions))
    && (MarkSeen in a.plan <==> exists t :: t in a.tags && Asks(s.actions, t, MarkSeen))
    && (MarkFlagged in a.plan <==> exists t :: t in a.tags && Asks(s.actions, t, MarkFlagged))
  }

  lemma PlanObeys(s: Settings, a: Attempt)
    requires a.recorded && a.ran == |a.plan| && a.plan == Consolidate(Resolved(a.tags, s.actions))
    ensures Obeyed(s, a)
  {
    hide Resolved, Consolidate, Asks, MovedByConfig, MoveTargets;
    var r := Resolved(a.tags, s.actions);
    forall x ensures x in a.plan <==> Survives(r, x) { ConsolidateMembers(r, x); }
    forall x ensures x in r <==> exists t :: t in a.tags && Asks(s.actions, t, x) { AskedFor(a.tags, s.actions, x); }
    MovesAreConfigured(a.tags, s.actions);
    PlanMoves(r);
  }

  lemma PlanMoves(r: seq<Action>)
    ensures HasMove(Consolidate(r)) <==> HasMove(r)
  {
    hide Consolidate, MoveTargets;
    var plan := Consolidate(r);
    FirstMoveTarget(r);
    forall x ensures x in plan <==> Survives(r, x) { ConsolidateMembers(r, x); }
    if MoveTargets(r) != [] {
      assert MoveTo(MoveTargets(r)[0]) in plan;
    } else {
      assert forall i :: 0 <= i < |plan| ==> plan[i] in plan;
    }
  }

  lemma LedgerMeansObeyed(s: Settings, start: System, events: seq<Event>, o: Oracle, mid: string)
    requires Initial(start)
    requires mid in Ledger(RunOf(s, start, events, o).w.db) && mid !in Ledger(start.w.db)
    ensures exists a :: a in RunOf(s, start, events, o).history && a.env.mid == mid && Obeyed(s, a)
  {
    hide RunOf, Initial, Ledger, Consolidate, Resolved, NativeTagsFirst, Obeyed;
    LedgerMeansActed(s, start, events, o, mid);
    var a :| a in RunOf(s, start, events, o).history && ActedOn(s, a, mid);
    PlanObeys(s, a);
  }
}
