/** The triage pipeline: what one message goes through, from the ledger lookup to the
    webhooks. There is no transaction and any call may fail. */
module Pipeline {
  import opened Seqs
  import opened Text
  import opened Calls
  import opened Filters
  import opened Actions
  import opened Sidecar
  import opened Webhooks

  datatype Envelope = Envelope(
    id: string, mid: string, mailbox: Option<string>, uid: nat, subject: string, from: string, date: int)

  /** The actions configured for one tag. */
  datatype TagActions = TagActions(
    copyTo: Option<string>, moveTo: Option<string>, markSeen: bool, markFlagged: bool, webhook: Option<string>)

  datatype Classification = Classification(category: string, needsReply: bool, priority: nat)

  /** The classifier: the hash of a message's prompt, and the decoding of the model's JSON. */
  datatype Llm = Llm(promptHash: Envelope -> string, decode: string -> Option<Classification>)

  datatype Settings = Settings(
    filters: seq<CompiledFilter>,
    rx: Regex,
    actions: map<string, TagActions>,
    configHash: string,
    llm: Option<Llm>,
    hooks: map<string, Hook>,
    view: Envelope -> View)  // the archived message, parsed

  // ----- Tags -----

  const LLM_ERROR_TAG := "llm_error"

  function MatchingFilters(filters: seq<CompiledFilter>, view: View, rx: Regex): seq<CompiledFilter> {
    if filters == [] then []
    else
      var front := MatchingFilters(filters[..|filters| - 1], view, rx);
      var last := filters[|filters| - 1];
      if Matches(last.filter, view, rx) then front + [last] else front
  }

  function TagsOfFilters(filters: seq<CompiledFilter>): seq<string> {
    seq(|filters|, i requires 0 <= i < |filters| => filters[i].tag)
  }

  /** The tags of the filters that match, each once, in declaration order. */
  function FilterTags(filters: seq<CompiledFilter>, view: View, rx: Regex): seq<string> {
    Dedup(TagsOfFilters(MatchingFilters(filters, view, rx)))
  }

  method RunFilters(filters: seq<CompiledFilter>, view: View, rx: Regex) returns (tags: seq<string>)
    ensures tags == FilterTags(filters, view, rx)
  {
    hide Dedup, Matches;
    DedupOfDistinct<string>([]);
    assert filters[..0] == [] && TagsOfFilters([]) == [];
    tags := [];
    for i := 0 to |filters|
      invariant tags == FilterTags(filters[..i], view, rx)
    {
      assert filters[..i + 1][..i] == filters[..i];
      var m := MatchingFilters(filters[..i], view, rx);
      assert TagsOfFilters(m + [filters[i]]) == TagsOfFilters(m) + [filters[i].tag];
      DedupSnoc(TagsOfFilters(m), filters[i].tag);
      if Matches(filters[i].filter, view, rx) && filters[i].tag !in tags {
        tags := tags + [filters[i].tag];
      }
    }
    assert filters[..|filters|] == filters;
  }

  function ClassificationTags(c: Classification): seq<string> {
    ["cat/" + c.category]
    + (if c.needsReply then ["needs-reply"] else [])
    + (if c.priority >= 4 then ["priority-high"] else [])
  }

  /** `tags`, then each new tag of `more` once. */
  function Merged(tags: seq<string>, more: seq<string>): seq<string> {
    tags + Select(Dedup(more), NotAmong(tags))
  }

  method MergeLlmTags(tags: seq<string>, llmTags: seq<string>) returns (merged: seq<string>)
    ensures merged == Merged(tags, llmTags)
  {
    hide Dedup, Select;
    DedupOfDistinct<string>([]);
    SelectNone([], NotAmong(tags));
    merged := tags;
    for i := 0 to |llmTags|
      invariant merged == Merged(tags, llmTags[..i])
    {
      assert llmTags[..i + 1] == llmTags[..i] + [llmTags[i]];
      DedupSnoc(llmTags[..i], llmTags[i]);
      SelectSnoc(Dedup(llmTags[..i]), llmTags[i], NotAmong(tags));
      SelectMembers(Dedup(llmTags[..i]), NotAmong(tags));
      if llmTags[i] !in merged {
        merged := merged + [llmTags[i]];
      }
    }
    assert llmTags[..|llmTags|] == llmTags;
  }

  lemma TagsAreDistinct(filters: seq<CompiledFilter>, view: View, rx: Regex, more: seq<string>)
    ensures Distinct(FilterTags(filters, view, rx))
    ensures Distinct(Merged(FilterTags(filters, view, rx), more))
  {
    var tags := FilterTags(filters, view, rx);
    DedupMembers(TagsOfFilters(MatchingFilters(filters, view, rx)));
    DedupMembers(more);
    SelectMembers(Dedup(more), NotAmong(tags));
    DistinctConcat(tags, Select(Dedup(more), NotAmong(tags)));
  }

  lemma DistinctConcat(a: seq<string>, b: seq<string>)
    requires Distinct(a) && Distinct(b) && forall x :: x in b ==> x !in a
    ensures Distinct(a + b)
  {
    forall i, j | 0 <= i < j < |a + b| ensures (a + b)[i] != (a + b)[j] {
      if i < |a| <= j {
        assert (a + b)[j] == b[j - |a|] && b[j - |a|] in b;
      }
    }
  }

  // ----- Actions and webhooks of the tags -----

  function PrimitivesOf(a: TagActions): seq<Action> {
    (if a.copyTo.Some? then [CopyTo(a.copyTo.value)] else [])
    + (if a.moveTo.Some? then [MoveTo(a.moveTo.value)] else [])
    + (if a.markSeen then [MarkSeen] else [])
    + (if a.markFlagged then [MarkFlagged] else [])
  }

  function ActionsOfTag(actions: map<string, TagActions>, tag: string): seq<Action> {
    if tag in actions then PrimitivesOf(actions[tag]) else []
  }

  function Resolved(tags: seq<string>, actions: map<string, TagActions>): seq<Action> {
    if tags == [] then []
    else Resolved(tags[..|tags| - 1], actions) + ActionsOfTag(actions, tags[|tags| - 1])
  }

  method ResolveActions(tags: seq<string>, actions: map<string, TagActions>) returns (resolved: seq<Action>)
    ensures resolved == Resolved(tags, actions)
  {
    hide PrimitivesOf;
    resolved := [];
    for i := 0 to |tags|
      invariant resolved == Resolved(tags[..i], actions)
    {
      assert tags[..i + 1][..i] == tags[..i];
      if tags[i] in actions {
        resolved := PushActions(resolved, actions[tags[i]]);
      }
    }
    assert tags[..|tags|] == tags;
  }

  /** One pass of the loop: the tag's primitives, in the order they are tried. */
  method PushActions(resolved: seq<Action>, a: TagActions) returns (more: seq<Action>)
    ensures more == resolved + PrimitivesOf(a)
  {
    var pushed: seq<Action> := [];
    if a.copyTo.Some? { pushed := pushed + [CopyTo(a.copyTo.value)]; }
    if a.moveTo.Some? { pushed := pushed + [MoveTo(a.moveTo.value)]; }
    if a.markSeen { pushed := pushed + [MarkSeen]; }
    if a.markFlagged { pushed := pushed + [MarkFlagged]; }
    more := resolved + pushed;
  }

  function HookOfTag(actions: map<string, TagActions>, tag: string): seq<string> {
    if tag in actions && actions[tag].webhook.Some? then [actions[tag].webhook.value] else []
  }

  function HooksOfTags(tags: seq<string>, actions: map<string, TagActions>): seq<string> {
    if tags == [] then []
    else HooksOfTags(tags[..|tags| - 1], actions) + HookOfTag(actions, tags[|tags| - 1])
  }

  // ----- The world a message is processed in -----

  datatype Delivery = Delivery(mid: string, hook: string)

  datatype World = World(
    tick: nat,
    db: Db,
    mail: Imap,
    llmCalls: multiset<string>,   // the Message-IDs the model was called for
    deliveries: seq<Delivery>)    // the webhook deliveries begun

  datatype Outcome =
    | AlreadyProcessed
    | Processed(tags: seq<string>, actionsApplied: nat, webhooksEmitted: nat)
    | Failed(failure: Failure)

  // ----- Up to the first side effect: ledger, download, filters, classifier -----

  datatype Status = Known | Broken | Ready(tags: seq<string>, decision: Option<DecisionRow>)

  datatype Preparation = Preparation(w: World, status: Status)

  /** The first `{` to the last `}`, so that JSON wrapped in prose still parses. */
  function ExtractJson(text: string): string {
    var start, end := IndexOf(text, '{'), LastIndexOf(text, '}');
    if start <= end then text[start..end + 1] else text
  }

  /** What the model's reply amounts to; nothing for a failed call or unusable output. */
  function Classified(llm: Llm, completion: Option<string>): Option<Classification> {
    if completion.None? then None else llm.decode(ExtractJson(completion.value))
  }

  function Classifying(llm: Llm, env: Envelope, native: seq<string>, w: World, o: Oracle): Preparation {
    var hash := llm.promptHash(env);
    var cached := Cached(w.db.decisions, env.mid, hash);
    var w1 := w.(tick := w.tick + 1);
    if o(w.tick).fault != Fine then Preparation(w1, Broken)
    else if cached.Some? && llm.decode(cached.value).Some? then
      Preparation(w1, Ready(Merged(native, ClassificationTags(llm.decode(cached.value).value)), None))
    else CallingModel(llm, env, native, w1, o)
  }

  /** A failed call or unusable output becomes a tag; a usable one also becomes a decision. */
  function CallingModel(llm: Llm, env: Envelope, native: seq<string>, w: World, o: Oracle): Preparation {
    var completion := o(w.tick).completion;
    var w1 := w.(tick := w.tick + 1, llmCalls := w.llmCalls + multiset{env.mid});
    match Classified(llm, completion)
    case None => Preparation(w1, Ready(Merged(native, [LLM_ERROR_TAG]), None))
    case Some(c) =>
      var json := if completion.Some? then ExtractJson(completion.value) else "";
      Preparation(w1, Ready(Merged(native, ClassificationTags(c)), Some(DecisionRow(env.mid, llm.promptHash(env), json))))
  }

  function Preparing(s: Settings, env: Envelope, w: World, o: Oracle): Preparation {
    var w1 := w.(tick := w.tick + 1);
    if o(w.tick).fault != Fine then Preparation(w1, Broken)
    else if env.mid in Ledger(w.db) then Preparation(w1, Known)
    else if o(w1.tick).fault != Fine then Preparation(w1.(tick := w1.tick + 1), Broken)
    else
      var w2 := w1.(tick := w1.tick + 1);
      var native := FilterTags(s.filters, s.view(env), s.rx);
      if s.llm.None? then Preparation(w2, Ready(native, None))
      else Classifying(s.llm.value, env, native, w2, o)
  }

  // ----- The rows recorded once the actions have run -----

  function MatchRows(filters: seq<CompiledFilter>, mid: string): seq<MatchRow> {
    seq(|filters|, i requires 0 <= i < |filters| => MatchRow(mid, filters[i].kind, filters[i].tag))
  }

  function TagRows(tags: seq<string>, mid: string): seq<TagRow> {
    seq(|tags|, i requires 0 <= i < |tags| => TagRow(mid, tags[i]))
  }

  function ActionRowOf(action: Action, mid: string): ActionRow {
    match action
    case CopyTo(folder) => ActionRow(mid, "copy_to", Some(folder))
    case MoveTo(folder) => ActionRow(mid, "move_to", Some(folder))
    case MarkSeen => ActionRow(mid, "mark_seen", None)
    case MarkFlagged => ActionRow(mid, "mark_flagged", None)
  }

  function ActionRows(actions: seq<Action>, mid: string): seq<ActionRow> {
    seq(|actions|, i requires 0 <= i < |actions| => ActionRowOf(actions[i], mid))
  }

  function LedgerRow(s: Settings, env: Envelope, account: nat): MessageRow {
    MessageRow(env.mid, account, env.subject, env.from, env.date, s.configHash)
  }

  /** The filters that fired, and the classifier when one is configured. */
  function FiredRows(s: Settings, env: Envelope): seq<MatchRow> {
    MatchRows(MatchingFilters(s.filters, s.view(env), s.rx), env.mid)
    + (if s.llm.Some? then [MatchRow(env.mid, "llm", "llm")] else [])
  }

  function DecisionPart(decision: Option<DecisionRow>): seq<Row> {
    if decision.Some? then [Decision(decision.value)] else []
  }

  function Rows(s: Settings, env: Envelope, account: nat, decision: Option<DecisionRow>,
                tags: seq<string>, executed: seq<Action>): seq<Row> {
    [Message(LedgerRow(s, env, account))] + DecisionPart(decision)
    + MatchedAll(FiredRows(s, env)) + TaggedAll(TagRows(tags, env.mid)) + ExecutedAll(ActionRows(executed, env.mid))
  }

  function MatchedAll(rows: seq<MatchRow>): seq<Row> {
    seq(|rows|, i requires 0 <= i < |rows| => Matched(rows[i]))
  }

  function TaggedAll(rows: seq<TagRow>): seq<Row> {
    seq(|rows|, i requires 0 <= i < |rows| => Tag(rows[i]))
  }

  function ExecutedAll(rows: seq<ActionRow>): seq<Row> {
    seq(|rows|, i requires 0 <= i < |rows| => Executed(rows[i]))
  }

  // ----- Webhooks -----

  /** `failures` are those of the audit inserts, which the source logs and passes over. */
  datatype Emitting = Emitting(w: World, emitted: nat, failures: seq<Failure>)

  /** One referenced webhook: skipped when unknown, filtered out or not rendering; else
      delivered, and counted when its audit row is stored. */
  function EmitOne(s: Settings, mid: string, tags: seq<string>, name: string, e: Emitting, o: Oracle): Emitting {
    if name !in s.hooks || !s.hooks[name].FiresFor(tags) then e
    else
      var w1 := e.w.(tick := e.w.tick + 1);
      if !o(e.w.tick).renders then e.(w := w1)
      else
        var report := Delivered(s.hooks[name], o, w1.tick);
        var w2 := w1.(tick := w1.tick + report.attempts, deliveries := w1.deliveries + [Delivery(mid, name)]);
        var row := Emission(EmissionRow(mid, s.hooks[name].name, report.httpStatus, report.attempts, report.succeeded));
        var saved := Saving(w2.db, row, w2.tick, o);
        var w3 := w2.(tick := saved.tick, db := saved.db);
        match saved.failure
        case None => Emitting(w3, e.emitted + 1, e.failures)
        case Some(failure) => Emitting(w3, e.emitted, e.failures + [failure])
  }

  function EmitAll(s: Settings, mid: string, tags: seq<string>, names: seq<string>, w: World, o: Oracle): Emitting {
    if names == [] then Emitting(w, 0, [])
    else EmitOne(s, mid, tags, names[|names| - 1], EmitAll(s, mid, tags, names[..|names| - 1], w, o), o)
  }

  function HookNames(s: Settings, tags: seq<string>): seq<string> { Dedup(HooksOfTags(tags, s.actions)) }

  // ----- The whole of one message -----

  /** What happened to a message the pipeline was handed. */
  datatype Attempt = Attempt(
    env: Envelope,
    outcome: Outcome,
    tags: seq<string>,
    plan: seq<Action>,    // the consolidated actions of the tags
    ran: nat,             // how many of them completed
    recorded: bool,       // whether the ledger row was stored
    unaudited: seq<Failure>)  // the failures of webhook audit inserts

  datatype Processing = Processing(w: World, attempt: Attempt)

  function Process(s: Settings, env: Envelope, account: nat, w: World, o: Oracle): Processing {
    var prep := Preparing(s, env, w, o);
    match prep.status
    case Known => Processing(prep.w, Attempt(env, AlreadyProcessed, [], [], 0, false, []))
    case Broken => Processing(prep.w, Attempt(env, Failed(Io), [], [], 0, false, []))
    case Ready(tags, decision) => Finish(s, env, account, tags, decision, prep.w, o)
  }

  function Finish(s: Settings, env: Envelope, account: nat, tags: seq<string>, decision: Option<DecisionRow>,
                  w: World, o: Oracle): Processing {
    var plan := Consolidate(Resolved(tags, s.actions));
    var run := Run(plan, env.uid, w.mail, w.tick, o);
    var w1 := w.(mail := run.at.box, tick := run.at.tick);
    if run.at.failure.Some? then
      Processing(w1, Attempt(env, Failed(run.at.failure.value), tags, plan, run.done, false, []))
    else
      Record(s, env, account, tags, decision, plan, w1, o)
  }

  function Record(s: Settings, env: Envelope, account: nat, tags: seq<string>, decision: Option<DecisionRow>,
                  plan: seq<Action>, w: World, o: Oracle): Processing {
    var rec := SaveAll(Rows(s, env, account, decision, tags, plan), w.db, w.tick, o);
    var w1 := w.(db := rec.at.db, tick := rec.at.tick);
    if rec.at.failure.Some? then
      Processing(w1, Attempt(env, Failed(rec.at.failure.value), tags, plan, |plan|, rec.done > 0, []))
    else
      var e := EmitAll(s, env.mid, tags, HookNames(s, tags), w1, o);
      Processing(e.w, Attempt(env, Processed(tags, |plan|, e.emitted), tags, plan, |plan|, true, e.failures))
  }

  // ----- The pipeline itself -----

  class Triage {
    const settings: Settings
    const net: Network
    const store: Store
    var llmCalls: multiset<string>
    var deliveries: seq<Delivery>

    constructor (settings: Settings, store: Store)
      ensures this.settings == settings && this.store == store && net == store.net
      ensures llmCalls == multiset{} && deliveries == []
    {
      this.settings := settings;
      this.net := store.net;
      this.store := store;
      llmCalls, deliveries := multiset{}, [];
    }

    predicate Wired(target: ImapServer) { store.net == net && target.net == net }

    ghost function Here(target: ImapServer): World
      reads this, store, target, net
    {
      World(net.tick, store.State(), target.State(), llmCalls, deliveries)
    }

    method Classify(llm: Llm, env: Envelope, native: seq<string>, target: ImapServer)
      returns (ok: bool, tags: seq<string>, decision: Option<DecisionRow>)
      requires Wired(target)
      modifies this, net
      ensures Preparation(Here(target), if ok then Ready(tags, decision) else Broken)
           == Classifying(llm, env, native, old(Here(target)), net.oracle)
    {
      hide Merged, ClassificationTags, CallingModel, Cached, Ledger;
      ok, tags, decision := true, [], None;
      var hash := llm.promptHash(env);
      var cached := store.FindCached(env.mid, hash);
      if cached.Err? { ok := false; return; }
      if cached.value.Some? {
        var c := llm.decode(cached.value.value);
        if c.Some? {
          tags := MergeLlmTags(native, ClassificationTags(c.value));
          return;
        }
      }
      tags, decision := CallModel(llm, env, native, hash, target);
    }

    /** The model call of `Classify`, made on a cache miss. */
    method CallModel(llm: Llm, env: Envelope, native: seq<string>, hash: string, target: ImapServer)
      returns (tags: seq<string>, decision: Option<DecisionRow>)
      requires Wired(target) && hash == llm.promptHash(env)
      modifies this, net
      ensures Preparation(Here(target), Ready(tags, decision))
           == CallingModel(llm, env, native, old(Here(target)), net.oracle)
    {
      hide Merged, ClassificationTags, ExtractJson;
      decision := None;
      var a := net.Call();
      llmCalls := llmCalls + multiset{env.mid};
      if a.completion.None? {
        tags := MergeLlmTags(native, [LLM_ERROR_TAG]);
        return;
      }
      var json := ExtractJson(a.completion.value);
      var c := llm.decode(json);
      if c.None? {
        tags := MergeLlmTags(native, [LLM_ERROR_TAG]);
        return;
      }
      tags := MergeLlmTags(native, ClassificationTags(c.value));
      decision := Some(DecisionRow(env.mid, hash, json));
    }

    method EmitWebhooks(env: Envelope, tags: seq<string>, target: ImapServer)
      returns (emitted: nat, ghost failures: seq<Failure>)
      requires Wired(target)
      modifies this, store, net
      ensures Emitting(Here(target), emitted, failures)
           == EmitAll(settings, env.mid, tags, HookNames(settings, tags), old(Here(target)), net.oracle)
    {
      var names := CollectHookNames(tags);
      ghost var w := Here(target);
      emitted, failures := 0, [];
      for i := 0 to |names|
        invariant Emitting(Here(target), emitted, failures) == EmitAll(settings, env.mid, tags, names[..i], w, net.oracle)
      {
        assert names[..i + 1][..i] == names[..i];
        emitted, failures := EmitHook(env.mid, tags, names[i], emitted, failures, target);
      }
      assert names[..|names|] == names;
    }

    /** The distinct webhook names the tags refer to, in tag order. */
    method CollectHookNames(tags: seq<string>) returns (names: seq<string>)
      ensures names == HookNames(settings, tags)
    {
      hide Dedup;
      DedupOfDistinct<string>([]);
      names := [];
      for i := 0 to |tags|
        invariant names == HookNames(settings, tags[..i])
      {
        assert tags[..i + 1][..i] == tags[..i];
        var before := HooksOfTags(tags[..i], settings.actions);
        assert before + [] == before;
        if tags[i] in settings.actions && settings.actions[tags[i]].webhook.Some? {
          var name := settings.actions[tags[i]].webhook.value;
          DedupSnoc(before, name);
          if name !in names { names := names + [name]; }
        }
      }
      assert tags[..|tags|] == tags;
    }

    /** One pass of the emission loop. */
    method EmitHook(mid: string, tags: seq<string>, name: string, emitted: nat, ghost failures: seq<Failure>, target: ImapServer)
      returns (after: nat, ghost failed: seq<Failure>)
      requires Wired(target)
      modifies this, store, net
      ensures Emitting(Here(target), after, failed)
           == EmitOne(settings, mid, tags, name, Emitting(old(Here(target)), emitted, failures), net.oracle)
    {
      hide Delivered, Saving;
      after, failed := emitted, failures;
      if name !in settings.hooks || !settings.hooks[name].FiresFor(tags) { return; }
      var rendered := net.Call();
      if !rendered.renders { return; }
      var report, slept := Deliver(net, settings.hooks[name]);
      deliveries := deliveries + [Delivery(mid, name)];
      var failure := store.Record(
        Emission(EmissionRow(mid, settings.hooks[name].name, report.httpStatus, report.attempts, report.succeeded)));
      if failure.None? { after := emitted + 1; } else { failed := failures + [failure.value]; }
    }

    // ----- Recording -----

    /** The first `k` rows have been recorded since tables `db` and tick `t`. */
    ghost predicate Noted(rows: seq<Row>, k: nat, db: Db, t: nat)
      reads this, store, net
    {
      k <= |rows| && SaveAll(rows[..k], db, t, net.oracle) == Recording(Saved(store.State(), net.tick, None), k)
    }

    /** Recording the rows ends here, with a failure. */
    ghost predicate Stopped(rows: seq<Row>, db: Db, t: nat, k: nat, failure: Failure)
      reads this, store, net
    {
      SaveAll(rows, db, t, net.oracle) == Recording(Saved(store.State(), net.tick, Some(failure)), k)
    }

    method Note(row: Row, ghost rows: seq<Row>, ghost k: nat, ghost db: Db, ghost t: nat) returns (failure: Option<Failure>)
      requires store.net == net
      requires Noted(rows, k, db, t) && k < |rows| && rows[k] == row
      modifies store, net
      ensures failure.None? ==> Noted(rows, k + 1, db, t)
      ensures failure.Some? ==> Stopped(rows, db, t, k, failure.value)
    {
      ghost var o := net.oracle;
      failure := store.Record(row);
      assert rows[..k + 1] == rows[..k] + [row];
      SaveAllSnoc(rows[..k], row, db, t, o);
      if failure.Some? {
        SaveAllStops(rows[..k + 1], rows[k + 1..], db, t, o);
        assert rows[..k + 1] + rows[k + 1..] == rows;
      }
    }

    /** The loops of `Process` over tags and actions, one row an element. */
    method NoteAll(part: seq<Row>, ghost rows: seq<Row>, ghost k: nat, ghost db: Db, ghost t: nat)
      returns (failure: Option<Failure>, ghost at: nat)
      requires store.net == net
      requires Noted(rows, k, db, t) && k + |part| <= |rows| && rows[k..k + |part|] == part
      modifies store, net
      ensures failure.None? ==> Noted(rows, k + |part|, db, t)
      ensures failure.Some? ==> k <= at && Stopped(rows, db, t, at, failure.value)
    {
      hide SaveAll;
      at := k;
      for i := 0 to |part|
        invariant Noted(rows, k + i, db, t)
      {
        assert rows[k + i] == rows[k..k + |part|][i];
        at := k + i;
        failure := Note(part[i], rows, k + i, db, t);
        if failure.Some? { return; }
      }
      failure := None;
    }

    method MatchesToRecord(env: Envelope) returns (fired: seq<MatchRow>)
      ensures fired == FiredRows(settings, env)
    {
      hide Matches;
      var filters, view := settings.filters, settings.view(env);
      fired := [];
      for i := 0 to |filters|
        invariant fired == MatchRows(MatchingFilters(filters[..i], view, settings.rx), env.mid)
      {
        assert filters[..i + 1][..i] == filters[..i];
        if Matches(filters[i].filter, view, settings.rx) {
          fired := fired + [MatchRow(env.mid, filters[i].kind, filters[i].tag)];
        }
      }
      assert filters[..|filters|] == filters;
      if settings.llm.Some? {
        fired := fired + [MatchRow(env.mid, "llm", "llm")];
      }
    }

    method ProcessMessage(env: Envelope, account: nat, target: ImapServer) returns (outcome: Outcome)
      requires Wired(target)
      modifies this, store, target, net
      ensures var p := Process(settings, env, account, old(Here(target)), net.oracle);
              Here(target) == p.w && outcome == p.attempt.outcome
    {
      hide Finish, FilterTags, Classifying;
      var known := store.IsAlreadyProcessed(env.mid);
      if known.Err? { return Failed(Io); }
      if known.value { return AlreadyProcessed; }
      var eml := net.Call();
      if eml.fault != Fine { return Failed(Io); }
      var tags := RunFilters(settings.filters, settings.view(env), settings.rx);
      var decision: Option<DecisionRow> := None;
      if settings.llm.Some? {
        var ok;
        ok, tags, decision := Classify(settings.llm.value, env, tags, target);
        if !ok { return Failed(Io); }
      }
      assert Preparing(settings, env, old(Here(target)), net.oracle)
          == Preparation(Here(target), Ready(tags, decision));
      outcome := FinishMessage(env, account, tags, decision, target);
    }

    /** The second half of `ProcessMessage`: actions, rows, webhooks. */
    method FinishMessage(env: Envelope, account: nat, tags: seq<string>, decision: Option<DecisionRow>, target: ImapServer)
      returns (outcome: Outcome)
      requires Wired(target)
      modifies this, store, target, net
      ensures var p := Finish(settings, env, account, tags, decision, old(Here(target)), net.oracle);
              Here(target) == p.w && outcome == p.attempt.outcome
    {
      hide Consolidate, Run, SaveAll, EmitAll, Rows, HookNames;
      var actions := ResolveActions(tags, settings.actions);
      var applied := ApplyActions(target, env.uid, actions);
      if applied.Err? { return Failed(applied.failure); }
      var failure := RecordMessage(env, account, tags, decision, applied.value);
      if failure.Some? { return Failed(failure.value); }
      var emitted, failures := EmitWebhooks(env, tags, target);
      outcome := Processed(tags, |applied.value|, emitted);
    }

    method RecordMessage(env: Envelope, account: nat, tags: seq<string>, decision: Option<DecisionRow>, executed: seq<Action>)
      returns (failure: Option<Failure>)
      requires store.net == net
      modifies store, net
      ensures SaveAll(Rows(settings, env, account, decision, tags, executed), old(store.State()), old(net.tick), net.oracle).at
           == Saved(store.State(), net.tick, failure)
    {
      hide SaveAll, MatchedAll, TaggedAll, ExecutedAll, TagRows, ActionRows, LedgerRow, FiredRows;
      ghost var db, t := store.State(), net.tick;
      SaveNone(db, t, net.oracle);
      ghost var rows := Rows(settings, env, account, decision, tags, executed);
      var head := [Message(LedgerRow(settings, env, account))] + DecisionPart(decision);
      var fired := MatchesToRecord(env);
      var audit := MatchedAll(fired) + TaggedAll(TagRows(tags, env.mid)) + ExecutedAll(ActionRows(executed, env.mid));
      assert rows == head + audit;
      assert rows[..0] == [];
      ghost var at;
      failure, at := NoteAll(head, rows, 0, db, t);
      if failure.Some? { return; }
      failure, at := NoteAll(audit, rows, |head|, db, t);
      if failure.None? { assert rows[..|rows|] == rows; }
    }
  }
}
