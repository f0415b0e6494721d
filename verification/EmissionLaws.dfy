/** Exactly what webhook emission delivers and audits, under any render, delivery and
    storage failures. */
module EmissionLaws {
  import opened Seqs
  import opened Calls
  import opened Sidecar
  import opened Webhooks
  import opened Pipeline

  predicate Wanted(s: Settings, tags: seq<string>, name: string) {
    name in s.hooks && s.hooks[name].FiresFor(tags)
  }

  // ----- The deliveries, read off the oracle -----

  /** One delivery: its name and webhook, its report, and the call that inserts its audit row. */
  datatype Shot = Shot(name: string, hook: Hook, report: Report, insert: nat)

  datatype Course = Course(tick: nat, shots: seq<Shot>)

  /** The deliveries of a list of names, from tick `t` on, and the tick after them. */
  function Shooting(s: Settings, tags: seq<string>, names: seq<string>, t: nat, o: Oracle): Course {
    if names == [] then Course(t, [])
    else
      var front, name := Shooting(s, tags, names[..|names| - 1], t, o), names[|names| - 1];
      if !Wanted(s, tags, name) then front
      else if !o(front.tick).renders then front.(tick := front.tick + 1)
      else
        var shot := ShotAt(name, s.hooks[name], front.tick, o);
        Course(shot.insert + 1, front.shots + [shot])
  }

  function ShotAt(name: string, hook: Hook, renderCall: nat, o: Oracle): Shot {
    var report := Delivered(hook, o, renderCall + 1);
    Shot(name, hook, report, renderCall + 1 + report.attempts)
  }

  /** The call that renders the body for the i-th name. */
  function RenderCall(s: Settings, tags: seq<string>, names: seq<string>, i: nat, t: nat, o: Oracle): nat
    requires i <= |names|
  {
    Shooting(s, tags, names[..i], t, o).tick
  }

  /** The i-th name is delivered: configured, passing its `when`, and its body renders. */
  predicate Fires(s: Settings, tags: seq<string>, names: seq<string>, i: nat, t: nat, o: Oracle)
    requires i < |names|
  {
    Wanted(s, tags, names[i]) && o(RenderCall(s, tags, names, i, t, o)).renders
  }

  /** `shot` is the delivery of the i-th name. */
  predicate ShotOf(s: Settings, tags: seq<string>, names: seq<string>, i: nat, t: nat, o: Oracle, shot: Shot)
    requires i < |names|
  {
    && Fires(s, tags, names, i, t, o)
    && shot == ShotAt(names[i], s.hooks[names[i]], RenderCall(s, tags, names, i, t, o), o)
  }

  /** The indices of the names that are delivered. */
  function Firing(s: Settings, tags: seq<string>, names: seq<string>, t: nat, o: Oracle): (r: seq<nat>)
    ensures forall k :: 0 <= k < |r| ==> r[k] < |names|
  {
    if names == [] then []
    else
      var last := |names| - 1;
      Firing(s, tags, names[..last], t, o) + (if Fires(s, tags, names, last, t, o) then [last] else [])
  }

  /** The deliveries are, in name order, exactly those of the names that fire. */
  lemma {:induction false} ShotsAreTheFiring(s: Settings, tags: seq<string>, names: seq<string>, t: nat, o: Oracle)
    ensures var shots := Shooting(s, tags, names, t, o).shots;
      var firing := Firing(s, tags, names, t, o);
      && |shots| == |firing|
      && (forall k :: 0 <= k < |shots| ==> ShotOf(s, tags, names, firing[k], t, o, shots[k]))
      && (forall j, k :: 0 <= j < k < |firing| ==> firing[j] < firing[k])
      && (forall i :: 0 <= i < |names| && Fires(s, tags, names, i, t, o) ==> i in firing)
  {
    if names != [] {
      hide Delivered, Wanted;
      var front := names[..|names| - 1];
      ShotsAreTheFiring(s, tags, front, t, o);
      forall i | 0 <= i < |front| ensures RenderCall(s, tags, front, i, t, o) == RenderCall(s, tags, names, i, t, o) {
        assert front[..i] == names[..i];
      }
    }
  }

  // ----- Emission -----

  function AuditStored(o: Oracle): Shot -> bool { (x: Shot) => o(x.insert).fault == Fine }

  function DeliveriesOf(mid: string, shots: seq<Shot>): seq<Delivery> {
    seq(|shots|, i requires 0 <= i < |shots| => Delivery(mid, shots[i].name))
  }

  function RowOf(mid: string, x: Shot): EmissionRow {
    EmissionRow(mid, x.hook.name, x.report.httpStatus, x.report.attempts, x.report.succeeded)
  }

  function RowsOf(mid: string, shots: seq<Shot>): seq<EmissionRow> {
    seq(|shots|, i requires 0 <= i < |shots| => RowOf(mid, shots[i]))
  }

  /** The state after the deliveries `shots`, up to tick `t`. */
  function After(mid: string, w: World, shots: seq<Shot>, t: nat, o: Oracle): World {
    w.(tick := t,
       deliveries := w.deliveries + DeliveriesOf(mid, shots),
       db := w.db.(emissions := w.db.emissions + RowsOf(mid, Select(shots, AuditStored(o)))))
  }

  /** Emission delivers exactly the names that fire, in order; its new audit rows are, in
      order, the reports of the deliveries whose insert went well; it returns their number;
      and every insert that fails does so from outside. Nothing else changes. */
  lemma {:induction false} EmissionIsExact(s: Settings, mid: string, tags: seq<string>, names: seq<string>, w: World, o: Oracle)
    requires mid in Ledger(w.db)
    ensures var e := EmitAll(s, mid, tags, names, w, o);
      var c := Shooting(s, tags, names, w.tick, o);
      var stored := |Select(c.shots, AuditStored(o))|;
      && e.w == After(mid, w, c.shots, c.tick, o)
      && e.emitted == stored && |e.failures| == |c.shots| - stored
      && (forall f :: f in e.failures ==> f == Io)
  {
    hide Delivered, Ledger, Select;
    if names == [] {
      NothingEmitted(mid, w, o);
    } else {
      var front, name := names[..|names| - 1], names[|names| - 1];
      EmissionIsExact(s, mid, tags, front, w, o);
      var c := Shooting(s, tags, front, w.tick, o);
      if Wanted(s, tags, name) && o(c.tick).renders {
        var shot := ShotAt(name, s.hooks[name], c.tick, o);
        SelectSnoc(c.shots, shot, AuditStored(o));
        OneMoreDelivery(mid, c.shots, shot);
        OneMoreRow(mid, Select(c.shots, AuditStored(o)), shot);
        SameLedger(w.db, EmitAll(s, mid, tags, front, w, o).w.db);
      }
    }
  }

  lemma NothingEmitted(mid: string, w: World, o: Oracle)
    ensures Select([], AuditStored(o)) == [] && After(mid, w, [], w.tick, o) == w
  {
    assert w.deliveries + [] == w.deliveries && w.db.emissions + [] == w.db.emissions;
  }

  lemma OneMoreDelivery(mid: string, shots: seq<Shot>, x: Shot)
    ensures DeliveriesOf(mid, shots + [x]) == DeliveriesOf(mid, shots) + [Delivery(mid, x.name)]
  {
  }

  lemma OneMoreRow(mid: string, shots: seq<Shot>, x: Shot)
    ensures RowsOf(mid, shots + [x]) == RowsOf(mid, shots) + [RowOf(mid, x)]
  {
  }

  lemma SameLedger(a: Db, b: Db)
    requires a.messages == b.messages
    ensures Ledger(a) == Ledger(b)
  {
  }

  /** The number returned is the number of webhooks POSTed to if and only if no audit insert fails. */
  lemma CountIsOfDeliveries(s: Settings, mid: string, tags: seq<string>, names: seq<string>, w: World, o: Oracle)
    requires mid in Ledger(w.db)
    ensures var e := EmitAll(s, mid, tags, names, w, o);
      e.emitted == |e.w.deliveries| - |w.deliveries|
      <==> forall x :: x in Shooting(s, tags, names, w.tick, o).shots ==> o(x.insert).fault == Fine
  {
    hide Ledger, Shooting, EmitAll;
    EmissionIsExact(s, mid, tags, names, w, o);
    SelectKeepsAll(Shooting(s, tags, names, w.tick, o).shots, AuditStored(o));
  }

  lemma {:induction false} SelectKeepsAll(shots: seq<Shot>, keep: Shot -> bool)
    ensures |Select(shots, keep)| == |shots| <==> forall x :: x in shots ==> keep(x)
  {
    if shots != [] {
      var front := shots[..|shots| - 1];
      SelectKeepsAll(front, keep);
      SelectMembers(front, keep);
      assert shots == front + [shots[|shots| - 1]];
    }
  }

  /** One delivery whose audit insert is refused: POSTed to, and not counted. */
  lemma ADeliveryCanGoUncounted(s: Settings, mid: string, tags: seq<string>, name: string, w: World, o: Oracle)
    requires mid in Ledger(w.db) && Wanted(s, tags, name)
    requires o(w.tick).renders && o(w.tick + 1).post.Success? && o(w.tick + 2).fault == Refused
    ensures var e := EmitAll(s, mid, tags, [name], w, o);
      e.w.deliveries == w.deliveries + [Delivery(mid, name)] && e.emitted == 0
  {
    hide Ledger;
    assert [name][..0] == [];
    assert Delivered(s.hooks[name], o, w.tick + 1).attempts == 1;
  }

  // ----- What follows for the rest of the pipeline -----

  /** What emission may change: webhook audit rows, deliveries of this message, time. */
  ghost predicate Emitted(s: Settings, mid: string, tags: seq<string>, names: seq<string>, w: World, e: Emitting) {
    && e.w.db == w.db.(emissions := e.w.db.emissions)
    && w.db.emissions <= e.w.db.emissions && |e.w.db.emissions| == |w.db.emissions| + e.emitted
    && e.w.mail == w.mail && e.w.llmCalls == w.llmCalls && e.w.tick >= w.tick
    && w.deliveries <= e.w.deliveries
    && Distinct(e.w.deliveries[|w.deliveries|..])
    && (forall d :: d in e.w.deliveries[|w.deliveries|..] ==> d.mid == mid && d.hook in names && Wanted(s, tags, d.hook))
    && (forall f :: f in e.failures ==> f == Io)
  }

  lemma EmissionFacts(s: Settings, mid: string, tags: seq<string>, names: seq<string>, w: World, o: Oracle)
    requires Distinct(names) && Sound(w.db) && mid in Ledger(w.db)
    ensures Emitted(s, mid, tags, names, w, EmitAll(s, mid, tags, names, w, o))
    ensures Sound(EmitAll(s, mid, tags, names, w, o).w.db)
  {
    hide EmitAll, Shooting, Firing, Fires, ShotAt, Select, Ledger;
    EmissionIsExact(s, mid, tags, names, w, o);
    ShotsAreTheFiring(s, tags, names, w.tick, o);
    var e := EmitAll(s, mid, tags, names, w, o);
    var c := Shooting(s, tags, names, w.tick, o);
    assert e.w.deliveries[|w.deliveries|..] == DeliveriesOf(mid, c.shots);
    FiringIsWanted(s, tags, names, w.tick, o);
    SameLedger(w.db, e.w.db);
  }

  lemma {:induction false} TimePasses(s: Settings, tags: seq<string>, names: seq<string>, t: nat, o: Oracle)
    ensures Shooting(s, tags, names, t, o).tick >= t
  {
    if names != [] { TimePasses(s, tags, names[..|names| - 1], t, o); }
  }

  lemma FiringIsWanted(s: Settings, tags: seq<string>, names: seq<string>, t: nat, o: Oracle)
    requires Distinct(names)
    ensures var shots := Shooting(s, tags, names, t, o).shots;
      && (forall k :: 0 <= k < |shots| ==> shots[k].name in names && Wanted(s, tags, shots[k].name))
      && (forall j, k :: 0 <= j < k < |shots| ==> shots[j].name != shots[k].name)
    ensures Shooting(s, tags, names, t, o).tick >= t
  {
    hide Shooting, Firing, Wanted, RenderCall;
    ShotsAreTheFiring(s, tags, names, t, o);
    TimePasses(s, tags, names, t, o);
  }
}
