/** The SQLite sidecar: its tables with their keys, and inserts that may fail. */
module Sidecar {
  import opened Seqs
  import opened Calls

  /** An account; its id is its position in the table, counted from 1. */
  datatype Account = Account(name: string, bichonId: string, cursor: Option<int>)

  datatype MessageRow = MessageRow(mid: string, account: nat, subject: string, from: string, date: int, configHash: string)
  datatype DecisionRow = DecisionRow(mid: string, promptHash: string, response: string)
  datatype MatchRow = MatchRow(mid: string, kind: string, name: string)
  datatype TagRow = TagRow(mid: string, tag: string)
  datatype ActionRow = ActionRow(mid: string, kind: string, target: Option<string>)
  datatype EmissionRow = EmissionRow(mid: string, hook: string, status: Option<nat>, attempts: nat, succeeded: bool)

  datatype Row =
    | Message(message: MessageRow)
    | Decision(decision: DecisionRow)
    | Matched(matched: MatchRow)
    | Tag(tag: TagRow)
    | Executed(action: ActionRow)
    | Emission(emission: EmissionRow)

  datatype Db = Db(
    accounts: seq<Account>,
    messages: seq<MessageRow>,
    decisions: seq<DecisionRow>,
    matches: seq<MatchRow>,
    tags: seq<TagRow>,
    actions: seq<ActionRow>,
    emissions: seq<EmissionRow>)

  function Mid(row: Row): string {
    match row
    case Message(r) => r.mid
    case Decision(r) => r.mid
    case Matched(r) => r.mid
    case Tag(r) => r.mid
    case Executed(r) => r.mid
    case Emission(r) => r.mid
  }

  /** The Message-IDs of the idempotency ledger. */
  function Ledger(db: Db): set<string> { set r | r in db.messages :: r.mid }

  /** The primary and foreign keys an insert must respect. */
  predicate Allowed(db: Db, row: Row) {
    match row
    case Message(r) => r.mid !in Ledger(db) && 1 <= r.account <= |db.accounts|
    case Tag(r) => r.mid in Ledger(db) && r !in db.tags
    case _ => Mid(row) in Ledger(db)
  }

  function Add(db: Db, row: Row): Db {
    match row
    case Message(r) => db.(messages := db.messages + [r])
    case Decision(r) => db.(decisions := db.decisions + [r])
    case Matched(r) => db.(matches := db.matches + [r])
    case Tag(r) => db.(tags := db.tags + [r])
    case Executed(r) => db.(actions := db.actions + [r])
    case Emission(r) => db.(emissions := db.emissions + [r])
  }

  datatype Saved = Saved(db: Db, tick: nat, failure: Option<Failure>)

  /** One insert: the statement is atomic, so a failed one leaves the tables alone. */
  function Saving(db: Db, row: Row, t: nat, o: Oracle): Saved {
    if o(t).fault != Fine then Saved(db, t + 1, Some(Io))
    else if !Allowed(db, row) then Saved(db, t + 1, Some(Constraint))
    else Saved(Add(db, row), t + 1, None)
  }

  /** The model's answer already stored for this message and prompt. */
  function Cached(decisions: seq<DecisionRow>, mid: string, promptHash: string): Option<string> {
    if decisions == [] then None
    else if decisions[0].mid == mid && decisions[0].promptHash == promptHash then Some(decisions[0].response)
    else Cached(decisions[1..], mid, promptHash)
  }

  predicate Answers(d: DecisionRow, mid: string, promptHash: string) { d.mid == mid && d.promptHash == promptHash }

  /** The i-th row is the first for this message and prompt. */
  ghost predicate FirstAnswer(decisions: seq<DecisionRow>, i: nat, mid: string, promptHash: string) {
    i < |decisions| && Answers(decisions[i], mid, promptHash)
    && forall j :: 0 <= j < i ==> !Answers(decisions[j], mid, promptHash)
  }

  /** A lookup finds the response of the first row for the message and the prompt, and
      nothing exactly when there is no such row. */
  lemma {:induction false} CachedIsFirst(decisions: seq<DecisionRow>, mid: string, promptHash: string)
    ensures forall i: nat :: FirstAnswer(decisions, i, mid, promptHash) ==>
      Cached(decisions, mid, promptHash) == Some(decisions[i].response)
    ensures Cached(decisions, mid, promptHash).Some? ==> exists i: nat :: FirstAnswer(decisions, i, mid, promptHash)
    ensures Cached(decisions, mid, promptHash).None? <==> forall d :: d in decisions ==> !Answers(d, mid, promptHash)
  {
    if decisions != [] {
      var rest := decisions[1..];
      CachedIsFirst(rest, mid, promptHash);
      assert decisions == [decisions[0]] + rest;
      if Answers(decisions[0], mid, promptHash) {
        assert FirstAnswer(decisions, 0, mid, promptHash);
      } else {
        forall i: nat | FirstAnswer(decisions, i, mid, promptHash) ensures i > 0 && FirstAnswer(rest, i - 1, mid, promptHash) {
          assert forall j :: 0 <= j < i - 1 ==> rest[j] == decisions[j + 1];
        }
        if Cached(rest, mid, promptHash).Some? {
          var i: nat :| FirstAnswer(rest, i, mid, promptHash);
          assert forall j :: 0 < j < i + 1 ==> decisions[j] == rest[j - 1];
          assert FirstAnswer(decisions, i + 1, mid, promptHash);
        }
      }
    }
  }

  /** The position of the account called `name`, or the number of accounts. */
  function AccountAt(accounts: seq<Account>, name: string): (i: nat)
    ensures i <= |accounts|
    ensures i < |accounts| ==> accounts[i].name == name
    ensures forall j :: 0 <= j < i ==> accounts[j].name != name
  {
    if accounts == [] then 0
    else if accounts[0].name == name then 0
    else 1 + AccountAt(accounts[1..], name)
  }

  class Store {
    const net: Network
    var accounts: seq<Account>
    var messages: seq<MessageRow>
    var decisions: seq<DecisionRow>
    var matches: seq<MatchRow>
    var tags: seq<TagRow>
    var actions: seq<ActionRow>
    var emissions: seq<EmissionRow>

    ghost function State(): Db
      reads this
    {
      Db(accounts, messages, decisions, matches, tags, actions, emissions)
    }

    constructor (net: Network)
      ensures this.net == net && State() == Db([], [], [], [], [], [], [])
    {
      this.net := net;
      accounts, messages, decisions, matches, tags, actions, emissions := [], [], [], [], [], [], [];
    }

    method IsAlreadyProcessed(mid: string) returns (r: Result<bool>)
      modifies net
      ensures net.tick == old(net.tick) + 1
      ensures r == if net.oracle(old(net.tick)).fault == Fine then Ok(mid in Ledger(State())) else Err(Io)
    {
      var a := net.Call();
      r := if a.fault == Fine then Ok(exists m :: m in messages && m.mid == mid) else Err(Io);
    }

    method FindCached(mid: string, promptHash: string) returns (r: Result<Option<string>>)
      modifies net
      ensures net.tick == old(net.tick) + 1
      ensures r == if net.oracle(old(net.tick)).fault == Fine then Ok(Cached(decisions, mid, promptHash)) else Err(Io)
    {
      var a := net.Call();
      r := if a.fault == Fine then Ok(Cached(decisions, mid, promptHash)) else Err(Io);
    }

    /** The six `record` statements, one for each table. */
    method Record(row: Row) returns (failure: Option<Failure>)
      modifies net, this
      ensures Saved(State(), net.tick, failure) == Saving(old(State()), row, old(net.tick), net.oracle)
    {
      var a := net.Call();
      if a.fault != Fine { return Some(Io); }
      var known := exists m :: m in messages && m.mid == Mid(row);
      match row {
        case Message(r) =>
          if known || r.account < 1 || r.account > |accounts| { return Some(Constraint); }
          messages := messages + [r];
        case Decision(r) =>
          if !known { return Some(Constraint); }
          decisions := decisions + [r];
        case Matched(r) =>
          if !known { return Some(Constraint); }
          matches := matches + [r];
        case Tag(r) =>
          if !known || r in tags { return Some(Constraint); }
          tags := tags + [r];
        case Executed(r) =>
          if !known { return Some(Constraint); }
          actions := actions + [r];
        case Emission(r) =>
          if !known { return Some(Constraint); }
          emissions := emissions + [r];
      }
      failure := None;
    }

    method FindByName(name: string) returns (r: Result<Option<nat>>)
      modifies net
      ensures net.tick == old(net.tick) + 1
      ensures var i := AccountAt(accounts, name);
        r == if net.oracle(old(net.tick)).fault == Fine then Ok(if i < |accounts| then Some(i + 1) else None) else Err(Io)
    {
      var a := net.Call();
      var i := AccountAt(accounts, name);
      r := if a.fault == Fine then Ok(if i < |accounts| then Some(i + 1) else None) else Err(Io);
    }

    method InsertAccount(name: string, bichonId: string) returns (r: Result<nat>)
      requires AccountAt(accounts, name) == |accounts|
      modifies net, this
      ensures net.tick == old(net.tick) + 1
      ensures net.oracle(old(net.tick)).fault == Fine ==>
        r == Ok(|accounts|) && State() == old(State()).(accounts := old(accounts) + [Account(name, bichonId, None)])
      ensures net.oracle(old(net.tick)).fault != Fine ==> r == Err(Io) && State() == old(State())
    {
      var a := net.Call();
      if a.fault != Fine { return Err(Io); }
      accounts := accounts + [Account(name, bichonId, None)];
      r := Ok(|accounts|);
    }

    method GetWatermark(id: nat) returns (r: Result<Option<int>>)
      requires 1 <= id <= |accounts|
      modifies net
      ensures net.tick == old(net.tick) + 1
      ensures r == if net.oracle(old(net.tick)).fault == Fine then Ok(accounts[id - 1].cursor) else Err(Io)
    {
      var a := net.Call();
      r := if a.fault == Fine then Ok(accounts[id - 1].cursor) else Err(Io);
    }

    method SaveWatermark(id: nat, watermark: int) returns (failure: Option<Failure>)
      requires 1 <= id <= |accounts|
      modifies net, this
      ensures net.tick == old(net.tick) + 1
      ensures failure == if net.oracle(old(net.tick)).fault == Fine then None else Some(Io)
      ensures State() == if failure.None? then WithCursor(old(State()), id, watermark) else old(State())
    {
      var a := net.Call();
      if a.fault != Fine { return Some(Io); }
      accounts := accounts[id - 1 := accounts[id - 1].(cursor := Some(watermark))];
      failure := None;
    }
  }

  function WithCursor(db: Db, id: nat, watermark: int): Db
    requires 1 <= id <= |db.accounts|
  {
    db.(accounts := db.accounts[id - 1 := db.accounts[id - 1].(cursor := Some(watermark))])
  }

  // ----- Inserting a list of rows until one fails -----

  function AddAll(db: Db, rows: seq<Row>): Db {
    if rows == [] then db else Add(AddAll(db, rows[..|rows| - 1]), rows[|rows| - 1])
  }

  datatype Recording = Recording(at: Saved, done: nat)

  function SaveAll(rows: seq<Row>, db: Db, t: nat, o: Oracle): Recording {
    if rows == [] then Recording(Saved(db, t, None), 0)
    else
      var p := SaveAll(rows[..|rows| - 1], db, t, o);
      if p.at.failure.Some? then p
      else
        var s := Saving(p.at.db, rows[|rows| - 1], p.at.tick, o);
        Recording(s, if s.failure.None? then p.done + 1 else p.done)
  }

  /** The tables after a recording hold a prefix of the rows, all of them if it succeeded. */
  lemma {:induction false} SaveAllIsPrefix(rows: seq<Row>, db: Db, t: nat, o: Oracle)
    ensures var s := SaveAll(rows, db, t, o);
      && s.done <= |rows| && (s.at.failure.None? <==> s.done == |rows|)
      && s.at.db == AddAll(db, rows[..s.done])
      && s.at.tick == t + s.done + (if s.done < |rows| then 1 else 0)
  {
    if rows == [] {
      assert rows[..0] == [];
    } else {
      var front := rows[..|rows| - 1];
      SaveAllIsPrefix(front, db, t, o);
      var s := SaveAll(rows, db, t, o);
      if s.done == |rows| {
        assert rows[..s.done] == rows && front[..|front|] == front;
      } else {
        assert front[..s.done] == rows[..s.done];
      }
    }
  }

  lemma {:induction false} SaveAllStops(rows: seq<Row>, rest: seq<Row>, db: Db, t: nat, o: Oracle)
    requires SaveAll(rows, db, t, o).at.failure.Some?
    ensures SaveAll(rows + rest, db, t, o) == SaveAll(rows, db, t, o)
  {
    if rest == [] {
      assert rows + rest == rows;
    } else {
      SaveAllStops(rows, rest[..|rest| - 1], db, t, o);
      assert (rows + rest)[..|rows + rest| - 1] == rows + rest[..|rest| - 1];
    }
  }

  lemma SaveNone(db: Db, t: nat, o: Oracle)
    ensures SaveAll([], db, t, o) == Recording(Saved(db, t, None), 0)
  {
  }

  lemma SaveAllSnoc(rows: seq<Row>, row: Row, db: Db, t: nat, o: Oracle)
    requires SaveAll(rows, db, t, o).at.failure.None?
    ensures var p := SaveAll(rows, db, t, o);
            var s := Saving(p.at.db, row, p.at.tick, o);
            SaveAll(rows + [row], db, t, o) == Recording(s, if s.failure.None? then |rows| + 1 else |rows|)
  {
    SaveAllIsPrefix(rows, db, t, o);
    assert (rows + [row])[..|rows|] == rows;
  }

  // ----- Rows whose inserts cannot be turned down -----

  ghost predicate LedgerIsSound(db: Db) {
    && (forall i, j :: 0 <= i < j < |db.messages| ==> db.messages[i].mid != db.messages[j].mid)
    && (forall r :: r in db.messages ==> 1 <= r.account <= |db.accounts|)
  }

  ghost predicate AuditIsSound(db: Db) {
    && (forall r :: r in db.decisions ==> r.mid in Ledger(db))
    && (forall r :: r in db.matches ==> r.mid in Ledger(db))
    && (forall r :: r in db.tags ==> r.mid in Ledger(db))
    && (forall r :: r in db.actions ==> r.mid in Ledger(db))
    && (forall r :: r in db.emissions ==> r.mid in Ledger(db))
  }

  /** What holds of the tables in every reachable state: one ledger row a message, every
      other row about a ledger message, no tag twice, one model decision a message. */
  ghost predicate Sound(db: Db) {
    && LedgerIsSound(db) && AuditIsSound(db) && Distinct(db.tags)
    && (forall i, j :: 0 <= i < j < |db.decisions| ==> db.decisions[i].mid != db.decisions[j].mid)
  }

  /** Allowed, and for a decision also the first of its message, which no key demands. */
  ghost predicate Fits(db: Db, row: Row) {
    Allowed(db, row) && (row.Decision? ==> forall d :: d in db.decisions ==> d.mid != row.decision.mid)
  }

  ghost predicate Admissible(db: Db, rows: seq<Row>) {
    rows == [] ||
    (Admissible(db, rows[..|rows| - 1]) && Fits(AddAll(db, rows[..|rows| - 1]), rows[|rows| - 1]))
  }

  lemma LedgerOfAdd(db: Db, row: Row)
    ensures Ledger(Add(db, row)) == Ledger(db) + (if row.Message? then {row.message.mid} else {})
  {
    if row.Message? {
      assert forall r :: r in Add(db, row).messages <==> r in db.messages || r == row.message;
    }
  }

  lemma LedgerAfterAdd(db: Db, row: Row)
    requires LedgerIsSound(db) && Allowed(db, row)
    ensures LedgerIsSound(Add(db, row))
  {
    assert forall r :: r in db.messages ==> r.mid in Ledger(db);
  }

  lemma AuditAfterAdd(db: Db, row: Row)
    requires AuditIsSound(db) && Allowed(db, row)
    ensures AuditIsSound(Add(db, row))
  {
    hide Ledger;
    LedgerOfAdd(db, row);
  }

  lemma AddKeepsSound(db: Db, row: Row)
    requires Sound(db) && Fits(db, row)
    ensures Sound(Add(db, row))
  {
    hide LedgerIsSound, AuditIsSound;
    LedgerAfterAdd(db, row);
    AuditAfterAdd(db, row);
  }

  /** Admissible rows fail only when the outside fails, and keep the tables sound however
      far the recording gets. */
  lemma {:induction false} AdmissibleRowsRecord(db: Db, rows: seq<Row>, t: nat, o: Oracle)
    requires Sound(db) && Admissible(db, rows)
    ensures Sound(SaveAll(rows, db, t, o).at.db)
    ensures FromOutside(SaveAll(rows, db, t, o).at.failure)
    ensures AllFine(o, t, SaveAll(rows, db, t, o).at.tick) ==> SaveAll(rows, db, t, o).at.failure.None?
  {
    hide Sound, Fits;
    if rows != [] {
      var front := rows[..|rows| - 1];
      AdmissibleRowsRecord(db, front, t, o);
      SaveAllIsPrefix(front, db, t, o);
      var p := SaveAll(front, db, t, o);
      if p.at.failure.None? {
        assert front[..|front|] == front;
        FitsIsAllowed(p.at.db, rows[|rows| - 1]);
        AddKeepsSound(p.at.db, rows[|rows| - 1]);
      }
    }
  }

  lemma FitsIsAllowed(db: Db, row: Row)
    requires Fits(db, row)
    ensures Allowed(db, row)
  {
  }

  lemma {:induction false} AddAllAppend(db: Db, a: seq<Row>, b: seq<Row>)
    ensures AddAll(db, a + b) == AddAll(AddAll(db, a), b)
  {
    if b == [] {
      assert a + b == a;
    } else {
      AddAllAppend(db, a, b[..|b| - 1]);
      assert (a + b)[..|a + b| - 1] == a + b[..|b| - 1];
    }
  }

  lemma {:induction false} AdmissibleAppend(db: Db, a: seq<Row>, b: seq<Row>)
    requires Admissible(db, a) && Admissible(AddAll(db, a), b)
    ensures Admissible(db, a + b)
  {
    hide Fits, Add;
    if b == [] {
      assert a + b == a;
    } else {
      AdmissibleAppend(db, a, b[..|b| - 1]);
      AddAllAppend(db, a, b[..|b| - 1]);
      assert (a + b)[..|a + b| - 1] == a + b[..|b| - 1];
    }
  }

  /** Rows about one message leave every other message's rows alone. */
  function TagAbout(mid: string): TagRow -> bool { (r: TagRow) => r.mid == mid }
  function ActionAbout(mid: string): ActionRow -> bool { (r: ActionRow) => r.mid == mid }
  function MatchAbout(mid: string): MatchRow -> bool { (r: MatchRow) => r.mid == mid }

  function TagsOf(db: Db, mid: string): seq<TagRow> { Select(db.tags, TagAbout(mid)) }
  function ActionsOf(db: Db, mid: string): seq<ActionRow> { Select(db.actions, ActionAbout(mid)) }
  function MatchesOf(db: Db, mid: string): seq<MatchRow> { Select(db.matches, MatchAbout(mid)) }

  lemma AddKeepsOthers(db: Db, row: Row, mid: string)
    requires Mid(row) != mid
    ensures TagsOf(Add(db, row), mid) == TagsOf(db, mid)
    ensures ActionsOf(Add(db, row), mid) == ActionsOf(db, mid)
    ensures MatchesOf(Add(db, row), mid) == MatchesOf(db, mid)
    ensures mid in Ledger(Add(db, row)) <==> mid in Ledger(db)
  {
    LedgerOfAdd(db, row);
    match row
    case Tag(r) => SelectSnoc(db.tags, r, TagAbout(mid));
    case Executed(r) => SelectSnoc(db.actions, r, ActionAbout(mid));
    case Matched(r) => SelectSnoc(db.matches, r, MatchAbout(mid));
    case _ =>
  }
}
