/**
 The event repository and the handler in their own form: rows and a cursor changed
 in place, a rollback, a loop over topics and a loop over pending rows. Each is
 proved to be what EventIngest's steps do.
 */
module EventStore {
  import opened Options
  import opened EventIngest

  /** One entry of a record's topic array: an XDR symbol, another XDR value, or text that is not XDR. */
  datatype Topic = Symbol(name: string) | OtherXdr | Text(text: string)

  datatype Raw = Raw(topic: Option<seq<Topic>>, plain: string)

  /** What one topic decodes to, if anything. */
  function Decoded(t: Topic, lower: string -> string): Option<string> {
    match t
    case Symbol(name) => Some(lower(name))
    case OtherXdr => None
    case Text(text) => Some(lower(text))
  }

  /** A string the source's truth test takes. */
  predicate Truthy(s: Option<string>) {
    s.Some? && s.value != ""
  }

  /** The two topics that name a structured event, when there are two and both decode to something. */
  function TagAndName(raw: Raw, lower: string -> string): Option<(string, string)> {
    if raw.topic.Some? && |raw.topic.value| >= 2 then
      var tag, name := Decoded(raw.topic.value[0], lower), Decoded(raw.topic.value[1], lower);
      if Truthy(tag) && Truthy(name) then Some((tag.value, name.value)) else None
    else None
  }

  function EventType(raw: Raw, lower: string -> string): Option<string> {
    match TagAndName(raw, lower)
    case Some(both) => Some(both.0 + ":" + both.1)
    case None => if lower(raw.plain) == "" then None else Some(lower(raw.plain))
  }

  /** The topic is this text: an XDR symbol, or text that is not XDR. */
  predicate Spells(t: Topic, text: string) {
    t == Symbol(text) || t == Text(text)
  }

  /** Two topics or more, the first two spelling something: a structured event, named by both in lower case. */
  lemma StructuredType(raw: Raw, lower: string -> string, tag: string, name: string)
    requires raw.topic.Some? && |raw.topic.value| >= 2
    requires Spells(raw.topic.value[0], tag) && Spells(raw.topic.value[1], name)
    requires lower(tag) != "" && lower(name) != ""
    ensures EventType(raw, lower) == Some(lower(tag) + ":" + lower(name))
  {
  }

  predicate SpellsNothing(t: Topic, lower: string -> string) {
    t == OtherXdr || lower(if t.Symbol? then t.name else t.text) == ""
  }

  /** Any other event is known by its plain type, and skipped when it has none. */
  lemma LegacyType(raw: Raw, lower: string -> string)
    requires raw.topic.Some? && |raw.topic.value| >= 2 ==>
               SpellsNothing(raw.topic.value[0], lower) || SpellsNothing(raw.topic.value[1], lower)
    ensures EventType(raw, lower) == None <==> lower(raw.plain) == ""
    ensures EventType(raw, lower).Some? ==> EventType(raw, lower).value == lower(raw.plain)
  {
  }

  method ExtractEventType(raw: Raw, lower: string -> string) returns (kind: Option<string>)
    ensures kind == EventType(raw, lower)
  {
    if raw.topic.Some? && |raw.topic.value| >= 2 {
      var topics := raw.topic.value;
      var tag: Option<string>, name: Option<string> := None, None;
      var i := 0;
      while i < |topics| && i < 2
        invariant 0 <= i <= 2 <= |topics|
        invariant i > 0 ==> tag == Decoded(topics[0], lower)
        invariant i > 1 ==> name == Decoded(topics[1], lower)
        decreases 2 - i
      {
        var decoded := Decoded(topics[i], lower);
        if i == 0 {
          tag := decoded;
        } else {
          name := decoded;
        }
        i := i + 1;
      }
      if Truthy(tag) && Truthy(name) {
        return Some(tag.value + ":" + name.value);
      }
    }
    var plain := lower(raw.plain);
    kind := if plain == "" then None else Some(plain);
  }

  /** What stands before the first colon. */
  function BeforeColon(s: string): string {
    if s == "" || s[0] == ':' then "" else [s[0]] + BeforeColon(s[1..])
  }

  lemma {:induction false} TagIsBeforeColon(tag: string, name: string)
    requires ':' !in tag
    ensures BeforeColon(tag + ":" + name) == tag
  {
    if tag != "" {
      assert (tag + ":" + name)[1..] == tag[1..] + ":" + name;
      TagIsBeforeColon(tag[1..], name);
    }
  }

  /** The colon keeps tag and name apart: tags without one make the joined type unambiguous. */
  lemma ColonSeparates(tag: string, name: string, tag': string, name': string)
    requires ':' !in tag && ':' !in tag'
    ensures tag + ":" + name == tag' + ":" + name' <==> tag == tag' && name == name'
  {
    TagIsBeforeColon(tag, name);
    TagIsBeforeColon(tag', name');
    assert (tag + ":" + name)[|tag| + 1..] == name;
    assert (tag' + ":" + name')[|tag'| + 1..] == name';
  }

  /** What handling the event at `token` leaves in the tables, dispatch going as `ok` says. */
  function Handled(c: Config, db: Db, token: nat, e: Event, ok: bool): Db {
    if Inserts(c, db, e) then Mark(Recorded(db, token, e), |db.rows|, ok) else db
  }

  /** Taking up the rows in `ids` one after another, each going as `results` says. */
  function Retried(db: Db, ids: seq<nat>, results: nat -> bool): (db': Db)
    requires forall k :: 0 <= k < |ids| ==> ids[k] < |db.rows|
    ensures |db'.rows| == |db.rows|
  {
    if ids == [] then db
    else
      var last := |ids| - 1;
      Mark(Retried(db, ids[..last], results), ids[last], results(ids[last]))
  }

  class ContractEventRepository {
    var rows: seq<Row>
    var cursor: Option<nat>

    constructor ()
      ensures Tables() == START.db
    {
      rows, cursor := [], None;
    }

    function Tables(): Db
      reads this
    {
      Db(rows, cursor)
    }

    method RecordEventAndUpdateCursor(c: Config, e: Event, token: nat) returns (id: Option<nat>)
      modifies this
      ensures id == if Inserts(c, old(Tables()), e) then Some(|old(rows)|) else None
      ensures Tables() == if id.Some? then Recorded(old(Tables()), token, e) else old(Tables())
    {
      var inserted := InsertEvent(c, e, token);
      if !inserted {
        return None;
      }
      cursor := Some(token);
      id := Some(|rows| - 1);
    }

    /** INSERT INTO contract_events, with the type CHECK and the unique index. */
    method InsertEvent(c: Config, e: Event, token: nat) returns (ok: bool)
      modifies this`rows
      ensures ok == Inserts(c, old(Tables()), e)
      ensures rows == if ok then old(rows) + [Row(token, e.key, Pending, 0)] else old(rows)
    {
      if !Storable(c, e) {
        return false;
      }
      var i := 0;
      while i < |rows|
        invariant 0 <= i <= |rows|
        invariant forall k :: 0 <= k < i ==> rows[k].key != e.key
      {
        if rows[i].key == e.key {
          return false;
        }
        i := i + 1;
      }
      rows := rows + [Row(token, e.key, Pending, 0)];
      ok := true;
    }

    method MarkEventProcessed(id: nat)
      requires id < |rows|
      modifies this`rows
      ensures Tables() == Mark(old(Tables()), id, true)
    {
      rows := rows[id := rows[id].(status := Processed)];
    }

    method MarkEventFailed(id: nat)
      requires id < |rows|
      modifies this`rows
      ensures Tables() == Mark(old(Tables()), id, false)
    {
      rows := rows[id := rows[id].(status := Failed, retries := rows[id].retries + 1)];
    }

    method GetPendingEvents(c: Config) returns (ids: seq<nat>)
      ensures ids == PendingRows(c, rows, |rows|)
    {
      ids := [];
      var i := 0;
      while i < |rows|
        invariant 0 <= i <= |rows|
        invariant ids == PendingRows(c, rows, i)
      {
        if Eligible(c, rows[i]) {
          ids := ids + [i];
        }
        i := i + 1;
      }
    }

    /** handleRawEvent; `dispatchOk` is whether dispatchEvent returns. */
    method HandleRawEvent(c: Config, e: Event, token: nat, dispatchOk: bool)
      modifies this
      ensures Tables() == Handled(c, old(Tables()), token, e, dispatchOk)
    {
      if e.kind.None? {
        return;
      }
      var id := RecordEventAndUpdateCursor(c, e, token);
      if id.None? {
        return;
      }
      if dispatchOk {
        MarkEventProcessed(id.value);
      } else {
        MarkEventFailed(id.value);
      }
    }

    /** One round of the retry loop. */
    method RetryRound(c: Config, results: nat -> bool)
      modifies this`rows
      ensures Tables() == Retried(old(Tables()), PendingRows(c, old(rows), |old(rows)|), results)
    {
      var ids := GetPendingEvents(c);
      ghost var before := Tables();
      var i := 0;
      while i < |ids|
        invariant 0 <= i <= |ids| && cursor == old(cursor)
        invariant |rows| == |before.rows|
        invariant Tables() == Retried(before, ids[..i], results)
      {
        if results(ids[i]) {
          MarkEventProcessed(ids[i]);
        } else {
          MarkEventFailed(ids[i]);
        }
        assert ids[..i + 1][..i] == ids[..i];
        i := i + 1;
      }
      assert ids[..i] == ids;
    }
  }

  /** Left undisturbed, the handler's statements leave what HandleRawEvent leaves, and move on. */
  lemma StatementsAreHandleRawEvent(c: Config, s: State, ok: bool)
    requires s.conn.Up? && s.conn.phase == Ready && s.conn.pos < |s.stream|
    ensures var e := s.stream[s.conn.pos];
            var s' := if Inserts(c, s.db, e)
                      then Step(c, Step(c, Step(c, Step(c, s, Advance), Advance), Advance), Dispatched(ok))
                      else Step(c, s, Advance);
            && s'.db == Handled(c, s.db, s.conn.pos, e, ok)
            && s'.conn == Up(s.conn.start, s.conn.pos + 1, Ready)
  {
    var e := s.stream[s.conn.pos];
    if Inserts(c, s.db, e) {
      ThreeStatements(c, s, s.conn.start, s.conn.pos);
    }
  }

  /** A round's statements in a row: each row taken up in its turn, round r being the last one opened. */
  function RetryAll(c: Config, s: State, r: nat, ids: seq<nat>, results: nat -> bool): State {
    if ids == [] then s
    else Step(c, RetryAll(c, s, r, ids[..|ids| - 1], results), Retry(r, results(ids[|ids| - 1])))
  }

  lemma LastRoundMoves(c: Config, s: State, others: seq<seq<nat>>, ids: seq<nat>, ok: bool)
    requires ids != [] && s.rounds == others + [ids] && ids[0] < |s.db.rows|
    ensures Step(c, s, Retry(|others|, ok)) == s.(db := Mark(s.db, ids[0], ok), rounds := others + NonEmpty(ids[1..]))
  {
    var r := |others|;
    assert s.rounds[..r] == others && s.rounds[r + 1..] == [];
    assert NextRounds(s.rounds, r) == others + NonEmpty(ids[1..]);
  }

  lemma {:induction false} RetriesAreRetried(
    c: Config, s: State, others: seq<seq<nat>>, ids: seq<nat>, results: nat -> bool, n: nat)
    requires n <= |ids| && ids != [] && s.rounds == others + [ids]
    requires forall k :: 0 <= k < |ids| ==> ids[k] < |s.db.rows|
    ensures RetryAll(c, s, |others|, ids[..n], results) ==
            s.(db := Retried(s.db, ids[..n], results), rounds := others + NonEmpty(ids[n..]))
  {
    if n == 0 {
      assert ids[0..] == ids;
    } else {
      RetriesAreRetried(c, s, others, ids, results, n - 1);
      var before := s.(db := Retried(s.db, ids[..n - 1], results), rounds := others + NonEmpty(ids[n - 1..]));
      assert ids[..n][..n - 1] == ids[..n - 1] && ids[n - 1..][1..] == ids[n..];
      hide Step;
      LastRoundMoves(c, before, others, ids[n - 1..], results(ids[n - 1]));
    }
  }

  /**
   Undisturbed, the timer's query and the rows it returns leave what RetryRound leaves,
   whatever other rounds are open.
   */
  lemma RoundIsRetryRound(c: Config, s: State, results: nat -> bool)
    ensures var ids := PendingRows(c, s.db.rows, |s.db.rows|);
            RetryAll(c, Step(c, s, Query), |s.rounds|, ids, results) == s.(db := Retried(s.db, ids, results))
  {
    var ids := PendingRows(c, s.db.rows, |s.db.rows|);
    var q := Step(c, s, Query);
    assert q == s.(rounds := s.rounds + NonEmpty(ids));
    assert s.rounds + [] == s.rounds;
    hide Step;
    if ids != [] {
      hide RetryAll, Retried, PendingRows;
      RetriesAreRetried(c, q, s.rounds, ids, results, |ids|);
      assert ids[..|ids|] == ids;
    }
  }
}
