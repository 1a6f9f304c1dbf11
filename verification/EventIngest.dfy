/**
 Ingest of one contract's event stream: each event's row and the stream cursor are
 written in one transaction, the process may crash between any two statements, and
 the stream is replayed from the stored cursor (or from some way before it).

 Handlers run one after another here; EventOverlap.dfy lets them overlap.

 The stream is a growing sequence and an event's paging token is its index. The
 dedup key is the (transaction, ledger) pair that, with the contract, is unique in
 the events table.
 */
module EventIngest {
  import opened Options

  datatype Key = Key(transaction: string, ledger: int)

  /** `kind` is what extractEventType finds; None is an event the handler skips. */
  datatype Event = Event(kind: Option<string>, key: Key)

  datatype Status = Pending | Processed | Failed

  datatype Row = Row(token: nat, key: Key, status: Status, retries: nat)

  datatype Db = Db(rows: seq<Row>, cursor: Option<nat>)

  /** Where the handler is with the event at the connection's position. */
  datatype Phase = Ready | RowPending | CursorPending | Dispatching(row: nat)

  datatype Connection = Down | Up(start: nat, pos: nat, phase: Phase)

  /**
   `base` is where the connection that stored the first cursor had begun; `first` is
   where the very first connection began. `rounds` are the open rounds of the retry loop,
   oldest first, each with the rows its query returned and it has not marked yet: the timer
   does not wait for the last round, so several may be open.
   */
  datatype State = State(
    stream: seq<Event>, db: Db, conn: Connection, base: Option<nat>, first: Option<nat>, rounds: seq<seq<nat>>)

  /** The event types the table's CHECK lets in. */
  type Accepts = string -> bool

  datatype Config = Config(accepts: Accepts, maxRetries: nat)

  datatype Action =
    | Publish(e: Event)
    | Connect(replayFrom: nat)
    | Advance                       // the handler's next statement
    | Dispatched(ok: bool)          // dispatchEvent returns or throws, and the row is marked
    | Crash
    | Query                         // the retry loop's timer fires, and a round opens
    | Retry(round: nat, ok: bool)   // an open round dispatches and marks its next row

  // ---------------------------------------------------------------- the tables

  predicate HasKey(rows: seq<Row>, key: Key) {
    exists i :: 0 <= i < |rows| && rows[i].key == key
  }

  predicate HasToken(rows: seq<Row>, token: nat) {
    exists i :: 0 <= i < |rows| && rows[i].token == token
  }

  predicate Storable(c: Config, e: Event) {
    e.kind.Some? && c.accepts(e.kind.value)
  }

  /** The event's INSERT goes through: a known type, and no row with its key yet. */
  predicate Inserts(c: Config, db: Db, e: Event) {
    Storable(c, e) && !HasKey(db.rows, e.key)
  }

  /** recordEventAndUpdateCursor, committed. */
  function Recorded(db: Db, token: nat, e: Event): Db {
    Db(db.rows + [Row(token, e.key, Pending, 0)], Some(token))
  }

  function MarkRow(r: Row, ok: bool): Row {
    if ok then Row(r.token, r.key, Processed, r.retries) else Row(r.token, r.key, Failed, r.retries + 1)
  }

  /** markEventProcessed or markEventFailed. */
  function Mark(db: Db, row: nat, ok: bool): Db
    requires row < |db.rows|
  {
    Db(db.rows[row := MarkRow(db.rows[row], ok)], db.cursor)
  }

  predicate Eligible(c: Config, r: Row) {
    r.status == Pending || (r.status == Failed && r.retries < c.maxRetries)
  }

  /** getPendingEvents over the first n rows: the rows to retry, oldest first. */
  function PendingRows(c: Config, rows: seq<Row>, n: nat): (ids: seq<nat>)
    requires n <= |rows|
    ensures Ascending(ids)
    ensures forall k :: 0 <= k < |ids| ==> ids[k] < n && Eligible(c, rows[ids[k]])
  {
    if n == 0 then []
    else PendingRows(c, rows, n - 1) + if Eligible(c, rows[n - 1]) then [n - 1] else []
  }

  /** No row to retry is passed over. */
  lemma {:induction false} PendingRowsAreAll(c: Config, rows: seq<Row>, n: nat, row: nat)
    requires n <= |rows| && row < n
    ensures row in PendingRows(c, rows, n) <==> Eligible(c, rows[row])
  {
    if row < n - 1 {
      PendingRowsAreAll(c, rows, n - 1, row);
    }
  }

  predicate Ascending(ids: seq<nat>) {
    forall j, k :: 0 <= j < k < |ids| ==> ids[j] < ids[k]
  }

  // ---------------------------------------------------------------- steps

  /** A stored cursor resumes just after it, or, replaying, from some way before; none resumes at 'now'. */
  function ResumePoint(s: State, replayFrom: nat): nat {
    if s.db.cursor.None? || s.base.None? then |s.stream|
    else if s.base.value <= replayFrom <= s.db.cursor.value then replayFrom
    else s.db.cursor.value + 1
  }

  function AdvanceHandler(c: Config, s: State): State
    requires s.conn.Up? && s.conn.pos < |s.stream|
  {
    var e := s.stream[s.conn.pos];
    match s.conn.phase
    case Ready =>
      if Inserts(c, s.db, e) then s.(conn := s.conn.(phase := RowPending))
      else s.(conn := s.conn.(pos := s.conn.pos + 1))
    case RowPending => s.(conn := s.conn.(phase := CursorPending))
    case CursorPending =>
      s.(db := Recorded(s.db, s.conn.pos, e),
         conn := s.conn.(phase := Dispatching(|s.db.rows|)),
         base := if s.base.None? then Some(s.conn.start) else s.base)
    case Dispatching(_) => s
  }

  function Step(c: Config, s: State, a: Action): State {
    match a
    case Publish(e) => s.(stream := s.stream + [e])
    case Connect(replayFrom) =>
      if s.conn.Up? then s
      else
        var p := ResumePoint(s, replayFrom);
        s.(conn := Up(p, p, Ready), first := if s.first.None? then Some(p) else s.first)
    case Advance => if s.conn.Up? && s.conn.pos < |s.stream| then AdvanceHandler(c, s) else s
    case Dispatched(ok) =>
      if s.conn.Up? && s.conn.phase.Dispatching? && s.conn.phase.row < |s.db.rows| then
        s.(db := Mark(s.db, s.conn.phase.row, ok), conn := Up(s.conn.start, s.conn.pos + 1, Ready))
      else s
    case Crash => s.(conn := Down, rounds := [])
    case Query => s.(rounds := s.rounds + NonEmpty(PendingRows(c, s.db.rows, |s.db.rows|)))
    case Retry(r, ok) =>
      if CanRetry(s, r) then s.(db := Mark(s.db, s.rounds[r][0], ok), rounds := NextRounds(s.rounds, r)) else s
  }

  /** A round with no rows is over. */
  function NonEmpty(ids: seq<nat>): seq<seq<nat>> {
    if ids == [] then [] else [ids]
  }

  predicate CanRetry(s: State, r: nat) {
    r < |s.rounds| && s.rounds[r] != [] && s.rounds[r][0] < |s.db.rows|
  }

  /** Round r is done with its first row. */
  function NextRounds(rounds: seq<seq<nat>>, r: nat): seq<seq<nat>>
    requires r < |rounds| && rounds[r] != []
  {
    rounds[..r] + NonEmpty(rounds[r][1..]) + rounds[r + 1..]
  }

  const START := State([], Db([], None), Down, None, None, [])

  function Run(c: Config, actions: seq<Action>): State {
    if actions == [] then START
    else Step(c, Run(c, actions[..|actions| - 1]), actions[|actions| - 1])
  }

  // ---------------------------------------------------------------- invariant

  /** Some row at or before i carries the key of event i. */
  predicate Covered(stream: seq<Event>, rows: seq<Row>, i: nat)
    requires i < |stream|
  {
    exists k :: 0 <= k < |rows| && rows[k].key == stream[i].key && rows[k].token <= i
  }

  /** Every storable event in [from, to) is covered. */
  ghost predicate CoveredRange(c: Config, stream: seq<Event>, rows: seq<Row>, from: nat, to: nat) {
    to <= |stream| && forall i :: from <= i < to && Storable(c, stream[i]) ==> Covered(stream, rows, i)
  }

  /** A row stands for a storable event of the stream, with that event's key. */
  predicate Genuine(c: Config, stream: seq<Event>, r: Row) {
    r.token < |stream| && r.key == stream[r.token].key && Storable(c, stream[r.token])
  }

  /** The unique index. */
  predicate DistinctRowKeys(rows: seq<Row>) {
    forall j, k :: 0 <= j < k < |rows| ==> rows[j].key != rows[k].key
  }

  ghost predicate RowsInv(c: Config, stream: seq<Event>, rows: seq<Row>) {
    && (forall k :: 0 <= k < |rows| ==> Genuine(c, stream, rows[k]))
    && (forall j, k :: 0 <= j < k < |rows| ==> rows[j].token < rows[k].token)
    && DistinctRowKeys(rows)
  }

  /** Rows, cursor and base come into being together; rows lie between base and cursor. */
  ghost predicate CursorInv(c: Config, stream: seq<Event>, db: Db, base: Option<nat>, first: Option<nat>) {
    && (base.None? <==> db.cursor.None?)
    && (base.None? <==> db.rows == [])
    && (base.Some? ==>
          && base.value <= db.rows[0].token
          && db.cursor.value == db.rows[|db.rows| - 1].token < |stream|
          && CoveredRange(c, stream, db.rows, base.value, db.cursor.value + 1)
          && first.Some? && first.value <= base.value)
    && (first.Some? ==> first.value <= |stream|)
  }

  /** What the live connection has passed is covered. */
  ghost predicate PassedInv(c: Config, stream: seq<Event>, db: Db, base: Option<nat>, first: Option<nat>,
                            conn: Connection) {
    conn.Up? ==>
      && conn.start <= conn.pos
      && first.Some? && first.value <= conn.start
      && (base.Some? && db.cursor.Some? ==> base.value <= conn.start <= db.cursor.value + 1)
      && CoveredRange(c, stream, db.rows, conn.start, conn.pos)
  }

  /** While a row is pending its key is new; while a row is dispatched it is that of the event at hand. */
  predicate PhaseInv(c: Config, stream: seq<Event>, db: Db, conn: Connection) {
    conn.Up? ==>
      match conn.phase
      case Ready => true
      case Dispatching(row) => conn.pos < |stream| && row < |db.rows| && db.rows[row].token == conn.pos
      case _ => conn.pos < |stream| && Inserts(c, db, stream[conn.pos])
  }

  ghost predicate Inv(c: Config, s: State) {
    && RowsInv(c, s.stream, s.db.rows)
    && CursorInv(c, s.stream, s.db, s.base, s.first)
    && PassedInv(c, s.stream, s.db, s.base, s.first, s.conn)
    && PhaseInv(c, s.stream, s.db, s.conn)
  }

  // ---------------------------------------------------------------- preservation

  /** The tables may grow and rows may be marked, but a row's event never changes. */
  predicate SameEvents(rows: seq<Row>, rows': seq<Row>) {
    |rows| <= |rows'| && forall k :: 0 <= k < |rows| ==> rows'[k].key == rows[k].key && rows'[k].token == rows[k].token
  }

  lemma CoveredStays(c: Config, stream: seq<Event>, stream': seq<Event>, rows: seq<Row>, rows': seq<Row>, from: nat,
                     to: nat)
    requires CoveredRange(c, stream, rows, from, to) && stream <= stream' && SameEvents(rows, rows')
    ensures CoveredRange(c, stream', rows', from, to)
  {
    forall i | from <= i < to && Storable(c, stream'[i])
      ensures Covered(stream', rows', i)
    {
      assert Covered(stream, rows, i);
      var k :| 0 <= k < |rows| && rows[k].key == stream[i].key && rows[k].token <= i;
      assert rows'[k].key == stream'[i].key;
    }
  }

  lemma PublishKeepsInv(c: Config, s: State, e: Event)
    requires Inv(c, s)
    ensures Inv(c, s.(stream := s.stream + [e]))
  {
    var stream' := s.stream + [e];
    RowsSurvive(c, s.stream, s.db.rows, e);
    hide RowsInv, CoveredRange, Inserts;
    if s.base.Some? {
      CoveredStays(c, s.stream, stream', s.db.rows, s.db.rows, s.base.value, s.db.cursor.value + 1);
    }
    if s.conn.Up? {
      CoveredStays(c, s.stream, stream', s.db.rows, s.db.rows, s.conn.start, s.conn.pos);
    }
  }

  lemma RowsSurvive(c: Config, stream: seq<Event>, rows: seq<Row>, e: Event)
    requires RowsInv(c, stream, rows)
    ensures RowsInv(c, stream + [e], rows)
  {
    forall k | 0 <= k < |rows|
      ensures Genuine(c, stream + [e], rows[k])
    {
      assert Genuine(c, stream, rows[k]);
    }
  }

  lemma ConnectKeepsInv(c: Config, s: State, replayFrom: nat)
    requires Inv(c, s) && s.conn.Down?
    ensures Inv(c, Step(c, s, Connect(replayFrom)))
  {
  }

  lemma RowsAreUpToCursor(c: Config, s: State, k: nat)
    requires Inv(c, s) && k < |s.db.rows|
    ensures s.db.cursor.Some? && s.db.rows[k].token <= s.db.cursor.value
  {
    assert k == |s.db.rows| - 1 || s.db.rows[k].token < s.db.rows[|s.db.rows| - 1].token;
  }

  lemma SameKeySameRow(rows: seq<Row>, j: nat, k: nat)
    requires j < |rows| && k < |rows| && DistinctRowKeys(rows)
    ensures rows[j].key == rows[k].key ==> j == k
  {
  }

  /** A row with the key of the storable event at the connection's position has a token no later than it. */
  lemma PassedRowsAreEarlier(c: Config, s: State, k: nat)
    requires Inv(c, s) && s.conn.Up? && s.conn.pos < |s.stream| && k < |s.db.rows|
    requires Storable(c, s.stream[s.conn.pos]) && s.db.rows[k].key == s.stream[s.conn.pos].key
    ensures s.db.rows[k].token <= s.conn.pos
  {
    var rows := s.db.rows;
    if s.conn.pos <= s.db.cursor.value {
      assert Covered(s.stream, rows, s.conn.pos);
      var j :| 0 <= j < |rows| && rows[j].key == s.stream[s.conn.pos].key && rows[j].token <= s.conn.pos;
      SameKeySameRow(rows, j, k);
    } else {
      RowsAreUpToCursor(c, s, k);
    }
  }

  /** Passing over an event that is not inserted: it is not storable, or its key has a row already. */
  lemma SkipKeepsInv(c: Config, s: State)
    requires Inv(c, s) && s.conn.Up? && s.conn.phase == Ready && s.conn.pos < |s.stream|
    requires !Inserts(c, s.db, s.stream[s.conn.pos])
    ensures Inv(c, s.(conn := s.conn.(pos := s.conn.pos + 1)))
  {
    var (rows, pos) := (s.db.rows, s.conn.pos);
    if Storable(c, s.stream[pos]) {
      var k :| 0 <= k < |rows| && rows[k].key == s.stream[pos].key;
      PassedRowsAreEarlier(c, s, k);
      assert Covered(s.stream, rows, pos);
    }
    assert CoveredRange(c, s.stream, rows, s.conn.start, pos + 1);
  }

  lemma CoveredHasKey(c: Config, stream: seq<Event>, rows: seq<Row>, from: nat, to: nat, i: nat)
    requires CoveredRange(c, stream, rows, from, to) && i < |stream| && Storable(c, stream[i])
    ensures from <= i < to ==> HasKey(rows, stream[i].key)
  {
    if from <= i < to {
      assert Covered(stream, rows, i);
    }
  }

  /** An event whose key is new lies after the cursor. */
  lemma NewKeyIsAhead(c: Config, s: State)
    requires Inv(c, s) && s.conn.Up? && s.conn.pos < |s.stream| && Inserts(c, s.db, s.stream[s.conn.pos])
    ensures s.db.cursor.Some? ==> s.db.cursor.value < s.conn.pos
    ensures forall k :: 0 <= k < |s.db.rows| ==> s.db.rows[k].token < s.conn.pos
  {
    var rows := s.db.rows;
    if s.db.cursor.Some? {
      CoveredHasKey(c, s.stream, rows, s.base.value, s.db.cursor.value + 1, s.conn.pos);
      forall k | 0 <= k < |rows|
        ensures rows[k].token <= s.db.cursor.value
      {
        RowsAreUpToCursor(c, s, k);
      }
    }
  }

  /** The new row keeps what is covered covered, and covers its own event. */
  lemma CommitCovers(c: Config, stream: seq<Event>, rows: seq<Row>, r: Row, from: nat)
    requires Genuine(c, stream, r) && CoveredRange(c, stream, rows, from, r.token)
    ensures CoveredRange(c, stream, rows + [r], from, r.token + 1)
  {
    var rows' := rows + [r];
    CoveredStays(c, stream, stream, rows, rows', from, r.token);
    assert rows'[|rows|] == r;
    assert Covered(stream, rows', r.token);
  }

  lemma JoinRanges(c: Config, stream: seq<Event>, rows: seq<Row>, from: nat, mid: nat, mid': nat, to: nat)
    requires CoveredRange(c, stream, rows, from, mid) && CoveredRange(c, stream, rows, mid', to) && mid' <= mid
    ensures CoveredRange(c, stream, rows, from, to)
  {
  }

  lemma CommitKeepsInv(c: Config, s: State)
    requires Inv(c, s) && s.conn.Up? && s.conn.phase == CursorPending
    ensures Inv(c, AdvanceHandler(c, s))
  {
    var r := Row(s.conn.pos, s.stream[s.conn.pos].key, Pending, 0);
    NewKeyIsAhead(c, s);
    CommitKeepsRows(c, s.stream, s.db.rows, r);
    CommitKeepsCursor(c, s, r);
    CommitKeepsPassed(c, s, r);
    hide RowsInv, CursorInv, PassedInv, Inserts;
  }

  /** The row joins what is covered since the base, or since this connection began if it is the first row. */
  lemma CommitKeepsCursor(c: Config, s: State, r: Row)
    requires CursorInv(c, s.stream, s.db, s.base, s.first) && PassedInv(c, s.stream, s.db, s.base, s.first, s.conn)
    requires s.conn.Up? && r.token == s.conn.pos && Genuine(c, s.stream, r)
    ensures CursorInv(c, s.stream, Db(s.db.rows + [r], Some(s.conn.pos)),
                      if s.base.None? then Some(s.conn.start) else s.base, s.first)
  {
    var rows := s.db.rows;
    var from := if s.base.None? then s.conn.start else s.base.value;
    if s.base.Some? {
      JoinRanges(c, s.stream, rows, from, s.db.cursor.value + 1, s.conn.start, s.conn.pos);
      assert (rows + [r])[0] == rows[0];
    }
    CommitCovers(c, s.stream, rows, r, from);
    hide CoveredRange;
    assert (rows + [r])[|rows|] == r;
  }

  lemma CommitKeepsPassed(c: Config, s: State, r: Row)
    requires PassedInv(c, s.stream, s.db, s.base, s.first, s.conn) && s.conn.Up?
    requires s.db.cursor.Some? ==> s.db.cursor.value < s.conn.pos
    requires s.base.None? <==> s.db.cursor.None?
    ensures PassedInv(c, s.stream, Db(s.db.rows + [r], Some(s.conn.pos)),
                      if s.base.None? then Some(s.conn.start) else s.base, s.first,
                      Up(s.conn.start, s.conn.pos, Dispatching(|s.db.rows|)))
  {
    CoveredStays(c, s.stream, s.stream, s.db.rows, s.db.rows + [r], s.conn.start, s.conn.pos);
    hide CoveredRange;
  }

  lemma CommitKeepsRows(c: Config, stream: seq<Event>, rows: seq<Row>, r: Row)
    requires RowsInv(c, stream, rows) && Genuine(c, stream, r) && !HasKey(rows, r.key)
    requires forall k :: 0 <= k < |rows| ==> rows[k].token < r.token
    ensures RowsInv(c, stream, rows + [r])
  {
  }

  lemma MarkKeepsRows(c: Config, stream: seq<Event>, db: Db, row: nat, ok: bool)
    requires RowsInv(c, stream, db.rows) && row < |db.rows|
    ensures RowsInv(c, stream, Mark(db, row, ok).rows) && SameEvents(db.rows, Mark(db, row, ok).rows)
  {
    forall k | 0 <= k < |db.rows|
      ensures Genuine(c, stream, Mark(db, row, ok).rows[k])
    {
      assert Genuine(c, stream, db.rows[k]);
    }
  }

  /** Marking a row changes no event, so it keeps everything; the handler may move on with it. */
  lemma MarkKeepsInv(c: Config, s: State, row: nat, ok: bool, conn: Connection, rounds: seq<seq<nat>>)
    requires Inv(c, s) && row < |s.db.rows|
    requires PassedInv(c, s.stream, s.db, s.base, s.first, conn) && PhaseInv(c, s.stream, s.db, conn)
    ensures Inv(c, State(s.stream, Mark(s.db, row, ok), conn, s.base, s.first, rounds))
  {
    MarkKeepsRows(c, s.stream, s.db, row, ok);
    MarkKeepsCursor(c, s.stream, s.db, s.base, s.first, row, ok);
    MarkKeepsPassed(c, s.stream, s.db, s.base, s.first, row, ok, conn);
    MarkKeepsPhase(c, s.stream, s.db, row, ok, conn);
  }

  lemma MarkKeepsCursor(c: Config, stream: seq<Event>, db: Db, base: Option<nat>, first: Option<nat>, row: nat,
                        ok: bool)
    requires RowsInv(c, stream, db.rows) && CursorInv(c, stream, db, base, first) && row < |db.rows|
    ensures CursorInv(c, stream, Mark(db, row, ok), base, first)
  {
    MarkKeepsRows(c, stream, db, row, ok);
    SameEventsKeepCursor(c, stream, db, Mark(db, row, ok).rows, base, first);
  }

  lemma SameEventsKeepCursor(c: Config, stream: seq<Event>, db: Db, rows': seq<Row>, base: Option<nat>,
                             first: Option<nat>)
    requires CursorInv(c, stream, db, base, first) && SameEvents(db.rows, rows') && |rows'| == |db.rows|
    ensures CursorInv(c, stream, Db(rows', db.cursor), base, first)
  {
    if base.Some? {
      CoveredStays(c, stream, stream, db.rows, rows', base.value, db.cursor.value + 1);
    }
  }

  lemma MarkKeepsPassed(c: Config, stream: seq<Event>, db: Db, base: Option<nat>, first: Option<nat>, row: nat,
                        ok: bool, conn: Connection)
    requires RowsInv(c, stream, db.rows) && PassedInv(c, stream, db, base, first, conn) && row < |db.rows|
    ensures PassedInv(c, stream, Mark(db, row, ok), base, first, conn)
  {
    MarkKeepsRows(c, stream, db, row, ok);
    if conn.Up? {
      CoveredStays(c, stream, stream, db.rows, Mark(db, row, ok).rows, conn.start, conn.pos);
    }
  }

  lemma MarkKeepsPhase(c: Config, stream: seq<Event>, db: Db, row: nat, ok: bool, conn: Connection)
    requires PhaseInv(c, stream, db, conn) && row < |db.rows|
    ensures PhaseInv(c, stream, Mark(db, row, ok), conn)
  {
    MarkKeepsKeys(db, row, ok);
  }

  lemma MarkKeepsKeys(db: Db, row: nat, ok: bool)
    requires row < |db.rows|
    ensures forall key :: HasKey(Mark(db, row, ok).rows, key) ==> HasKey(db.rows, key)
  {
    forall key | HasKey(Mark(db, row, ok).rows, key)
      ensures HasKey(db.rows, key)
    {
      var k :| 0 <= k < |db.rows| && Mark(db, row, ok).rows[k].key == key;
      assert db.rows[k].key == key;
    }
  }

  /** The event being dispatched is covered by its own row. */
  lemma DispatchedIsPassed(c: Config, stream: seq<Event>, db: Db, base: Option<nat>, first: Option<nat>,
                           conn: Connection)
    requires RowsInv(c, stream, db.rows) && PassedInv(c, stream, db, base, first, conn) && PhaseInv(c, stream, db, conn)
    requires conn.Up? && conn.phase.Dispatching?
    ensures conn.phase.row < |db.rows|
    ensures PassedInv(c, stream, db, base, first, Up(conn.start, conn.pos + 1, Ready))
    ensures PhaseInv(c, stream, db, Up(conn.start, conn.pos + 1, Ready))
  {
    assert Genuine(c, stream, db.rows[conn.phase.row]);
    assert Covered(stream, db.rows, conn.pos);
  }

  lemma DispatchedStep(c: Config, s: State, ok: bool)
    requires s.conn.Up? && s.conn.phase.Dispatching? && s.conn.phase.row < |s.db.rows|
    ensures Step(c, s, Dispatched(ok)) ==
            State(s.stream, Mark(s.db, s.conn.phase.row, ok), Up(s.conn.start, s.conn.pos + 1, Ready), s.base, s.first,
                  s.rounds)
  {
  }

  lemma DispatchKeepsInv(c: Config, s: State, ok: bool)
    requires Inv(c, s) && s.conn.Up? && s.conn.phase.Dispatching?
    ensures Inv(c, Step(c, s, Dispatched(ok)))
  {
    DispatchedIsPassed(c, s.stream, s.db, s.base, s.first, s.conn);
    DispatchedStep(c, s, ok);
    MarkKeepsInv(c, s, s.conn.phase.row, ok, Up(s.conn.start, s.conn.pos + 1, Ready), s.rounds);
  }

  lemma AdvanceKeepsInv(c: Config, s: State)
    requires Inv(c, s) && s.conn.Up? && s.conn.pos < |s.stream|
    ensures Inv(c, AdvanceHandler(c, s))
  {
    if s.conn.phase == CursorPending {
      CommitKeepsInv(c, s);
    } else if s.conn.phase == Ready && !Inserts(c, s.db, s.stream[s.conn.pos]) {
      SkipKeepsInv(c, s);
    }
  }

  lemma StepKeepsInv(c: Config, s: State, a: Action)
    requires Inv(c, s)
    ensures Inv(c, Step(c, s, a))
  {
    match a
    case Publish(e) => PublishKeepsInv(c, s, e);
    case Connect(replayFrom) =>
      if s.conn.Down? {
        ConnectKeepsInv(c, s, replayFrom);
      }
    case Advance =>
      if s.conn.Up? && s.conn.pos < |s.stream| {
        AdvanceKeepsInv(c, s);
      }
    case Dispatched(ok) =>
      if s.conn.Up? && s.conn.phase.Dispatching? {
        DispatchKeepsInv(c, s, ok);
      }
    case Crash =>
    case Query =>
    case Retry(r, ok) =>
      if CanRetry(s, r) {
        MarkKeepsInv(c, s, s.rounds[r][0], ok, s.conn, NextRounds(s.rounds, r));
      }
  }

  /** Main invariant, over every run: any crashes, restarts, replays, dispatch results and retries. */
  lemma {:induction false} RunKeepsInv(c: Config, actions: seq<Action>)
    ensures Inv(c, Run(c, actions))
  {
    if actions != [] {
      RunKeepsInv(c, actions[..|actions| - 1]);
      StepKeepsInv(c, Run(c, actions[..|actions| - 1]), actions[|actions| - 1]);
    }
  }

  // ---------------------------------------------------------------- what it means

  /** How many rows carry a key. */
  function RowsWithKey(rows: seq<Row>, key: Key): nat {
    if rows == [] then 0
    else RowsWithKey(rows[..|rows| - 1], key) + if rows[|rows| - 1].key == key then 1 else 0
  }

  lemma {:induction false} NoKeyNoRows(rows: seq<Row>, key: Key)
    requires forall k :: 0 <= k < |rows| ==> rows[k].key != key
    ensures RowsWithKey(rows, key) == 0
  {
    if rows != [] {
      NoKeyNoRows(rows[..|rows| - 1], key);
    }
  }

  lemma {:induction false} OneRowPerKey(rows: seq<Row>, at: nat)
    requires at < |rows| && forall j, k :: 0 <= j < k < |rows| ==> rows[j].key != rows[k].key
    ensures RowsWithKey(rows, rows[at].key) == 1
  {
    var n := |rows| - 1;
    if at < n {
      OneRowPerKey(rows[..n], at);
    } else {
      NoKeyNoRows(rows[..n], rows[at].key);
    }
  }

  /** An event from the base up to the stored cursor. */
  predicate Reached(s: State, i: nat) {
    s.base.Some? && s.db.cursor.Some? && s.base.value <= i <= s.db.cursor.value && i < |s.stream|
  }

  /** Such an event that is storable. */
  predicate Passed(c: Config, s: State, i: nat) {
    Reached(s, i) && Storable(c, s.stream[i])
  }

  /**
   Exactly once: across any crashes, restarts and replays, every storable event from
   the base up to the stored cursor has its key recorded in exactly one row.
   */
  lemma RecordedExactlyOnce(c: Config, actions: seq<Action>, i: nat)
    requires Passed(c, Run(c, actions), i)
    ensures var s := Run(c, actions); RowsWithKey(s.db.rows, s.stream[i].key) == 1
  {
    RunKeepsInv(c, actions);
    var s := Run(c, actions);
    assert Covered(s.stream, s.db.rows, i);
    var k :| 0 <= k < |s.db.rows| && s.db.rows[k].key == s.stream[i].key;
    OneRowPerKey(s.db.rows, k);
  }

  /** No storable event from the base on and before i shares i's dedup key. */
  ghost predicate FirstWithKey(c: Config, s: State, i: nat)
    requires s.base.Some? && i < |s.stream|
  {
    forall j :: s.base.value <= j < i && Storable(c, s.stream[j]) ==> s.stream[j].key != s.stream[i].key
  }

  /**
   Any event from the base up to the cursor has a row of its own exactly when its type is
   known and accepted and no earlier storable event since the base shares its dedup key. The
   cursor passes the others for good: a type that the table's CHECK refuses, and a
   transaction's second event in a ledger, which is taken for a duplicate.
   */
  lemma OwnRowIff(c: Config, s: State, i: nat)
    requires Inv(c, s) && Reached(s, i)
    ensures HasToken(s.db.rows, i) <==> Storable(c, s.stream[i]) && FirstWithKey(c, s, i)
  {
    if HasToken(s.db.rows, i) {
      var k :| 0 <= k < |s.db.rows| && s.db.rows[k].token == i;
      assert Genuine(c, s.stream, s.db.rows[k]);
    }
    if Storable(c, s.stream[i]) {
      OwnRowIffFirstWithKey(c, s, i);
    }
  }

  lemma OwnRowIffFirstWithKey(c: Config, s: State, i: nat)
    requires Inv(c, s) && Passed(c, s, i)
    ensures HasToken(s.db.rows, i) <==> FirstWithKey(c, s, i)
  {
    assert Covered(s.stream, s.db.rows, i);
    var k :| 0 <= k < |s.db.rows| && s.db.rows[k].key == s.stream[i].key && s.db.rows[k].token <= i;
    assert Genuine(c, s.stream, s.db.rows[k]);
    RowsAreAfterBase(c, s, k);
    if HasToken(s.db.rows, i) {
      forall j | s.base.value <= j < i && Storable(c, s.stream[j])
        ensures s.stream[j].key != s.stream[i].key
      {
        EarlierEventHasOtherKey(c, s, i, j);
      }
    }
  }

  /** The handler's statements for an event that is inserted. */
  lemma ThreeStatements(c: Config, s: State, start: nat, pos: nat)
    requires s.conn == Up(start, pos, Ready) && pos < |s.stream| && Inserts(c, s.db, s.stream[pos])
    ensures Step(c, Step(c, Step(c, s, Advance), Advance), Advance) ==
            s.(db := Recorded(s.db, pos, s.stream[pos]), conn := Up(start, pos, Dispatching(|s.db.rows|)),
               base := if s.base.None? then Some(start) else s.base)
  {
    hide Inserts, Recorded;
    var s1 := s.(conn := Up(start, pos, RowPending));
    assert Step(c, s, Advance) == s1;
    assert Step(c, s1, Advance) == s1.(conn := Up(start, pos, CursorPending));
  }

  /** An event of a refused type is passed by the cursor without a row, between two statements of nothing else. */
  lemma RefusedTypeIsPassed(c: Config, refused: Event, kept: Event)
    requires refused.kind.Some? && !c.accepts(refused.kind.value) && kept.kind.Some? && c.accepts(kept.kind.value)
    ensures var s0 := Step(c, Step(c, Step(c, START, Connect(0)), Publish(refused)), Publish(kept));
            var s := Step(c, Step(c, Step(c, Step(c, s0, Advance), Advance), Advance), Advance);
            && s.stream == [refused, kept] && s.base == Some(0) && s.db.cursor == Some(1)
            && !HasToken(s.db.rows, 0) && HasToken(s.db.rows, 1)
  {
    var s0 := Step(c, Step(c, Step(c, START, Connect(0)), Publish(refused)), Publish(kept));
    assert s0 == START.(stream := [refused, kept], conn := Up(0, 0, Ready), first := Some(0));
    var s1 := Step(c, s0, Advance);
    assert s1 == s0.(conn := Up(0, 1, Ready));
    ThreeStatements(c, s1, 0, 1);
    assert Recorded(s1.db, 1, kept).rows[0].token == 1;
  }

  lemma RowsAreAfterBase(c: Config, s: State, k: nat)
    requires Inv(c, s) && k < |s.db.rows|
    ensures s.base.Some? && s.base.value <= s.db.rows[k].token
  {
    assert k > 0 ==> s.db.rows[0].token < s.db.rows[k].token;
  }

  lemma EarlierEventHasOtherKey(c: Config, s: State, i: nat, j: nat)
    requires Inv(c, s) && Passed(c, s, i) && Passed(c, s, j) && j < i && HasToken(s.db.rows, i)
    ensures s.stream[j].key != s.stream[i].key
  {
    var k :| 0 <= k < |s.db.rows| && s.db.rows[k].token == i;
    assert Genuine(c, s.stream, s.db.rows[k]);
    assert Covered(s.stream, s.db.rows, j);
    var m :| 0 <= m < |s.db.rows| && s.db.rows[m].key == s.stream[j].key && s.db.rows[m].token <= j;
    SameKeySameRow(s.db.rows, m, k);
  }

  /**
   Where a stream resumes: at 'now' while nothing is stored, and just after the stored cursor otherwise,
   unless the server replays from some way before it. A live connection stays where it is.
   */
  lemma ConnectResumes(c: Config, s: State, replayFrom: nat)
    requires Inv(c, s)
    ensures var s' := Step(c, s, Connect(replayFrom));
            && s'.db == s.db && s'.stream == s.stream && s'.rounds == s.rounds && s'.base == s.base
            && (s.conn.Up? ==> s' == s)
            && (s.conn.Down? ==> s'.conn.Up? && s'.conn.pos == s'.conn.start && s'.conn.phase == Ready)
            && (s.conn.Down? && s.db.cursor.None? ==> s'.conn.start == |s.stream|)
            && (s.conn.Down? && s.db.cursor.Some? ==>
                  s'.conn.start == (if s.base.value <= replayFrom <= s.db.cursor.value then replayFrom
                                    else s.db.cursor.value + 1))
  {
    hide RowsInv, PassedInv, PhaseInv;
  }

  /** The stored cursor never moves backward, and stored rows keep their event. */
  lemma CursorNeverMovesBack(c: Config, s: State, a: Action)
    requires Inv(c, s)
    ensures var s' := Step(c, s, a);
            && (s.db.cursor.Some? ==> s'.db.cursor.Some? && s.db.cursor.value <= s'.db.cursor.value)
            && SameEvents(s.db.rows, s'.db.rows)
  {
    hide RowsInv, CursorInv, PassedInv, AdvanceHandler, PendingRows, NextRounds;
    match a
    case Advance =>
      if s.conn.Up? && s.conn.pos < |s.stream| {
        AdvanceMovesForward(c, s);
      }
    case Dispatched(ok) =>
      if s.conn.Up? && s.conn.phase.Dispatching? {
        MarkKeepsRows(c, s.stream, s.db, s.conn.phase.row, ok);
      }
    case Retry(r, ok) =>
      if CanRetry(s, r) {
        MarkKeepsRows(c, s.stream, s.db, s.rounds[r][0], ok);
      }
    case _ =>
  }

  lemma AdvanceMovesForward(c: Config, s: State)
    requires Inv(c, s) && s.conn.Up? && s.conn.pos < |s.stream|
    ensures var db' := AdvanceHandler(c, s).db;
            && (s.db.cursor.Some? ==> db'.cursor.Some? && s.db.cursor.value <= db'.cursor.value)
            && SameEvents(s.db.rows, db'.rows)
  {
    if s.conn.phase == CursorPending {
      NewKeyIsAhead(c, s);
    }
  }

  /** Every storable event of [from, to) has a row of its own. */
  ghost predicate AllRecorded(c: Config, s: State, from: nat, to: nat)
    requires to <= |s.stream|
  {
    forall i :: from <= i < to && Storable(c, s.stream[i]) ==> HasToken(s.db.rows, i)
  }

  /** No two storable events share a dedup key. */
  ghost predicate DistinctKeys(c: Config, s: State) {
    forall i, j :: 0 <= i < j < |s.stream| && Storable(c, s.stream[i]) && Storable(c, s.stream[j]) ==>
        s.stream[i].key != s.stream[j].key
  }

  ghost predicate NothingStorable(c: Config, s: State, from: nat, to: nat)
    requires to <= |s.stream|
  {
    forall i :: from <= i < to ==> !Storable(c, s.stream[i])
  }

  lemma NothingRecordedBeforeBase(c: Config, s: State, i: nat)
    requires Inv(c, s) && s.base.Some? && i < s.base.value
    ensures !HasToken(s.db.rows, i)
  {
    forall k | 0 <= k < |s.db.rows|
      ensures s.db.rows[k].token != i
    {
      RowsAreAfterBase(c, s, k);
    }
  }

  /**
   With distinct dedup keys, nothing since the very first connection is lost exactly when
   no storable event arrived before the connection that stored the first cursor: until a
   cursor is stored, every reconnect starts at 'now'.
   */
  lemma NothingLostIff(c: Config, actions: seq<Action>)
    requires Run(c, actions).base.Some? && DistinctKeys(c, Run(c, actions))
    ensures var s := Run(c, actions);
            && s.first.Some? && s.db.cursor.Some? && s.first.value <= s.base.value <= s.db.cursor.value < |s.stream|
            && (AllRecorded(c, s, s.first.value, s.db.cursor.value + 1) <==>
                NothingStorable(c, s, s.first.value, s.base.value))
  {
    RunKeepsInv(c, actions);
    var s := Run(c, actions);
    hide Run, AllRecorded, NothingStorable, DistinctKeys, RowsInv, CoveredRange, PassedInv, PhaseInv;
    RowsAreAfterBase(c, s, |s.db.rows| - 1);
    BeforeBaseIsLost(c, s, s.first.value);
    FromBaseIsRecorded(c, s);
    SplitRecorded(c, s, s.first.value, s.base.value, s.db.cursor.value + 1);
  }

  lemma SplitRecorded(c: Config, s: State, from: nat, mid: nat, to: nat)
    requires from <= mid <= to <= |s.stream|
    ensures AllRecorded(c, s, from, to) <==> AllRecorded(c, s, from, mid) && AllRecorded(c, s, mid, to)
  {
  }

  lemma BeforeBaseIsLost(c: Config, s: State, from: nat)
    requires Inv(c, s) && s.base.Some? && s.base.value <= |s.stream|
    ensures AllRecorded(c, s, from, s.base.value) <==> NothingStorable(c, s, from, s.base.value)
  {
    forall i | from <= i < s.base.value
      ensures !HasToken(s.db.rows, i)
    {
      NothingRecordedBeforeBase(c, s, i);
    }
  }

  lemma FromBaseIsRecorded(c: Config, s: State)
    requires Inv(c, s) && s.base.Some? && DistinctKeys(c, s)
    ensures s.db.cursor.Some? && s.db.cursor.value < |s.stream|
    ensures AllRecorded(c, s, s.base.value, s.db.cursor.value + 1)
  {
    forall i | Passed(c, s, i)
      ensures HasToken(s.db.rows, i)
    {
      assert FirstWithKey(c, s, i);
      OwnRowIffFirstWithKey(c, s, i);
    }
  }

  /** Losing an event: first connection, crash, event, reconnect at 'now', second event. */
  lemma ReconnectBeforeCursorLosesEvent(c: Config, lost: Event, kept: Event)
    requires Storable(c, lost) && Storable(c, kept)
    ensures var s0 := Step(c, Step(c, START, Connect(0)), Crash);
            var s1 := Step(c, Step(c, Step(c, s0, Publish(lost)), Connect(0)), Publish(kept));
            var s := Step(c, Step(c, Step(c, s1, Advance), Advance), Advance);
            && s.first == Some(0) && s.base == Some(1) && s.db.cursor == Some(1)
            && s.stream == [lost, kept] && !HasToken(s.db.rows, 0) && HasToken(s.db.rows, 1)
  {
    var s0 := Step(c, Step(c, START, Connect(0)), Crash);
    var s1 := Step(c, Step(c, Step(c, s0, Publish(lost)), Connect(0)), Publish(kept));
    assert s1 == START.(stream := [lost, kept], conn := Up(1, 1, Ready), first := Some(0));
    ThreeStatements(c, s1, 1, 1);
    assert Recorded(s1.db, 1, kept).rows[0].token == 1;
  }

  // ---------------------------------------------------------------- retries

  function MaxOne(n: nat): nat {
    if n == 0 then 1 else n
  }

  /** The row whose handler has not marked it yet. */
  predicate BeingDispatched(conn: Connection, row: nat) {
    conn.Up? && conn.phase == Dispatching(row)
  }

  /** How many open rounds still have the row to take up. */
  function InRounds(rounds: seq<seq<nat>>, row: nat): (n: nat)
    ensures n <= |rounds|
  {
    if rounds == [] then 0
    else InRounds(rounds[..|rounds| - 1], row) + if row in rounds[|rounds| - 1] then 1 else 0
  }

  /** Failures so far, and one more for the handler and for each open round that has the row in hand. */
  function Charged(db: Db, conn: Connection, rounds: seq<seq<nat>>, row: nat): nat
    requires row < |db.rows|
  {
    db.rows[row].retries + (if BeingDispatched(conn, row) then 1 else 0) + InRounds(rounds, row)
  }

  /** The most rounds open at once over a run. */
  function Peak(c: Config, actions: seq<Action>): nat {
    if actions == [] then 0
    else
      var (before, now) := (Peak(c, actions[..|actions| - 1]), |Run(c, actions).rounds|);
      if before < now then now else before
  }

  predicate RowRetries(c: Config, s: State, peak: nat, k: nat)
    requires k < |s.db.rows|
  {
    && (s.db.rows[k].status == Pending ==> s.db.rows[k].retries == 0)
    && Charged(s.db, s.conn, s.rounds, k) <= MaxOne(c.maxRetries) + peak
  }

  predicate GoodRound(ids: seq<nat>, n: nat) {
    ids != [] && Ascending(ids) && forall k :: 0 <= k < |ids| ==> ids[k] < n
  }

  predicate RetryInv(c: Config, s: State, peak: nat) {
    && (forall r :: 0 <= r < |s.rounds| ==> GoodRound(s.rounds[r], |s.db.rows|))
    && (forall k :: 0 <= k < |s.db.rows| ==> RowRetries(c, s, peak, k))
  }

  lemma {:induction false} InRoundsAppend(a: seq<seq<nat>>, b: seq<seq<nat>>, row: nat)
    ensures InRounds(a + b, row) == InRounds(a, row) + InRounds(b, row)
  {
    if b == [] {
      assert a + b == a;
    } else {
      assert (a + b)[..|a + b| - 1] == a + b[..|b| - 1];
      InRoundsAppend(a, b[..|b| - 1], row);
    }
  }

  lemma InNoRound(ids: seq<nat>, row: nat)
    ensures InRounds(NonEmpty(ids), row) == if row in ids then 1 else 0
  {
    assert InRounds([], row) == 0;
    if ids != [] {
      assert [ids][..0] == [];
    }
  }

  /** Rows beyond the table are in no round. */
  lemma {:induction false} NewRowIsInNoRound(rounds: seq<seq<nat>>, n: nat)
    requires forall r :: 0 <= r < |rounds| ==> GoodRound(rounds[r], n)
    ensures InRounds(rounds, n) == 0
  {
    if rounds != [] {
      var last := rounds[|rounds| - 1];
      NewRowIsInNoRound(rounds[..|rounds| - 1], n);
      assert GoodRound(last, n);
    }
  }

  lemma QueryKeepsRetries(c: Config, s: State, peak: nat)
    requires RetryInv(c, s, peak) && |Step(c, s, Query).rounds| <= peak
    ensures RetryInv(c, Step(c, s, Query), peak)
  {
    var ids := PendingRows(c, s.db.rows, |s.db.rows|);
    hide PendingRows;
    forall k | 0 <= k < |s.db.rows|
      ensures RowRetries(c, Step(c, s, Query), peak, k)
    {
      assert RowRetries(c, s, peak, k);
      InRoundsAppend(s.rounds, NonEmpty(ids), k);
      InNoRound(ids, k);
      assert k in ids ==> Eligible(c, s.db.rows[k]);
    }
  }

  /** Round r gives up its first row, and nothing else changes in the rounds. */
  lemma InNextRounds(rounds: seq<seq<nat>>, r: nat, row: nat)
    requires r < |rounds| && rounds[r] != [] && Ascending(rounds[r])
    ensures InRounds(rounds, row) == InRounds(NextRounds(rounds, r), row) + if row == rounds[r][0] then 1 else 0
  {
    var (a, b, rest) := (rounds[..r], rounds[r + 1..], rounds[r][1..]);
    hide InRounds, NonEmpty;
    InRoundsAppend(a + NonEmpty(rest), b, row);
    InRoundsAppend(a, NonEmpty(rest), row);
    InRoundsAppend(a + NonEmpty(rounds[r]), b, row);
    InRoundsAppend(a, NonEmpty(rounds[r]), row);
    InNoRound(rest, row);
    InNoRound(rounds[r], row);
    assert rounds == a + NonEmpty(rounds[r]) + b by {
      RoundsAround(rounds, r);
    }
    HeadOnce(rounds[r], row);
  }

  lemma RoundsAround(rounds: seq<seq<nat>>, r: nat)
    requires r < |rounds| && rounds[r] != []
    ensures rounds == rounds[..r] + NonEmpty(rounds[r]) + rounds[r + 1..]
  {
  }

  lemma HeadOnce(ids: seq<nat>, row: nat)
    requires ids != [] && Ascending(ids)
    ensures row in ids <==> row == ids[0] || row in ids[1..]
    ensures ids[0] !in ids[1..]
  {
    assert ids == [ids[0]] + ids[1..];
  }

  lemma NextRoundsAreGood(rounds: seq<seq<nat>>, r: nat, n: nat)
    requires r < |rounds| && forall q :: 0 <= q < |rounds| ==> GoodRound(rounds[q], n)
    ensures rounds[r] != [] && forall q :: 0 <= q < |NextRounds(rounds, r)| ==> GoodRound(NextRounds(rounds, r)[q], n)
  {
    assert GoodRound(rounds[r], n);
    var rest := rounds[r][1..];
    assert rest != [] ==> GoodRound(rest, n);
    forall q | 0 <= q < |NextRounds(rounds, r)|
      ensures GoodRound(NextRounds(rounds, r)[q], n)
    {
      assert NextRounds(rounds, r)[q] in rounds[..r] + NonEmpty(rest) + rounds[r + 1..];
    }
  }

  lemma RetryKeepsRetries(c: Config, s: State, peak: nat, r: nat, ok: bool)
    requires RetryInv(c, s, peak) && CanRetry(s, r)
    ensures RetryInv(c, Step(c, s, Retry(r, ok)), peak)
  {
    var s' := Step(c, s, Retry(r, ok));
    assert GoodRound(s.rounds[r], |s.db.rows|);
    NextRoundsAreGood(s.rounds, r, |s.db.rows|);
    forall k | 0 <= k < |s'.db.rows|
      ensures RowRetries(c, s', peak, k)
    {
      hide NextRounds, InRounds, GoodRound;
      assert RowRetries(c, s, peak, k);
      InNextRounds(s.rounds, r, k);
    }
  }

  lemma DispatchKeepsRetries(c: Config, s: State, peak: nat, ok: bool)
    requires RetryInv(c, s, peak)
    ensures RetryInv(c, Step(c, s, Dispatched(ok)), peak)
  {
    var s' := Step(c, s, Dispatched(ok));
    hide GoodRound, InRounds;
    forall k | 0 <= k < |s'.db.rows|
      ensures RowRetries(c, s', peak, k)
    {
      assert RowRetries(c, s, peak, k);
    }
  }

  lemma AdvanceKeepsRetries(c: Config, s: State, peak: nat)
    requires RetryInv(c, s, peak)
    ensures RetryInv(c, Step(c, s, Advance), peak)
  {
    var s' := Step(c, s, Advance);
    NewRowIsInNoRound(s.rounds, |s.db.rows|);
    hide InRounds, Inserts;
    forall r | 0 <= r < |s'.rounds|
      ensures GoodRound(s'.rounds[r], |s'.db.rows|)
    {
      assert GoodRound(s.rounds[r], |s.db.rows|);
    }
    forall k | 0 <= k < |s'.db.rows|
      ensures RowRetries(c, s', peak, k)
    {
      assert k < |s.db.rows| ==> RowRetries(c, s, peak, k);
    }
  }

  lemma StepKeepsRetries(c: Config, s: State, a: Action, peak: nat)
    requires RetryInv(c, s, peak) && |Step(c, s, a).rounds| <= peak
    ensures RetryInv(c, Step(c, s, a), peak)
  {
    match a
    case Query => QueryKeepsRetries(c, s, peak);
    case Retry(r, ok) =>
      if CanRetry(s, r) {
        RetryKeepsRetries(c, s, peak, r, ok);
      }
    case Dispatched(ok) => DispatchKeepsRetries(c, s, peak, ok);
    case Advance => AdvanceKeepsRetries(c, s, peak);
    case _ =>
      hide PendingRows, GoodRound, AdvanceHandler;
      forall k | 0 <= k < |s.db.rows|
        ensures RowRetries(c, Step(c, s, a), peak, k)
      {
        assert RowRetries(c, s, peak, k);
      }
  }

  lemma MorePeak(c: Config, s: State, peak: nat, peak': nat)
    requires RetryInv(c, s, peak) && peak <= peak'
    ensures RetryInv(c, s, peak')
  {
    hide Charged, GoodRound;
    forall k | 0 <= k < |s.db.rows|
      ensures RowRetries(c, s, peak', k)
    {
      assert RowRetries(c, s, peak, k);
    }
  }

  lemma {:induction false} RunKeepsRetries(c: Config, actions: seq<Action>)
    ensures RetryInv(c, Run(c, actions), Peak(c, actions))
  {
    if actions != [] {
      hide Step, RetryInv;
      var most := actions[..|actions| - 1];
      RunKeepsRetries(c, most);
      MorePeak(c, Run(c, most), Peak(c, most), Peak(c, actions));
      StepKeepsRetries(c, Run(c, most), actions[|actions| - 1], Peak(c, actions));
    }
  }

  /**
   No row is dispatched without end: over any run it fails at most max(1, maxRetries) times
   and once more for each of the rounds that were ever open at once.
   */
  lemma RetriesAreBounded(c: Config, actions: seq<Action>, row: nat)
    requires row < |Run(c, actions).db.rows|
    ensures Run(c, actions).db.rows[row].retries <= MaxOne(c.maxRetries) + Peak(c, actions)
  {
    RunKeepsRetries(c, actions);
    assert RowRetries(c, Run(c, actions), Peak(c, actions), row);
  }

  // ---------------------------------------------------------------- the bound is reached

  lemma OneMore(c: Config, actions: seq<Action>, a: Action)
    ensures Run(c, actions + [a]) == Step(c, Run(c, actions), a)
    ensures var now := |Step(c, Run(c, actions), a).rounds|;
            Peak(c, actions + [a]) == if Peak(c, actions) < now then now else Peak(c, actions)
  {
    assert (actions + [a])[..|actions|] == actions;
  }

  /** One event, recorded, being dispatched, failed `retries` times, its row in each of n open rounds. */
  function OneRow(e: Event, retries: nat, n: nat): State {
    State([e], Db([OnceFailed(e, retries)], Some(0)), Up(0, 0, Dispatching(0)), Some(0), Some(0), seq(n, i => [0]))
  }

  function OnceFailed(e: Event, retries: nat): Row {
    Row(0, e.key, if retries == 0 then Pending else Failed, retries)
  }

  predicate Reaches(c: Config, actions: seq<Action>, e: Event, retries: nat, n: nat, peak: nat) {
    Run(c, actions) == OneRow(e, retries, n) && Peak(c, actions) == peak
  }

  lemma QueryOneRow(c: Config, e: Event, retries: nat, n: nat)
    requires Eligible(c, OnceFailed(e, retries))
    ensures Step(c, OneRow(e, retries, n), Query) == OneRow(e, retries, n + 1)
  {
    var (s, s') := (OneRow(e, retries, n), OneRow(e, retries, n + 1));
    assert PendingRows(c, s.db.rows, 0) == [];
    assert PendingRows(c, s.db.rows, 1) == [0];
    assert s.rounds + [[0]] == s'.rounds;
  }

  lemma FailOneRow(c: Config, e: Event, retries: nat, n: nat)
    ensures Step(c, OneRow(e, retries, n + 1), Retry(0, false)) == OneRow(e, retries + 1, n)
  {
    var (s, s') := (OneRow(e, retries, n + 1), OneRow(e, retries + 1, n));
    assert CanRetry(s, 0);
    assert [0][1..] == [];
    assert NextRounds(s.rounds, 0) == s'.rounds;
    assert Mark(s.db, 0, false) == s'.db;
  }

  lemma ThenQuery(c: Config, actions: seq<Action>, e: Event, retries: nat, n: nat, peak: nat)
    requires Reaches(c, actions, e, retries, n, peak) && Eligible(c, OnceFailed(e, retries))
    ensures Reaches(c, actions + [Query], e, retries, n + 1, if peak < n + 1 then n + 1 else peak)
  {
    hide Step, Run, Peak, OnceFailed;
    OneMore(c, actions, Query);
    QueryOneRow(c, e, retries, n);
  }

  lemma ThenFail(c: Config, actions: seq<Action>, e: Event, retries: nat, n: nat, peak: nat)
    requires Reaches(c, actions, e, retries, n + 1, peak) && n <= peak
    ensures Reaches(c, actions + [Retry(0, false)], e, retries + 1, n, peak)
  {
    hide Step, Run, Peak, OnceFailed;
    OneMore(c, actions, Retry(0, false));
    FailOneRow(c, e, retries, n);
  }

  lemma Recording(c: Config, e: Event) returns (actions: seq<Action>)
    requires Storable(c, e)
    ensures Reaches(c, actions, e, 0, 0, 0)
  {
    var before := Arriving(c, e);
    var s := START.(stream := [e], conn := Up(0, 0, Ready), first := Some(0));
    ThreeStatements(c, s, 0, 0);
    OneMore(c, before, Advance);
    OneMore(c, before + [Advance], Advance);
    OneMore(c, before + [Advance] + [Advance], Advance);
    actions := before + [Advance] + [Advance] + [Advance];
    hide Run, Peak;
    assert Step(c, s, Advance).rounds == [] && Step(c, Step(c, s, Advance), Advance).rounds == [];
    hide Step;
    assert OneRow(e, 0, 0).rounds == [];
  }

  lemma Arriving(c: Config, e: Event) returns (actions: seq<Action>)
    ensures Run(c, actions) == START.(stream := [e], conn := Up(0, 0, Ready), first := Some(0))
    ensures Peak(c, actions) == 0
  {
    OneMore(c, [], Connect(0));
    OneMore(c, [] + [Connect(0)], Publish(e));
    actions := [] + [Connect(0)] + [Publish(e)];
    assert Run(c, []) == START && Peak(c, []) == 0;
    hide Run, Peak, Step;
    ConnectThenPublish(c, e);
  }

  lemma ConnectThenPublish(c: Config, e: Event)
    ensures Step(c, START, Connect(0)).rounds == []
    ensures Step(c, Step(c, START, Connect(0)), Publish(e)) ==
            START.(stream := [e], conn := Up(0, 0, Ready), first := Some(0))
  {
    assert START.stream + [e] == [e];
  }

  /** Failing in one round after another, as long as the row is eligible. */
  lemma {:induction false} FailingAgain(c: Config, e: Event, k: nat) returns (actions: seq<Action>)
    requires Storable(c, e) && (k == 0 || k < c.maxRetries)
    ensures Reaches(c, actions, e, k, 0, if k == 0 then 0 else 1)
  {
    hide Reaches;
    if k == 0 {
      actions := Recording(c, e);
    } else {
      var before := FailingAgain(c, e, k - 1);
      var peak := if k == 1 then 0 else 1;
      ThenQuery(c, before, e, k - 1, 0, peak);
      ThenFail(c, before + [Query], e, k - 1, 0, 1);
      actions := before + [Query] + [Retry(0, false)];
    }
  }

  lemma {:induction false} OpeningRounds(c: Config, e: Event, k: nat, n: nat) returns (actions: seq<Action>)
    requires Storable(c, e) && (k == 0 || k < c.maxRetries) && n >= 1
    ensures Reaches(c, actions, e, k, n, n)
  {
    hide Reaches;
    if n == 1 {
      var before := FailingAgain(c, e, k);
      ThenQuery(c, before, e, k, 0, if k == 0 then 0 else 1);
      actions := before + [Query];
    } else {
      var before := OpeningRounds(c, e, k, n - 1);
      ThenQuery(c, before, e, k, n - 1, n - 1);
      actions := before + [Query];
    }
  }

  lemma {:induction false} FailingInAll(c: Config, actions: seq<Action>, e: Event, k: nat, n: nat, peak: nat)
    returns (actions': seq<Action>)
    requires Reaches(c, actions, e, k, n, peak) && n <= peak
    ensures Reaches(c, actions', e, k + n, 0, peak)
    decreases n
  {
    hide Reaches;
    if n == 0 {
      actions' := actions;
    } else {
      ThenFail(c, actions, e, k, n - 1, peak);
      actions' := FailingInAll(c, actions + [Retry(0, false)], e, k + 1, n - 1, peak);
    }
  }

  /**
   The bound is exact: with n rounds open at once, the handler and all of them still at the
   row, it does fail max(1, maxRetries) + n times.
   */
  lemma BoundIsReached(c: Config, e: Event, n: nat) returns (actions: seq<Action>)
    requires Storable(c, e) && n >= 1
    ensures Peak(c, actions) == n && |Run(c, actions).db.rows| == 1
    ensures Run(c, actions).db.rows[0].retries == MaxOne(c.maxRetries) + n
  {
    var k := if c.maxRetries == 0 then 0 else c.maxRetries - 1;
    var open := OpeningRounds(c, e, k, n);
    var failed := FailingInAll(c, open, e, k, n, n);
    actions := failed + [Dispatched(false)];
    OneMore(c, failed, Dispatched(false));
    hide Run, Peak;
  }
}
