/**
 Handlers that overlap. The stream does not wait for handleRawEvent, so a later event's
 transaction may commit before an earlier one's, and the stored cursor may pass an event
 whose handler is still under way. EventIngest has the handlers one after another; here
 they are started in stream order and finish in any order, over any connections, broken
 connections and process deaths.

 Every event is recorded at most once all the same. None is lost unless the process dies
 while a handler has a new event at or before the stored cursor in hand, or a connection is
 made at 'now', there being no cursor yet, past events that have arrived.
 */
module EventOverlap {
  import opened EventIngest
  import opened Options

  datatype Line = Off | On(next: nat)

  /**
   `flying` are the events whose handlers have not finished their transaction. `first` is
   where the very first connection began, and `high` is one past the last event handed to a
   handler since the process began.
   */
  datatype World = World(
    stream: seq<Event>, db: Db, line: Line, flying: seq<nat>, first: Option<nat>, high: nat)

  datatype Move =
    | Arrive(e: Event)
    | Open             // connectStream
    | Break            // es.onerror: the handlers under way go on
    | Deliver          // es.onmessage starts a handler
    | Finish(k: nat)   // recordEventAndUpdateCursor of the k-th handler under way commits or is refused
    | Die              // the process dies

  const QUIET := World([], Db([], None), Off, [], None, 0)

  /** Where a connection would begin: just after the stored cursor, or at 'now'. */
  function Resume(w: World): nat {
    if w.db.cursor.Some? then w.db.cursor.value + 1 else |w.stream|
  }

  function Max(a: nat, b: nat): nat {
    if a < b then b else a
  }

  function DoOpen(w: World): World {
    var p := Resume(w);
    w.(line := On(p), first := if w.first.None? then Some(p) else w.first, high := Max(w.high, p))
  }

  function DoDeliver(w: World, next: nat): World {
    w.(line := On(next + 1), flying := w.flying + [next], high := Max(w.high, next + 1))
  }

  function DoFinish(c: Config, w: World, k: nat): World
    requires k < |w.flying| && w.flying[k] < |w.stream|
  {
    var i := w.flying[k];
    var rest := w.flying[..k] + w.flying[k + 1..];
    if Inserts(c, w.db, w.stream[i]) then w.(db := Recorded(w.db, i, w.stream[i]), flying := rest)
    else w.(flying := rest)
  }

  function DoDie(w: World): World {
    w.(line := Off, flying := [], high := if w.db.cursor.Some? then w.db.cursor.value + 1 else w.high)
  }

  /** A move that is not possible changes nothing. */
  function Make(c: Config, w: World, m: Move): World {
    match m
    case Arrive(e) => w.(stream := w.stream + [e])
    case Open => if w.line.Off? then DoOpen(w) else w
    case Break => w.(line := Off)
    case Deliver => if w.line.On? && w.line.next < |w.stream| then DoDeliver(w, w.line.next) else w
    case Finish(k) => if k < |w.flying| && w.flying[k] < |w.stream| then DoFinish(c, w, k) else w
    case Die => DoDie(w)
  }

  function MakeAll(c: Config, w: World, moves: seq<Move>): World {
    if moves == [] then w
    else Make(c, MakeAll(c, w, moves[..|moves| - 1]), moves[|moves| - 1])
  }

  /** A broken stream goes on from just after the stored cursor, or from 'now', and takes no handler with it. */
  lemma BrokenStreamResumes(c: Config, w: World)
    ensures var w' := Make(c, Make(c, w, Break), Open);
            && w'.stream == w.stream && w'.db == w.db && w'.flying == w.flying
            && w'.line == On(match w.db.cursor case Some(at) => at + 1 case None => |w.stream|)
  {
  }

  // ---------------------------------------------------------------- at most once

  ghost predicate RowsOnce(c: Config, stream: seq<Event>, rows: seq<Row>) {
    (forall k :: 0 <= k < |rows| ==> Genuine(c, stream, rows[k])) && DistinctRowKeys(rows)
  }

  /** Handlers and cursor are at events handed out since the process began. */
  ghost predicate Placed(w: World) {
    && w.high <= |w.stream|
    && (w.first.None? ==> w.high == 0 && w.flying == [] && w.line.Off? && w.db.cursor.None?)
    && (w.db.cursor.None? ==> w.db.rows == [])
    && (w.first.Some? ==> PlacedFrom(w, w.first.value))
  }

  ghost predicate PlacedFrom(w: World, first: nat) {
    && first <= w.high
    && (forall k :: 0 <= k < |w.flying| ==> first <= w.flying[k] < w.high)
    && (w.line.On? ==> first <= w.line.next <= w.high)
    && (w.db.cursor.Some? ==> first <= w.db.cursor.value < w.high)
  }

  ghost predicate WorldInv(c: Config, w: World) {
    RowsOnce(c, w.stream, w.db.rows) && Placed(w)
  }

  lemma RowsOutlastArrivals(c: Config, stream: seq<Event>, rows: seq<Row>, e: Event)
    requires RowsOnce(c, stream, rows)
    ensures RowsOnce(c, stream + [e], rows)
  {
    forall k | 0 <= k < |rows|
      ensures Genuine(c, stream + [e], rows[k])
    {
      assert Genuine(c, stream, rows[k]);
    }
  }

  lemma RowsOneMore(c: Config, stream: seq<Event>, db: Db, i: nat)
    requires RowsOnce(c, stream, db.rows) && i < |stream| && Inserts(c, db, stream[i])
    ensures RowsOnce(c, stream, Recorded(db, i, stream[i]).rows)
  {
  }

  lemma FinishKeepsPlaced(c: Config, w: World, k: nat)
    requires Placed(w) && k < |w.flying| && w.flying[k] < |w.stream|
    ensures Placed(DoFinish(c, w, k))
  {
    hide Inserts;
    var rest := w.flying[..k] + w.flying[k + 1..];
    assert forall j :: 0 <= j < |rest| ==> rest[j] == w.flying[if j < k then j else j + 1];
  }

  lemma MakeKeepsInv(c: Config, w: World, m: Move)
    requires WorldInv(c, w)
    ensures WorldInv(c, Make(c, w, m))
  {
    hide RowsOnce;
    match m
    case Arrive(e) => RowsOutlastArrivals(c, w.stream, w.db.rows, e);
    case Finish(k) =>
      if k < |w.flying| && w.flying[k] < |w.stream| {
        FinishKeepsPlaced(c, w, k);
        if Inserts(c, w.db, w.stream[w.flying[k]]) {
          RowsOneMore(c, w.stream, w.db, w.flying[k]);
        }
      }
    case _ =>
  }

  /** Over every run, however the handlers overlap, a row is a storable event's, and a dedup key has at most one. */
  lemma {:induction false} MovesKeepInv(c: Config, w: World, moves: seq<Move>)
    requires WorldInv(c, w)
    ensures WorldInv(c, MakeAll(c, w, moves))
  {
    hide Make, WorldInv;
    if moves != [] {
      MovesKeepInv(c, w, moves[..|moves| - 1]);
      MakeKeepsInv(c, MakeAll(c, w, moves[..|moves| - 1]), moves[|moves| - 1]);
    }
  }

  // ---------------------------------------------------------------- when an event is lost

  /** The event is recorded, or its handler is under way. */
  predicate Kept(c: Config, w: World, i: nat)
    requires i < |w.stream|
  {
    HasKey(w.db.rows, w.stream[i].key) || i in w.flying
  }

  /** Every storable event handed out, or passed over, since the very first connection is kept. */
  ghost predicate Safe(c: Config, w: World) {
    w.first.Some? ==>
      forall i :: w.first.value <= i < w.high && i < |w.stream| && Storable(c, w.stream[i]) ==> Kept(c, w, i)
  }

  /** A death loses a new event that is under way and will not be sent again. */
  predicate DeathLoses(c: Config, w: World) {
    exists k :: 0 <= k < |w.flying| && IsLostByDeath(c, w, w.flying[k])
  }

  predicate IsLostByDeath(c: Config, w: World, i: nat) {
    i < |w.stream| && Inserts(c, w.db, w.stream[i]) && i < Resume(w)
  }

  /** A connection at 'now' passes over what has arrived since the last one. */
  predicate OpenLoses(c: Config, w: World) {
    w.first.Some? && w.db.cursor.None? && exists i :: w.high <= i < |w.stream| && Storable(c, w.stream[i])
  }

  predicate Loses(c: Config, w: World, m: Move) {
    match m
    case Die => DeathLoses(c, w)
    case Open => w.line.Off? && OpenLoses(c, w)
    case _ => false
  }

  lemma KeptStays(c: Config, w: World, w': World, i: nat)
    requires i < |w.stream| && w.stream <= w'.stream && Kept(c, w, i)
    requires forall key :: HasKey(w.db.rows, key) ==> HasKey(w'.db.rows, key)
    requires i in w.flying ==> i in w'.flying || HasKey(w'.db.rows, w'.stream[i].key)
    ensures Kept(c, w', i)
  {
  }

  lemma ArriveKeepsSafe(c: Config, w: World, e: Event)
    requires Placed(w) && Safe(c, w)
    ensures Safe(c, Make(c, w, Arrive(e)))
  {
    var w' := Make(c, w, Arrive(e));
    forall i | w.first.Some? && w.first.value <= i < w.high && Storable(c, w'.stream[i])
      ensures Kept(c, w', i)
    {
      assert Kept(c, w, i);
    }
  }

  lemma DeliverKeepsSafe(c: Config, w: World)
    requires Placed(w) && Safe(c, w) && w.line.On? && w.line.next < |w.stream|
    ensures Safe(c, DoDeliver(w, w.line.next))
  {
    var w' := DoDeliver(w, w.line.next);
    forall i | w.first.value <= i < w'.high && Storable(c, w.stream[i])
      ensures Kept(c, w', i)
    {
      if i < w.high {
        assert Kept(c, w, i);
      } else {
        assert i == w.line.next && w'.flying[|w.flying|] == i;
      }
    }
  }

  /** Handler k's event is recorded or refused; every other handler is still under way. */
  lemma FinishedIsKept(c: Config, w: World, k: nat, i: nat)
    requires k < |w.flying| && w.flying[k] < |w.stream| && i < |w.stream| && Storable(c, w.stream[i]) && Kept(c, w, i)
    ensures Kept(c, DoFinish(c, w, k), i)
  {
    var w' := DoFinish(c, w, k);
    if HasKey(w.db.rows, w.stream[i].key) {
      var j :| 0 <= j < |w.db.rows| && w.db.rows[j].key == w.stream[i].key;
      assert w'.db.rows[j].key == w.stream[i].key;
    } else if i == w.flying[k] {
      assert w'.db.rows[|w.db.rows|].key == w.stream[i].key;
    } else {
      var j :| 0 <= j < |w.flying| && w.flying[j] == i;
      assert w'.flying[if j < k then j else j - 1] == i;
    }
  }

  lemma FinishKeepsSafe(c: Config, w: World, k: nat)
    requires Safe(c, w) && k < |w.flying| && w.flying[k] < |w.stream|
    ensures Safe(c, DoFinish(c, w, k))
  {
    hide Kept, Storable, Inserts;
    forall i | w.first.Some? && w.first.value <= i < w.high && i < |w.stream| && Storable(c, w.stream[i])
      ensures Kept(c, DoFinish(c, w, k), i)
    {
      FinishedIsKept(c, w, k, i);
    }
  }

  lemma OpenSafeIff(c: Config, w: World)
    requires Placed(w) && Safe(c, w)
    ensures Safe(c, DoOpen(w)) <==> !OpenLoses(c, w)
  {
    var w' := DoOpen(w);
    if OpenLoses(c, w) {
      var i :| w.high <= i < |w.stream| && Storable(c, w.stream[i]);
      assert !Kept(c, w', i);
    } else if w.first.Some? {
      forall i | w.first.value <= i < w'.high && i < |w.stream| && Storable(c, w.stream[i])
        ensures Kept(c, w', i)
      {
        assert i < w.high && Kept(c, w, i);
      }
    }
  }

  lemma DieSafeIff(c: Config, w: World)
    requires Placed(w) && Safe(c, w)
    ensures Safe(c, DoDie(w)) <==> !DeathLoses(c, w)
  {
    var w' := DoDie(w);
    if DeathLoses(c, w) {
      var k :| 0 <= k < |w.flying| && IsLostByDeath(c, w, w.flying[k]);
      assert !Kept(c, w', w.flying[k]);
    } else if w.first.Some? {
      forall i | w.first.value <= i < w'.high && i < |w.stream| && Storable(c, w.stream[i])
        ensures Kept(c, w', i)
      {
        assert Kept(c, w, i);
        if i in w.flying {
          var k :| 0 <= k < |w.flying| && w.flying[k] == i;
          assert !IsLostByDeath(c, w, w.flying[k]);
        }
      }
    }
  }

  lemma BreakKeepsSafe(c: Config, w: World)
    requires Safe(c, w)
    ensures Safe(c, w.(line := Off))
  {
    forall i | w.first.Some? && w.first.value <= i < w.high && i < |w.stream| && Storable(c, w.stream[i])
      ensures Kept(c, w.(line := Off), i)
    {
      assert Kept(c, w, i);
    }
  }

  /** From a state where nothing is lost, exactly a losing move loses an event. */
  lemma MoveIsSafeIff(c: Config, w: World, m: Move)
    requires Placed(w) && Safe(c, w)
    ensures Safe(c, Make(c, w, m)) <==> !Loses(c, w, m)
  {
    hide Placed, OpenLoses, DeathLoses, Inserts, Kept;
    match m
    case Arrive(e) => ArriveKeepsSafe(c, w, e);
    case Open =>
      if w.line.Off? {
        OpenSafeIff(c, w);
      }
    case Deliver =>
      if w.line.On? && w.line.next < |w.stream| {
        DeliverKeepsSafe(c, w);
      }
    case Finish(k) =>
      if k < |w.flying| && w.flying[k] < |w.stream| {
        FinishKeepsSafe(c, w, k);
      }
    case Die => DieSafeIff(c, w);
    case Break => BreakKeepsSafe(c, w);
  }

  predicate LosesAt(c: Config, w: World, moves: seq<Move>, k: nat)
    requires k < |moves|
  {
    Loses(c, MakeAll(c, w, moves[..k]), moves[k])
  }

  /** Some move of the run loses an event. */
  ghost predicate SomethingIsLost(c: Config, w: World, moves: seq<Move>) {
    exists k :: 0 <= k < |moves| && LosesAt(c, w, moves, k)
  }

  /** A run without a losing move keeps every storable event, broken connections and deaths included. */
  lemma {:induction false} NothingLostWithoutLosingMove(c: Config, w: World, moves: seq<Move>)
    requires WorldInv(c, w) && Safe(c, w) && !SomethingIsLost(c, w, moves)
    ensures Safe(c, MakeAll(c, w, moves))
  {
    if moves != [] {
      hide Make, WorldInv, Safe, Loses;
      var n := |moves| - 1;
      forall k | 0 <= k < n
        ensures !LosesAt(c, w, moves[..n], k)
      {
        assert moves[..n][..k] == moves[..k];
        assert !LosesAt(c, w, moves, k);
      }
      NothingLostWithoutLosingMove(c, w, moves[..n]);
      MovesKeepInv(c, w, moves[..n]);
      InvIsPlaced(c, MakeAll(c, w, moves[..n]));
      assert !LosesAt(c, w, moves, n);
      MoveIsSafeIff(c, MakeAll(c, w, moves[..n]), moves[n]);
    }
  }

  lemma InvIsPlaced(c: Config, w: World)
    requires WorldInv(c, w)
    ensures Placed(w)
  {
  }

  // ---------------------------------------------------------------- lost for good

  /** Event i is behind: what has been or will be handed to a handler from here on is later. */
  predicate Behind(w: World, i: nat) {
    && i < Resume(w) && i < w.high
    && (forall k :: 0 <= k < |w.flying| ==> i < w.flying[k])
    && (w.line.On? ==> i < w.line.next)
  }

  lemma MoveStaysBehind(c: Config, w: World, m: Move, i: nat)
    requires Behind(w, i)
    ensures Behind(Make(c, w, m), i)
  {
    hide Inserts;
    match m
    case Finish(k) =>
      if k < |w.flying| && w.flying[k] < |w.stream| {
        var rest := w.flying[..k] + w.flying[k + 1..];
        assert forall j :: 0 <= j < |rest| ==> rest[j] == w.flying[if j < k then j else j + 1];
      }
    case _ =>
  }

  /** The rows added since are of later events. */
  predicate LaterRows(rows: seq<Row>, rows': seq<Row>, i: nat) {
    rows <= rows' && forall k :: |rows| <= k < |rows'| ==> i < rows'[k].token
  }

  lemma MoveAddsLater(c: Config, w: World, m: Move, i: nat)
    requires Behind(w, i)
    ensures LaterRows(w.db.rows, Make(c, w, m).db.rows, i) && w.stream <= Make(c, w, m).stream
    ensures w.first.Some? ==> Make(c, w, m).first == w.first
  {
    hide Inserts;
  }

  lemma {:induction false} MovesStayBehind(c: Config, w: World, moves: seq<Move>, i: nat)
    requires Behind(w, i)
    ensures Behind(MakeAll(c, w, moves), i)
    ensures LaterRows(w.db.rows, MakeAll(c, w, moves).db.rows, i) && w.stream <= MakeAll(c, w, moves).stream
    ensures w.first.Some? ==> MakeAll(c, w, moves).first == w.first
  {
    hide Make, Behind;
    if moves != [] {
      var before := MakeAll(c, w, moves[..|moves| - 1]);
      MovesStayBehind(c, w, moves[..|moves| - 1], i);
      MoveStaysBehind(c, before, moves[|moves| - 1], i);
      MoveAddsLater(c, before, moves[|moves| - 1], i);
    }
  }

  /** No later storable event has event i's dedup key. */
  predicate KeyIsOwn(c: Config, stream: seq<Event>, i: nat)
    requires i < |stream|
  {
    forall j :: i < j < |stream| && Storable(c, stream[j]) ==> stream[j].key != stream[i].key
  }

  lemma LaterRowsHaveOtherKeys(c: Config, rows: seq<Row>, rows': seq<Row>, stream: seq<Event>, i: nat)
    requires LaterRows(rows, rows', i) && RowsOnce(c, stream, rows') && i < |stream|
    requires !HasKey(rows, stream[i].key) && KeyIsOwn(c, stream, i)
    ensures !HasKey(rows', stream[i].key)
  {
    forall k | 0 <= k < |rows'|
      ensures rows'[k].key != stream[i].key
    {
      if k < |rows| {
        assert rows'[k] == rows[k];
      } else {
        assert Genuine(c, stream, rows'[k]);
      }
    }
  }

  /** An event behind without a row, its dedup key being its own, is never recorded again. */
  lemma BehindIsLostForGood(c: Config, w: World, i: nat, moves: seq<Move>)
    requires WorldInv(c, w) && Behind(w, i) && i < |w.stream| && !HasKey(w.db.rows, w.stream[i].key)
    requires var s := MakeAll(c, w, moves).stream; i < |s| ==> KeyIsOwn(c, s, i)
    ensures var w' := MakeAll(c, w, moves);
            i < |w'.stream| && w'.stream[i] == w.stream[i] && !Kept(c, w', i) && Behind(w', i)
  {
    hide Make, MakeAll, KeyIsOwn;
    MovesKeepInv(c, w, moves);
    MovesStayBehind(c, w, moves, i);
    var w' := MakeAll(c, w, moves);
    LaterRowsHaveOtherKeys(c, w.db.rows, w'.db.rows, w'.stream, i);
  }

  /** What a death loses stays lost, whatever follows: no handler is started for it and no row records it. */
  lemma DeathLosesForGood(c: Config, w: World, i: nat, moves: seq<Move>)
    requires WorldInv(c, w) && i in w.flying && IsLostByDeath(c, w, i)
    requires var s := MakeAll(c, DoDie(w), moves).stream; i < |s| ==> KeyIsOwn(c, s, i)
    ensures var w' := MakeAll(c, DoDie(w), moves);
            i < |w'.stream| && i !in w'.flying && !HasKey(w'.db.rows, w.stream[i].key)
  {
    MakeKeepsInv(c, w, Die);
    assert Behind(DoDie(w), i);
    hide Behind, WorldInv, KeyIsOwn, MakeAll;
    BehindIsLostForGood(c, DoDie(w), i, moves);
  }

  // ---------------------------------------------------------------- runs whose connections do not break

  /** A connection ends only with its process. */
  predicate NeverBreaks(moves: seq<Move>) {
    forall k :: 0 <= k < |moves| ==> !moves[k].Break?
  }

  lemma {:induction false} OffIsIdle(c: Config, moves: seq<Move>)
    requires NeverBreaks(moves)
    ensures var w := MakeAll(c, QUIET, moves); w.line.Off? ==> w.flying == []
  {
    hide Inserts;
    if moves != [] {
      var n := |moves| - 1;
      assert forall k :: 0 <= k < n ==> moves[..n][k] == moves[k];
      OffIsIdle(c, moves[..n]);
    }
  }

  /** A losing move leaves an event behind, without a row. */
  lemma LosingLeavesBehind(c: Config, w: World, m: Move) returns (i: nat)
    requires WorldInv(c, w) && Loses(c, w, m) && (w.line.Off? ==> w.flying == [])
    ensures var w' := Make(c, w, m);
            && i < |w.stream| && w'.stream == w.stream && Storable(c, w.stream[i])
            && w'.first.Some? && w'.first.value <= i && Behind(w', i) && !HasKey(w'.db.rows, w.stream[i].key)
  {
    if m.Die? {
      var k :| 0 <= k < |w.flying| && IsLostByDeath(c, w, w.flying[k]);
      i := w.flying[k];
    } else {
      i :| w.high <= i < |w.stream| && Storable(c, w.stream[i]);
    }
  }

  lemma {:induction false} MakeAllJoin(c: Config, w: World, first: seq<Move>, second: seq<Move>)
    ensures MakeAll(c, w, first + second) == MakeAll(c, MakeAll(c, w, first), second)
  {
    hide Make;
    if second == [] {
      assert first + second == first;
    } else {
      var n := |second| - 1;
      assert (first + second)[..|first| + n] == first + second[..n];
      MakeAllJoin(c, w, first, second[..n]);
    }
  }

  lemma SplitAt(c: Config, moves: seq<Move>, k: nat)
    requires k < |moves|
    ensures MakeAll(c, QUIET, moves) ==
            MakeAll(c, Make(c, MakeAll(c, QUIET, moves[..k]), moves[k]), moves[k + 1..])
  {
    hide Make;
    assert moves == moves[..k + 1] + moves[k + 1..];
    MakeAllJoin(c, QUIET, moves[..k + 1], moves[k + 1..]);
    assert moves[..k + 1][..k] == moves[..k];
  }

  lemma LosingRunIsUnsafe(c: Config, moves: seq<Move>, k: nat)
    requires NeverBreaks(moves) && k < |moves| && LosesAt(c, QUIET, moves, k)
    requires forall i :: 0 <= i < |MakeAll(c, QUIET, moves).stream| ==> KeyIsOwn(c, MakeAll(c, QUIET, moves).stream, i)
    ensures !Safe(c, MakeAll(c, QUIET, moves))
  {
    var w := MakeAll(c, QUIET, moves[..k]);
    MovesKeepInv(c, QUIET, moves[..k]);
    assert forall j :: 0 <= j < k ==> moves[..k][j] == moves[j];
    OffIsIdle(c, moves[..k]);
    hide Make, MakeAll, WorldInv, KeyIsOwn, Loses, Behind;
    var i := LosingLeavesBehind(c, w, moves[k]);
    MakeKeepsInv(c, w, moves[k]);
    SplitAt(c, moves, k);
    BehindIsLostForGood(c, Make(c, w, moves[k]), i, moves[k + 1..]);
    MovesStayBehind(c, Make(c, w, moves[k]), moves[k + 1..], i);
    BehindIsHandedOut(MakeAll(c, QUIET, moves), i);
  }

  lemma BehindIsHandedOut(w: World, i: nat)
    requires Behind(w, i)
    ensures i < w.high
  {
  }

  /**
   With distinct dedup keys, and connections that end only with their process, a run ends with
   every storable event since the very first connection recorded or under way if and only if no
   death found a new event under way at or before the stored cursor, and no connection was made
   at 'now' past events that had arrived.
   */
  lemma NothingLostIffNoLosingMove(c: Config, moves: seq<Move>)
    requires NeverBreaks(moves)
    requires forall i :: 0 <= i < |MakeAll(c, QUIET, moves).stream| ==> KeyIsOwn(c, MakeAll(c, QUIET, moves).stream, i)
    ensures Safe(c, MakeAll(c, QUIET, moves)) <==> !SomethingIsLost(c, QUIET, moves)
  {
    hide MakeAll, KeyIsOwn;
    if SomethingIsLost(c, QUIET, moves) {
      var k :| 0 <= k < |moves| && LosesAt(c, QUIET, moves, k);
      LosingRunIsUnsafe(c, moves, k);
    } else {
      NothingLostWithoutLosingMove(c, QUIET, moves);
    }
  }

  /** Once the handlers are through, what is safe is recorded exactly once. */
  lemma SafeIsRecordedOnce(c: Config, w: World, i: nat)
    requires WorldInv(c, w) && Safe(c, w) && w.flying == []
    requires w.first.Some? && w.first.value <= i < w.high && i < |w.stream| && Storable(c, w.stream[i])
    ensures RowsWithKey(w.db.rows, w.stream[i].key) == 1
  {
    assert Kept(c, w, i);
    var k :| 0 <= k < |w.db.rows| && w.db.rows[k].key == w.stream[i].key;
    OneRowPerKey(w.db.rows, k);
  }

  // ---------------------------------------------------------------- such a death

  function TwoUnderWay(e: Event, f: Event): World {
    World([e, f], Db([], None), On(2), [0, 1], Some(0), 2)
  }

  lemma TwoAreUnderWay(c: Config, e: Event, f: Event)
    ensures MakeAll(c, QUIET, [Open, Arrive(e), Arrive(f), Deliver, Deliver]) == TwoUnderWay(e, f)
  {
    var moves := [Open, Arrive(e), Arrive(f), Deliver, Deliver];
    assert moves[..4][..3] == moves[..3] && moves[..3][..2] == moves[..2] && moves[..2][..1] == moves[..1];
    assert moves[..1][..0] == [];
    var begun := QUIET.(line := On(0), first := Some(0));
    assert MakeAll(c, QUIET, moves[..1]) == begun;
    assert MakeAll(c, QUIET, moves[..2]) == begun.(stream := [e]);
    assert MakeAll(c, QUIET, moves[..3]) == begun.(stream := [e, f]);
    assert MakeAll(c, QUIET, moves[..4]) == begun.(stream := [e, f], line := On(1), flying := [0], high := 1);
  }

  /**
   Two events under way: the later one commits first. If the process then dies the earlier one
   is lost; if it does not, the earlier one's commit moves the stored cursor back.
   */
  lemma LaterCommitsFirst(c: Config, e: Event, f: Event)
    requires Storable(c, e) && Storable(c, f) && e.key != f.key
    ensures var w := Make(c, TwoUnderWay(e, f), Finish(1));
            && w.db.cursor == Some(1) && w.flying == [0] && IsLostByDeath(c, w, 0) && Loses(c, w, Die)
            && Make(c, w, Finish(0)).db.cursor == Some(0)
  {
    var w := Make(c, TwoUnderWay(e, f), Finish(1));
    assert w.db.rows == [Row(1, f.key, Pending, 0)];
    assert w.flying[0] == 0 && IsLostByDeath(c, w, w.flying[0]);
  }
}
