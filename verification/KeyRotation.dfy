/**
 The batch (re-)encryption pass over one column of one table: which rows it rewrites,
 what an interrupted or repeated pass leaves, and what the rows read as throughout.
 */
module KeyRotation {
  import opened BatchPass
  import opened BatchScript
  import opened FieldEncryption
  import opened Options

  datatype Keys = Keys(newKey: Key, oldKey: Option<Key>)

  /** What parseKeyHex and an ideal cipher give: the old key is absent in the initial pass. */
  ghost predicate Usable(c: Cipher, keys: Keys) {
    && ValidKey(keys.newKey)
    && Opens(c, keys.newKey)
    && (keys.oldKey.Some? ==> Apart(c, keys.newKey, keys.oldKey.value))
  }

  /** computeAction; None is the error thrown for a malformed key. */
  function ComputeAction(c: Cipher, iv: Iv, value: string, keys: Keys): Option<Action> {
    if !IsEncrypted(value) then Encrypted(c, iv, value, keys)
    else if keys.oldKey.Some? then
      match TryDecryptWith(c, value, keys.oldKey.value)
      case None => Some(Skip)
      case Some(plaintext) => Encrypted(c, iv, plaintext, keys)
    else Some(Skip)
  }

  function Encrypted(c: Cipher, iv: Iv, plaintext: string, keys: Keys): Option<Action> {
    match EncryptWithKey(c, iv, plaintext, keys.newKey)
    case Some(e) => Some(Update(e))
    case None => None
  }

  /**
   One invocation of the script on a column: its keys, its random IVs by row, whether it writes,
   and which UPDATEs fail.
   */
  datatype Job = Job(keys: Keys, iv: int -> Iv, dryRun: bool, fails: int -> bool)

  function Script(c: Cipher, j: Job): Pass {
    Pass((id: int, value: string) => ComputeAction(c, j.iv(id), value, j.keys), j.dryRun, j.fails)
  }

  // ---------------------------------------------------------------- what a row reads as

  /** The application's read while both keys are configured. */
  function DualRead(c: Cipher, keys: Keys, r: Row): Option<Option<string>> {
    match r.value
    case None => Some(None)
    case Some(v) =>
      match Read(c, v, keys.newKey, keys.oldKey)
      case Some(p) => Some(Some(p))
      case None => None
  }

  /** The read once the old key has been withdrawn. */
  function NewKeyRead(c: Cipher, keys: Keys, r: Row): Option<Option<string>> {
    DualRead(c, Keys(keys.newKey, None), r)
  }

  /** An update keeps the row's reading, and from then on the new key alone gives it. */
  lemma UpdateKeepsReading(c: Cipher, iv: Iv, value: string, keys: Keys)
    requires Usable(c, keys)
    ensures ComputeAction(c, iv, value, keys).Some?
    ensures var a := ComputeAction(c, iv, value, keys).value;
            a.Update? ==>
              && Read(c, a.newValue, keys.newKey, keys.oldKey) == Read(c, value, keys.newKey, keys.oldKey) != None
              && Read(c, a.newValue, keys.newKey, None) == Read(c, value, keys.newKey, keys.oldKey)
  {
    if !IsEncrypted(value) {
      EncryptRoundTrip(c, iv, value, keys.newKey);
    } else if keys.oldKey.Some? && TryDecryptWith(c, value, keys.oldKey.value).Some? {
      EncryptRoundTrip(c, iv, TryDecryptWith(c, value, keys.oldKey.value).value, keys.newKey);
    }
  }

  /** What is skipped reads under the new key alone as it did before. */
  lemma SkippedReadsAlike(c: Cipher, iv: Iv, value: string, keys: Keys)
    requires ComputeAction(c, iv, value, keys) == Some(Skip)
    ensures Read(c, value, keys.newKey, None) == Read(c, value, keys.newKey, keys.oldKey)
  {
  }

  /** A value the pass has written or skipped is skipped by every later pass with the same keys. */
  lemma SettledIsSkipped(c: Cipher, iv: Iv, iv': Iv, value: string, keys: Keys)
    requires Usable(c, keys)
    ensures var a := ComputeAction(c, iv, value, keys).value;
            ComputeAction(c, iv', if a.Update? then a.newValue else value, keys) == Some(Skip)
  {
    if !IsEncrypted(value) {
      EncryptRoundTrip(c, iv, value, keys.newKey);
    } else if keys.oldKey.Some? && TryDecryptWith(c, value, keys.oldKey.value).Some? {
      EncryptRoundTrip(c, iv, TryDecryptWith(c, value, keys.oldKey.value).value, keys.newKey);
    }
  }

  /** Given the same key twice, a pass rewrites what it wrote, and so does every later one. */
  lemma SameKeyNeverSettles(c: Cipher, iv: Iv, iv': Iv, value: string, key: Key)
    requires ValidKey(key) && Opens(c, key) && !IsEncrypted(value)
    ensures var keys := Keys(key, Some(key));
            var a := ComputeAction(c, iv, value, keys);
            a.Some? && a.value.Update? && ComputeAction(c, iv', a.value.newValue, keys) ==
                Encrypted(c, iv', value, keys)
    ensures Encrypted(c, iv', value, Keys(key, Some(key))) != Some(Skip)
  {
    EncryptRoundTrip(c, iv, value, key);
  }

  /**
   A legacy secret stored in plain text as 40 or more hexadecimal digits, such as the 64 that
   webhook secrets have, is taken for a blob: the pass leaves it in plain text, it is never
   read as itself again, and reading it fails unless the key sealed the bytes it spells.
   */
  lemma LegacyHexSecretIsLost(c: Cipher, iv: Iv, secret: string, key: Key)
    requires AllInAlphabet(secret) && |secret| >= SHORTEST_BLOB && Sound(c, key)
    ensures IsEncrypted(secret) && ComputeAction(c, iv, secret, Keys(key, None)) == Some(Skip)
    ensures Read(c, secret, key, None) != Some(secret)
    ensures Read(c, secret, key, None) == None <==> !SealedUnder(c, Decode(secret), key)
  {
    LettersAreABlob(secret);
    LegacyPlaintextReadsIff(c, secret, key);
    ReadFailsIff(c, secret, key, None);
  }

  lemma MigratedReads(c: Cipher, j: Job, r: Row)
    requires Usable(c, j.keys)
    ensures var r' := Migrated(Script(c, j), r);
            && r'.id == r.id && (r'.value.None? <==> r.value.None?)
            && DualRead(c, j.keys, r') == DualRead(c, j.keys, r)
            && (!j.dryRun && !j.fails(r.id) ==> NewKeyRead(c, j.keys, r') == DualRead(c, j.keys, r))
  {
    if r.value.Some? {
      UpdateKeepsReading(c, j.iv(r.id), r.value.value, j.keys);
      var a := ComputeAction(c, j.iv(r.id), r.value.value, j.keys).value;
      if a.Skip? {
        SkippedReadsAlike(c, j.iv(r.id), r.value.value, j.keys);
      }
    }
  }

  /** Same rows, same NULLs, and every row reads the same under both keys. */
  ghost predicate ReadsAlike(c: Cipher, keys: Keys, rows: seq<Row>, rows': seq<Row>) {
    && |rows'| == |rows|
    && forall i :: 0 <= i < |rows| ==> RowReadsAlike(c, keys, rows[i], rows'[i])
  }

  predicate RowReadsAlike(c: Cipher, keys: Keys, r: Row, r': Row) {
    r'.id == r.id && (r'.value.None? <==> r.value.None?) && DualRead(c, keys, r') == DualRead(c, keys, r)
  }

  /** At every interrupted point the dual-key read still gives every row's plaintext. */
  lemma InterruptedPassKeepsReadings(c: Cipher, j: Job, rows: seq<Row>, n: nat)
    requires Usable(c, j.keys) && Sorted(rows) && n <= |Live(rows, None)|
    ensures ReadsAlike(c, j.keys, rows, Applied(Script(c, j), rows, n)) && Sorted(Applied(Script(c, j), rows, n))
  {
    var rows' := Applied(Script(c, j), rows, n);
    forall i | 0 <= i < |rows|
      ensures RowReadsAlike(c, j.keys, rows[i], rows'[i])
    {
      AppliedRows(Script(c, j), rows, n, i);
      MigratedReads(c, j, rows[i]);
    }
  }

  /**
   After a whole pass without failures the new key alone gives what both keys gave before
   it, row by row: in particular it reads a row exactly when both keys did.
   */
  lemma CleanPassNeedsOnlyNewKey(c: Cipher, j: Job, rows: seq<Row>)
    requires Usable(c, j.keys) && Sorted(rows) && Clean(Script(c, j), rows)
    ensures var rows' := FullPass(Script(c, j), rows);
            && |rows'| == |rows|
            && forall i :: 0 <= i < |rows| ==> NewKeyRead(c, j.keys, rows'[i]) == DualRead(c, j.keys, rows[i])
  {
    forall i | 0 <= i < |rows|
      ensures NewKeyRead(c, j.keys, FullPass(Script(c, j), rows)[i]) == DualRead(c, j.keys, rows[i])
    {
      FullPassRows(Script(c, j), rows, i);
      MigratedReads(c, j, rows[i]);
    }
  }

  // ---------------------------------------------------------------- repeated passes

  /** A pass that got through `upTo` rows (or all of them, when there are fewer). */
  datatype Attempt = Attempt(j: Job, upTo: nat)

  function Attempted(c: Cipher, a: Attempt, rows: seq<Row>): seq<Row> {
    var all := |Live(rows, None)|;
    Applied(Script(c, a.j), rows, if a.upTo <= all then a.upTo else all)
  }

  function Attempts(c: Cipher, rows: seq<Row>, attempts: seq<Attempt>): seq<Row> {
    if attempts == [] then rows
    else Attempted(c, attempts[|attempts| - 1], Attempts(c, rows, attempts[..|attempts| - 1]))
  }

  predicate AllWithKeys(keys: Keys, attempts: seq<Attempt>) {
    forall k :: 0 <= k < |attempts| ==> attempts[k].j.keys == keys
  }

  lemma {:induction false} AttemptsKeepReadings(c: Cipher, keys: Keys, rows: seq<Row>, attempts: seq<Attempt>)
    requires Usable(c, keys) && Sorted(rows) && AllWithKeys(keys, attempts)
    ensures ReadsAlike(c, keys, rows, Attempts(c, rows, attempts)) && Sorted(Attempts(c, rows, attempts))
  {
    if attempts != [] {
      var earlier := attempts[..|attempts| - 1];
      var last := attempts[|attempts| - 1];
      AttemptsKeepReadings(c, keys, rows, earlier);
      var mid := Attempts(c, rows, earlier);
      var all := |Live(mid, None)|;
      InterruptedPassKeepsReadings(c, last.j, mid, if last.upTo <= all then last.upTo else all);
      forall i | 0 <= i < |rows|
        ensures RowReadsAlike(c, keys, rows[i], Attempts(c, rows, attempts)[i])
      {
        assert RowReadsAlike(c, keys, rows[i], mid[i]);
      }
    }
  }

  /**
   Main result: whatever dry runs, crashes and failed UPDATEs came before, and wherever each
   of those passes stopped, one clean pass afterwards leaves every row reading, under the new
   key alone, as the original row read under both.
   */
  lemma RerunCompletesTheRotation(c: Cipher, rows: seq<Row>, attempts: seq<Attempt>, j: Job)
    requires Usable(c, j.keys) && Sorted(rows) && AllWithKeys(j.keys, attempts)
    requires Clean(Script(c, j), Attempts(c, rows, attempts))
    ensures var rows' := FullPass(Script(c, j), Attempts(c, rows, attempts));
            && |rows'| == |rows|
            && forall i :: 0 <= i < |rows| ==> NewKeyRead(c, j.keys, rows'[i]) == DualRead(c, j.keys, rows[i])
  {
    AttemptsKeepReadings(c, j.keys, rows, attempts);
    var mid := Attempts(c, rows, attempts);
    CleanPassNeedsOnlyNewKey(c, j, mid);
    forall i | 0 <= i < |rows|
      ensures NewKeyRead(c, j.keys, FullPass(Script(c, j), mid)[i]) == DualRead(c, j.keys, rows[i])
    {
      assert RowReadsAlike(c, j.keys, rows[i], mid[i]);
    }
  }

  // ---------------------------------------------------------------- nothing is left in plain text

  /** The row holds nothing, or a blob; and it is the new key's blob exactly when `readable`. */
  ghost predicate AtRest(c: Cipher, keys: Keys, r: Row, readable: bool) {
    r.value.Some? ==>
      IsEncrypted(r.value.value) && (SealedUnder(c, Decode(r.value.value), keys.newKey) <==> readable)
  }

  lemma EncryptedIsSealed(c: Cipher, iv: Iv, plaintext: string, key: Key)
    requires ValidKey(key) && Opens(c, key)
    ensures var e := EncryptWithKey(c, iv, plaintext, key);
            e.Some? && IsEncrypted(e.value) && SealedUnder(c, Decode(e.value), key)
  {
    PackedOpens(c, iv, plaintext, key);
    Base64RoundTrip(Packed(c, iv, plaintext, key));
    hide Packed, Encode, Decode, IsEncrypted;
  }

  predicate Decides(c: Cipher, iv: Iv, value: string, keys: Keys, stored: string) {
    var a := ComputeAction(c, iv, value, keys);
    a.Some? && stored == if a.value.Update? then a.value.newValue else value
  }

  lemma PlainIsSealed(c: Cipher, iv: Iv, value: string, keys: Keys, stored: string)
    requires Usable(c, keys) && !IsEncrypted(value) && Decides(c, iv, value, keys, stored)
    ensures IsEncrypted(stored) && SealedUnder(c, Decode(stored), keys.newKey)
    ensures Read(c, value, keys.newKey, keys.oldKey) == Some(value)
  {
    EncryptedIsSealed(c, iv, value, keys.newKey);
    hide IsEncrypted, Decode, SealedUnder, EncryptWithKey;
  }

  lemma BlobIsSealedIff(c: Cipher, iv: Iv, value: string, keys: Keys, stored: string)
    requires Usable(c, keys) && Authentic(c, keys.newKey) && IsEncrypted(value) && Decides(c, iv, value, keys, stored)
    ensures IsEncrypted(stored)
    ensures SealedUnder(c, Decode(stored), keys.newKey) <==> Read(c, value, keys.newKey, keys.oldKey) != None
  {
    OpensIffSealed(c, Decode(value), keys.newKey);
    if keys.oldKey.Some? && TryDecryptWith(c, value, keys.oldKey.value).Some? {
      EncryptedIsSealed(c, iv, TryDecryptWith(c, value, keys.oldKey.value).value, keys.newKey);
    }
    hide IsEncrypted, Decode, SealedUnder, EncryptWithKey, OpenBlob, Usable, Authentic;
  }

  /** What a pass makes of a value is the new key's blob, unless no key at hand reads the value: it stays one then. */
  lemma MigratedIsAtRest(c: Cipher, j: Job, r: Row)
    requires Usable(c, j.keys) && Authentic(c, j.keys.newKey) && !j.dryRun && !j.fails(r.id)
    ensures AtRest(c, j.keys, Migrated(Script(c, j), r), DualRead(c, j.keys, r) != None)
  {
    if r.value.Some? {
      var (value, iv) := (r.value.value, j.iv(r.id));
      UpdateKeepsReading(c, iv, value, j.keys);
      var a := ComputeAction(c, iv, value, j.keys).value;
      var stored := if a.Update? then a.newValue else value;
      assert Migrated(Script(c, j), r) == Row(r.id, Some(stored));
      hide IsEncrypted, Decode, SealedUnder, ComputeAction, Usable, Authentic, Read, Script, Migrated;
      if IsEncrypted(value) {
        BlobIsSealedIff(c, iv, value, j.keys, stored);
      } else {
        PlainIsSealed(c, iv, value, j.keys, stored);
      }
    }
  }

  /**
   So after any history of passes and one clean pass nothing is stored in plain text: every value is a
   blob, and the new key's own exactly when the original row could be read.
   */
  lemma RerunEncryptsEverything(c: Cipher, rows: seq<Row>, attempts: seq<Attempt>, j: Job, i: nat)
    requires Usable(c, j.keys) && Authentic(c, j.keys.newKey) && Sorted(rows) && AllWithKeys(j.keys, attempts)
    requires Clean(Script(c, j), Attempts(c, rows, attempts)) && i < |rows|
    ensures var rows' := FullPass(Script(c, j), Attempts(c, rows, attempts));
            |rows'| == |rows| && AtRest(c, j.keys, rows'[i], DualRead(c, j.keys, rows[i]) != None)
  {
    AttemptsKeepReadings(c, j.keys, rows, attempts);
    var mid := Attempts(c, rows, attempts);
    assert RowReadsAlike(c, j.keys, rows[i], mid[i]);
    FullPassRows(Script(c, j), mid, i);
    hide AtRest, Attempts, DualRead, Script;
    MigratedIsAtRest(c, j, mid[i]);
  }

  /** A second pass after a clean one updates nothing, fails nowhere and leaves the table alone. */
  lemma SecondPassUpdatesNothing(c: Cipher, j: Job, k: Job, rows: seq<Row>)
    requires Usable(c, j.keys) && Sorted(rows) && Clean(Script(c, j), rows) && k.keys == j.keys
    ensures var rows' := FullPass(Script(c, j), rows);
            && FullPass(Script(c, k), rows') == rows'
            && Count(Script(c, k), rows') == Tally(0, |Live(rows', None)|, 0)
  {
    var rows' := FullPass(Script(c, j), rows);
    var live := Live(rows', None);
    InterruptedPassKeepsReadings(c, j, rows, |Live(rows, None)|);
    forall i | 0 <= i < |rows|
      ensures FullPass(Script(c, k), rows')[i] == rows'[i]
    {
      FullPassRows(Script(c, k), rows', i);
      FullPassSettles(c, j, k, rows, i);
    }
    forall i | 0 <= i < |live|
      ensures OutcomeOf(Script(c, k), live[i].id, live[i].value.value) == Skipped
    {
      LiveMember(rows', None, live[i]);
      var at :| 0 <= at < |rows'| && rows'[at] == live[i];
      FullPassSettles(c, j, k, rows, at);
    }
    SettledCountsNone(Script(c, k), live, |live|);
  }

  lemma FullPassSettles(c: Cipher, j: Job, k: Job, rows: seq<Row>, i: nat)
    requires Usable(c, j.keys) && Sorted(rows) && Clean(Script(c, j), rows) && k.keys == j.keys && i < |rows|
    ensures var r := FullPass(Script(c, j), rows)[i];
            r.value.Some? ==> OutcomeOf(Script(c, k), r.id, r.value.value) == Skipped
  {
    FullPassRows(Script(c, j), rows, i);
    if rows[i].value.Some? {
      SettledIsSkipped(c, j.iv(rows[i].id), k.iv(rows[i].id), rows[i].value.value, j.keys);
      UpdateKeepsReading(c, j.iv(rows[i].id), rows[i].value.value, j.keys);
    }
  }

  /** The loop itself, run on a column without failures, leaves every row to the new key alone. */
  method RotateColumn(c: Cipher, j: Job, table: Table, batchSize: nat) returns (counts: Tally)
    requires Usable(c, j.keys) && batchSize >= 1 && Sorted(table.rows) && Clean(Script(c, j), table.rows)
    modifies table
    ensures |table.rows| == |old(table.rows)|
    ensures forall i :: 0 <= i < |table.rows| ==>
            NewKeyRead(c, j.keys, table.rows[i]) == DualRead(c, j.keys, old(table.rows)[i])
    ensures counts.updated + counts.skipped + counts.failed == |Live(old(table.rows), None)|
  {
    CleanPassNeedsOnlyNewKey(c, j, table.rows);
    var progress := new Progress();
    var examined := ProcessTable(table, progress, Script(c, j), batchSize);
    counts := progress.Counts();
  }
}
