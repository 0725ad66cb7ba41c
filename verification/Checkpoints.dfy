/** The checkpoint store that retried jobs resume from. */
module Checkpoints {
  import opened Options
  import opened Ordering

  datatype CheckpointKey = CheckpointKey(threadId: string, namespace: string, checkpointId: string)

  datatype CheckpointRow = CheckpointRow(parentId: Option<string>, payload: string, metadata: string)

  /** Where a caller stands: its thread and the checkpoint it has loaded, if any. */
  datatype Config = Config(threadId: Option<string>, namespace: string, checkpointId: Option<string>)

  datatype WriteKey = WriteKey(checkpoint: CheckpointKey, taskId: string, idx: int)

  datatype Write = Write(channel: string, value: string)

  /** A checkpoint as it is loaded: where it stands, what it holds, where it came from. */
  datatype Tuple = Tuple(config: Config, row: CheckpointRow, parent: Option<Config>, pendingWrites: map<WriteKey, Write>)

  /** A column that says something. */
  ghost predicate Given(s: Option<string>) { s.Some? && |s.value| > 0 }

  /** A string that JavaScript takes for true. */
  predicate Truthy(s: Option<string>) { s.Some? && s.value != "" }

  function At(key: CheckpointKey): Config {
    Config(Some(key.threadId), key.namespace, Some(key.checkpointId))
  }

  /** The reserved channels have fixed negative indices; any other write has its position. */
  function IndexOf(reserved: map<string, int>, writes: seq<Write>, i: nat): int
    requires i < |writes|
  {
    if writes[i].channel in reserved then reserved[writes[i].channel] else i
  }

  ghost predicate Reserved(reserved: map<string, int>) {
    && (forall c | c in reserved :: reserved[c] < 0)
    && (forall c, d | c in reserved && d in reserved && reserved[c] == reserved[d] :: c == d)
  }

  function UpsertWrite(stored: map<WriteKey, Write>, key: WriteKey, w: Write): map<WriteKey, Write> {
    if key in stored && key.idx >= 0 then stored else stored[key := w]
  }

  /** The writes of one task, upserted one after the other. */
  function PutAll(stored: map<WriteKey, Write>, checkpoint: CheckpointKey, taskId: string, writes: seq<Write>,
                  reserved: map<string, int>): map<WriteKey, Write>
    decreases |writes|
  {
    if writes == [] then stored
    else
      var n := |writes| - 1;
      UpsertWrite(PutAll(stored, checkpoint, taskId, writes[..n], reserved),
        WriteKey(checkpoint, taskId, IndexOf(reserved, writes, n)), writes[n])
  }

  // ---------------------------------------------------------------- what a retry does to the writes

  /** The last write to this channel among the first n. */
  function LastTo(writes: seq<Write>, channel: string): Option<Write> {
    if writes == [] then None
    else if writes[|writes| - 1].channel == channel then Some(writes[|writes| - 1])
    else LastTo(writes[..|writes| - 1], channel)
  }

  /** An ordinary position keeps its first write for ever. */
  lemma {:induction false} OrdinaryWritesAreFirstWins(stored: map<WriteKey, Write>, checkpoint: CheckpointKey, taskId: string,
      writes: seq<Write>, reserved: map<string, int>, idx: nat)
    requires Reserved(reserved)
    ensures var key := WriteKey(checkpoint, taskId, idx);
      Lookup(PutAll(stored, checkpoint, taskId, writes, reserved), key) ==
        if key in stored then Some(stored[key])
        else if idx < |writes| && writes[idx].channel !in reserved then Some(writes[idx])
        else None
    decreases |writes|
  {
    if writes != [] {
      OrdinaryWritesAreFirstWins(stored, checkpoint, taskId, writes[..|writes| - 1], reserved, idx);
    }
  }

  /** A reserved channel keeps its last write. */
  lemma {:induction false} ReservedWritesAreLastWins(stored: map<WriteKey, Write>, checkpoint: CheckpointKey, taskId: string,
      writes: seq<Write>, reserved: map<string, int>, channel: string)
    requires Reserved(reserved) && channel in reserved
    ensures var key := WriteKey(checkpoint, taskId, reserved[channel]);
      Lookup(PutAll(stored, checkpoint, taskId, writes, reserved), key) ==
        if LastTo(writes, channel).Some? then LastTo(writes, channel) else Lookup(stored, key)
    decreases |writes|
  {
    if writes != [] {
      ReservedWritesAreLastWins(stored, checkpoint, taskId, writes[..|writes| - 1], reserved, channel);
    }
  }

  /** Nothing else is written. */
  lemma {:induction false} OtherWritesStay(stored: map<WriteKey, Write>, checkpoint: CheckpointKey, taskId: string,
      writes: seq<Write>, reserved: map<string, int>, key: WriteKey)
    requires key.checkpoint != checkpoint || key.taskId != taskId || (key.idx < 0 && key.idx !in reserved.Values)
    ensures Lookup(PutAll(stored, checkpoint, taskId, writes, reserved), key) == Lookup(stored, key)
    decreases |writes|
  {
    if writes != [] {
      OtherWritesStay(stored, checkpoint, taskId, writes[..|writes| - 1], reserved, key);
    }
  }

  lemma {:induction false} LastToOfPrefix(writes: seq<Write>, k: nat, channel: string)
    requires k <= |writes|
    ensures LastTo(writes, channel).None? ==> LastTo(writes[..k], channel).None?
    decreases |writes|
  {
    if k < |writes| {
      LastToOfPrefix(writes[..|writes| - 1], k, channel);
      assert writes[..|writes| - 1][..k] == writes[..k];
    } else {
      assert writes[..k] == writes;
    }
  }

  /** A task that dies after any number of its writes and writes them all again leaves what one
      undisturbed attempt would have left; k == |writes| says that a repetition changes nothing. */
  lemma RetryAfterCrashIsInvisible(stored: map<WriteKey, Write>, checkpoint: CheckpointKey, taskId: string,
      writes: seq<Write>, reserved: map<string, int>, k: nat)
    requires Reserved(reserved) && k <= |writes|
    ensures PutAll(PutAll(stored, checkpoint, taskId, writes[..k], reserved), checkpoint, taskId, writes, reserved)
         == PutAll(stored, checkpoint, taskId, writes, reserved)
  {
    var crashed := PutAll(stored, checkpoint, taskId, writes[..k], reserved);
    var retried := PutAll(crashed, checkpoint, taskId, writes, reserved);
    var straight := PutAll(stored, checkpoint, taskId, writes, reserved);
    forall key ensures Lookup(retried, key) == Lookup(straight, key) {
      SameAfterRetry(stored, checkpoint, taskId, writes, reserved, k, key);
    }
    assert forall key :: key in retried <==> Lookup(retried, key).Some?;
    assert forall key :: key in straight <==> Lookup(straight, key).Some?;
  }

  lemma SameAfterRetry(stored: map<WriteKey, Write>, checkpoint: CheckpointKey, taskId: string,
      writes: seq<Write>, reserved: map<string, int>, k: nat, key: WriteKey)
    requires Reserved(reserved) && k <= |writes|
    ensures Lookup(PutAll(PutAll(stored, checkpoint, taskId, writes[..k], reserved), checkpoint, taskId, writes, reserved), key)
         == Lookup(PutAll(stored, checkpoint, taskId, writes, reserved), key)
  {
    var crashed := PutAll(stored, checkpoint, taskId, writes[..k], reserved);
    if key.checkpoint != checkpoint || key.taskId != taskId || (key.idx < 0 && key.idx !in reserved.Values) {
      OtherWritesStay(stored, checkpoint, taskId, writes[..k], reserved, key);
      OtherWritesStay(crashed, checkpoint, taskId, writes, reserved, key);
      OtherWritesStay(stored, checkpoint, taskId, writes, reserved, key);
    } else if key.idx >= 0 {
      OrdinaryWritesAreFirstWins(stored, checkpoint, taskId, writes[..k], reserved, key.idx);
      OrdinaryWritesAreFirstWins(crashed, checkpoint, taskId, writes, reserved, key.idx);
      OrdinaryWritesAreFirstWins(stored, checkpoint, taskId, writes, reserved, key.idx);
    } else {
      var c :| c in reserved && reserved[c] == key.idx;
      ReservedWritesAreLastWins(stored, checkpoint, taskId, writes[..k], reserved, c);
      ReservedWritesAreLastWins(crashed, checkpoint, taskId, writes, reserved, c);
      ReservedWritesAreLastWins(stored, checkpoint, taskId, writes, reserved, c);
      LastToOfPrefix(writes, k, c);
    }
  }

  // ---------------------------------------------------------------- the latest checkpoint

  predicate InThread(key: CheckpointKey, threadId: string, namespace: string) {
    key.threadId == threadId && key.namespace == namespace
  }

  ghost predicate IsLatest(rows: map<CheckpointKey, CheckpointRow>, threadId: string, namespace: string, key: CheckpointKey) {
    && key in rows && InThread(key, threadId, namespace)
    && forall other | other in rows && InThread(other, threadId, namespace) :: !TextBefore(key.checkpointId, other.checkpointId)
  }

  lemma {:induction false} LatestExists(rows: map<CheckpointKey, CheckpointRow>, threadId: string, namespace: string,
      keys: set<CheckpointKey>) returns (key: CheckpointKey)
    requires keys != {} && forall k | k in keys :: k in rows && InThread(k, threadId, namespace)
    ensures key in keys && forall other | other in keys :: !TextBefore(key.checkpointId, other.checkpointId)
    decreases |keys|
  {
    var k :| k in keys;
    TextOrderIsTotal(k.checkpointId, k.checkpointId);
    if keys == {k} {
      key := k;
    } else {
      var best := LatestExists(rows, threadId, namespace, keys - {k});
      if TextBefore(best.checkpointId, k.checkpointId) {
        key := k;
        forall other | other in keys ensures !TextBefore(k.checkpointId, other.checkpointId) {
          TextOrderIsTotal(best.checkpointId, k.checkpointId);
          if TextBefore(k.checkpointId, other.checkpointId) {
            TextOrderIsTransitive(best.checkpointId, k.checkpointId, other.checkpointId);
            TextOrderIsTotal(k.checkpointId, other.checkpointId);
          }
        }
      } else {
        key := best;
      }
    }
  }

  // ---------------------------------------------------------------- what a thread resumes from

  /** A checkpoint written: one step of a thread's history. */
  datatype Saved = Saved(key: CheckpointKey, row: CheckpointRow)

  /** The last checkpoint written under this key. */
  function LastSaved(history: seq<Saved>, key: CheckpointKey): Option<CheckpointRow> {
    if history == [] then None
    else if history[|history| - 1].key == key then Some(history[|history| - 1].row)
    else LastSaved(history[..|history| - 1], key)
  }

  /** The table holds the last version of every checkpoint written, over what was there before. */
  ghost predicate Reflects(rows: map<CheckpointKey, CheckpointRow>, before: map<CheckpointKey, CheckpointRow>,
                           history: seq<Saved>) {
    forall k :: Lookup(rows, k) == if LastSaved(history, k).Some? then LastSaved(history, k) else Lookup(before, k)
  }

  lemma {:induction false} SavedIffInHistory(history: seq<Saved>, key: CheckpointKey)
    ensures LastSaved(history, key).Some? <==> exists i :: 0 <= i < |history| && history[i].key == key
  {
    if history != [] {
      var n := |history| - 1;
      SavedIffInHistory(history[..n], key);
      assert forall i | 0 <= i < n :: history[..n][i] == history[i];
    }
  }

  lemma SaveExtends(rows: map<CheckpointKey, CheckpointRow>, before: map<CheckpointKey, CheckpointRow>,
                    history: seq<Saved>, saved: Saved)
    requires Reflects(rows, before, history)
    ensures Reflects(rows[saved.key := saved.row], before, history + [saved])
  {
    assert (history + [saved])[..|history|] == history;
    forall k ensures LastSaved(history + [saved], k) == if saved.key == k then Some(saved.row) else LastSaved(history, k) {}
  }

  /** In a thread that held nothing, the checkpoint read back is the greatest of all ever written,
      in whatever order they were, as its last write left it. */
  lemma LatestIsGreatestSaved(rows: map<CheckpointKey, CheckpointRow>, before: map<CheckpointKey, CheckpointRow>,
      history: seq<Saved>, threadId: string, namespace: string, key: CheckpointKey)
    requires Reflects(rows, before, history)
    requires forall k | k in before :: !InThread(k, threadId, namespace)
    ensures IsLatest(rows, threadId, namespace, key) <==>
      && InThread(key, threadId, namespace)
      && (exists i :: 0 <= i < |history| && history[i].key == key)
      && forall i | 0 <= i < |history| && InThread(history[i].key, threadId, namespace) ::
           !TextBefore(key.checkpointId, history[i].key.checkpointId)
    ensures IsLatest(rows, threadId, namespace, key) ==> Some(rows[key]) == LastSaved(history, key)
  {
    forall k | InThread(k, threadId, namespace)
      ensures k in rows <==> exists i :: 0 <= i < |history| && history[i].key == k
    {
      SavedIffInHistory(history, k);
      assert Lookup(rows, k) == if LastSaved(history, k).Some? then LastSaved(history, k) else Lookup(before, k);
    }
    assert Lookup(rows, key) == if LastSaved(history, key).Some? then LastSaved(history, key) else Lookup(before, key);
  }

  /** No checkpoint of the thread is written with a smaller id than an earlier one. */
  ghost predicate IdsNeverGoBack(history: seq<Saved>, threadId: string, namespace: string) {
    forall i, j | 0 <= i < j < |history| && InThread(history[i].key, threadId, namespace)
                  && InThread(history[j].key, threadId, namespace) ::
      !TextBefore(history[j].key.checkpointId, history[i].key.checkpointId)
  }

  /** The last checkpoint written to the thread. */
  ghost predicate IsNewest(history: seq<Saved>, threadId: string, namespace: string, n: nat) {
    && n < |history| && InThread(history[n].key, threadId, namespace)
    && forall i | n < i < |history| :: !InThread(history[i].key, threadId, namespace)
  }

  /** While ids do not go back, the thread resumes from its newest checkpoint, as written then. */
  lemma ResumesFromNewest(rows: map<CheckpointKey, CheckpointRow>, before: map<CheckpointKey, CheckpointRow>,
      history: seq<Saved>, threadId: string, namespace: string, n: nat, key: CheckpointKey)
    requires Reflects(rows, before, history)
    requires forall k | k in before :: !InThread(k, threadId, namespace)
    requires IdsNeverGoBack(history, threadId, namespace) && IsNewest(history, threadId, namespace, n)
    ensures IsLatest(rows, threadId, namespace, key) <==> key == history[n].key
    ensures Lookup(rows, history[n].key) == Some(history[n].row)
  {
    var newest := history[n].key;
    forall i | 0 <= i < |history| && InThread(history[i].key, threadId, namespace)
      ensures !TextBefore(newest.checkpointId, history[i].key.checkpointId)
    {
      assert i <= n;
      TextOrderIsTotal(newest.checkpointId, newest.checkpointId);
    }
    LatestIsGreatestSaved(rows, before, history, threadId, namespace, newest);
    LatestIsGreatestSaved(rows, before, history, threadId, namespace, key);
    if IsLatest(rows, threadId, namespace, key) { TextOrderIsTotal(key.checkpointId, newest.checkpointId); }
    NewestIsLastSaved(history, n);
    assert Lookup(rows, newest) == if LastSaved(history, newest).Some? then LastSaved(history, newest) else Lookup(before, newest);
  }

  lemma {:induction false} NewestIsLastSaved(history: seq<Saved>, n: nat)
    requires n < |history| && forall i | n < i < |history| :: history[i].key != history[n].key
    ensures LastSaved(history, history[n].key) == Some(history[n].row)
  {
    if n < |history| - 1 {
      NewestIsLastSaved(history[..|history| - 1], n);
    }
  }

  /** With an id that goes back, the thread resumes from an older checkpoint than its newest. */
  lemma OlderIdIsNotResumedFrom(before: map<CheckpointKey, CheckpointRow>, history: seq<Saved>,
      rows: map<CheckpointKey, CheckpointRow>, threadId: string, namespace: string, n: nat)
    requires Reflects(rows, before, history)
    requires forall k | k in before :: !InThread(k, threadId, namespace)
    requires IsNewest(history, threadId, namespace, n)
    ensures IsLatest(rows, threadId, namespace, history[n].key) <==>
      forall i | 0 <= i < n && InThread(history[i].key, threadId, namespace) ::
        !TextBefore(history[n].key.checkpointId, history[i].key.checkpointId)
  {
    LatestIsGreatestSaved(rows, before, history, threadId, namespace, history[n].key);
    TextOrderIsTotal(history[n].key.checkpointId, history[n].key.checkpointId);
  }

  class PrismaCheckpointSaver {
    const reserved: map<string, int>
    var rows: map<CheckpointKey, CheckpointRow>
    var writes: map<WriteKey, Write>

    constructor (reserved: map<string, int>)
      ensures this.reserved == reserved && rows == map[] && writes == map[]
    {
      this.reserved := reserved;
      rows, writes := map[], map[];
    }

    /** Refused without a thread.  Otherwise the checkpoint's row is as given, a child of the one
        the caller had loaded; every other row and all writes stay, so a table that reflects a
        history reflects the longer one, and the answer is the place to go on from. */
    method Put(config: Config, checkpointId: string, payload: string, metadata: string) returns (next: Option<Config>)
      modifies this`rows
      ensures next.Some? <==> Given(config.threadId)
      ensures next.None? ==> rows == old(rows)
      ensures next.Some? ==>
        var saved := Saved(CheckpointKey(config.threadId.value, config.namespace, checkpointId),
                           CheckpointRow(config.checkpointId, payload, metadata));
        && next.value == At(saved.key)
        && (forall k :: Lookup(rows, k) == if k == saved.key then Some(saved.row) else Lookup(old(rows), k))
        && forall before, history :: Reflects(old(rows), before, history) ==> Reflects(rows, before, history + [saved])
    {
      if !Truthy(config.threadId) { return None; }
      var key := CheckpointKey(config.threadId.value, config.namespace, checkpointId);
      var row := CheckpointRow(config.checkpointId, payload, metadata);
      rows := rows[key := row];
      forall before, history | Reflects(old(rows), before, history)
        ensures Reflects(rows, before, history + [Saved(key, row)])
      {
        SaveExtends(old(rows), before, history, Saved(key, row));
      }
      return Some(Config(config.threadId, config.namespace, Some(checkpointId)));
    }

    method PutWrites(config: Config, list: seq<Write>, taskId: string) returns (ok: bool)
      modifies this`writes
      ensures ok <==> Given(config.threadId) && Given(config.checkpointId)
      ensures writes == if !ok then old(writes) else
        PutAll(old(writes), CheckpointKey(config.threadId.value, config.namespace, config.checkpointId.value), taskId, list, reserved)
    {
      if !Truthy(config.threadId) || !Truthy(config.checkpointId) { return false; }
      var checkpoint := CheckpointKey(config.threadId.value, config.namespace, config.checkpointId.value);
      for i := 0 to |list|
        invariant writes == PutAll(old(writes), checkpoint, taskId, list[..i], reserved)
      {
        assert list[..i + 1][..i] == list[..i];
        assert IndexOf(reserved, list[..i + 1], i) == IndexOf(reserved, list, i);
        var key := WriteKey(checkpoint, taskId, IndexOf(reserved, list, i));
        if key !in writes {
          writes := writes[key := list[i]];
        } else if key.idx < 0 {
          writes := writes[key := list[i]];
        }
      }
      assert list[..|list|] == list;
      ok := true;
    }

    /** The checkpoint asked for, or the latest of the thread, with its parent and the writes made on it. */
    method GetTuple(config: Config) returns (t: Option<Tuple>)
      ensures t.None? <==>
        || !Given(config.threadId)
        || (if Given(config.checkpointId)
            then CheckpointKey(config.threadId.value, config.namespace, config.checkpointId.value) !in rows
            else forall k | k in rows :: !InThread(k, config.threadId.value, config.namespace))
      ensures t.Some? ==> exists key ::
        && key in rows && t.value.config == At(key) && t.value.row == rows[key]
        && InThread(key, config.threadId.value, config.namespace)
        && (if Given(config.checkpointId) then key.checkpointId == config.checkpointId.value
            else IsLatest(rows, key.threadId, key.namespace, key))
        && t.value.pendingWrites == map k | k in writes && k.checkpoint == key :: writes[k]
      ensures t.Some? ==>
        t.value.parent == if Given(t.value.row.parentId) then Some(t.value.config.(checkpointId := t.value.row.parentId)) else None
    {
      if !Truthy(config.threadId) { return None; }
      var threadId, namespace := config.threadId.value, config.namespace;
      var key;
      if Truthy(config.checkpointId) {
        key := CheckpointKey(threadId, namespace, config.checkpointId.value);
        if key !in rows { return None; }
      } else {
        var keys := set k | k in rows && InThread(k, threadId, namespace);
        if keys == {} {
          assert forall k | k in rows && InThread(k, threadId, namespace) :: k in keys;
          return None;
        }
        ghost var latest := LatestExists(rows, threadId, namespace, keys);
        key :| key in keys && forall other | other in keys :: !TextBefore(key.checkpointId, other.checkpointId);
      }
      var row := rows[key];
      return Some(Tuple(At(key), row, if Truthy(row.parentId) then Some(At(key).(checkpointId := row.parentId)) else None,
                        map k | k in writes && k.checkpoint == key :: writes[k]));
    }

    method DeleteThread(threadId: string)
      modifies this
      ensures forall k :: Lookup(rows, k) == if k.threadId == threadId then None else Lookup(old(rows), k)
      ensures forall k :: Lookup(writes, k) == if k.checkpoint.threadId == threadId then None else Lookup(old(writes), k)
    {
      writes := map k | k in writes && k.checkpoint.threadId != threadId :: writes[k];
      rows := map k | k in rows && k.threadId != threadId :: rows[k];
    }
  }
}
