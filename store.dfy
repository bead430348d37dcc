/**
 * The file store (backend/internal/store.go): the per-target seen-id lists and
 * last-poll instants (the state document), and one append-only review log per
 * target. Files are modelled by their contents: a log is a sequence of lines,
 * the state file by a ghost snapshot of the last state written successfully.
 * Failures of the file system are inputs to the operations that can meet them.
 */
module Store {
  import opened Wrappers
  import opened Types

  /** `storeKey`: "<appId>-<country>". The review log of a target is the file named after the same string. */
  function StoreKey(appId: string, country: string): (k: string)
    ensures |k| == |appId| + 1 + |country|
    ensures k[..|appId|] == appId && k[|appId|] == '-' && k[|appId| + 1..] == country
  {
    appId + "-" + country
  }

  /** The key is not injective: a dash inside an application id can collide with the separator. */
  lemma StoreKeyCollides()
    ensures StoreKey("a-b", "c") == StoreKey("a", "b-c")
  {
  }

  /** One line of a review log: a review as `json.Marshal` wrote it, or text that does not decode. */
  datatype LogLine = Encoded(review: Review) | Corrupt(text: string)

  /** `json.Unmarshal` of one line: written reviews read back as themselves, anything else fails. */
  function ParseLine(line: LogLine): Option<Review>
  {
    match line
    case Encoded(r) => Some(r)
    case Corrupt(_) => None
  }

  /** The lines AppendReviews writes for a batch of reviews, one per review, in order. */
  function EncodeAll(rs: seq<Review>): (lines: seq<LogLine>)
    ensures |lines| == |rs|
    ensures forall i :: 0 <= i < |rs| ==> ParseLine(lines[i]) == Some(rs[i])
  {
    seq(|rs|, i requires 0 <= i < |rs| => Encoded(rs[i]))
  }

  /** The ids of the reviews a log holds, in file order; lines that do not decode are skipped, as ReadRecent skips them. */
  function LoggedIds(lines: seq<LogLine>): seq<string>
  {
    if lines == [] then []
    else
      var earlier := LoggedIds(lines[..|lines| - 1]);
      match lines[|lines| - 1]
      case Encoded(r) => earlier + [r.id]
      case Corrupt(_) => earlier
  }

  /** Appending lines to a log appends their ids. */
  lemma {:induction false} LoggedIdsAppend(a: seq<LogLine>, b: seq<LogLine>)
    ensures LoggedIds(a + b) == LoggedIds(a) + LoggedIds(b)
    decreases |b|
  {
    if b == [] {
      assert a + b == a;
    } else {
      var init := b[..|b| - 1];
      assert (a + b)[..|a + b| - 1] == a + init;
      assert (a + b)[|a + b| - 1] == b[|b| - 1];
      LoggedIdsAppend(a, init);
    }
  }

  /** The ids logged by a batch are the batch's ids, in order. */
  lemma {:induction false} LoggedIdsEncodeAll(rs: seq<Review>)
    ensures LoggedIds(EncodeAll(rs)) == seq(|rs|, i requires 0 <= i < |rs| => rs[i].id)
  {
    if rs != [] {
      var init := rs[..|rs| - 1];
      assert EncodeAll(rs)[..|rs| - 1] == EncodeAll(init);
      LoggedIdsEncodeAll(init);
    }
  }

  datatype StoreError = LogWriteFailed | StateSaveFailed | LogReadFailed | StateDecodeFailed

  // ---------------------------------------------------------------- seen ids

  function IdSet(ids: seq<string>): set<string>
  {
    set id | id in ids
  }

  predicate NoDuplicates(ids: seq<string>)
  {
    forall i, j :: 0 <= i < j < |ids| ==> ids[i] != ids[j]
  }

  /** Two duplicate-free lists with no id in common concatenate to a duplicate-free list. */
  lemma NoDuplicatesAppend(a: seq<string>, b: seq<string>)
    requires NoDuplicates(a) && NoDuplicates(b) && IdSet(a) !! IdSet(b)
    ensures NoDuplicates(a + b)
  {
    forall i, j | 0 <= i < j < |a + b|
      ensures (a + b)[i] != (a + b)[j]
    {
      if i < |a| <= j {
        assert (a + b)[i] in IdSet(a);
        assert (a + b)[j] == b[j - |a|];
        assert b[j - |a|] in IdSet(b);
      }
    }
  }

  /**
   * The ids of `incoming` that are neither in `seen` nor earlier in `incoming`,
   * in order of first occurrence.
   */
  function FreshIds(incoming: seq<string>, seen: set<string>): seq<string>
  {
    if incoming == [] then []
    else
      var earlier := FreshIds(incoming[..|incoming| - 1], seen);
      var id := incoming[|incoming| - 1];
      if id in seen || id in earlier then earlier else earlier + [id]
  }

  /** FreshIds keeps each new id exactly once and nothing already seen. */
  lemma {:induction false} FreshIdsSpec(incoming: seq<string>, seen: set<string>)
    ensures NoDuplicates(FreshIds(incoming, seen))
    ensures IdSet(FreshIds(incoming, seen)) == IdSet(incoming) - seen
  {
    if incoming != [] {
      var init := incoming[..|incoming| - 1];
      var id := incoming[|incoming| - 1];
      var earlier := FreshIds(init, seen);
      FreshIdsSpec(init, seen);
      assert incoming == init + [id];
      assert IdSet(incoming) == IdSet(init) + {id};
      if !(id in seen || id in earlier) {
        assert IdSet(earlier + [id]) == IdSet(earlier) + {id};
      }
    }
  }

  /** The append-only merge of AppendReviews: the old list followed by the new ids it lacks. */
  function MergeIds(ids: seq<string>, newIds: seq<string>): (merged: seq<string>)
    ensures |ids| <= |merged| && merged[..|ids|] == ids
  {
    ids + FreshIds(newIds, IdSet(ids))
  }

  /** The merge contains exactly the old and the new ids, and a duplicate-free list stays duplicate-free. */
  lemma MergeIdsSpec(ids: seq<string>, newIds: seq<string>)
    ensures IdSet(MergeIds(ids, newIds)) == IdSet(ids) + IdSet(newIds)
    ensures NoDuplicates(ids) ==> NoDuplicates(MergeIds(ids, newIds))
  {
    var added := FreshIds(newIds, IdSet(ids));
    FreshIdsSpec(newIds, IdSet(ids));
    assert IdSet(ids + added) == IdSet(ids) + IdSet(added);
    if NoDuplicates(ids) {
      NoDuplicatesAppend(ids, added);
    }
  }

  lemma EmptyIdSet(ids: seq<string>)
    ensures IdSet(ids) == {} <==> ids == []
  {
    if ids != [] {
      assert ids[0] in IdSet(ids);
    }
  }

  /** Ids that are all already present change nothing, so merging the same ids twice is merging them once. */
  lemma {:induction false} MergeIdsIdempotent(ids: seq<string>, newIds: seq<string>)
    ensures IdSet(newIds) <= IdSet(ids) ==> MergeIds(ids, newIds) == ids
    ensures MergeIds(MergeIds(ids, newIds), newIds) == MergeIds(ids, newIds)
  {
    FreshIdsSpec(newIds, IdSet(ids));
    var merged := MergeIds(ids, newIds);
    MergeIdsSpec(ids, newIds);
    FreshIdsSpec(newIds, IdSet(merged));
    EmptyIdSet(FreshIds(newIds, IdSet(merged)));
    EmptyIdSet(FreshIds(newIds, IdSet(ids)));
  }

  // ------------------------------------------------------------ recent reads

  /** The reviews of a log that decode and were submitted at or after `cutoff`, in log order. */
  function Recent(lines: seq<LogLine>, cutoff: Time): (rs: seq<Review>)
    ensures |rs| <= |lines|
    ensures forall i :: 0 <= i < |rs| ==> rs[i].submittedAt >= cutoff
  {
    if lines == [] then []
    else
      var earlier := Recent(lines[..|lines| - 1], cutoff);
      match ParseLine(lines[|lines| - 1])
      case Some(r) => if r.submittedAt >= cutoff then earlier + [r] else earlier
      case None => earlier
  }

  /** A review is recent exactly when it was written to the log and is not older than the cutoff (inclusive); corrupt lines contribute nothing. */
  lemma {:induction false} RecentMembers(lines: seq<LogLine>, cutoff: Time, r: Review)
    ensures r in Recent(lines, cutoff) <==> Encoded(r) in lines && r.submittedAt >= cutoff
  {
    if lines != [] {
      var init := lines[..|lines| - 1];
      RecentMembers(init, cutoff, r);
      assert lines == init + [lines[|lines| - 1]];
    }
  }

  /** Newest first: no review precedes a strictly newer one. */
  predicate NewestFirst(rs: seq<Review>)
  {
    forall i, j :: 0 <= i < j < |rs| ==> rs[i].submittedAt >= rs[j].submittedAt
  }

  /** `sort.Slice` with the "newer first" order, as an in-place insertion sort. */
  method SortNewestFirst(a: array<Review>)
    modifies a
    ensures NewestFirst(a[..])
    ensures multiset(a[..]) == old(multiset(a[..]))
  {
    for i := 0 to a.Length
      invariant NewestFirst(a[..i])
      invariant multiset(a[..]) == old(multiset(a[..]))
    {
      InsertNewest(a, i);
    }
    assert a[..a.Length] == a[..];
  }

  /** Moves a[i] left past every strictly older review, so that a[..i+1] is newest first. */
  method InsertNewest(a: array<Review>, i: nat)
    requires i < a.Length && NewestFirst(a[..i])
    modifies a
    ensures NewestFirst(a[..i + 1])
    ensures multiset(a[..]) == old(multiset(a[..]))
  {
    var j := i;
    while j > 0 && a[j - 1].submittedAt < a[j].submittedAt
      invariant 0 <= j <= i
      invariant forall p, q :: 0 <= p < q <= i && q != j ==> a[p].submittedAt >= a[q].submittedAt
      invariant forall q :: j < q <= i ==> a[j].submittedAt > a[q].submittedAt
      invariant multiset(a[..]) == old(multiset(a[..]))
    {
      a[j - 1], a[j] := a[j], a[j - 1];
      j := j - 1;
    }
  }

  // ----------------------------------------------------- the state document

  /** What reading the state file at start-up produced. */
  datatype StateFileRead =
    | OpenFailed                        // no file yet (any error opening it)
    | DecodeFailed                      // the file is there but is not a state document
    | Decoded(entries: Option<State>)   // None: the document has no entries

  /** `loadState` as NewFileStore uses it: an unopenable file means a fresh start, an undecodable one is an error. */
  function LoadState(read: StateFileRead): (r: Result<State, StoreError>)
    ensures r.Err? <==> read == DecodeFailed
    ensures read == OpenFailed ==> r == Ok(map[])
    ensures read.Decoded? && read.entries.Some? ==> r == Ok(read.entries.value)
    ensures read.Decoded? && read.entries.None? ==> r == Ok(map[])
  {
    match read
    case OpenFailed => Ok(map[])
    case DecodeFailed => Err(StateDecodeFailed)
    case Decoded(None) => Ok(map[])
    case Decoded(Some(entries)) => Ok(entries)
  }

  function SeenOf(entries: State, k: string): seq<string>
  {
    if k in entries then entries[k].seenIds else []
  }

  function LogOf(logs: map<string, seq<LogLine>>, k: string): seq<LogLine>
  {
    if k in logs then logs[k] else []
  }

  /** Everything the store holds: the in-memory state, the log files and the state file's last contents. */
  datatype StoreSnapshot = StoreSnapshot(entries: State, logs: map<string, seq<LogLine>>, persisted: State)

  /**
   * What AppendReviews does to the store under key k. The log gains one line per
   * review that reached the file; `logFault == Some(n)` stops after n of them and
   * leaves the state alone. Otherwise the new ids are merged into the seen list,
   * the last poll becomes `now`, and the state file is replaced unless `saveFails`.
   */
  function AppendEffect(s: StoreSnapshot, k: string, reviews: seq<Review>, newIds: seq<string>,
                        now: Time, logFault: Option<nat>, saveFails: bool): (r: (StoreSnapshot, Option<StoreError>))
    ensures var reached := if logFault.Some? && logFault.value < |reviews| then logFault.value else |reviews|;
            r.0.logs == s.logs[k := LogOf(s.logs, k) + EncodeAll(reviews[..reached])]
    ensures logFault.Some? ==>
              r.1 == Some(LogWriteFailed) && r.0.entries == s.entries && r.0.persisted == s.persisted
    ensures logFault.None? ==>
              && r.0.entries == s.entries[k := StateEntry(MergeIds(SeenOf(s.entries, k), newIds), now)]
              && r.1 == (if saveFails then Some(StateSaveFailed) else None)
              && r.0.persisted == if saveFails then s.persisted else r.0.entries
  {
    var reached := if logFault.Some? && logFault.value < |reviews| then logFault.value else |reviews|;
    var logs := s.logs[k := LogOf(s.logs, k) + EncodeAll(reviews[..reached])];
    if logFault.Some? then (s.(logs := logs), Some(LogWriteFailed))
    else
      var entries := s.entries[k := StateEntry(MergeIds(SeenOf(s.entries, k), newIds), now)];
      if saveFails then (StoreSnapshot(entries, logs, s.persisted), Some(StateSaveFailed))
      else (StoreSnapshot(entries, logs, entries), None)
  }

  /** The scan of ReadRecent: every line that decodes, kept when it is recent enough. */
  method ScanRecent(lines: seq<LogLine>, cutoff: Time) returns (out: seq<Review>)
    ensures out == Recent(lines, cutoff)
  {
    out := [];
    for i := 0 to |lines|
      invariant out == Recent(lines[..i], cutoff)
    {
      assert lines[..i + 1][..i] == lines[..i];
      match ParseLine(lines[i])
      case Some(rev) =>
        if rev.submittedAt >= cutoff {
          out := out + [rev];
        }
      case None =>
    }
    assert lines[..|lines|] == lines;
  }

  /** Any reordering of the recent reviews holds exactly the recent reviews. */
  lemma PermutationKeepsMembers(rs: seq<Review>, lines: seq<LogLine>, cutoff: Time)
    requires multiset(rs) == multiset(Recent(lines, cutoff))
    ensures forall x :: x in rs <==> Encoded(x) in lines && x.submittedAt >= cutoff
  {
    forall x
      ensures x in rs <==> Encoded(x) in lines && x.submittedAt >= cutoff
    {
      RecentMembers(lines, cutoff, x);
      assert x in rs <==> x in multiset(rs);
      assert x in Recent(lines, cutoff) <==> x in multiset(Recent(lines, cutoff));
    }
  }

  class FileStore {
    /** The in-memory state document. */
    var entries: State
    /** The review log files, by target key; a key without a file is absent. */
    var logs: map<string, seq<LogLine>>
    /** The state document as last written to disk. */
    ghost var persisted: State

    /** NewFileStore, given the state LoadState produced and the log files already on disk. */
    constructor (initial: State, files: map<string, seq<LogLine>>)
      ensures entries == initial && persisted == initial && logs == files
    {
      entries := initial;
      persisted := initial;
      logs := files;
    }

    ghost function Snapshot(): StoreSnapshot
      reads this
    {
      StoreSnapshot(entries, logs, persisted)
    }

    /** A copy of the target's seen ids as a set; empty for a target never polled. */
    method GetSeenSet(appId: string, country: string) returns (seen: set<string>)
      ensures forall id :: id in seen <==> id in SeenOf(entries, StoreKey(appId, country))
    {
      var k := StoreKey(appId, country);
      seen := {};
      if k in entries {
        var ids := entries[k].seenIds;
        for i := 0 to |ids|
          invariant seen == IdSet(ids[..i])
        {
          assert ids[..i + 1] == ids[..i] + [ids[i]];
          seen := seen + {ids[i]};
        }
        assert ids[..|ids|] == ids;
      }
    }

    /**
     * Appends the reviews to the target's log, then merges the new ids into its seen
     * list and records `now` as its last poll, then writes the state document.
     * `logFault == Some(n)`: writing the log fails after n of the reviews reached the
     * file, and the state is not touched. `saveFails`: the state file cannot be
     * replaced; the in-memory state keeps the update.
     */
    method AppendReviews(appId: string, country: string, reviews: seq<Review>, newIds: seq<string>,
                         now: Time, logFault: Option<nat>, saveFails: bool)
      returns (err: Option<StoreError>)
      modifies this
      ensures (Snapshot(), err) ==
              AppendEffect(old(Snapshot()), StoreKey(appId, country), reviews, newIds, now, logFault, saveFails)
    {
      var k := StoreKey(appId, country);
      // append the JSON lines
      var reached := if logFault.Some? && logFault.value < |reviews| then logFault.value else |reviews|;
      var log := LogOf(logs, k);
      for i := 0 to reached
        invariant log == LogOf(old(logs), k) + EncodeAll(reviews[..i])
      {
        assert EncodeAll(reviews[..i + 1]) == EncodeAll(reviews[..i]) + [Encoded(reviews[i])];
        log := log + [Encoded(reviews[i])];
      }
      logs := logs[k := log];
      if logFault.Some? {
        return Some(LogWriteFailed);
      }

      // update the state
      var ent := if k in entries then entries[k] else StateEntry([], ZeroTime);
      ent := ent.(lastPoll := now);
      var seen: set<string> := {};
      for i := 0 to |ent.seenIds|
        invariant seen == IdSet(ent.seenIds[..i])
      {
        assert ent.seenIds[..i + 1] == ent.seenIds[..i] + [ent.seenIds[i]];
        seen := seen + {ent.seenIds[i]};
      }
      assert ent.seenIds[..|ent.seenIds|] == ent.seenIds;
      var ids := ent.seenIds;
      for j := 0 to |newIds|
        invariant ids == ent.seenIds + FreshIds(newIds[..j], IdSet(ent.seenIds))
        invariant seen == IdSet(ids)
      {
        assert newIds[..j + 1][..j] == newIds[..j];
        if newIds[j] !in seen {
          ids := ids + [newIds[j]];
          seen := seen + {newIds[j]};
        }
      }
      assert newIds[..|newIds|] == newIds;
      entries := entries[k := ent.(seenIds := ids)];

      // SaveState: write a temporary file, then rename it over the state file
      if saveFails {
        return Some(StateSaveFailed);
      }
      persisted := entries;
      return None;
    }

    /**
     * The target's reviews submitted at or after `now - horizon`, newest first.
     * No log file yet: an empty list. `readFault`: the scanner stops with an error.
     */
    method ReadRecent(appId: string, country: string, now: Time, horizon: int, readFault: bool)
      returns (r: Result<seq<Review>, StoreError>)
      ensures var k := StoreKey(appId, country);
              && (k !in logs ==> r == Ok([]))
              && (k in logs && readFault ==> r == Err(LogReadFailed))
              && (k in logs && !readFault ==>
                    && r.Ok?
                    && NewestFirst(r.value)
                    && multiset(r.value) == multiset(Recent(logs[k], now - horizon))
                    && forall x :: x in r.value <==> Encoded(x) in logs[k] && x.submittedAt >= now - horizon)
    {
      var k := StoreKey(appId, country);
      if k !in logs {
        return Ok([]);
      }
      var lines := logs[k];
      var cutoff := now - horizon;
      var out := ScanRecent(lines, cutoff);
      if readFault {
        return Err(LogReadFailed);
      }
      var buf := new Review[|out|](j requires 0 <= j < |out| => out[j]);
      assert buf[..] == out;
      SortNewestFirst(buf);
      PermutationKeepsMembers(buf[..], lines, cutoff);
      return Ok(buf[..]);
    }

    /** The target's last poll instant, if it was ever recorded. */
    function LastPoll(appId: string, country: string): (r: Option<Time>)
      reads this
      ensures var k := StoreKey(appId, country);
              r.Some? <==> k in entries && entries[k].lastPoll != ZeroTime
      ensures r.Some? ==> r.value == entries[StoreKey(appId, country)].lastPoll
    {
      var k := StoreKey(appId, country);
      if k !in entries || entries[k].lastPoll == ZeroTime then None else Some(entries[k].lastPoll)
    }
  }
}
