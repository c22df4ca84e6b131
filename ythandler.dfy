/**
  internal/server/ytHandler.go: the playlist import. The outbound request
  to the YouTube Data API and the JSON decoding are not modelled; their
  result arrives as a `Fetch` value, either the decoded items or a failure
  at one of the four stages (building the request, sending it, reading the
  body, decoding it).
 */
module YtHandler {
  import opened Models
  import opened Database

  /** The outcome of the upstream call, as far as the handler sees it. */
  datatype Fetch = Decoded(items: seq<Item>) | FetchFailed

  /** What the handler answers. */
  datatype Reply =
    | ItemsJson(items: seq<Item>)   // 200, the decoded items re-encoded
    | RequestFailed                 // 500, "Failed to create request"

  function ReplyStatus(r: Reply): int {
    if r.ItemsJson? then 200 else 500
  }

  /**
    The record the loop builds from one playlist item: every field is copied
    except the id, which stays 0 (the table assigns it).
   */
  function ToDbSnippet(item: Item): (s: Snippet)
    ensures s.id == 0
    ensures s.(id := item.snippet.id) == item.snippet
  {
    var src := item.snippet;
    Snippet(0, src.publishedAt, src.title, src.description,
            Thumbnails(src.thumbnails.default, src.thumbnails.medium),
            src.resourceId, src.videoOwnerChannelTitle)
  }

  /** The batch the loop saves, in playlist order. */
  function ToDbSnippets(items: seq<Item>): seq<Snippet> {
    seq(|items|, i requires 0 <= i < |items| => ToDbSnippet(items[i]))
  }

  /** The `video_id` a snippet is stored under. */
  function VideoIdOf(s: Snippet): string {
    s.resourceId.videoId
  }

  /**
    Saving a batch one snippet after the other: the table afterwards and,
    per snippet, whether its save succeeded (false is the logged failure).
   */
  function SaveAll(st: Store, batch: seq<Snippet>): (r: (Store, seq<bool>))
    requires WellFormed(st)
    ensures WellFormed(r.0)
    ensures |r.1| == |batch|
    decreases |batch|
  {
    if batch == [] then (st, [])
    else
      var prev := SaveAll(st, batch[..|batch| - 1]);
      var step := Insert(prev.0, Columns(batch[|batch| - 1]));
      (step.0, prev.1 + [step.1])
  }

  /** The batch saved up to snippet `i`, extended by snippet `i`. */
  lemma SaveAllPrefix(st: Store, batch: seq<Snippet>, i: int)
    requires WellFormed(st) && 0 <= i < |batch|
    ensures var prev := SaveAll(st, batch[..i]);
      var step := Insert(prev.0, Columns(batch[i]));
      SaveAll(st, batch[..i + 1]) == (step.0, prev.1 + [step.1])
  {
    assert batch[..i + 1][..i] == batch[..i];
  }

  /** The loop's step, on the values the loop holds. */
  lemma SaveAllStep(st: Store, batch: seq<Snippet>, i: int, prev: Store, saved: seq<bool>, next: Store, ok: bool)
    requires WellFormed(st) && 0 <= i < |batch|
    requires (prev, saved) == SaveAll(st, batch[..i])
    requires WellFormed(prev) && (next, ok) == Insert(prev, Columns(batch[i]))
    ensures (next, saved + [ok]) == SaveAll(st, batch[..i + 1])
  {
    SaveAllPrefix(st, batch, i);
  }

  /** The `video_id`s a batch carries. */
  function BatchIds(batch: seq<Snippet>): set<string> {
    set i | 0 <= i < |batch| :: VideoIdOf(batch[i])
  }

  /** No earlier snippet of the batch has the same `video_id` as snippet `i`. */
  predicate FirstOccurrence(batch: seq<Snippet>, i: int)
    requires 0 <= i < |batch|
  {
    forall j :: 0 <= j < i ==> VideoIdOf(batch[j]) != VideoIdOf(batch[i])
  }

  /** The number of successful saves. */
  function CountSaved(saved: seq<bool>): nat {
    if saved == [] then 0
    else CountSaved(saved[..|saved| - 1]) + (if saved[|saved| - 1] then 1 else 0)
  }

  /** The columns of the snippets whose save succeeded. */
  function SavedRows(batch: seq<Snippet>, saved: seq<bool>): set<VideoRow>
    requires |saved| == |batch|
  {
    set i | 0 <= i < |batch| && saved[i] :: Columns(batch[i])
  }

  lemma BatchIdsSnoc(batch: seq<Snippet>)
    requires batch != []
    ensures BatchIds(batch) == BatchIds(batch[..|batch| - 1]) + {VideoIdOf(batch[|batch| - 1])}
  {
  }

  /** After the batch, the table holds the `video_id`s it held plus every one the batch carried. */
  lemma {:induction false} SaveAllVideoIds(st: Store, batch: seq<Snippet>)
    requires WellFormed(st)
    ensures VideoIds(SaveAll(st, batch).0.rows) == VideoIds(st.rows) + BatchIds(batch)
    decreases |batch|
  {
    if batch == [] {
      assert BatchIds(batch) == {};
    } else {
      SaveAllVideoIds(st, batch[..|batch| - 1]);
      BatchIdsSnoc(batch);
    }
  }

  /** A snippet is a first occurrence exactly when no earlier snippet carries its `video_id`. */
  lemma FirstOccurrenceNotEarlier(batch: seq<Snippet>, i: int)
    requires 0 <= i < |batch|
    ensures FirstOccurrence(batch, i) <==> VideoIdOf(batch[i]) !in BatchIds(batch[..i])
  {
  }

  /** Whether snippet `i` was saved is settled once the loop has passed it. */
  lemma SaveAllStable(st: Store, batch: seq<Snippet>, i: int, k: int)
    requires WellFormed(st) && 0 <= i < k <= |batch|
    ensures SaveAll(st, batch[..k]).1[i] == SaveAll(st, batch[..i + 1]).1[i]
  {
    OutcomesPrefix(st, batch, i + 1, k);
  }

  /** Saving further snippets leaves the outcomes of the earlier ones as they were. */
  lemma {:induction false} OutcomesPrefix(st: Store, batch: seq<Snippet>, j: int, k: int)
    requires WellFormed(st) && 0 <= j <= k <= |batch|
    ensures SaveAll(st, batch[..k]).1[..j] == SaveAll(st, batch[..j]).1
    decreases k
  {
    if k > j {
      OutcomesPrefix(st, batch, j, k - 1);
      OutcomesStep(st, batch, k - 1);
      PrefixOfPrefix(SaveAll(st, batch[..k]).1, SaveAll(st, batch[..k - 1]).1, j);
    }
  }

  /** One more save leaves the outcomes of the earlier ones as they were. */
  lemma OutcomesStep(st: Store, batch: seq<Snippet>, j: int)
    requires WellFormed(st) && 0 <= j < |batch|
    ensures SaveAll(st, batch[..j + 1]).1[..j] == SaveAll(st, batch[..j]).1
  {
    SaveAllPrefix(st, batch, j);
  }

  /** A prefix of a prefix is a prefix. */
  lemma PrefixOfPrefix(a: seq<bool>, b: seq<bool>, j: int)
    requires 0 <= j <= |b| <= |a| && a[..|b|] == b
    ensures a[..j] == b[..j]
  {
  }

  /** The save of snippet `i`, as the loop reaches it. */
  lemma SaveAllOutcomeAt(st: Store, batch: seq<Snippet>, i: int)
    requires WellFormed(st) && 0 <= i < |batch|
    ensures SaveAll(st, batch[..i + 1]).1[i]
      <==> VideoIdOf(batch[i]) !in VideoIds(st.rows) && FirstOccurrence(batch, i)
  {
    SaveAllPrefix(st, batch, i);
    SaveAllVideoIds(st, batch[..i]);
    FirstOccurrenceNotEarlier(batch, i);
  }

  /**
    Snippet `i`'s save succeeds exactly when its `video_id` was not in the
    table before the batch and no earlier snippet of the batch carried it:
    a duplicate fails, and the loop goes on to the next snippet.
   */
  lemma SaveAllOutcome(st: Store, batch: seq<Snippet>)
    requires WellFormed(st)
    ensures forall i :: 0 <= i < |batch| ==>
      (SaveAll(st, batch).1[i] <==> VideoIdOf(batch[i]) !in VideoIds(st.rows) && FirstOccurrence(batch, i))
  {
    forall i | 0 <= i < |batch|
      ensures SaveAll(st, batch).1[i] <==> VideoIdOf(batch[i]) !in VideoIds(st.rows) && FirstOccurrence(batch, i)
    {
      SaveAllStable(st, batch, i, |batch|);
      SaveAllOutcomeAt(st, batch, i);
      assert batch[..|batch|] == batch;
    }
  }

  /** The table grows by exactly the number of successful saves. */
  lemma {:induction false} SaveAllCount(st: Store, batch: seq<Snippet>)
    requires WellFormed(st)
    ensures |SaveAll(st, batch).0.rows| == |st.rows| + CountSaved(SaveAll(st, batch).1)
    decreases |batch|
  {
    if batch != [] {
      var prefix := batch[..|batch| - 1];
      SaveAllCount(st, prefix);
      var saved := SaveAll(st, batch).1;
      assert saved[..|saved| - 1] == SaveAll(st, prefix).1;
    }
  }

  /** Rows present before the batch are still there, unchanged; the sequence never goes back. */
  lemma {:induction false} SaveAllKeepsRows(st: Store, batch: seq<Snippet>)
    requires WellFormed(st)
    ensures var st' := SaveAll(st, batch).0;
      && st.lastId <= st'.lastId
      && forall id :: id in st.rows ==> id in st'.rows && st'.rows[id] == st.rows[id]
    decreases |batch|
  {
    if batch != [] {
      SaveAllKeepsRows(st, batch[..|batch| - 1]);
    }
  }

  /** The rows of a table, without their ids. */
  function Contents(rows: Rows): set<VideoRow> {
    set id | id in rows :: rows[id]
  }

  /** Storing a row under a fresh id adds exactly that row to the table's contents. */
  lemma FreshKeyContents(rows: Rows, id: int, row: VideoRow)
    requires id !in rows
    ensures Contents(rows[id := row]) == Contents(rows) + {row}
  {
    var rows' := rows[id := row];
    forall v | v in Contents(rows') ensures v in Contents(rows) + {row} {
      var k :| k in rows' && rows'[k] == v;
      if k != id {
        assert rows[k] == v;
      }
    }
    forall v | v in Contents(rows) ensures v in Contents(rows') {
      var k :| k in rows && rows[k] == v;
      assert rows'[k] == v;
    }
    assert rows'[id] == row;
  }

  /** One insert adds its row to the table's contents, or nothing. */
  lemma InsertContents(st: Store, row: VideoRow)
    requires WellFormed(st)
    ensures var r := Insert(st, row);
      Contents(r.0.rows) == Contents(st.rows) + (if r.1 then {row} else {})
  {
    if row.videoId !in VideoIds(st.rows) {
      FreshKeyContents(st.rows, st.lastId + 1, row);
    }
  }

  lemma SavedRowsSnoc(batch: seq<Snippet>, saved: seq<bool>)
    requires |saved| == |batch| && batch != []
    ensures var n := |batch| - 1;
      SavedRows(batch, saved)
      == SavedRows(batch[..n], saved[..n]) + (if saved[n] then {Columns(batch[n])} else {})
  {
  }

  /**
    After the batch the table's rows are exactly the rows it had plus the
    columns of every snippet whose save succeeded: nothing else is written.
   */
  lemma {:induction false} SaveAllRows(st: Store, batch: seq<Snippet>)
    requires WellFormed(st)
    ensures var r := SaveAll(st, batch);
      Contents(r.0.rows) == Contents(st.rows) + SavedRows(batch, r.1)
    decreases |batch|
  {
    if batch == [] {
      assert SavedRows(batch, []) == {};
    } else {
      SaveAllRows(st, batch[..|batch| - 1]);
      ContentsStep(st, batch);
      SavedRowsSnoc(batch, SaveAll(st, batch).1);
    }
  }

  /** The last save of a batch adds its row to the contents, or nothing, and leaves the earlier outcomes alone. */
  lemma ContentsStep(st: Store, batch: seq<Snippet>)
    requires WellFormed(st) && batch != []
    ensures var n := |batch| - 1;
      var r := SaveAll(st, batch);
      && Contents(r.0.rows) == Contents(SaveAll(st, batch[..n]).0.rows) + (if r.1[n] then {Columns(batch[n])} else {})
      && r.1[..n] == SaveAll(st, batch[..n]).1
  {
    InsertContents(SaveAll(st, batch[..|batch| - 1]).0, Columns(batch[|batch| - 1]));
  }

  /** A table with no gaps in its ids has none after a batch either. */
  lemma {:induction false} SaveAllKeepsDense(st: Store, batch: seq<Snippet>)
    requires WellFormed(st) && Dense(st)
    ensures Dense(SaveAll(st, batch).0)
    decreases |batch|
  {
    if batch != [] {
      var prev := SaveAll(st, batch[..|batch| - 1]);
      SaveAllKeepsDense(st, batch[..|batch| - 1]);
      InsertKeepsDense(prev.0, Columns(batch[|batch| - 1]));
    }
  }

  lemma {:induction false} CountAllSaved(saved: seq<bool>)
    requires forall i :: 0 <= i < |saved| ==> saved[i]
    ensures CountSaved(saved) == |saved|
    decreases |saved|
  {
    if saved != [] {
      CountAllSaved(saved[..|saved| - 1]);
    }
  }

  /**
    Importing a playlist of N distinct videos into an empty table saves
    every one of them, and the table then counts N videos.
   */
  lemma DistinctBatchIntoEmptyTable(batch: seq<Snippet>)
    requires forall i, j :: 0 <= i < j < |batch| ==> VideoIdOf(batch[i]) != VideoIdOf(batch[j])
    ensures var r := SaveAll(EmptyStore, batch);
      && (forall i :: 0 <= i < |batch| ==> r.1[i])
      && GetTotalVideos(r.0.rows) == |batch|
  {
    var saved := SaveAll(EmptyStore, batch).1;
    SaveAllOutcome(EmptyStore, batch);
    forall i | 0 <= i < |batch| ensures saved[i] {
      assert FirstOccurrence(batch, i);
    }
    SaveAllCount(EmptyStore, batch);
    CountAllSaved(saved);
  }

  /**
    `FetchAndStorePlaylistItems` once the upstream call has produced its
    outcome. `saved` records, per item, whether its save succeeded.
   */
  method FetchAndStorePlaylistItems(fetched: Fetch, table: VideoTable) returns (reply: Reply, saved: seq<bool>)
    requires table.Valid()
    modifies table
    ensures table.Valid()
    ensures fetched.FetchFailed? ==>
      reply == RequestFailed && saved == [] && table.State() == old(table.State())
    ensures fetched.Decoded? ==>
      && reply == ItemsJson(fetched.items)
      && (table.State(), saved) == SaveAll(old(table.State()), ToDbSnippets(fetched.items))
    ensures ReplyStatus(reply) == if fetched.FetchFailed? then 500 else 200
    ensures old(Dense(table.State())) ==> Dense(table.State())
  {
    saved := [];
    if fetched.FetchFailed? {
      return RequestFailed, saved;
    }
    var items := fetched.items;
    ghost var batch := ToDbSnippets(items);
    ghost var before := table.State();
    var i := 0;
    while i < |items|
      invariant 0 <= i <= |items|
      invariant table.Valid()
      invariant (table.State(), saved) == SaveAll(before, batch[..i])
    {
      ghost var prev := table.State();
      var ok := table.SaveVideo(ToDbSnippet(items[i]));
      SaveAllStep(before, batch, i, prev, saved, table.State(), ok);
      saved := saved + [ok];
      i := i + 1;
    }
    assert batch[..i] == batch;
    if Dense(before) {
      SaveAllKeepsDense(before, batch);
    }
    reply := ItemsJson(items);
  }
}
