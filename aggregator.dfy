/** The collecting loop of `search_leads`: the ids are dispatched in chunks of 100, each
    chunk's result is merged into `lead_data` as it completes, an intermediate report is
    saved whenever the running total is an exact multiple of 10000, and whatever is left is
    saved at the end. Completion order and worker failures are inputs: `cs[i]` is the i-th
    result to complete, `None` when `future.result()` raised. */
module Aggregator {
  import opened PyText
  import opened PyDict
  import opened Batches
  import opened Enrichment
  import opened Report

  /** An intermediate report is written whenever the running total is a multiple of this. */
  const FlushEvery: nat := 10000

  /** One call of `save_to_txt`: the number in the file name, the records handed over, and
      what the file holds when the call returns or raises. */
  datatype Write = Write(fileNo: nat, data: ODict<Fields>, file: Saved)

  /** `lead_data`, `total_processed`, `file_count`, and the files written so far. */
  datatype Progress = Progress(buffer: ODict<Fields>, total: nat, fileCount: nat, written: seq<Write>)

  function Start(): Progress
  {
    Progress(Empty(), 0, 1, [])
  }

  /** `if chunk_data:` — a result that completed and holds at least one record. */
  predicate Arrived(c: Option<ODict<Fields>>)
  {
    c.Some? && |c.value.keys| > 0
  }

  /** `len(chunk_data)` for a result that arrived, nothing otherwise. */
  function Size(c: Option<ODict<Fields>>): nat
  {
    if Arrived(c) then |c.value.keys| else 0
  }

  ghost predicate ChunksValid(cs: seq<Option<ODict<Fields>>>)
  {
    forall i :: 0 <= i < |cs| && cs[i].Some? ==> Valid(cs[i].value)
  }

  lemma PrefixValid(cs: seq<Option<ODict<Fields>>>, n: nat)
    requires ChunksValid(cs) && n <= |cs|
    ensures ChunksValid(cs[..n])
  {
    forall i | 0 <= i < n && cs[..n][i].Some?
      ensures Valid(cs[..n][i].value)
    {
      assert cs[..n][i] == cs[i];
    }
  }

  /** What `save_to_txt` leaves in the file for the buffer it is handed. */
  type Saver = ODict<Fields> --> Saved

  /** The save accepts every well-formed buffer. */
  ghost predicate Accepts(save: Saver)
  {
    forall d :: Valid(d) ==> save.requires(d)
  }

  /** The save completes every well-formed buffer whose records all render. */
  ghost predicate CompletesShaped(save: Saver)
  {
    forall d :: Valid(d) && Shaped(d) ==> save.requires(d) && save(d).complete
  }

  predicate Shaped(d: ODict<Fields>)
  {
    forall k :: k in d.vals ==> WellShaped(d.vals[k])
  }

  /** `save_to_txt` takes any well-formed buffer. */
  lemma ReportAccepts()
    ensures Accepts(SaveSpec)
  {
    forall d | Valid(d)
      ensures SaveSpec.requires(d)
    {
      assert forall k :: k in d.keys ==> k in d.vals;
    }
  }

  /** `save_to_txt` takes any well-formed buffer and completes it when its records render. */
  lemma ReportSaver()
    ensures Accepts(SaveSpec) && CompletesShaped(SaveSpec)
  {
    ReportAccepts();
    forall d | Valid(d) && Shaped(d)
      ensures SaveSpec(d).complete
    {
      SaveComplete(d);
    }
  }

  /** `lead_data.update(chunk_data)` and `total_processed += len(chunk_data)`. */
  function Merge(p: Progress, c: ODict<Fields>): (r: Progress)
    requires Valid(p.buffer) && Valid(c)
    ensures Valid(r.buffer)
  {
    UpdateSpec(p.buffer, c);
    Progress(Update(p.buffer, c), p.total + |c.keys|, p.fileCount, p.written)
  }

  /** `if total_processed % 10000 == 0:` save the buffer as file `file_count`; a save that
      raises is caught by the per-chunk handler, so the partial file stays, the buffer is
      not cleared and `file_count` is not advanced. */
  function Checkpoint(save: Saver, p: Progress): (r: Progress)
    requires Accepts(save) && Valid(p.buffer)
    ensures Valid(r.buffer)
  {
    if p.total % FlushEvery != 0 then p
    else
      var file := save(p.buffer);
      var written := p.written + [Write(p.fileCount, p.buffer, file)];
      if file.complete then Progress(Empty(), p.total, p.fileCount + 1, written)
      else p.(written := written)
  }

  /** The checkpoint once the save has produced `file`. */
  lemma CheckpointSaves(save: Saver, p: Progress, file: Saved)
    requires Accepts(save) && Valid(p.buffer) && p.total % FlushEvery == 0 && file == save(p.buffer)
    ensures file.complete ==>
      Checkpoint(save, p) == Progress(Empty(), p.total, p.fileCount + 1, p.written + [Write(p.fileCount, p.buffer, file)])
    ensures !file.complete ==> Checkpoint(save, p) == p.(written := p.written + [Write(p.fileCount, p.buffer, file)])
  {
  }

  /** One pass of the `for future in as_completed(futures)` body. */
  function Step(save: Saver, p: Progress, c: Option<ODict<Fields>>): (r: Progress)
    requires Accepts(save) && Valid(p.buffer) && (c.Some? ==> Valid(c.value))
    ensures Valid(r.buffer)
  {
    if !Arrived(c) then p else Checkpoint(save, Merge(p, c.value))
  }

  /** The loop over results in completion order. */
  function Run(save: Saver, p: Progress, cs: seq<Option<ODict<Fields>>>): (r: Progress)
    requires Accepts(save) && Valid(p.buffer) && ChunksValid(cs)
    ensures Valid(r.buffer)
  {
    if cs == [] then p
    else
      PrefixValid(cs, |cs| - 1);
      Step(save, Run(save, p, cs[..|cs| - 1]), cs[|cs| - 1])
  }

  /** `if lead_data:` the final report, written once after the loop. */
  function Finish(save: Saver, p: Progress): Progress
    requires Accepts(save) && Valid(p.buffer)
  {
    if |p.buffer.keys| > 0 then p.(written := p.written + [Write(p.fileCount, p.buffer, save(p.buffer))])
    else p
  }

  // ----- what a step does -----

  /** An empty or failed result changes nothing. One that arrives is merged with
      `dict.update` (its records overwrite, its new ids go last) and counted; then, exactly
      when the new total is a multiple of 10000, the merged buffer is saved as file
      `file_count`, and only a save that completes clears the buffer and advances the count. */
  lemma StepSpec(save: Saver, p: Progress, c: Option<ODict<Fields>>)
    requires Accepts(save) && Valid(p.buffer) && (c.Some? ==> Valid(c.value))
    ensures !Arrived(c) ==> Step(save, p, c) == p
    ensures Arrived(c) ==> Step(save, p, c).total == p.total + |c.value.keys|
    ensures Arrived(c) ==>
      var merged := Update(p.buffer, c.value);
      var r := Step(save, p, c);
      && Valid(merged)
      && merged.keys == p.buffer.keys + NewKeys(c.value.keys, p.buffer.vals.Keys)
      && merged.vals == p.buffer.vals + c.value.vals
      && (r.total % FlushEvery != 0 ==> r == Progress(merged, r.total, p.fileCount, p.written))
      && (r.total % FlushEvery == 0 ==>
            && r.written == p.written + [Write(p.fileCount, merged, save(merged))]
            && (save(merged).complete ==> r.buffer == Empty() && r.fileCount == p.fileCount + 1)
            && (!save(merged).complete ==> r.buffer == merged && r.fileCount == p.fileCount))
  {
    if Arrived(c) {
      UpdateSpec(p.buffer, c.value);
    }
  }

  // ----- totals and flush counts -----

  /** The counters alone: the total grows by the arrived size, and the written files and
      the file count move only when a result lands the total on a multiple of 10000. */
  lemma StepCounts(save: Saver, p: Progress, c: Option<ODict<Fields>>)
    requires Accepts(save) && Valid(p.buffer) && (c.Some? ==> Valid(c.value))
    ensures Step(save, p, c).total == p.total + Size(c)
    ensures Arrived(c) && Step(save, p, c).total % FlushEvery == 0 ==>
      |Step(save, p, c).written| == |p.written| + 1 && p.written <= Step(save, p, c).written
    ensures !(Arrived(c) && Step(save, p, c).total % FlushEvery == 0) ==>
      Step(save, p, c).written == p.written && Step(save, p, c).fileCount == p.fileCount
  {
  }

  /** The sum of `len(chunk_data)` over the results that arrived. */
  function Arrivals(cs: seq<Option<ODict<Fields>>>): nat
  {
    if cs == [] then 0 else Arrivals(cs[..|cs| - 1]) + Size(cs[|cs| - 1])
  }

  /** The number of results after which the running total, started at `t0`, is an exact
      multiple of 10000. */
  function Flushes(t0: nat, cs: seq<Option<ODict<Fields>>>): nat
  {
    if cs == [] then 0
    else Flushes(t0, cs[..|cs| - 1]) + (if Arrived(cs[|cs| - 1]) && (t0 + Arrivals(cs)) % FlushEvery == 0 then 1 else 0)
  }

  /** `total_processed` is the sum of the arrived sizes; one save happens per result that
      lands the total on a multiple of 10000, and earlier saves are never undone. */
  lemma {:induction false} RunCounts(save: Saver, p: Progress, cs: seq<Option<ODict<Fields>>>)
    requires Accepts(save) && Valid(p.buffer) && ChunksValid(cs)
    ensures Run(save, p, cs).total == p.total + Arrivals(cs)
    ensures |Run(save, p, cs).written| == |p.written| + Flushes(p.total, cs)
    ensures p.written <= Run(save, p, cs).written
  {
    if cs != [] {
      var init := cs[..|cs| - 1];
      PrefixValid(cs, |cs| - 1);
      RunCounts(save, p, init);
      StepCounts(save, Run(save, p, init), cs[|cs| - 1]);
    }
  }

  // ----- file numbering -----

  /** The number of saves that completed. */
  function Completed(ws: seq<Write>): nat
  {
    if ws == [] then 0 else Completed(ws[..|ws| - 1]) + (if ws[|ws| - 1].file.complete then 1 else 0)
  }

  /** `file_count` is one more than the completed saves, and each save carried the number
      current when it started. */
  predicate Numbered(p: Progress)
  {
    && p.fileCount == 1 + Completed(p.written)
    && forall j :: 0 <= j < |p.written| ==> p.written[j].fileNo == 1 + Completed(p.written[..j])
  }

  /** A step either leaves the files and the count alone, or appends one file numbered
      with the current count and advances the count exactly when that file completed. */
  lemma StepWrites(save: Saver, p: Progress, c: Option<ODict<Fields>>)
    requires Accepts(save) && Valid(p.buffer) && (c.Some? ==> Valid(c.value))
    ensures var r := Step(save, p, c);
      || (r.written == p.written && r.fileCount == p.fileCount)
      || (&& |r.written| == |p.written| + 1 && r.written[..|p.written|] == p.written
          && r.written[|p.written|].fileNo == p.fileCount
          && r.fileCount == p.fileCount + (if r.written[|p.written|].file.complete then 1 else 0))
  {
    if Arrived(c) {
      var m := Merge(p, c.value);
      if m.total % FlushEvery == 0 {
        CheckpointSaves(save, m, save(m.buffer));
        var r := Step(save, p, c);
        assert r.written[..|p.written|] == p.written;
      }
    }
  }

  /** Appending a file numbered with the current count keeps the numbering. */
  lemma NumberedAppend(q: Progress, r: Progress)
    requires Numbered(q)
    requires |r.written| == |q.written| + 1 && r.written[..|q.written|] == q.written
    requires r.written[|q.written|].fileNo == q.fileCount
    requires r.fileCount == q.fileCount + (if r.written[|q.written|].file.complete then 1 else 0)
    ensures Numbered(r)
  {
    forall j | 0 <= j < |r.written|
      ensures r.written[j].fileNo == 1 + Completed(r.written[..j])
    {
      if j < |q.written| {
        assert r.written[..j] == q.written[..j];
      }
    }
  }

  lemma {:induction false} RunNumbered(save: Saver, p: Progress, cs: seq<Option<ODict<Fields>>>)
    requires Accepts(save) && Valid(p.buffer) && ChunksValid(cs) && Numbered(p)
    ensures Numbered(Run(save, p, cs))
  {
    if cs != [] {
      var init := cs[..|cs| - 1];
      PrefixValid(cs, |cs| - 1);
      RunNumbered(save, p, init);
      var q := Run(save, p, init);
      var c := cs[|cs| - 1];
      StepWrites(save, q, c);
      var r := Step(save, q, c);
      if r.written != q.written {
        NumberedAppend(q, r);
      }
    }
  }

  // ----- nothing is lost -----

  /** The ids of every record handed to `save_to_txt`. */
  function WrittenIds(ws: seq<Write>): set<int>
  {
    if ws == [] then {} else WrittenIds(ws[..|ws| - 1]) + ws[|ws| - 1].data.vals.Keys
  }

  /** The ids of every record that arrived. */
  function Received(cs: seq<Option<ODict<Fields>>>): set<int>
  {
    if cs == [] then {}
    else Received(cs[..|cs| - 1]) + (if cs[|cs| - 1].Some? then cs[|cs| - 1].value.vals.Keys else {})
  }

  /** Every id that arrived is either in a saved batch or still in the buffer, and nothing
      else is: a save that raises keeps its batch buffered. */
  lemma {:induction false} RunKeepsIds(save: Saver, p: Progress, cs: seq<Option<ODict<Fields>>>)
    requires Accepts(save) && Valid(p.buffer) && ChunksValid(cs)
    ensures WrittenIds(Run(save, p, cs).written) + Run(save, p, cs).buffer.vals.Keys
         == WrittenIds(p.written) + p.buffer.vals.Keys + Received(cs)
  {
    if cs != [] {
      var init := cs[..|cs| - 1];
      PrefixValid(cs, |cs| - 1);
      RunKeepsIds(save, p, init);
      StepKeepsIds(save, Run(save, p, init), cs[|cs| - 1]);
    }
  }

  /** One step: the arrived ids join the buffer, and a save moves the buffer's ids into
      the files, clearing the buffer only when it completed. */
  lemma StepKeepsIds(save: Saver, p: Progress, c: Option<ODict<Fields>>)
    requires Accepts(save) && Valid(p.buffer) && (c.Some? ==> Valid(c.value))
    ensures WrittenIds(Step(save, p, c).written) + Step(save, p, c).buffer.vals.Keys
         == WrittenIds(p.written) + p.buffer.vals.Keys + (if c.Some? then c.value.vals.Keys else {})
  {
    if c.Some? && !Arrived(c) {
      EmptyKeys(c.value);
    }
    if Arrived(c) {
      var m := Merge(p, c.value);
      UpdateSpec(p.buffer, c.value);
      if m.total % FlushEvery == 0 {
        var file := save(m.buffer);
        CheckpointSaves(save, m, file);
        var ws := m.written + [Write(m.fileCount, m.buffer, file)];
        assert ws[..|ws| - 1] == m.written;
        assert WrittenIds(ws) == WrittenIds(p.written) + m.buffer.vals.Keys;
      }
    }
  }

  /** The final save hands over exactly what is left, when anything is. */
  lemma FinishSpec(save: Saver, p: Progress)
    requires Accepts(save) && Valid(p.buffer)
    ensures WrittenIds(Finish(save, p).written) == WrittenIds(p.written) + p.buffer.vals.Keys
    ensures |Finish(save, p).written| == |p.written| + (if p.buffer.vals == map[] then 0 else 1)
  {
    EmptyKeys(p.buffer);
    if |p.buffer.keys| > 0 {
      assert Finish(save, p).written[..|Finish(save, p).written| - 1] == p.written;
    }
  }

  /** Over a whole run, the records handed to `save_to_txt` are exactly those that arrived. */
  lemma NothingLost(save: Saver, cs: seq<Option<ODict<Fields>>>)
    requires Accepts(save) && ChunksValid(cs)
    ensures WrittenIds(Finish(save, Run(save, Start(), cs)).written) == Received(cs)
  {
    RunKeepsIds(save, Start(), cs);
    FinishSpec(save, Run(save, Start(), cs));
  }

  // ----- when saves complete -----

  ghost predicate ChunksShaped(cs: seq<Option<ODict<Fields>>>)
  {
    forall i :: 0 <= i < |cs| && cs[i].Some? ==> Valid(cs[i].value) && Shaped(cs[i].value)
  }

  /** When every record that arrives renders, every save of the run completes. */
  lemma {:induction false} RunCompletes(save: Saver, p: Progress, cs: seq<Option<ODict<Fields>>>)
    requires Accepts(save) && CompletesShaped(save)
    requires Valid(p.buffer) && Shaped(p.buffer) && ChunksShaped(cs)
    ensures ChunksValid(cs)
    ensures Shaped(Run(save, p, cs).buffer)
    ensures forall j :: |p.written| <= j < |Run(save, p, cs).written| ==> Run(save, p, cs).written[j].file.complete
  {
    if cs != [] {
      var init := cs[..|cs| - 1];
      assert ChunksShaped(init) by {
        forall i | 0 <= i < |init| && init[i].Some?
          ensures Valid(init[i].value) && Shaped(init[i].value)
        {
          assert init[i] == cs[i];
        }
      }
      RunCompletes(save, p, init);
      RunCounts(save, p, init);
      var q := Run(save, p, init);
      var c := cs[|cs| - 1];
      StepSpec(save, q, c);
      if Arrived(c) {
        assert Shaped(Update(q.buffer, c.value));
      }
    }
  }

  lemma {:induction false} CompletedAll(ws: seq<Write>)
    requires forall j :: 0 <= j < |ws| ==> ws[j].file.complete
    ensures Completed(ws) == |ws|
  {
    if ws != [] {
      CompletedAll(ws[..|ws| - 1]);
    }
  }

  /** From the start, with every record rendering: every file written (the final one too)
      is complete, file `j` carries the number `j + 1`, and the ids in the files are the ids
      that arrived. */
  lemma CleanRun(save: Saver, cs: seq<Option<ODict<Fields>>>)
    requires Accepts(save) && CompletesShaped(save) && ChunksShaped(cs)
    ensures ChunksValid(cs)
    ensures var ws := Finish(save, Run(save, Start(), cs)).written;
      && WrittenIds(ws) == Received(cs)
      && forall j :: 0 <= j < |ws| ==> ws[j].file.complete && ws[j].fileNo == j + 1
  {
    RunCompletes(save, Start(), cs);
    RunNumbered(save, Start(), cs);
    NothingLost(save, cs);
    var p := Run(save, Start(), cs);
    var ws := Finish(save, p).written;
    forall j | 0 <= j < |ws|
      ensures ws[j].file.complete && ws[j].fileNo == j + 1
    {
      if j < |p.written| {
        CompletedAll(p.written[..j]);
      } else {
        CompletedAll(p.written);
      }
    }
  }

  // ----- runs that never flush -----

  lemma FlushImpliesFullChunks(t: nat)
    requires t % FlushEvery == 0
    ensures t % DispatchChunk == 0
  {
    var q := t / FlushEvery;
    assert t == FlushEvery * q;
    assert t == DispatchChunk * (100 * q);
  }

  /** A running total that is not a multiple of 100 stays so while every later result has
      a multiple of 100 records, so it never lands on a multiple of 10000 and nothing is
      saved. */
  lemma SkipsEveryMultiple(save: Saver, p: Progress, cs: seq<Option<ODict<Fields>>>)
    requires Accepts(save) && Valid(p.buffer) && ChunksValid(cs) && |cs| >= 1
    requires (p.total + Size(cs[0])) % DispatchChunk != 0
    requires forall i :: 1 <= i < |cs| ==> Size(cs[i]) % DispatchChunk == 0
    ensures Run(save, p, cs).written == p.written
    ensures Run(save, p, cs).fileCount == p.fileCount
    ensures Run(save, p, cs).total % DispatchChunk != 0
  {
    OffHundred(p.total, cs);
    QuietRun(save, p, cs);
    RunTotal(save, p, cs);
  }

  lemma RunTotal(save: Saver, p: Progress, cs: seq<Option<ODict<Fields>>>)
    requires Accepts(save) && Valid(p.buffer) && ChunksValid(cs)
    requires (p.total + Arrivals(cs)) % DispatchChunk != 0
    ensures Run(save, p, cs).total % DispatchChunk != 0
  {
    RunCounts(save, p, cs);
  }

  /** The arithmetic of the above: the running total stays off the multiples of 100, so
      none of the results lands it on a multiple of 10000. */
  lemma {:induction false} OffHundred(t0: nat, cs: seq<Option<ODict<Fields>>>)
    requires |cs| >= 1 && (t0 + Size(cs[0])) % DispatchChunk != 0
    requires forall i :: 1 <= i < |cs| ==> Size(cs[i]) % DispatchChunk == 0
    ensures (t0 + Arrivals(cs)) % DispatchChunk != 0
    ensures Flushes(t0, cs) == 0
  {
    var init := cs[..|cs| - 1];
    var c := cs[|cs| - 1];
    assert Arrivals(cs) == Arrivals(init) + Size(c);
    if |cs| > 1 {
      assert init[0] == cs[0];
      assert forall i :: 1 <= i < |init| ==> init[i] == cs[i];
      OffHundred(t0, init);
      ModShift(t0 + Arrivals(init), Size(c));
    } else {
      assert c == cs[0] && Arrivals(init) == 0 && Flushes(t0, init) == 0;
    }
    var t := t0 + Arrivals(cs);
    if t % FlushEvery == 0 {
      FlushImpliesFullChunks(t);
    }
  }

  /** A run in which no result lands the total on a multiple of 10000 writes nothing. */
  lemma {:induction false} QuietRun(save: Saver, p: Progress, cs: seq<Option<ODict<Fields>>>)
    requires Accepts(save) && Valid(p.buffer) && ChunksValid(cs) && Flushes(p.total, cs) == 0
    ensures Run(save, p, cs).written == p.written
    ensures Run(save, p, cs).fileCount == p.fileCount
  {
    if cs != [] {
      var init := cs[..|cs| - 1];
      var c := cs[|cs| - 1];
      PrefixValid(cs, |cs| - 1);
      assert Flushes(p.total, init) == 0;
      assert !(Arrived(c) && (p.total + Arrivals(cs)) % FlushEvery == 0);
      QuietRun(save, p, init);
      RunCounts(save, p, init);
      var q := Run(save, p, init);
      assert Run(save, p, cs) == Step(save, q, c);
      StepCounts(save, q, c);
    }
  }

  lemma ModShift(a: nat, b: nat)
    requires b % DispatchChunk == 0
    ensures (a + b) % DispatchChunk == a % DispatchChunk
  {
    var k := b / DispatchChunk;
    assert b == DispatchChunk * k;
  }

  /** From the start, when the first result to arrive lost one id (99 records) and every
      later one is full (100 records), no intermediate report is ever saved: the only file
      is the final one, numbered 1, holding every record. */
  lemma OneFileAtEnd(save: Saver, cs: seq<Option<ODict<Fields>>>)
    requires Accepts(save) && ChunksValid(cs) && |cs| >= 1 && Size(cs[0]) == DispatchChunk - 1
    requires forall i :: 1 <= i < |cs| ==> Size(cs[i]) == DispatchChunk
    ensures var ws := Finish(save, Run(save, Start(), cs)).written;
      |ws| == 1 && ws[0].fileNo == 1 && ws[0].data.vals.Keys == Received(cs)
  {
    SkipsEveryMultiple(save, Start(), cs);
    RunKeepsIds(save, Start(), cs);
    var p := Run(save, Start(), cs);
    ArrivedReceived(cs, 0);
    EmptyKeys(p.buffer);
  }

  lemma {:induction false} ArrivedReceived(cs: seq<Option<ODict<Fields>>>, i: nat)
    requires ChunksValid(cs) && i < |cs| && Arrived(cs[i])
    ensures cs[i].value.keys[0] in Received(cs)
  {
    var init := cs[..|cs| - 1];
    if i < |cs| - 1 {
      PrefixValid(cs, |cs| - 1);
      assert init[i] == cs[i];
      ArrivedReceived(init, i);
    } else {
      KeyHasValue(cs[i].value, 0);
    }
  }

  // ----- runs of full chunks -----

  lemma FullCount(n: nat)
    requires n >= 1
    ensures (DispatchChunk * n) % FlushEvery == 0 <==> n % 100 == 0
    ensures n / 100 == (n - 1) / 100 + (if n % 100 == 0 then 1 else 0)
  {
    var q := n / 100;
    var r := n % 100;
    assert n == 100 * q + r;
    assert DispatchChunk * n == FlushEvery * q + 100 * r;
    if r == 0 {
      assert n - 1 == 100 * (q - 1) + 99;
    } else {
      assert n - 1 == 100 * q + (r - 1);
    }
  }

  /** When no id is ever dropped and every result arrives with 100 records, a report is
      saved after every hundredth result: `len(cs) // 100` intermediate files. */
  lemma {:induction false} FullChunksFlush(cs: seq<Option<ODict<Fields>>>)
    requires forall i :: 0 <= i < |cs| ==> Size(cs[i]) == DispatchChunk
    ensures Arrivals(cs) == DispatchChunk * |cs|
    ensures Flushes(0, cs) == |cs| / 100
  {
    if cs != [] {
      var init := cs[..|cs| - 1];
      assert forall i :: 0 <= i < |init| ==> init[i] == cs[i];
      FullChunksFlush(init);
      FullCount(|cs|);
      assert Arrived(cs[|cs| - 1]);
    }
  }

  // ----- dispatch -----

  lemma ChunkWithin(ids: seq<int>, j: nat)
    requires j < |Chunks(ids, DispatchChunk)|
    ensures forall x :: x in Chunks(ids, DispatchChunk)[j] ==> x in ids
  {
    ChunkAt(ids, DispatchChunk, j);
  }

  /** The result of chunk `j`: `process_contato_ids_chunk` over `contatos_ids[100 * j:100 * j + 100]`,
      or nothing when that worker raised. */
  function ChunkResult(ids: seq<int>, env: map<int, Lookups>, failed: set<nat>, j: nat): Option<ODict<Fields>>
    requires forall id :: id in ids ==> id in env && WellFormed(env[id])
    requires j < |Chunks(ids, DispatchChunk)|
  {
    ChunkWithin(ids, j);
    if j in failed then None else Some(ChunkSpec(Chunks(ids, DispatchChunk)[j], env))
  }

  /** A chunk's result is well formed, its records render, and it holds exactly the chunk's
      ids whose contact database opens. */
  lemma ChunkResultSpec(ids: seq<int>, env: map<int, Lookups>, failed: set<nat>, j: nat)
    requires forall id :: id in ids ==> id in env && WellFormed(env[id])
    requires j < |Chunks(ids, DispatchChunk)|
    ensures var r := ChunkResult(ids, env, failed, j);
      && (r.Some? <==> j !in failed)
      && (r.Some? ==> Valid(r.value) && Shaped(r.value))
      && (r.Some? ==> forall x :: x in r.value.vals <==> x in ids && !env[x].core.ConnectFail? && x in Chunks(ids, DispatchChunk)[j])
  {
    var chunk := Chunks(ids, DispatchChunk)[j];
    ChunkWithin(ids, j);
    ChunkSpecSpec(chunk, env);
    var d := ChunkSpec(chunk, env);
    forall k | k in d.vals
      ensures WellShaped(d.vals[k])
    {
      EnrichWellShaped(env[k]);
    }
  }

  /** The results in completion order: `order[i]` is the chunk that completed i-th. */
  function Outcomes(ids: seq<int>, env: map<int, Lookups>, failed: set<nat>, order: seq<nat>): (r: seq<Option<ODict<Fields>>>)
    requires forall id :: id in ids ==> id in env && WellFormed(env[id])
    requires forall i :: 0 <= i < |order| ==> order[i] < |Chunks(ids, DispatchChunk)|
    ensures |r| == |order|
    ensures forall i :: 0 <= i < |order| ==> r[i] == ChunkResult(ids, env, failed, order[i])
  {
    if order == [] then []
    else Outcomes(ids, env, failed, order[..|order| - 1]) + [ChunkResult(ids, env, failed, order[|order| - 1])]
  }

  lemma OutcomesShaped(ids: seq<int>, env: map<int, Lookups>, failed: set<nat>, order: seq<nat>)
    requires forall id :: id in ids ==> id in env && WellFormed(env[id])
    requires forall i :: 0 <= i < |order| ==> order[i] < |Chunks(ids, DispatchChunk)|
    ensures ChunksShaped(Outcomes(ids, env, failed, order))
  {
    var cs := Outcomes(ids, env, failed, order);
    forall i | 0 <= i < |cs| && cs[i].Some?
      ensures Valid(cs[i].value) && Shaped(cs[i].value)
    {
      ChunkResultSpec(ids, env, failed, order[i]);
    }
  }

  /** Some chunk that completed without raising holds `x`. */
  predicate Covered(chunks: seq<seq<int>>, failed: set<nat>, order: seq<nat>, x: int)
    requires forall i :: 0 <= i < |order| ==> order[i] < |chunks|
  {
    exists i :: 0 <= i < |order| && order[i] !in failed && x in chunks[order[i]]
  }

  lemma CoveredStep(chunks: seq<seq<int>>, failed: set<nat>, order: seq<nat>, x: int)
    requires forall i :: 0 <= i < |order| ==> order[i] < |chunks|
    requires |order| >= 1
    ensures Covered(chunks, failed, order, x) <==>
      Covered(chunks, failed, order[..|order| - 1], x)
      || (order[|order| - 1] !in failed && x in chunks[order[|order| - 1]])
  {
    var init := order[..|order| - 1];
    if Covered(chunks, failed, order, x) {
      var i :| 0 <= i < |order| && order[i] !in failed && x in chunks[order[i]];
      if i < |init| {
        assert init[i] == order[i];
      }
    }
    if Covered(chunks, failed, init, x) {
      var i :| 0 <= i < |init| && init[i] !in failed && x in chunks[init[i]];
      assert order[i] == init[i];
    }
  }

  /** An id arrives exactly when its contact database opens and some chunk holding it
      completed without raising. */
  lemma {:induction false} OutcomesReceived(ids: seq<int>, env: map<int, Lookups>, failed: set<nat>, order: seq<nat>, x: int)
    requires forall id :: id in ids ==> id in env && WellFormed(env[id])
    requires forall i :: 0 <= i < |order| ==> order[i] < |Chunks(ids, DispatchChunk)|
    ensures x in Received(Outcomes(ids, env, failed, order)) <==>
      x in ids && !env[x].core.ConnectFail? && Covered(Chunks(ids, DispatchChunk), failed, order, x)
  {
    if order != [] {
      var chunks := Chunks(ids, DispatchChunk);
      var cs := Outcomes(ids, env, failed, order);
      var init := order[..|order| - 1];
      var j := order[|order| - 1];
      OutcomesReceived(ids, env, failed, init, x);
      assert cs[..|cs| - 1] == Outcomes(ids, env, failed, init);
      ChunkWithin(ids, j);
      ChunkResultSpec(ids, env, failed, j);
      CoveredStep(chunks, failed, order, x);
    }
  }

  /** The collecting phase of `search_leads` end to end: when every chunk is dispatched and
      no worker raises, then whatever the completion order, the files written hold exactly
      the found ids whose contact database opens, every file is complete, and file `j` is
      numbered `j + 1`. */
  lemma EveryLeadSaved(ids: seq<int>, env: map<int, Lookups>, order: seq<nat>)
    requires forall id :: id in ids ==> id in env && WellFormed(env[id])
    requires forall i :: 0 <= i < |order| ==> order[i] < |Chunks(ids, DispatchChunk)|
    requires forall j :: 0 <= j < |Chunks(ids, DispatchChunk)| ==> j in order
    ensures Accepts(SaveSpec) && ChunksValid(Outcomes(ids, env, {}, order))
    ensures var ws := Finish(SaveSpec, Run(SaveSpec, Start(), Outcomes(ids, env, {}, order))).written;
      && (forall x :: x in WrittenIds(ws) <==> x in ids && !env[x].core.ConnectFail?)
      && (forall j :: 0 <= j < |ws| ==> ws[j].file.complete && ws[j].fileNo == j + 1)
  {
    var cs := Outcomes(ids, env, {}, order);
    ReportSaver();
    OutcomesShaped(ids, env, {}, order);
    CleanRun(SaveSpec, cs);
    forall x
      ensures x in Received(cs) <==> x in ids && !env[x].core.ConnectFail?
    {
      OutcomesReceived(ids, env, {}, order, x);
      InSomeChunk(ids, DispatchChunk, x);
      if x in ids && !env[x].core.ConnectFail? {
        var c :| c in Chunks(ids, DispatchChunk) && x in c;
        var j :| 0 <= j < |Chunks(ids, DispatchChunk)| && Chunks(ids, DispatchChunk)[j] == c;
        assert j in order;
        var i :| 0 <= i < |order| && order[i] == j;
        assert Covered(Chunks(ids, DispatchChunk), {}, order, x);
      }
    }
  }

  // ----- the loop itself -----

  /** The body of `if total_processed % 10000 == 0:` on the loop's variables. */
  method SaveCheckpoint(p: Progress) returns (r: Progress)
    requires Valid(p.buffer)
    ensures Accepts(SaveSpec) && r == Checkpoint(SaveSpec, p)
  {
    ReportAccepts();
    r := p;
    if p.total % FlushEvery == 0 {
      var file := SaveToTxt(p.buffer);
      CheckpointSaves(SaveSpec, p, file);
      var written := p.written + [Write(p.fileCount, p.buffer, file)];
      if file.complete {
        r := Progress(Empty(), p.total, p.fileCount + 1, written);
      } else {
        r := p.(written := written);
      }
    }
  }

  /** The collecting loop's variables. */
  class Collector {
    var buffer: ODict<Fields>
    var totalProcessed: nat
    var fileCount: nat
    var written: seq<Write>

    function Current(): Progress
      reads this
    {
      Progress(buffer, totalProcessed, fileCount, written)
    }

    ghost predicate Inv()
      reads this
    {
      Valid(buffer)
    }

    constructor()
      ensures Inv() && Current() == Start()
    {
      buffer := Empty();
      totalProcessed := 0;
      fileCount := 1;
      written := [];
    }

    /** Merging one non-empty result. */
    method Absorb(chunk: ODict<Fields>)
      requires Inv() && Valid(chunk)
      modifies this
      ensures Inv() && Current() == Merge(old(Current()), chunk)
    {
      UpdateSpec(buffer, chunk);
      buffer := Update(buffer, chunk);
      totalProcessed := totalProcessed + |chunk.keys|;
    }

    /** The intermediate report, when the total has reached a multiple of 10000. */
    method SaveIfDue()
      requires Inv()
      modifies this
      ensures Inv() && Accepts(SaveSpec) && Current() == Checkpoint(SaveSpec, old(Current()))
    {
      ReportAccepts();
      var next := SaveCheckpoint(Current());
      buffer, totalProcessed, fileCount, written := next.buffer, next.total, next.fileCount, next.written;
    }

    /** One completed future. */
    method Receive(chunk: Option<ODict<Fields>>)
      requires Inv() && (chunk.Some? ==> Valid(chunk.value))
      modifies this
      ensures Inv() && Accepts(SaveSpec) && Current() == Step(SaveSpec, old(Current()), chunk)
    {
      ReportAccepts();
      if chunk.Some? && |chunk.value.keys| > 0 {
        Absorb(chunk.value);
        SaveIfDue();
      }
    }

    /** The final report after the loop. */
    method SaveRest()
      requires Inv()
      modifies this
      ensures Accepts(SaveSpec) && Current() == Finish(SaveSpec, old(Current()))
    {
      ReportAccepts();
      if |buffer.keys| > 0 {
        var file := SaveToTxt(buffer);
        written := written + [Write(fileCount, buffer, file)];
      }
    }
  }

  /** `for future in as_completed(futures)` followed by the final save: the files written
      are those of the specification run. */
  method Collect(cs: seq<Option<ODict<Fields>>>) returns (files: seq<Write>)
    requires ChunksValid(cs)
    ensures Accepts(SaveSpec) && files == Finish(SaveSpec, Run(SaveSpec, Start(), cs)).written
  {
    ReportAccepts();
    var c := new Collector();
    for i := 0 to |cs|
      invariant c.Inv() && c.Current() == Run(SaveSpec, Start(), cs[..i])
    {
      assert cs[..i + 1][..i] == cs[..i];
      c.Receive(cs[i]);
    }
    assert cs[..|cs|] == cs;
    c.SaveRest();
    files := c.written;
  }

  lemma InCompletionOrder(ids: seq<int>, env: map<int, Lookups>, failed: set<nat>, order: seq<nat>,
                          results: seq<Option<ODict<Fields>>>, completed: seq<Option<ODict<Fields>>>)
    requires forall id :: id in ids ==> id in env && WellFormed(env[id])
    requires forall i :: 0 <= i < |order| ==> order[i] < |Chunks(ids, DispatchChunk)|
    requires |results| == |Chunks(ids, DispatchChunk)|
    requires forall k :: 0 <= k < |results| ==> results[k] == ChunkResult(ids, env, failed, k)
    requires |completed| == |order| && forall i :: 0 <= i < |order| ==> completed[i] == results[order[i]]
    ensures completed == Outcomes(ids, env, failed, order)
  {
  }

  /** The dispatch loop (`executor.submit` per slice of 100 ids) and the collecting loop:
      `failed` are the chunks whose worker raised, `order` the order results complete in. */
  method SearchAndSave(ids: seq<int>, env: map<int, Lookups>, failed: set<nat>, order: seq<nat>) returns (files: seq<Write>)
    requires forall id :: id in ids ==> id in env && WellFormed(env[id])
    requires forall i :: 0 <= i < |order| ==> order[i] < |Chunks(ids, DispatchChunk)|
    ensures Accepts(SaveSpec) && ChunksValid(Outcomes(ids, env, failed, order))
    ensures files == Finish(SaveSpec, Run(SaveSpec, Start(), Outcomes(ids, env, failed, order))).written
  {
    OutcomesShaped(ids, env, failed, order);
    var chunks := Chunks(ids, DispatchChunk);
    var results: seq<Option<ODict<Fields>>> := [];
    for j := 0 to |chunks|
      invariant |results| == j
      invariant forall k :: 0 <= k < j ==> results[k] == ChunkResult(ids, env, failed, k)
    {
      var r: Option<ODict<Fields>> := None;
      if j !in failed {
        ChunkWithin(ids, j);
        var data := ProcessChunk(chunks[j], env);
        r := Some(data);
      }
      results := results + [r];
    }
    var completed := seq(|order|, i requires 0 <= i < |order| => results[order[i]]);
    InCompletionOrder(ids, env, failed, order, results, completed);
    files := Collect(completed);
  }
}
