/** The copy run: the program entry point checks the configuration, and
    `Start` opens the destination, copies every document the source cursor
    yields, flushing after each `BULKSIZE` of them, flushes once more,
    closes, and reports the count, unless the driver rejects an empty final
    insert. The cursor is given as the sequence of documents it yields;
    standard output and standard error are returned as the text the program
    itself writes. The counter `i` is a Java `int`, so the batching is
    stated exactly by `LoopBatches` for any count, and as `Batches` up to
    `INT_MAX` documents. */
module Driver {
  import opened JavaInt
  import opened Settings
  import opened Batching
  import opened Report
  import opened Sink

  /** What the destination holds once the documents `docs` have gone
      through the loop: the file holds their bytes in order, or the batches
      inserted so far are `LoopBatches(docs)` and the buffer holds
      `Pending(docs)`, the documents written since the last periodic flush;
      no batch is over `BULKSIZE`, and below the wrap-around every batch is
      full. */
  ghost predicate Copied(dest: Destination, docs: seq<Doc>)
    reads dest
  {
    && dest.Valid() && !dest.closed
    && (dest.isFile ==> dest.fileBytes == Flatten(docs))
    && (!dest.isFile ==> dest.batches == LoopBatches(docs) && dest.buffer == Pending(docs))
    && AtMostFull(dest.batches)
    && (|docs| <= INT_MAX ==> AllFull(dest.batches))
  }

  /** One iteration of the copy loop: writes `doc`, increments the counter
      and, when its remainder by `BULKSIZE` is 0, flushes the staged
      documents and `doc` as one batch. */
  method Step(dest: Destination, ghost docs: seq<Doc>, doc: Doc, i: int32) returns (i': int32, ticked: bool)
    requires Copied(dest, docs) && i == Counter(|docs|)
    modifies dest
    ensures Copied(dest, docs + [doc]) && i' == Counter(|docs| + 1)
    ensures ticked <==> Rem(i' as int, BULKSIZE) == 0
    ensures dest.isFile ==> dest.fileBytes == old(dest.fileBytes) + doc
    ensures !dest.isFile ==>
      dest.batches == old(dest.batches) + (if ticked then [old(dest.buffer) + [doc]] else [])
    ensures !dest.isFile ==> dest.buffer == (if ticked then [] else old(dest.buffer) + [doc])
    ensures dest.flushes == old(dest.flushes) + (if ticked then 1 else 0)
    ensures dest.dropped == old(dest.dropped)
  {
    ghost var n := |docs|;
    assert (docs + [doc])[..n] == docs;
    FlattenAppend(docs, doc);
    FlushStep(n);
    dest.Write(doc);
    i' := Inc(i);
    ticked := Rem(i' as int, BULKSIZE) == 0;
    if ticked {
      ghost var done, staged := dest.batches, dest.buffer;
      if !dest.isFile {
        AtMostFullAppend(done, staged);
        if n < INT_MAX { AllFullAppend(done, staged); }
      }
      var ok := dest.Flush();
      assert ok;
    } else if !dest.isFile {
      PendingGrows(docs, doc);
    }
  }

  /** The `for` loop of the copy: every document the cursor yields is
      written and counted in the `int` counter `i`, and whenever `i % BULKSIZE`
      is 0 the destination is flushed and a dot printed. */
  method CopyLoop(dest: Destination, cursor: seq<Doc>) returns (i: int32, stdout: string)
    requires dest.Valid() && !dest.closed
    requires dest.fileBytes == [] && dest.buffer == [] && dest.batches == [] && dest.flushes == 0
    modifies dest
    ensures dest.Valid() && !dest.closed && dest.dropped == old(dest.dropped)
    ensures i == Counter(|cursor|)
    ensures dest.flushes == Ticks(|cursor|) && stdout == Dots(Ticks(|cursor|))
    ensures dest.isFile ==> dest.fileBytes == Flatten(cursor)
    ensures !dest.isFile ==> dest.batches == LoopBatches(cursor) && dest.buffer == Pending(cursor)
    ensures !dest.isFile ==> Flatten(dest.batches) + dest.buffer == cursor
    ensures !dest.isFile ==> |dest.buffer| == Since(|cursor|) < BULKSIZE
    ensures AtMostFull(dest.batches)
    ensures |cursor| <= INT_MAX ==> AllFull(dest.batches)
  {
    var k: nat := 0;
    i, stdout := 0, "";
    while k < |cursor|
      invariant k <= |cursor| && i == Counter(k)
      invariant Copied(dest, cursor[..k]) && dest.dropped == old(dest.dropped)
      invariant dest.flushes == Ticks(k) && stdout == Dots(Ticks(k))
    {
      assert cursor[..k + 1] == cursor[..k] + [cursor[k]];
      var ticked;
      i, ticked := Step(dest, cursor[..k], cursor[k], i);
      k := k + 1;
      if ticked {
        stdout := stdout + ".";
      }
    }
    assert cursor[..k] == cursor;
    SinceBound(k);
    LoopBatchesJoin(cursor);
  }

  /** The copy: opens the destination, runs the loop, flushes once more,
      closes, and prints the final line with the counter's value. When the
      final flush is an empty insert that the database driver rejects, the
      copy stops there: nothing is closed and no final line is printed. */
  method Start(config: Config, acceptsEmptyInsert: bool, cursor: seq<Doc>)
    returns (dest: Destination, completed: bool, copied: int32, stdout: string)
    requires Opens(config)
    ensures fresh(dest) && dest.Valid() && dest.acceptsEmptyInsert == acceptsEmptyInsert
    ensures dest.target == TargetOf(config)
    ensures dest.dropped <==> !dest.isFile && config.clear
    ensures copied == Counter(|cursor|)
    ensures completed <==> dest.isFile || Since(|cursor|) != 0 || acceptsEmptyInsert
    ensures completed ==> dest.closed && stdout == Summary(Ticks(|cursor|), copied)
    ensures !completed ==> !dest.closed && stdout == Dots(Ticks(|cursor|))
    ensures dest.flushes == Ticks(|cursor|) + 1
    ensures dest.buffer == []
    ensures dest.isFile ==> dest.fileBytes == Flatten(cursor)
    ensures !dest.isFile ==> dest.batches == LoopBatches(cursor) + [Pending(cursor)]
    ensures !dest.isFile ==> Flatten(dest.batches) == cursor && AtMostFull(dest.batches)
    ensures |cursor| <= INT_MAX ==>
      && copied as int == |cursor| && dest.flushes == |cursor| / BULKSIZE + 1
      && (completed <==> dest.isFile || |cursor| % BULKSIZE != 0 || acceptsEmptyInsert)
    ensures |cursor| <= INT_MAX && !dest.isFile ==> dest.batches == Batches(cursor)
  {
    dest := new Destination(config, acceptsEmptyInsert);
    var i: int32;
    i, stdout := CopyLoop(dest, cursor);
    copied := i;
    ghost var before, last := dest.batches, dest.buffer;
    if !dest.isFile {
      FlattenAppend(before, last);
      AtMostFullAppend(before, last);
      if |cursor| <= INT_MAX {
        SinceBelowWrap(|cursor|);
        FinalFlush(before, last, cursor);
      }
    }
    if |cursor| <= INT_MAX {
      CounterBelowWrap(|cursor|);
      TicksBelowWrap(|cursor|);
      SinceBelowWrap(|cursor|);
    }
    completed := dest.Flush();
    if !completed {
      return;
    }
    dest.Close();
    stdout := stdout + ".\nCopied " + Signed(copied as int) + " documents\n";
  }

  /** The program: builds the configuration from the command line and, when
      it is incomplete, prints the usage to standard error and exits with
      status 1 before any destination exists; otherwise runs the copy and
      exits with status 0, or with status 1 when the copy stopped at a
      rejected final insert. */
  method Run(line: CommandLine, acceptsEmptyInsert: bool, cursor: seq<Doc>)
    returns (status: int, stderr: string, dest: Destination?, copied: int32, stdout: string)
    ensures status == 0 || status == 1
    ensures Check(line).Err? ==>
      status == 1 && dest == null && stderr == Usage + "\n" && stdout == "" && copied == 0
    ensures Check(line).Ok? ==>
      && dest != null && fresh(dest) && dest.Valid()
      && dest.target == TargetOf(FromCommandLine(line))
      && (dest.dropped <==> !dest.isFile && line.clear)
      && copied == Counter(|cursor|)
      && (status == 0 <==> dest.isFile || Since(|cursor|) != 0 || acceptsEmptyInsert)
      && (status == 0 ==> dest.closed && stderr == "" && stdout == Summary(Ticks(|cursor|), copied))
      && (status == 1 ==> !dest.closed && stdout == Dots(Ticks(|cursor|)))
      && dest.flushes == Ticks(|cursor|) + 1 && dest.buffer == []
      && (dest.isFile ==> dest.fileBytes == Flatten(cursor))
      && (!dest.isFile ==> dest.batches == LoopBatches(cursor) + [Pending(cursor)])
      && (!dest.isFile ==> Flatten(dest.batches) == cursor && AtMostFull(dest.batches))
      && (|cursor| <= INT_MAX ==> copied as int == |cursor| && dest.flushes == |cursor| / BULKSIZE + 1)
      && (|cursor| <= INT_MAX && !dest.isFile ==> dest.batches == Batches(cursor))
  {
    var checked := Check(line);
    if checked.Err? {
      status, stderr, dest, copied, stdout := checked.error.status, checked.error.message + "\n", null, 0, "";
      return;
    }
    var d: Destination;
    var completed: bool;
    d, completed, copied, stdout := Start(checked.value, acceptsEmptyInsert, cursor);
    status := if completed then 0 else 1;
    stderr, dest := "", d;
  }

  /** 250 source documents are inserted as batches of 100, 100 and 50, and
      the run prints three dots and `Copied 250 documents`. */
  lemma TwoHundredFiftyDocuments(cursor: seq<Doc>)
    requires |cursor| == 250
    ensures |Batches(cursor)| == 3
    ensures |Batches(cursor)[0]| == 100 && |Batches(cursor)[1]| == 100 && |Batches(cursor)[2]| == 50
    ensures Summary(Ticks(|cursor|), Counter(|cursor|)) == "...\nCopied 250 documents\n"
  {
    BatchesSplit(cursor);
    BatchCount(cursor);
    TicksBelowWrap(|cursor|);
    CounterBelowWrap(|cursor|);
    SummaryOfTwoHundredFifty();
  }
}
