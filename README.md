# mongo_dumper copy engine, modelled in Dafny

`Dumper` copies every document of a MongoDB collection either into a
binary file (the raw BSON bytes of each document, concatenated) or into
another collection (through unordered bulk inserts of 100 documents at a
time, optionally dropping the destination first). This project models
three parts of `Dumper.java`:

- the configuration step of `main`: the option values are copied into a
  `Config`, `toDb`/`toColl` default to the source database/collection,
  and the run is refused with the usage text and exit status 1 unless
  `uri`, `database`, `collection` and one of `output`/`toUri` are present
  (module `Settings`);
- the `Destination` class, a two-mode sink with `write`, `flush` and
  `close` (module `Sink`, class `Destination`);
- the `start` copy loop: write each document the cursor yields, flush and
  print a dot after every `BULKSIZE` documents, flush and close at the end,
  then print the count (module `Driver`, with the batching specification in
  `Batching`, the printed text in `Report`, and Java's 32-bit `int`
  increment and truncating `%` in `JavaInt`).

The network and the file system are replaced by what they receive. The
source cursor is the sequence of documents it yields. Each document is an
opaque byte sequence. The output stream is its logical contents
`fileBytes`. The destination collection is the log `batches` of the lists
passed to `insertMany`, plus the flag `dropped`. `flushes` counts flush
calls and `closed` records that `close` was called. Standard output and
standard error are returned as strings holding what `Dumper.java` itself
writes to them. `batches` is an ordinary field, not
a ghost one, because like `fileBytes` it stands for what an external
system received.

The loop counter `i` is a Java `int`. It is modelled as such: `++i` wraps
from 2^31−1 to −2^31, and `%` truncates toward zero. `Counter(N)` is the
counter's value after `N` documents. `Ticks(N)` is the number of in-loop
flushes, the increments after which `i % 100` is 0. `Since(N)` is the
number of documents written since the last in-loop flush, which is what the
buffer holds.

The final flush of a collection copy hands `insertMany` an empty list when
the count is a multiple of 100 (0 included). Whether the database driver
returns normally from that call is not determined by this program. The
model makes that outcome a parameter, `acceptsEmptyInsert`, and states both
cases. If the driver rejects the call, the exception leaves `start`: the
destination is not closed, the final line is not printed, and the JVM
exits with status 1.

The main facts proved:
- For any `N`:
  - The file destination holds the documents' bytes concatenated in cursor
    order.
  - In collection mode, the inserted batches joined together give back the
    cursor's documents in order.
  - There are `Ticks(N) + 1` flushes.
  - In collection mode the in-loop batches are exactly `LoopBatches(cursor)`
    and the final one is `Pending(cursor)`, the documents written since the
    last in-loop flush. The buffer never reaches 100 documents at the head of
    an iteration. Every in-loop batch holds 100 documents, except the first
    one flushed after the wrap-around, which holds 96.
  - When the run completes, standard output is `Ticks(N)` dots, then `.`, a
    newline and `Copied <Counter(N)> documents`, so `Ticks(N) + 1` dots in
    all. The run completes unless, in collection mode, the buffer is empty
    at the end and the driver rejects the empty insert. When that happens,
    only the `Ticks(N)` dots are printed.
- For `N` up to 2^31−1 documents:
  - The counter equals `N`, and `Ticks(N) == N / 100`.
  - The inserted batches are exactly `Batches(cursor)`: `N / 100` full
    batches of 100, then one final batch of `N % 100` documents. The final
    batch is empty when `N` is a multiple of 100.
  - The loop bounds the buffer: at the head of each iteration it holds
    `i % 100` documents.
- Past 2^31−1 the counter goes negative. Right after the wrap, `i % 100`
  is -48, so the flush phase shifts and a negative count is printed
  (`Batching.CounterWraps`). The buffer still holds `Phase(i)` documents,
  fewer than 100 (`Batching.SinceIsPhase`). The next flush, at counter value
  -2147483600, inserts 96 documents: the 47 counted 2147483601 to 2^31−1 and
  the 49 counted −2^31 to -2147483600 (`Batching.TickBatchSize`).
- `--out` takes precedence over `--to-uri`. The destination collection is
  dropped only in collection mode with `--clear`, at construction and
  before any write.

## Model

| member | source | states |
|---|---|---|
| `Settings.FromCommandLine` | src/main/java/org/schambon/dumper/Dumper.java:40-50 | every option is carried into the `Config` unchanged, except that an absent `--to-db`/`--to-coll` becomes the source database/collection |
| `Settings.Check` | src/main/java/org/schambon/dumper/Dumper.java:53-58 | the run proceeds iff `uri`, `database` and `collection` are present and `out` or `to-uri` is; then the result is the defaulted `Config` and it is enough to open a destination; otherwise the usage message with exit status 1 |
| `Settings.TargetOf` | src/main/java/org/schambon/dumper/Dumper.java:97-107 | file mode iff an output path is given; otherwise the collection named by `toUri`/`toDb`/`toColl`, with the `clear` flag |
| `Settings.OutTakesPrecedence` | src/main/java/org/schambon/dumper/Dumper.java:98-100 | an accepted command line with `--out` writes to that file, even when `--to-uri` is given too |
| `Settings.CollectionTargetDefaults` | src/main/java/org/schambon/dumper/Dumper.java:46-49 | an accepted command line without `--out` copies into `--to-db`/`--to-coll`, or the source database/collection where those are absent |
| `Sink.Destination.constructor` | src/main/java/org/schambon/dumper/Dumper.java:97-108 | opens the selected target with empty stream, buffer and insert log; drops the collection iff in collection mode with `clear`; records whether the driver accepts an empty `insertMany` |
| `Sink.Destination.Write` | src/main/java/org/schambon/dumper/Dumper.java:110-116 | file mode appends exactly the document's bytes to the stream and leaves the buffer alone; collection mode appends the document to the end of the buffer; nothing else changes |
| `Sink.Destination.Flush` | src/main/java/org/schambon/dumper/Dumper.java:118-125 | collection mode passes the whole buffer, in order, as one batch and empties the buffer; file mode leaves the contents and buffer unchanged; one more flush is counted; it returns normally unless the buffer was empty in collection mode and the driver rejects empty inserts |
| `Sink.Destination.Close` | src/main/java/org/schambon/dumper/Dumper.java:127-131 | marks the destination closed and changes nothing else |
| `Driver.Step` | src/main/java/org/schambon/dumper/Dumper.java:76-80 | writes one document and counts it: the file gains exactly its bytes; in collection mode, when the incremented counter's remainder by 100 is 0, the earlier batches stay and exactly the old buffer plus this document is appended as one non-empty batch and the buffer empties, and otherwise the document is appended to the buffer and the batches stay; the loop state `Copied` moves on to the documents so far plus this one |
| `Driver.CopyLoop` | src/main/java/org/schambon/dumper/Dumper.java:73-81 | after the loop `i` is `Counter(N)` and there were `Ticks(N)` flushes, each followed by a dot; the file holds the documents' bytes in order, or the batches are exactly `LoopBatches(cursor)` and the buffer `Pending(cursor)`, which joined give the documents in order; the buffer holds `Since(N) < 100` documents and no batch holds more than 100, for every `N`; below the wrap-around every batch is full |
| `Driver.Start` | src/main/java/org/schambon/dumper/Dumper.java:67-87 | `Ticks(N) + 1` flushes and an empty buffer; the file holds the documents' bytes in order, or the batches are exactly `LoopBatches(cursor)` followed by the final `Pending(cursor)`, joined equal to the documents, none over 100; the run completes iff it is a file copy, the final buffer is non-empty, or the driver accepts empty inserts; a completed run is closed and prints `Summary(Ticks(N), Counter(N))`, one that stopped is not closed and printed only `Ticks(N)` dots; up to `INT_MAX` documents the count equals `N`, there are `N / 100 + 1` flushes, the batches are `Batches(cursor)`, and only a multiple of 100 can stop the run |
| `Driver.Run` | src/main/java/org/schambon/dumper/Dumper.java:40-58 | a rejected command line prints the usage to standard error, exits with status 1 and opens no destination; an accepted one runs the copy of `Start`, with the same batch log, and exits with status 0 iff that copy completed, with the closed destination and the summary, or else with status 1 |
| `Driver.TwoHundredFiftyDocuments` | src/main/java/org/schambon/dumper/Dumper.java:73-86 | 250 documents give batches of 100, 100 and 50 and the output `...` then `Copied 250 documents` |
| `JavaInt.Inc` | src/main/java/org/schambon/dumper/Dumper.java:77 | `++i` adds one, except that the largest `int` becomes the smallest |
| `JavaInt.Rem` | src/main/java/org/schambon/dumper/Dumper.java:77 | `%` is the usual remainder on a non-negative dividend and the negated remainder of `-a` on a negative one, so it has the dividend's sign |
| `Batching.CounterBelowWrap` | src/main/java/org/schambon/dumper/Dumper.java:73-77 | up to `INT_MAX` documents the counter equals the number of documents |
| `Batching.TicksBelowWrap` | src/main/java/org/schambon/dumper/Dumper.java:77-80 | up to `INT_MAX` documents there is one in-loop flush per `BULKSIZE` documents |
| `Batching.CounterWraps` | src/main/java/org/schambon/dumper/Dumper.java:73-77 | after `INT_MAX + 1` documents the counter is `INT_MIN`, whose remainder by 100 is -48 |
| `Batching.SinceIsPhase` | src/main/java/org/schambon/dumper/Dumper.java:73-80 | the number of documents since the last in-loop flush is a function, `Phase`, of the counter alone, counted across the wrap-around |
| `Batching.PhaseStep` | src/main/java/org/schambon/dumper/Dumper.java:77 | an increment that does not wrap resets the phase iff the new remainder by 100 is 0, and otherwise adds one |
| `Batching.SinceBound` | src/main/java/org/schambon/dumper/Dumper.java:76-80 | the buffer holds fewer than 100 documents at the head of every iteration, for any number of documents |
| `Batching.SinceBelowWrap` | src/main/java/org/schambon/dumper/Dumper.java:76-80 | up to `INT_MAX` documents the buffer holds `N % 100` documents |
| `Batching.FlushStep` | src/main/java/org/schambon/dumper/Dumper.java:76-78 | the buffer has room for the next document, and below the wrap-around an in-loop flush finds it holding exactly 100 |
| `Batching.TickPhase` | src/main/java/org/schambon/dumper/Dumper.java:77 | a counter value whose increment is a multiple of 100 has phase 99, except -2147483601, whose phase is 95 |
| `Batching.TickBatchSize` | src/main/java/org/schambon/dumper/Dumper.java:76-78 | the batch of an in-loop flush holds the staged documents plus the current one: 100, except 96 at the first flush after the wrap-around |
| `Batching.PendingGrows` | src/main/java/org/schambon/dumper/Dumper.java:114 | a document written without a flush goes to the end of the staged documents |
| `Batching.LoopBatchesJoin` | src/main/java/org/schambon/dumper/Dumper.java:74-80 | for any number of documents, the in-loop batches joined and followed by the staged documents are the documents in order |
| `Batching.LoopBatchSizes` | src/main/java/org/schambon/dumper/Dumper.java:74-80 | for any number of documents, every in-loop batch holds 100 documents or, at the flush after a wrap-around, 96 |
| `Batching.FinalFlush` | src/main/java/org/schambon/dumper/Dumper.java:83 | full batches followed by a buffer of the last `N % 100` documents, in order, are `Batches(docs)` once the final flush adds the buffer |
| `Batching.BatchesSplit` | src/main/java/org/schambon/dumper/Dumper.java:74-84 | the batches, joined, are the documents in order; every batch but the last holds exactly `BULKSIZE` documents and the last holds fewer |
| `Batching.BatchingUnique` | src/main/java/org/schambon/dumper/Dumper.java:76-83 | any split of the documents into full batches of `BULKSIZE` in order, followed by one shorter batch, is `Batches(docs)` |
| `Batching.BatchCount` | src/main/java/org/schambon/dumper/Dumper.java:22 | there are `N / BULKSIZE + 1` batches and the last holds `N % BULKSIZE` documents |
| `Report.Decimal` | src/main/java/org/schambon/dumper/Dumper.java:86 | the `%d` rendering of a non-negative value is a non-empty string of decimal digits with no leading zero |
| `Report.DecimalRoundTrip` | src/main/java/org/schambon/dumper/Dumper.java:86 | reading the printed digits back gives the value |
| `Report.Signed` | src/main/java/org/schambon/dumper/Dumper.java:86 | the `%d` rendering of an `int` starts with a minus sign exactly when the value is negative, followed by at least one digit, digits only, and no leading zero |
| `Report.SignedRoundTrip` | src/main/java/org/schambon/dumper/Dumper.java:86 | reading the printed `int` back, sign included, gives the value |
| `Report.SummaryDots` | src/main/java/org/schambon/dumper/Dumper.java:79-86 | the run prints one dot more than it made in-loop flushes |
| `Report.SummaryOfTwoHundredFifty` | src/main/java/org/schambon/dumper/Dumper.java:79-86 | after two in-loop flushes and 250 documents the output is `...` then `Copied 250 documents` |

## Left out

- Option parsing with commons-cli (Dumper.java:25-38): a foreign library. The model starts from the record of option values it yields.
- Connecting and querying (`MongoClients.create`, `getDatabase`, `getCollection`, the secondary-preferred read preference, `find`): network calls. The cursor is given as the sequence of documents it yields, and the destination collection as the log of what it receives.
- `BufferedOutputStream`/`FileOutputStream` and their 4 MB buffer: file I/O. The stream is its logical byte contents, and `flush` does not change them.
- What `insertMany(..., ordered(false))` does on the server (partial failure, duplicate keys, what is committed): only the batch it receives is recorded. A non-empty insert is taken to return normally. Whether an empty one does is the parameter `acceptsEmptyInsert`.
- Driver.Run: when the copy stops at a rejected empty insert, the exception's stack trace on standard error is not modelled. `stderr` is left unstated there, and only the exit status 1 and the printed dots are given.
- Driver.Run: `stdout` and `stderr` hold only what `Dumper.java` itself prints. The logging of the MongoDB driver, which `MongoClients.create` sets up and which can write to either stream, is not modelled, so `stderr == ""` on success covers only the program's own writes.
- Report.Decimal: `String.format` renders `%d` with the default locale's digits. The model assumes a locale whose zero digit is `'0'`, with no grouping, so it prints ASCII digits.
- Report.Signed: it makes the same ASCII-digit locale assumption, and uses `-` as the minus sign.
- BSON encoding and `getByteBuffer`: documents are opaque byte sequences, and the embedded length prefix is not modelled.
- `System.exit`, exceptions (`IOException`, `FileNotFoundException`, driver errors) and the abort paths they cause: not modelled, except for a rejected empty insert. A rejected configuration is a result value with status 1, and every other operation is modelled as succeeding.
- Sink.Destination.Write: requires an open destination. The copy loop never writes after closing, and what a closed Java stream would do is not modelled.
- Sink.Destination.Flush: requires an open destination, for the same reason.
- Sink.Destination.Close: in collection mode the source does nothing, and the model only sets the lifecycle flag `closed`.
- Line separator: `println` is modelled as ending the line with `\n`.
