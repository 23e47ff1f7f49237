/** The two-mode destination of a copy. In file mode documents go, byte for
    byte, to an output stream; in collection mode they are staged in a buffer
    that each flush hands to one unordered bulk insert and then empties. The
    stream and the remote collection are modelled by what they receive:
    `fileBytes` is the stream's logical contents, `batches` the arguments of
    the `insertMany` calls in order, `dropped` whether the collection was
    dropped, `flushes` the number of flush calls. Whether the database driver
    returns normally from an `insertMany` of an empty list cannot be seen
    from the program, so it is a parameter of the destination,
    `acceptsEmptyInsert`; every other call is taken to return normally. */
module Sink {
  import opened Settings

  newtype byte = x: int | 0 <= x < 256

  /** A raw document: its encoded bytes, treated as opaque. */
  type Doc = seq<byte>

  class Destination {
    const isFile: bool
    const target: Target
    const acceptsEmptyInsert: bool
    var fileBytes: seq<byte>
    var buffer: seq<Doc>
    var batches: seq<seq<Doc>>
    var dropped: bool
    var flushes: nat
    var closed: bool

    /** Each mode uses only its own channel: a file destination never buffers,
        inserts or drops, a collection destination never writes bytes, and
        every collection flush is one insert. */
    ghost predicate Valid()
      reads this
    {
      && (isFile <==> target.FileTarget?)
      && (isFile ==> buffer == [] && batches == [] && !dropped)
      && (!isFile ==> fileBytes == [] && |batches| == flushes)
    }

    /** Opens the destination the configuration selects; a collection
        destination with `clear` set is dropped here, before anything is written. */
    constructor (c: Config, acceptsEmptyInsert: bool)
      requires Opens(c)
      ensures Valid()
      ensures target == TargetOf(c) && isFile == c.output.Some?
      ensures this.acceptsEmptyInsert == acceptsEmptyInsert
      ensures fileBytes == [] && buffer == [] && batches == [] && flushes == 0 && !closed
      ensures dropped <==> !isFile && c.clear
    {
      target := TargetOf(c);
      this.acceptsEmptyInsert := acceptsEmptyInsert;
      fileBytes, buffer, batches, flushes, closed := [], [], [], 0, false;
      if c.output.Some? {
        isFile := true;
        dropped := false;
      } else {
        isFile := false;
        dropped := c.clear;
      }
    }

    /** Appends the document's bytes to the stream in file mode, or the
        document to the buffer in collection mode; nothing else changes. */
    method Write(doc: Doc)
      requires Valid() && !closed
      modifies this
      ensures Valid()
      ensures isFile ==> fileBytes == old(fileBytes) + doc && buffer == old(buffer)
      ensures !isFile ==> buffer == old(buffer) + [doc] && fileBytes == old(fileBytes)
      ensures batches == old(batches) && dropped == old(dropped)
      ensures flushes == old(flushes) && closed == old(closed)
    {
      if isFile {
        fileBytes := fileBytes + doc;
      } else {
        buffer := buffer + [doc];
      }
    }

    /** In file mode forces the stream, leaving its contents as they are; in
        collection mode passes the whole buffer, in order, to one insert and
        then empties the buffer. `ok` is false when that insert of an empty
        buffer does not return normally; the buffer is then left as it was,
        which is empty all the same. */
    method Flush() returns (ok: bool)
      requires Valid() && !closed
      modifies this
      ensures Valid()
      ensures ok <==> isFile || old(buffer) != [] || acceptsEmptyInsert
      ensures isFile ==> batches == old(batches) && buffer == old(buffer)
      ensures !isFile ==> batches == old(batches) + [old(buffer)] && buffer == []
      ensures fileBytes == old(fileBytes) && dropped == old(dropped)
      ensures flushes == old(flushes) + 1 && closed == old(closed)
    {
      ok := isFile || buffer != [] || acceptsEmptyInsert;
      if !isFile {
        batches := batches + [buffer];
        if ok { buffer := []; }
      }
      flushes := flushes + 1;
    }

    /** Closes the output stream in file mode; a collection destination has
        nothing to release. Only the lifecycle flag changes. */
    method Close()
      requires Valid()
      modifies this
      ensures Valid() && closed
      ensures fileBytes == old(fileBytes) && buffer == old(buffer) && batches == old(batches)
      ensures dropped == old(dropped) && flushes == old(flushes)
    {
      closed := true;
    }
  }
}
