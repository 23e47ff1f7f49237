/** The run's configuration: the option values the command-line parser
    yields, the `Config` record built from them (with the destination
    database and collection defaulted to the source's), the usage check
    that rejects an incomplete configuration, and the choice of destination. */
module Settings {
  import opened Wrappers

  /** The option values as the parser hands them over; an absent option is `None`,
      `clear` is whether `--clear` was given. */
  datatype CommandLine = CommandLine(
    uri: Option<string>,
    database: Option<string>,
    collection: Option<string>,
    out: Option<string>,
    toUri: Option<string>,
    toDb: Option<string>,
    toColl: Option<string>,
    clear: bool)

  /** The fields of the program's `Config` record. */
  datatype Config = Config(
    clear: bool,
    toColl: Option<string>,
    toDb: Option<string>,
    toUri: Option<string>,
    uri: Option<string>,
    database: Option<string>,
    collection: Option<string>,
    output: Option<string>)

  /** Where the copied documents go: a file, or a collection reached through
      a destination connection string, which is dropped first when `clear` holds. */
  datatype Target =
    | FileTarget(path: string)
    | CollectionTarget(uri: string, db: string, coll: string, clear: bool)

  datatype UsageError = UsageError(message: string, status: int)

  const Usage: string :=
    "Usage: Dumper --uri <uri> --database <db> --collection <coll> "
    + "(--out <outfile> | --to-uri <uri> [--to-db <db>] [--to-coll coll]"

  /** Copies every option into a `Config`; an absent `--to-db` or `--to-coll`
      falls back to the source database or collection. */
  function FromCommandLine(line: CommandLine): (c: Config)
    ensures c.uri == line.uri && c.database == line.database && c.collection == line.collection
    ensures c.output == line.out && c.toUri == line.toUri && c.clear == line.clear
    ensures line.toDb.Some? ==> c.toDb == line.toDb
    ensures line.toDb.None? ==> c.toDb == line.database
    ensures line.toColl.Some? ==> c.toColl == line.toColl
    ensures line.toColl.None? ==> c.toColl == line.collection
  {
    Config(
      clear := line.clear,
      toColl := if line.toColl.None? then line.collection else line.toColl,
      toDb := if line.toDb.None? then line.database else line.toDb,
      toUri := line.toUri,
      uri := line.uri,
      database := line.database,
      collection := line.collection,
      output := line.out)
  }

  /** The condition under which the program goes on to copy: a source
      connection string, database and collection, and some destination. */
  predicate Usable(c: Config) {
    c.uri.Some? && c.database.Some? && c.collection.Some? && (c.output.Some? || c.toUri.Some?)
  }

  /** What opening a destination needs from the configuration: an output
      file, or a destination connection string with database and collection names. */
  predicate Opens(c: Config) {
    c.output.Some? || (c.toUri.Some? && c.toDb.Some? && c.toColl.Some?)
  }

  /** The configuration step of the program: the `Config` when the run may
      proceed, otherwise the usage message with exit status 1. */
  function Check(line: CommandLine): (r: Result<Config, UsageError>)
    ensures r.Ok? <==>
      line.uri.Some? && line.database.Some? && line.collection.Some? &&
      (line.out.Some? || line.toUri.Some?)
    ensures r.Ok? ==> r.value == FromCommandLine(line) && Opens(r.value)
    ensures r.Err? ==> r.error.status == 1 && r.error.message == Usage
  {
    var c := FromCommandLine(line);
    if Usable(c) then Ok(c) else Err(UsageError(Usage, 1))
  }

  /** The destination a configuration selects: the file when an output path
      is given, whether or not a destination connection string is given too. */
  function TargetOf(c: Config): (t: Target)
    requires Opens(c)
    ensures t.FileTarget? <==> c.output.Some?
    ensures t.FileTarget? ==> Some(t.path) == c.output
    ensures t.CollectionTarget? ==>
      Some(t.uri) == c.toUri && Some(t.db) == c.toDb && Some(t.coll) == c.toColl && t.clear == c.clear
  {
    if c.output.Some? then FileTarget(c.output.value)
    else CollectionTarget(c.toUri.value, c.toDb.value, c.toColl.value, c.clear)
  }

  /** An accepted command line with `--out` writes to that file, even when
      `--to-uri` is given as well. */
  lemma OutTakesPrecedence(line: CommandLine)
    requires Check(line).Ok? && line.out.Some?
    ensures TargetOf(Check(line).value) == FileTarget(line.out.value)
  {
  }

  /** An accepted command line without `--out` copies into a collection named
      by `--to-db`/`--to-coll`, or by the source's database and collection
      where those are absent. */
  lemma CollectionTargetDefaults(line: CommandLine)
    requires Check(line).Ok? && line.out.None?
    ensures var t := TargetOf(Check(line).value);
      && t.CollectionTarget?
      && Some(t.uri) == line.toUri
      && Some(t.db) == (if line.toDb.Some? then line.toDb else line.database)
      && Some(t.coll) == (if line.toColl.Some? then line.toColl else line.collection)
      && t.clear == line.clear
  {
  }
}
