/** One ingest pass: which files it reads, from where, and what it writes. */
module IngestPass {
  import opened Schema
  import opened EventStore

  datatype Stat = Stat(mtime: int, size: nat)

  datatype Decision = Skip | ReadFrom(offset: nat)

  /** Where ingest starts to read a file, given its cursor, whether the slow
      tier's file is trusted unseen, what os.Stat says and the forced re-read. */
  function Plan(cursor: Option<Cursor>, trusted: bool, stat: Option<Stat>, forceFull: bool): Decision {
    var ok := cursor.Some? && !forceFull;
    if ok && trusted then Skip
    else if stat.None? then Skip
    else if ok && cursor.value.mtime == stat.value.mtime && cursor.value.size == stat.value.size
            && cursor.value.offset == stat.value.size then Skip
    else if !ok
         || (cursor.value.mtime != stat.value.mtime && stat.value.size < cursor.value.size)
         || cursor.value.offset > stat.value.size then ReadFrom(0)
    else ReadFrom(cursor.value.offset)
  }

  /** A file is left alone only when it is gone, its tier is trusted, or its
      cursor stands at its very end with nothing touched since; it is read on
      from the cursor when the cursor lies within it and the file did not shrink
      unless its time is the same; and otherwise from byte 0. */
  lemma PlanStarts(cursor: Option<Cursor>, trusted: bool, stat: Option<Stat>, forceFull: bool)
    ensures var d := Plan(cursor, trusted, stat, forceFull);
            && (d == Skip <==>
                || stat == None
                || (cursor.Some? && !forceFull
                    && (trusted || cursor == Some(Cursor(stat.value.size, stat.value.mtime, stat.value.size)))))
            && (d.ReadFrom? ==> d.offset <= stat.value.size)
            && (d.ReadFrom? ==>
                if cursor.Some? && !forceFull && cursor.value.offset <= stat.value.size
                   && (cursor.value.mtime == stat.value.mtime || cursor.value.size <= stat.value.size)
                then d.offset == cursor.value.offset else d.offset == 0)
  {
  }

  /** What a parser returns for one read. */
  datatype Parsed = Parsed(events: seq<Event>, newOffset: nat)

  /** What one pass sees of the disk. */
  datatype Disk = Disk(
    owned: string -> bool,                    // an adapter claims the path
    stat: string -> Option<Stat>,
    parse: (string, nat) -> Option<Parsed>)   // None on a read error

  datatype Db = Db(events: Table, cursors: Cursors)

  function CursorOf(c: Cursors, path: string): Option<Cursor> {
    if path in c then Some(c[path]) else None
  }

  function AfterFile(db: Db, f: string, disk: Disk, trusted: set<string>, forceFull: bool): Db {
    if !disk.owned(f) then db
    else
      var stat := disk.stat(f);
      match Plan(CursorOf(db.cursors, f), f in trusted, stat, forceFull)
      case Skip => db
      case ReadFrom(from) =>
        match disk.parse(f, from)
        case None => db
        case Some(parsed) =>
          PlanStarts(CursorOf(db.cursors, f), f in trusted, stat, forceFull);
          Db(UpsertAll(db.events, parsed.events),
             db.cursors[f := Cursor(parsed.newOffset, stat.value.mtime, stat.value.size)])
  }

  function AfterFiles(db: Db, files: seq<string>, disk: Disk, trusted: set<string>, forceFull: bool): Db
    decreases |files|
  {
    if files == [] then db
    else AfterFiles(AfterFile(db, files[0], disk, trusted, forceFull), files[1..], disk, trusted, forceFull)
  }

  const BATCH: nat := 1000

  /** Rows are committed 1,000 at a time; the batches add up to one upsert of all. */
  method UpsertBatches(store: Store, es: seq<Event>)
    modifies store`events
    ensures store.events == UpsertAll(old(store.events), es)
  {
    var start := 0;
    while start < |es|
      invariant 0 <= start <= |es|
      invariant store.events == UpsertAll(old(store.events), es[..start])
    {
      var end := if start + BATCH > |es| then |es| else start + BATCH;
      UpsertAppend(old(store.events), es[..start], es[start..end]);
      assert es[..start] + es[start..end] == es[..end];
      store.UpsertEvents(es[start..end]);
      start := end;
    }
    assert es[..start] == es;
  }

  method IngestOne(store: Store, f: string, disk: Disk, trusted: set<string>, forceFull: bool)
    modifies store
    ensures Db(store.events, store.cursors) ==
            AfterFile(Db(old(store.events), old(store.cursors)), f, disk, trusted, forceFull)
  {
    if !disk.owned(f) {
      return;
    }
    var cursor := CursorOf(store.cursors, f);
    var stat := disk.stat(f);
    PlanStarts(cursor, f in trusted, stat, forceFull);
    match Plan(cursor, f in trusted, stat, forceFull)
    case Skip =>
    case ReadFrom(from) =>
      match disk.parse(f, from)
      case None =>
      case Some(parsed) =>
        UpsertBatches(store, parsed.events);
        store.SetCursor(f, parsed.newOffset, stat.value.mtime, stat.value.size);
  }

  method Ingest(store: Store, files: seq<string>, disk: Disk, trusted: set<string>, forceFull: bool)
    modifies store
    ensures Db(store.events, store.cursors) ==
            AfterFiles(Db(old(store.events), old(store.cursors)), files, disk, trusted, forceFull)
  {
    var i := 0;
    while i < |files|
      invariant 0 <= i <= |files|
      invariant AfterFiles(Db(store.events, store.cursors), files[i..], disk, trusted, forceFull)
             == AfterFiles(Db(old(store.events), old(store.cursors)), files, disk, trusted, forceFull)
    {
      assert files[i..][1..] == files[i + 1..];
      IngestOne(store, files[i], disk, trusted, forceFull);
      i := i + 1;
    }
  }

  /** Whatever the disk looks like, a pass loses no row and lowers no output. */
  lemma {:induction false} PassGrows(db: Db, files: seq<string>, disk: Disk, trusted: set<string>, forceFull: bool)
    ensures Grows(db.events, AfterFiles(db, files, disk, trusted, forceFull).events)
    decreases |files|
  {
    if files != [] {
      var next := AfterFile(db, files[0], disk, trusted, forceFull);
      assert Grows(db.events, next.events) by {
        match Plan(CursorOf(db.cursors, files[0]), files[0] in trusted, disk.stat(files[0]), forceFull)
        case Skip =>
        case ReadFrom(from) =>
          if disk.parse(files[0], from).Some? { UpsertGrows(db.events, disk.parse(files[0], from).value.events); }
      }
      PassGrows(next, files[1..], disk, trusted, forceFull);
      assert Grows(next.events, AfterFiles(db, files, disk, trusted, forceFull).events);
    }
  }
}
