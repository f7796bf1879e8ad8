/** Listings over time: files that are only ever appended to, a shared table, and
    any number of listings at work on both at once. A listing's candidates are
    parsed in parallel, so each one's steps are taken apart: the stamp before, the
    read, the stamp after. Anything may happen between two of them. */
module ListingRuns {
  import opened Text
  import opened Listing

  /** What a full read of a file's bytes tells a build of one row version. */
  type Parser = (nat, seq<int>) -> Option<Counts>

  type Files = map<string, File>

  /** A candidate part-way: stamped, or stamped and read. `basis` is how many
      bytes the read saw. */
  datatype Pending =
    | Begun(before: Option<Stamp>)
    | Parsed(before: Option<Stamp>, row: Summary, basis: nat)

  /** A row shown, with the two sizes it stands between: what was read to make
      it, and what the file had come to when it was shown. */
  datatype Shown = Shown(row: Summary, basis: nat, current: nat)

  datatype Scan = Scan(version: nat, loaded: map<string, Loaded>, pending: map<string, Pending>,
                             news: seq<Fresh>, reused: seq<string>, shown: seq<Shown>)

  datatype World = World(files: Files, rows: Table, listings: map<nat, Scan>)

  // ---------------------------------------------------------------------------
  // Steps
  // ---------------------------------------------------------------------------

  /** One thing that happens. A stamp may be unobtainable, a row read may carry
      any activity time and size, and a listing may be given up at any point. */
  datatype Step =
    | Append(path: string, bytes: seq<int>, mtime: int)
    | Begin(id: nat, version: nat)
    | Look(id: nat, path: string, measurable: bool)
    | Parse(id: nat, path: string, lastActive: Option<int>, fileSize: nat)
    | Finish(id: nat, path: string, measurable: bool)
    | Store(id: nat, now: int)
    | Touch(id: nat, now: int)

  function Appended(files: Files, path: string, bytes: seq<int>, mtime: int): Files {
    files[path := File((if path in files then files[path].content else []) + bytes, mtime)]
  }

  function Measured(files: Files, path: string, measurable: bool): Option<Stamp> {
    if measurable && path in files then Some(StampOf(files[path])) else None
  }

  /** Stamp the file, and answer from the cache if that is enough. */
  function Looked(l: Scan, files: Files, path: string, measurable: bool): Scan {
    var before := Measured(files, path, measurable);
    var answer := if before.Some? then Answer(l.loaded, path, before.value) else None;
    if answer.None? then l.(pending := l.pending[path := Begun(before)])
    else
      l.(reused := l.reused + [path],
         shown := l.shown + [Shown(answer.value, l.loaded[path].stamp.size, before.value.size)])
  }

  /** Read the whole file as it is at this moment. */
  function HasRead(parse: Parser, l: Scan, files: Files, path: string, lastActive: Option<int>, fileSize: nat): Scan {
    if path !in l.pending || !l.pending[path].Begun? || path !in files then l
    else
      var counts := parse(l.version, files[path].content);
      if counts.None? then l
      else
        var row := Summary(path, counts.value, lastActive, fileSize);
        l.(pending := l.pending[path := Parsed(l.pending[path].before, row, |files[path].content|)])
  }

  /** Stamp the file again, and keep the row for the cache if nothing changed. */
  function Finished(l: Scan, files: Files, path: string, measurable: bool): Scan {
    if path !in l.pending || !l.pending[path].Parsed? then l
    else
      var p := l.pending[path];
      var source := SourceOf(p.before, Measured(files, path, measurable));
      l.(news := l.news + (if source.FromRead? then [Fresh(path, source.stamp, p.row)] else []),
         shown := l.shown + [Shown(p.row, p.basis, p.basis)],
         pending := l.pending - {path})
  }

  function Next(parse: Parser, w: World, step: Step): World {
    match step
    case Append(path, bytes, mtime) => w.(files := Appended(w.files, path, bytes, mtime))
    case Begin(id, version) =>
      w.(listings := w.listings[id := Scan(version, Usable(w.rows, version), map[], [], [], [])])
    case Look(id, path, measurable) =>
      if id !in w.listings then w
      else w.(listings := w.listings[id := Looked(w.listings[id], w.files, path, measurable)])
    case Parse(id, path, lastActive, fileSize) =>
      if id !in w.listings then w
      else w.(listings := w.listings[id := HasRead(parse, w.listings[id], w.files, path, lastActive, fileSize)])
    case Finish(id, path, measurable) =>
      if id !in w.listings then w
      else w.(listings := w.listings[id := Finished(w.listings[id], w.files, path, measurable)])
    case Store(id, now) =>
      if id !in w.listings then w
      else w.(rows := Stored(w.rows, w.listings[id].news, w.listings[id].version, now))
    case Touch(id, now) =>
      if id !in w.listings then w
      else w.(rows := Touched(w.rows, w.listings[id].reused, now))
  }

  /** The world after a history, from one with files but no cache. */
  function After(parse: Parser, files: Files, history: seq<Step>): World {
    if history == [] then World(files, map[], map[])
    else Next(parse, After(parse, files, history[..|history| - 1]), history[|history| - 1])
  }

  // ---------------------------------------------------------------------------
  // What is always true
  // ---------------------------------------------------------------------------

  /** The counts are those of the first `size` bytes of the file. */
  predicate Describes(parse: Parser, files: Files, version: nat, path: string, size: nat, counts: Counts) {
    && path in files
    && size <= |files[path].content|
    && parse(version, files[path].content[..size]) == Some(counts)
  }

  /** A row is bound to a stamp: if it can be read, its counts are those of
      exactly the bytes the stamp names. */
  predicate Bound(parse: Parser, files: Files, version: nat, path: string, stamp: Stamp, row: Option<Summary>) {
    row.Some? ==> row.value.path == path && Describes(parse, files, version, path, stamp.size, row.value.counts)
  }

  predicate PendingOk(parse: Parser, files: Files, version: nat, path: string, p: Pending) {
    && (p.before.Some? ==> path in files && p.before.value.size <= |files[path].content|)
    && (p.Parsed? ==>
          && p.row.path == path
          && Describes(parse, files, version, path, p.basis, p.row.counts)
          && (p.before.Some? ==> p.before.value.size <= p.basis))
  }

  /** A shown row's counts are those of a full read of the file's first `basis`
      bytes, and the file was no more than a fifth longer when it was shown, which
      is then the size the row gives. */
  predicate ShownOk(parse: Parser, files: Files, version: nat, s: Shown) {
    && Describes(parse, files, version, s.row.path, s.basis, s.row.counts)
    && s.basis <= s.current <= |files[s.row.path].content|
    && 5 * s.current <= 6 * s.basis
    && (s.basis < s.current ==> s.row.fileSize == s.current)
  }

  ghost predicate TableOk(parse: Parser, files: Files, rows: Table) {
    forall path :: path in rows ==> Bound(parse, files, rows[path].version, path, rows[path].stamp, rows[path].row)
  }

  ghost predicate LoadedOk(parse: Parser, files: Files, l: Scan) {
    forall path :: path in l.loaded ==> Bound(parse, files, l.version, path, l.loaded[path].stamp, l.loaded[path].row)
  }

  ghost predicate AllPendingOk(parse: Parser, files: Files, l: Scan) {
    forall path :: path in l.pending ==> PendingOk(parse, files, l.version, path, l.pending[path])
  }

  ghost predicate NewsOk(parse: Parser, files: Files, version: nat, news: seq<Fresh>) {
    forall k :: 0 <= k < |news| ==> Bound(parse, files, version, news[k].path, news[k].stamp, Some(news[k].row))
  }

  ghost predicate AllShownOk(parse: Parser, files: Files, l: Scan) {
    forall k :: 0 <= k < |l.shown| ==> ShownOk(parse, files, l.version, l.shown[k])
  }

  ghost predicate ListingOk(parse: Parser, files: Files, l: Scan) {
    LoadedOk(parse, files, l) && AllPendingOk(parse, files, l) && NewsOk(parse, files, l.version, l.news) &&
    AllShownOk(parse, files, l)
  }

  ghost predicate WorldOk(parse: Parser, w: World) {
    TableOk(parse, w.files, w.rows) && forall id :: id in w.listings ==> ListingOk(parse, w.files, w.listings[id])
  }

  // ---------------------------------------------------------------------------
  // Appending
  // ---------------------------------------------------------------------------

  /** Every file is still there, and begins as it did. */
  ghost predicate Grown(files: Files, files': Files) {
    forall path :: path in files ==> path in files' && files[path].content <= files'[path].content
  }

  lemma StillDescribes(parse: Parser, files: Files, files': Files, version: nat, path: string, size: nat,
                       counts: Counts)
    requires Grown(files, files') && Describes(parse, files, version, path, size, counts)
    ensures Describes(parse, files', version, path, size, counts)
  {
    assert files'[path].content[..size] == files[path].content[..size];
  }

  lemma ListingStaysOk(parse: Parser, files: Files, files': Files, l: Scan)
    requires Grown(files, files') && ListingOk(parse, files, l)
    ensures ListingOk(parse, files', l)
  {
    forall path | path in l.loaded && l.loaded[path].row.Some?
      ensures Bound(parse, files', l.version, path, l.loaded[path].stamp, l.loaded[path].row)
    {
      assert Bound(parse, files, l.version, path, l.loaded[path].stamp, l.loaded[path].row);
      StillDescribes(parse, files, files', l.version, path, l.loaded[path].stamp.size, l.loaded[path].row.value.counts);
    }
    forall path | path in l.pending
      ensures PendingOk(parse, files', l.version, path, l.pending[path])
    {
      var p := l.pending[path];
      assert PendingOk(parse, files, l.version, path, p);
      if p.Parsed? {
        StillDescribes(parse, files, files', l.version, path, p.basis, p.row.counts);
      }
    }
    forall k | 0 <= k < |l.news|
      ensures Bound(parse, files', l.version, l.news[k].path, l.news[k].stamp, Some(l.news[k].row))
    {
      assert Bound(parse, files, l.version, l.news[k].path, l.news[k].stamp, Some(l.news[k].row));
      StillDescribes(parse, files, files', l.version, l.news[k].path, l.news[k].stamp.size, l.news[k].row.counts);
    }
    forall k | 0 <= k < |l.shown|
      ensures ShownOk(parse, files', l.version, l.shown[k])
    {
      var s := l.shown[k];
      assert ShownOk(parse, files, l.version, s);
      StillDescribes(parse, files, files', l.version, s.row.path, s.basis, s.row.counts);
    }
  }

  lemma TableStaysOk(parse: Parser, files: Files, files': Files, rows: Table)
    requires Grown(files, files') && TableOk(parse, files, rows)
    ensures TableOk(parse, files', rows)
  {
    forall path | path in rows && rows[path].row.Some?
      ensures Bound(parse, files', rows[path].version, path, rows[path].stamp, rows[path].row)
    {
      var entry := rows[path];
      assert Bound(parse, files, entry.version, path, entry.stamp, entry.row);
      StillDescribes(parse, files, files', entry.version, path, entry.stamp.size, entry.row.value.counts);
    }
  }

  // ---------------------------------------------------------------------------
  // A listing's own steps
  // ---------------------------------------------------------------------------

  lemma LookIsOk(parse: Parser, l: Scan, files: Files, path: string, measurable: bool)
    requires ListingOk(parse, files, l)
    ensures ListingOk(parse, files, Looked(l, files, path, measurable))
  {
    var l' := Looked(l, files, path, measurable);
    var before := Measured(files, path, measurable);
    if before.Some? && Answer(l.loaded, path, before.value).Some? {
      assert Bound(parse, files, l.version, path, l.loaded[path].stamp, l.loaded[path].row);
      assert ShownOk(parse, files, l.version, l'.shown[|l.shown|]);
    }
  }

  lemma ReadIsOk(parse: Parser, l: Scan, files: Files, path: string, lastActive: Option<int>, fileSize: nat)
    requires ListingOk(parse, files, l)
    ensures ListingOk(parse, files, HasRead(parse, l, files, path, lastActive, fileSize))
  {
    if path in l.pending && path in files {
      assert PendingOk(parse, files, l.version, path, l.pending[path]);
      assert files[path].content[..|files[path].content|] == files[path].content;
    }
  }

  /** Two equal stamps leave no room for an append between them: what was read in
      between is what both of them name. */
  lemma FinishIsOk(parse: Parser, l: Scan, files: Files, path: string, measurable: bool)
    requires ListingOk(parse, files, l)
    ensures ListingOk(parse, files, Finished(l, files, path, measurable))
  {
    if path in l.pending && l.pending[path].Parsed? {
      var p := l.pending[path];
      assert PendingOk(parse, files, l.version, path, p);
      assert ShownOk(parse, files, l.version, Shown(p.row, p.basis, p.basis));
    }
  }

  lemma {:induction false} UpsertIsOk(parse: Parser, files: Files, rows: Table, news: seq<Fresh>, version: nat,
                                      now: int)
    requires TableOk(parse, files, rows) && NewsOk(parse, files, version, news)
    ensures TableOk(parse, files, Upserted(rows, news, version, now))
  {
    if news != [] {
      UpsertIsOk(parse, files, rows, news[..|news| - 1], version, now);
      var f := news[|news| - 1];
      assert Bound(parse, files, version, f.path, f.stamp, Some(f.row));
    }
  }

  lemma BeginIsOk(parse: Parser, files: Files, rows: Table, version: nat)
    requires TableOk(parse, files, rows)
    ensures ListingOk(parse, files, Scan(version, Usable(rows, version), map[], [], [], []))
  {
  }

  lemma TableStepIsOk(parse: Parser, w: World, step: Step)
    requires WorldOk(parse, w) && (step.Store? || step.Touch?)
    ensures WorldOk(parse, Next(parse, w, step))
  {
    if step.id in w.listings {
      var l := w.listings[step.id];
      assert ListingOk(parse, w.files, l);
      if step.Store? {
        UpsertIsOk(parse, w.files, w.rows, l.news, l.version, step.now);
      }
    }
  }

  lemma AppendIsOk(parse: Parser, w: World, step: Step)
    requires WorldOk(parse, w) && step.Append?
    ensures WorldOk(parse, Next(parse, w, step))
  {
    var files' := Appended(w.files, step.path, step.bytes, step.mtime);
    TableStaysOk(parse, w.files, files', w.rows);
    forall id | id in w.listings
      ensures ListingOk(parse, files', w.listings[id])
    {
      ListingStaysOk(parse, w.files, files', w.listings[id]);
    }
  }

  lemma StepIsOk(parse: Parser, w: World, step: Step)
    requires WorldOk(parse, w)
    ensures WorldOk(parse, Next(parse, w, step))
  {
    match step
    case Append(_, _, _) => AppendIsOk(parse, w, step);
    case Begin(_, version) => BeginIsOk(parse, w.files, w.rows, version);
    case Look(id, path, measurable) =>
      if id in w.listings {
        LookIsOk(parse, w.listings[id], w.files, path, measurable);
      }
    case Parse(id, path, lastActive, fileSize) =>
      if id in w.listings {
        ReadIsOk(parse, w.listings[id], w.files, path, lastActive, fileSize);
      }
    case Finish(id, path, measurable) =>
      if id in w.listings {
        FinishIsOk(parse, w.listings[id], w.files, path, measurable);
      }
    case Store(_, _) => TableStepIsOk(parse, w, step);
    case Touch(_, _) => TableStepIsOk(parse, w, step);
  }

  // ---------------------------------------------------------------------------
  // Whole histories
  // ---------------------------------------------------------------------------

  /** However appends, listings and write-backs interleave, every row in the table
      and in every listing's hands describes exactly the bytes its stamp names. */
  lemma {:induction false} AlwaysOk(parse: Parser, files: Files, history: seq<Step>)
    ensures WorldOk(parse, After(parse, files, history))
  {
    if history != [] {
      AlwaysOk(parse, files, history[..|history| - 1]);
      StepIsOk(parse, After(parse, files, history[..|history| - 1]), history[|history| - 1]);
    }
  }

  /** Bounded staleness: a row shown in any history carries the counts of a full
      read of the file's first `basis` bytes, and the file had grown by no more
      than a fifth of that when it was shown. Reuse does not compound, for the
      table never holds a row under a stamp it was not read at. */
  lemma StalenessIsBounded(parse: Parser, files: Files, history: seq<Step>, id: nat, k: nat)
    requires id in After(parse, files, history).listings
    requires k < |After(parse, files, history).listings[id].shown|
    ensures
      var w := After(parse, files, history);
      var l := w.listings[id];
      var s := l.shown[k];
      && s.row.path in w.files
      && s.basis <= s.current <= |w.files[s.row.path].content|
      && s.current - s.basis <= s.basis / 5
      && (s.basis < s.current ==> s.row.fileSize == s.current)
      && parse(l.version, w.files[s.row.path].content[..s.basis]) == Some(s.row.counts)
  {
    AlwaysOk(parse, files, history);
    var w := After(parse, files, history);
    assert ListingOk(parse, w.files, w.listings[id]);
    assert ShownOk(parse, w.files, w.listings[id].version, w.listings[id].shown[k]);
  }

  /** A file that was rewritten, as none is in these histories, can go unnoticed:
      here a file of one byte is answered for with the counts of the byte before. */
  lemma RewriteGoesUnnoticed()
    ensures
      var parse: Parser := (version, bytes) => Some(Counts(None, if bytes == [1] then 1 else 2, 0, 0, None));
      var was, now := File([1], 10), File([2], 20);
      var cached := map["a" := Loaded(StampOf(was), Some(Summary("a", parse(1, was.content).value, None, 1)))];
      var answer := Answer(cached, "a", StampOf(now));
      && answer.Some?
      && answer.value.counts == parse(1, was.content).value != parse(1, now.content).value
  {
  }

  /** A row answered under its own stamp is what a fresh read would have given. */
  lemma ExactHitIsFresh(parse: Parser, files: Files, history: seq<Step>, id: nat, path: string)
    requires
      var w := After(parse, files, history);
      && id in w.listings && path in w.files && path in w.listings[id].loaded
      && w.listings[id].loaded[path].row.Some?
      && w.listings[id].loaded[path].stamp == StampOf(w.files[path])
    ensures
      var w := After(parse, files, history);
      var l := w.listings[id];
      parse(l.version, w.files[path].content) == Some(l.loaded[path].row.value.counts)
  {
    AlwaysOk(parse, files, history);
    var w := After(parse, files, history);
    var l := w.listings[id];
    assert ListingOk(parse, w.files, l);
    assert Bound(parse, w.files, l.version, path, l.loaded[path].stamp, l.loaded[path].row);
    assert w.files[path].content[..|w.files[path].content|] == w.files[path].content;
  }

  /** A file that grew between its first stamp and its read, or between its read and
      its second stamp, is shown but not stored. */
  lemma ChangedIsNotStored(parse: Parser, files: Files, history: seq<Step>, id: nat, path: string, measurable: bool)
    requires
      var w := After(parse, files, history);
      && id in w.listings && path in w.listings[id].pending && w.listings[id].pending[path].Parsed?
      && path in w.files
      && var p := w.listings[id].pending[path];
         (p.before.Some? && p.before.value.size != p.basis) || |w.files[path].content| != p.basis
    ensures
      var w := After(parse, files, history);
      var l, l' := w.listings[id], Finished(w.listings[id], w.files, path, measurable);
      l'.news == l.news && |l'.shown| == |l.shown| + 1
  {
    AlwaysOk(parse, files, history);
    var w := After(parse, files, history);
    assert ListingOk(parse, w.files, w.listings[id]);
    assert PendingOk(parse, w.files, w.listings[id].version, path, w.listings[id].pending[path]);
  }

  /** A history is its steps one after another. */
  lemma AfterStep(parse: Parser, files: Files, history: seq<Step>, step: Step)
    ensures After(parse, files, []) == World(files, map[], map[])
    ensures After(parse, files, history + [step]) == Next(parse, After(parse, files, history), step)
  {
    assert (history + [step])[..|history|] == history;
  }

  /** Until it is begun anew a listing forgets nothing it gathered, and a candidate
      that was read is not read again before it is finished. */
  lemma NothingIsForgotten(parse: Parser, w: World, step: Step, id: nat)
    requires id in w.listings && !(step.Begin? && step.id == id)
    ensures
      var w' := Next(parse, w, step);
      && id in w'.listings
      && var l, l' := w.listings[id], w'.listings[id];
         && l.shown <= l'.shown && l.news <= l'.news && l.reused <= l'.reused && l.loaded == l'.loaded
         && forall path :: path in l.pending && l.pending[path].Parsed? && !step.Finish? && !step.Look? ==>
              path in l'.pending && l'.pending[path] == l.pending[path]
  {
  }

  // ---------------------------------------------------------------------------
  // A file left alone
  // ---------------------------------------------------------------------------

  /** One candidate listed with nothing in between. */
  function Seen(parse: Parser, w: World, id: nat, version: nat, path: string, lastActive: Option<int>, fileSize: nat)
    : World
  {
    var begun := Next(parse, w, Begin(id, version));
    var looked := Next(parse, begun, Look(id, path, true));
    var read := Next(parse, looked, Parse(id, path, lastActive, fileSize));
    Next(parse, read, Finish(id, path, true))
  }

  /** And written back. */
  function Listed(parse: Parser, w: World, id: nat, version: nat, path: string, lastActive: Option<int>, fileSize: nat,
                  now: int): World
  {
    var seen := Seen(parse, w, id, version, path, lastActive, fileSize);
    Next(parse, Next(parse, seen, Store(id, now)), Touch(id, now))
  }

  lemma UnknownFileIsRead(parse: Parser, w: World, id: nat, version: nat, path: string, counts: Counts,
                          lastActive: Option<int>, fileSize: nat)
    requires path in w.files && parse(version, w.files[path].content) == Some(counts)
    requires path !in Usable(w.rows, version)
    ensures
      var row, size := Summary(path, counts, lastActive, fileSize), |w.files[path].content|;
      var news, shown := [Fresh(path, StampOf(w.files[path]), row)], [Shown(row, size, size)];
      Seen(parse, w, id, version, path, lastActive, fileSize) ==
      w.(listings := w.listings[id := Scan(version, Usable(w.rows, version), map[], news, [], shown)])
  {
    var stamp := StampOf(w.files[path]);
    var row, size := Summary(path, counts, lastActive, fileSize), |w.files[path].content|;
    var begun := Next(parse, w, Begin(id, version));
    var looked := Next(parse, begun, Look(id, path, true));
    var read := Next(parse, looked, Parse(id, path, lastActive, fileSize));
    assert looked.listings[id].pending == map[path := Begun(Some(stamp))];
    assert read.listings[id].pending == map[path := Parsed(Some(stamp), row, size)];
    assert map[path := Parsed(Some(stamp), row, size)] - {path} == map[];
    assert [] + [Fresh(path, stamp, row)] == [Fresh(path, stamp, row)];
    var done := Next(parse, read, Finish(id, path, true));
    assert done.listings[id] ==
           Scan(version, Usable(w.rows, version), map[], [Fresh(path, stamp, row)], [], [Shown(row, size, size)]);
    assert done.listings == w.listings[id := done.listings[id]];
  }

  lemma OneIsStored(rows: Table, f: Fresh, version: nat, now: int)
    requires f.stamp.size <= MAX_SIZE
    ensures f.path in Touched(Stored(rows, [f], version, now), [], now)
    ensures Touched(Stored(rows, [f], version, now), [], now)[f.path] == Entry(f.stamp, version, now, Some(f.row))
  {
    assert [f][..0] == [];
    assert Upserted(rows, [f], version, now) == rows[f.path := Entry(f.stamp, version, now, Some(f.row))];
  }

  /** A file the cache has nothing on is read, shown, and stored under the stamp it
      has, as seen now. */
  lemma UnknownFileIsStored(parse: Parser, w: World, id: nat, version: nat, path: string, counts: Counts,
                            lastActive: Option<int>, fileSize: nat, now: int)
    requires path in w.files && parse(version, w.files[path].content) == Some(counts)
    requires path !in Usable(w.rows, version) && |w.files[path].content| <= MAX_SIZE
    ensures
      var row, size := Summary(path, counts, lastActive, fileSize), |w.files[path].content|;
      var w' := Listed(parse, w, id, version, path, lastActive, fileSize, now);
      && w'.files == w.files
      && id in w'.listings && w'.listings[id].shown == [Shown(row, size, size)] && w'.listings[id].reused == []
      && path in w'.rows && w'.rows[path] == Entry(StampOf(w.files[path]), version, now, Some(row))
  {
    UnknownFileIsRead(parse, w, id, version, path, counts, lastActive, fileSize);
    OneIsStored(w.rows, Fresh(path, StampOf(w.files[path]), Summary(path, counts, lastActive, fileSize)), version, now);
  }

  /** A file whose stamp is the one on record is not read again: its row is shown as
      it is, and counts as seen now, if it was seen within the month. */
  lemma KnownFileIsReused(parse: Parser, w: World, id: nat, version: nat, path: string, lastActive: Option<int>,
                          fileSize: nat, now: int)
    requires path in w.files && path in w.rows && w.rows[path].version == version && w.rows[path].row.Some?
    requires w.rows[path].stamp == StampOf(w.files[path]) && w.rows[path].lastSeen >= now - PRUNE_AFTER
    ensures
      var row, size := w.rows[path].row.value, |w.files[path].content|;
      var w' := Listed(parse, w, id, version, path, lastActive, fileSize, now);
      && id in w'.listings && w'.listings[id].shown == [Shown(row, size, size)]
      && w'.listings[id].news == [] && w'.listings[id].reused == [path]
      && path in w'.rows && w'.rows[path] == w.rows[path].(lastSeen := now)
  {
    var w' := Listed(parse, w, id, version, path, lastActive, fileSize, now);
    assert w'.listings[id].reused == [path] && w'.listings[id].news == [];
    assert w'.rows == Touched(Stored(w.rows, [], version, now), [path], now);
  }

  /** So a file that is left alone is read once: the second listing shows what the
      first one read. */
  lemma QuietFileIsReadOnce(parse: Parser, w: World, id: nat, again: nat, version: nat, path: string, counts: Counts,
                            lastActive: Option<int>, fileSize: nat, now: int, later: int)
    requires path in w.files && parse(version, w.files[path].content) == Some(counts)
    requires path !in Usable(w.rows, version) && |w.files[path].content| <= MAX_SIZE
    requires now >= later - 2_592_000_000
    ensures
      var first := Listed(parse, w, id, version, path, lastActive, fileSize, now);
      var second := Listed(parse, first, again, version, path, None, 0, later);
      again in second.listings && second.listings[again].reused == [path] &&
      id in first.listings && second.listings[again].shown == first.listings[id].shown
  {
    UnknownFileIsStored(parse, w, id, version, path, counts, lastActive, fileSize, now);
    var first := Listed(parse, w, id, version, path, lastActive, fileSize, now);
    KnownFileIsReused(parse, first, again, version, path, None, 0, later);
  }

  /** One candidate looked at after its file was appended to. */
  function LookedAfter(parse: Parser, w: World, id: nat, version: nat, path: string, bytes: seq<int>, mtime: int)
    : World
  {
    Next(parse, Next(parse, Next(parse, w, Append(path, bytes, mtime)), Begin(id, version)), Look(id, path, true))
  }

  /** A file on record that has grown by up to a fifth is shown from its row, with the
      size and the time it has now; one that has grown by more waits to be read. */
  lemma GrownFileIsShownOrRead(parse: Parser, w: World, id: nat, version: nat, path: string, bytes: seq<int>,
                               mtime: int)
    requires path in w.files && path in w.rows && w.rows[path].version == version && w.rows[path].row.Some?
    requires w.rows[path].stamp == StampOf(w.files[path]) && bytes != []
    ensures
      var row, size := w.rows[path].row.value, |w.files[path].content|;
      var w' := LookedAfter(parse, w, id, version, path, bytes, mtime);
      && path in w'.files && w'.files[path] == File(w.files[path].content + bytes, mtime)
      && id in w'.listings
      && var l := w'.listings[id];
         if 5 * |bytes| <= size then
           && l.shown == [Shown(row.(lastActive := Some(mtime), fileSize := size + |bytes|), size, size + |bytes|)]
           && l.reused == [path] && l.pending == map[]
         else l.shown == [] && l.reused == [] && l.pending == map[path := Begun(Some(Stamp(size + |bytes|, mtime)))]
  {
    var begun := Next(parse, Next(parse, w, Append(path, bytes, mtime)), Begin(id, version));
    var stamp := Stamp(|w.files[path].content| + |bytes|, mtime);
    assert Measured(begun.files, path, true) == Some(stamp);
    AnswersIff(begun.listings[id].loaded, path, stamp);
  }
}
