/** One listing from end to end, as the command runs it: load the cache, send
    every candidate through it, write back. Files may grow under every call. */
module ListingScan {
  import opened Text
  import opened Listing
  import opened ListingRuns

  /** The files, which other processes append to whenever we look away. */
  class Disk {
    var files: Files

    constructor (files: Files)
      ensures this.files == files
    {
      this.files := files;
    }

    method Drift()
      modifies this
      ensures Grown(old(files), files)
    {
      var n: nat :| n >= 0;
      for k := 0 to n
        invariant Grown(old(files), files)
      {
        var path: string, bytes: seq<int>, mtime: int := *, *, *;
        files := Appended(files, path, bytes, mtime);
      }
    }

    /** `Stamp::of`, which may fail. */
    method Measure(path: string) returns (stamp: Option<Stamp>)
      modifies this
      ensures Grown(old(files), files)
      ensures stamp.Some? ==> path in files && stamp.value == StampOf(files[path])
    {
      Drift();
      var measurable: bool := *;
      stamp := Measured(files, path, measurable);
    }

    /** `read_session` and the row built from it, which `size` bytes went into. */
    method ReadSession(parse: Parser, version: nat, path: string) returns (row: Option<Summary>, ghost size: nat)
      modifies this
      ensures Grown(old(files), files)
      ensures row.Some? ==> row.value.path == path && path in files && size == |files[path].content| &&
                            parse(version, files[path].content) == Some(row.value.counts)
    {
      Drift();
      if path !in files {
        return None, 0;
      }
      size := |files[path].content|;
      var counts := parse(version, files[path].content);
      var lastActive: Option<int>, fileSize: nat := *, *;
      row := if counts.None? then None else Some(Summary(path, counts.value, lastActive, fileSize));
    }
  }

  lemma StaysBound(parse: Parser, files: Files, files': Files, version: nat, path: string, stamp: Stamp,
                   row: Option<Summary>)
    requires Grown(files, files') && Bound(parse, files, version, path, stamp, row)
    ensures Bound(parse, files', version, path, stamp, row)
  {
    if row.Some? {
      StillDescribes(parse, files, files', version, path, stamp.size, row.value.counts);
    }
  }

  ghost predicate CachedOk(parse: Parser, files: Files, version: nat, cached: map<string, Loaded>) {
    forall path :: path in cached ==> Bound(parse, files, version, path, cached[path].stamp, cached[path].row)
  }

  lemma CachedStaysOk(parse: Parser, files: Files, files': Files, version: nat, cached: map<string, Loaded>)
    requires Grown(files, files') && CachedOk(parse, files, version, cached)
    ensures CachedOk(parse, files', version, cached)
  {
    forall path | path in cached
      ensures Bound(parse, files', version, path, cached[path].stamp, cached[path].row)
    {
      StaysBound(parse, files, files', version, path, cached[path].stamp, cached[path].row);
    }
  }

  lemma StaysOk(parse: Parser, files: Files, files': Files, version: nat, s: Shown)
    requires Grown(files, files') && ShownOk(parse, files, version, s)
    ensures ShownOk(parse, files', version, s)
  {
    StillDescribes(parse, files, files', version, s.row.path, s.basis, s.row.counts);
  }

  lemma EqualStampsBind(parse: Parser, before: Files, during: Files, after: Files, version: nat, row: Summary)
    requires Grown(before, during) && Grown(during, after)
    requires row.path in before && parse(version, during[row.path].content) == Some(row.counts)
    requires StampOf(before[row.path]) == StampOf(after[row.path])
    ensures Bound(parse, after, version, row.path, StampOf(after[row.path]), Some(row))
  {
    assert after[row.path].content[..|after[row.path].content|] == during[row.path].content;
  }

  /** A row and the two sizes it stands between are sound, and the second is no
      smaller than the file was to begin with. */
  ghost predicate FreshEnough(parse: Parser, first: Files, files: Files, version: nat, s: Shown) {
    && ShownOk(parse, files, version, s)
    && (s.row.path in first ==> |first[s.row.path].content| <= s.current)
  }

  /** `classify_candidate`: the outcome is the one the measurements call for. A
      cached row stands between the size it was recorded under and the size just
      measured, a read one at the size that was read; and a row marked for the
      cache describes exactly the bytes its stamp names. */
  method Classify(disk: Disk, parse: Parser, version: nat, differs: bool, path: string, cached: map<string, Loaded>)
    returns (candidate: Candidate, ghost before: Option<Stamp>, ghost read: Option<Summary>, ghost after: Option<Stamp>,
             ghost basis: nat, ghost current: nat)
    requires CachedOk(parse, disk.files, version, cached)
    modifies disk
    ensures Grown(old(disk.files), disk.files)
    ensures candidate == Classified(differs, cached, path, before, read, after)
    ensures candidate.Row? ==>
              candidate.summary.path == path &&
              FreshEnough(parse, old(disk.files), disk.files, version, Shown(candidate.summary, basis, current))
    ensures candidate.Row? && candidate.source.Cached? ==>
              before.Some? && path in cached && basis == cached[path].stamp.size && current == before.value.size &&
              ShowsAs(cached[path], before.value, candidate.summary)
    ensures candidate.Row? && !candidate.source.Cached? ==> basis == current
    ensures candidate.Row? && candidate.source.FromRead? ==>
              Bound(parse, disk.files, version, path, candidate.source.stamp, Some(candidate.summary))
  {
    before, read, after, basis, current := None, None, None, 0, 0;
    if differs {
      return Elsewhere, before, read, after, basis, current;
    }
    var first := disk.Measure(path);
    before := first;
    ghost var stamped := disk.files;
    CachedStaysOk(parse, old(disk.files), stamped, version, cached);
    if first.Some? {
      var answer := Answer(cached, path, first.value);
      if answer.Some? {
        AnswerSays(cached, path, first.value);
        return Row(answer.value, Cached), before, read, after, cached[path].stamp.size, first.value.size;
      }
    }
    var row, size := disk.ReadSession(parse, version, path);
    read := row;
    if row.None? {
      return Unreadable(path), before, read, after, basis, current;
    }
    basis, current := size, size;
    ghost var during := disk.files;
    assert during[path].content[..size] == during[path].content;
    var second := disk.Measure(path);
    after := second;
    StaysOk(parse, during, disk.files, version, Shown(row.value, size, size));
    var source := SourceOf(first, second);
    if source.FromRead? {
      EqualStampsBind(parse, stamped, during, disk.files, version, row.value);
    }
    candidate := Row(row.value, source);
  }

  /** What a listing gathers. */
  class Gathered {
    var sessions: seq<Summary>
    var skipped: seq<string>
    var news: seq<Fresh>
    var reused: seq<string>

    /** The sessions with the sizes they stand between, and the stamp measured for
        each one that came from the cache. */
    ghost var shown: seq<Shown>
    ghost var stamps: seq<Option<Stamp>>

    constructor ()
      ensures sessions == [] && skipped == [] && news == [] && reused == [] && shown == [] && stamps == []
    {
      sessions, skipped, news, reused, shown, stamps := [], [], [], [], [], [];
    }

    /** `accept`: every candidate that is here is shown or reported, and only what
        was read is for the cache. */
    method Accept(candidate: Candidate, storable: bool, ghost basis: nat, ghost current: nat,
                  ghost before: Option<Stamp>)
      modifies this
      ensures stamps == old(stamps) +
                        if !candidate.Row? then []
                        else [if candidate.source.Cached? then before else None]
      ensures shown == old(shown) + if candidate.Row? then [Shown(candidate.summary, basis, current)] else []
      ensures sessions == old(sessions) + if candidate.Row? then [candidate.summary] else []
      ensures skipped == old(skipped) + if candidate.Unreadable? then [candidate.path] else []
      ensures reused == old(reused) +
                        if candidate.Row? && candidate.source.Cached? then [candidate.summary.path] else []
      ensures news == old(news) +
                      if candidate.Row? && candidate.source.FromRead? && storable
                      then [Fresh(candidate.summary.path, candidate.source.stamp, candidate.summary)] else []
    {
      match candidate
      case Row(summary, source) =>
        match source {
          case Cached => reused := reused + [summary.path];
          case FromRead(stamp) =>
            if storable {
              news := news + [Fresh(summary.path, stamp, summary)];
            }
          case Uncacheable =>
        }
        sessions := sessions + [summary];
        shown := shown + [Shown(summary, basis, current)];
        stamps := stamps + [if source.Cached? then before else None];
      case Elsewhere =>
      case Unreadable(path) => skipped := skipped + [path];
    }
  }

  /** The rows gathered, each with its sizes, were none of them too stale. */
  ghost predicate AllFresh(parse: Parser, first: Files, files: Files, version: nat, rows: seq<Summary>,
                           shown: seq<Shown>)
  {
    |shown| == |rows| &&
    forall k :: 0 <= k < |rows| ==> shown[k].row == rows[k] && FreshEnough(parse, first, files, version, shown[k])
  }

  lemma AllStayFresh(parse: Parser, first: Files, files: Files, files': Files, version: nat, rows: seq<Summary>,
                     shown: seq<Shown>)
    requires Grown(files, files') && AllFresh(parse, first, files, version, rows, shown)
    ensures AllFresh(parse, first, files', version, rows, shown)
  {
    forall k | 0 <= k < |rows|
      ensures ShownOk(parse, files', version, shown[k])
    {
      StaysOk(parse, files, files', version, shown[k]);
    }
  }

  /** Every row that came from the cache says what it may for the stamp it answered
      to, and is marked as reused. */
  ghost predicate ReusedOk(cached: map<string, Loaded>, rows: seq<Summary>, shown: seq<Shown>,
                           stamps: seq<Option<Stamp>>, reused: seq<string>)
  {
    && |rows| == |shown| == |stamps|
    && (forall path :: path in reused ==> exists k :: 0 <= k < |rows| && stamps[k].Some? && rows[k].path == path)
    && forall k :: 0 <= k < |rows| && stamps[k].Some? ==>
         && rows[k].path in cached
         && ShowsAs(cached[rows[k].path], stamps[k].value, rows[k])
         && shown[k].basis == cached[rows[k].path].stamp.size
         && shown[k].current == stamps[k].value.size
  }

  lemma NewsStaysOk(parse: Parser, files: Files, files': Files, version: nat, news: seq<Fresh>)
    requires Grown(files, files') && NewsOk(parse, files, version, news)
    ensures NewsOk(parse, files', version, news)
  {
    forall k | 0 <= k < |news|
      ensures Bound(parse, files', version, news[k].path, news[k].stamp, Some(news[k].row))
    {
      StaysBound(parse, files, files', version, news[k].path, news[k].stamp, Some(news[k].row));
    }
  }

  lemma OneMoreRow(cached: map<string, Loaded>, rows: seq<Summary>, shown: seq<Shown>, stamps: seq<Option<Stamp>>,
                   reused: seq<string>, s: Shown, stamp: Option<Stamp>)
    requires ReusedOk(cached, rows, shown, stamps, reused)
    requires stamp.Some? ==>
               && s.row.path in cached && ShowsAs(cached[s.row.path], stamp.value, s.row)
               && s.basis == cached[s.row.path].stamp.size && s.current == stamp.value.size
    ensures ReusedOk(cached, rows + [s.row], shown + [s], stamps + [stamp],
                     reused + if stamp.Some? then [s.row.path] else [])
  {
    var rows', stamps' := rows + [s.row], stamps + [stamp];
    var reused' := reused + if stamp.Some? then [s.row.path] else [];
    forall path | path in reused'
      ensures exists k :: 0 <= k < |rows'| && stamps'[k].Some? && rows'[k].path == path
    {
      if path in reused {
        var k :| 0 <= k < |rows| && stamps[k].Some? && rows[k].path == path;
        assert stamps'[k].Some? && rows'[k].path == path;
      } else {
        assert stamps'[|rows|].Some? && rows'[|rows|].path == path;
      }
    }
  }

  /** The paths the layout places elsewhere. */
  function Skips(paths: seq<string>, differs: set<string>): seq<string> {
    if paths == [] then []
    else
      Skips(paths[..|paths| - 1], differs) +
      if paths[|paths| - 1] in differs then [paths[|paths| - 1]] else []
  }

  /** Everything in hand is as it should be, for a listing that began at `first`. */
  ghost predicate InHandOk(parse: Parser, first: Files, files: Files, version: nat, cached: map<string, Loaded>,
                           got: Gathered)
    reads got
  {
    && Grown(first, files)
    && CachedOk(parse, files, version, cached)
    && AllFresh(parse, first, files, version, got.sessions, got.shown)
    && NewsOk(parse, files, version, got.news)
    && ReusedOk(cached, got.sessions, got.shown, got.stamps, got.reused)
  }

  /** One candidate, classified and accepted: shown, reported, or elsewhere. */
  method ScanOne(disk: Disk, parse: Parser, version: nat, path: string, differs: bool, storable: bool,
                 cached: map<string, Loaded>, got: Gathered, ghost start: Files)
    requires InHandOk(parse, start, disk.files, version, cached, got)
    modifies disk, got
    ensures InHandOk(parse, start, disk.files, version, cached, got)
    ensures |got.sessions| + |got.skipped| == old(|got.sessions| + |got.skipped|) + if differs then 0 else 1
  {
    ghost var files := disk.files;
    var candidate, before, read, after, basis, current :=
      Classify(disk, parse, version, differs, path, cached);
    CachedStaysOk(parse, files, disk.files, version, cached);
    AllStayFresh(parse, start, files, disk.files, version, got.sessions, got.shown);
    NewsStaysOk(parse, files, disk.files, version, got.news);
    ghost var stamps, rows, shown, reused := got.stamps, got.sessions, got.shown, got.reused;
    got.Accept(candidate, storable, basis, current, before);
    if candidate.Row? {
      OneMoreRow(cached, rows, shown, stamps, reused, Shown(candidate.summary, basis, current),
                 if candidate.source.Cached? then before else None);
    } else {
      assert got.sessions == rows && got.shown == shown && got.stamps == stamps && got.reused == reused;
    }
  }

  /** One listing: whatever grows meanwhile, every row gathered comes from a full
      read of at least five sixths of what its file held when the listing began,
      every row reused of a file that grew shows the size and the time just measured,
      every row gathered for the cache is bound to its bytes, and every candidate not
      placed elsewhere is either shown or reported. */
  method Scan(disk: Disk, parse: Parser, version: nat, paths: seq<string>, differs: set<string>,
              unstorable: set<string>, cached: map<string, Loaded>, got: Gathered)
    requires CachedOk(parse, disk.files, version, cached)
    requires got.sessions == [] && got.skipped == [] && got.news == [] && got.reused == []
    requires got.shown == [] && got.stamps == []
    modifies disk, got
    ensures InHandOk(parse, old(disk.files), disk.files, version, cached, got)
    ensures |got.sessions| + |got.skipped| == |paths| - |Skips(paths, differs)|
  {
    for k := 0 to |paths|
      invariant InHandOk(parse, old(disk.files), disk.files, version, cached, got)
      invariant |got.sessions| + |got.skipped| == k - |Skips(paths[..k], differs)|
    {
      var path := paths[k];
      ScanOne(disk, parse, version, path, path in differs, path !in unstorable, cached, got, old(disk.files));
      assert paths[..k + 1][..k] == paths[..k];
    }
    assert paths[..|paths|] == paths;
  }

  /** The whole command: load, scan, store, touch. Each row listed was read in full
      from its file's first `basis` bytes, and that is no less than five sixths of
      what the file held when the command began. */
  method List(disk: Disk, cache: ListingCache, parse: Parser, paths: seq<string>, differs: set<string>,
              unstorable: set<string>, stored: int, touched: int)
    returns (got: Gathered)
    requires TableOk(parse, disk.files, cache.rows)
    modifies disk, cache
    ensures Grown(old(disk.files), disk.files)
    ensures AllFresh(parse, old(disk.files), disk.files, cache.version, got.sessions, got.shown)
    ensures forall k :: 0 <= k < |got.sessions| && got.sessions[k].path in old(disk.files) ==>
              5 * |old(disk.files)[got.sessions[k].path].content| <= 6 * got.shown[k].basis
    ensures ReusedOk(Usable(old(cache.rows), cache.version), got.sessions, got.shown, got.stamps,
                     got.reused)
    ensures TableOk(parse, disk.files, cache.rows)
    ensures cache.rows == WrittenBack(old(cache.rows), got.news, got.reused, cache.version, stored, touched)
  {
    got := new Gathered();
    var cached := cache.Load();
    Scan(disk, parse, cache.version, paths, differs, unstorable, cached, got);
    TableStaysOk(parse, old(disk.files), disk.files, cache.rows);
    UpsertIsOk(parse, disk.files, cache.rows, got.news, cache.version, stored);
    cache.Store(got.news, stored);
    cache.Touch(got.reused, touched);
  }
}
