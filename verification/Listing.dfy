/** The listing cache: a table of rows with the stamps they were read under, what
    it answers, and how a candidate comes out of a listing. */
module Listing {
  import opened Text

  /** A file as far as a listing is concerned; what its bytes are does not
      matter, only that they are parsed. */
  datatype File = File(content: seq<int>, mtime: int)

  datatype Stamp = Stamp(size: nat, mtime: int)

  function StampOf(f: File): Stamp {
    Stamp(|f.content|, f.mtime)
  }

  /** The part of a row that a stamp cannot refresh. */
  datatype Counts = Counts(title: Option<string>, messages: nat, userMessages: nat, replyChars: nat,
                           toolUses: Option<nat>)

  /** A listing row: counts, and the two fields a stamp can refresh. */
  datatype Summary = Summary(path: string, counts: Counts, lastActive: Option<int>, fileSize: nat)

  /** `reusable_after_growth` */
  predicate Reusable(cached: Stamp, current: Stamp) {
    && cached.size <= current.size
    && cached.size != 0
    && current.size - cached.size <= cached.size / 5
  }

  // ---------------------------------------------------------------------------
  // The table
  // ---------------------------------------------------------------------------

  /** Thirty days. */
  const PRUNE_AFTER: int := 30 * 24 * 60 * 60 * 1000

  /** The largest size the table's integer column holds. */
  const MAX_SIZE: nat := 0x7FFF_FFFF_FFFF_FFFF

  /** A table row. The payload is `None` when this build cannot read it. */
  datatype Entry = Entry(stamp: Stamp, version: nat, lastSeen: int, row: Option<Summary>)

  /** A row a run read, to be written back. */
  datatype Fresh = Fresh(path: string, stamp: Stamp, row: Summary)

  datatype Loaded = Loaded(stamp: Stamp, row: Option<Summary>)

  type Table = map<string, Entry>

  function Upserted(rows: Table, news: seq<Fresh>, version: nat, now: int): Table {
    if news == [] then rows
    else
      var before, f := Upserted(rows, news[..|news| - 1], version, now), news[|news| - 1];
      if f.stamp.size > MAX_SIZE then before
      else before[f.path := Entry(f.stamp, version, now, Some(f.row))]
  }

  function Pruned(rows: Table, now: int): Table {
    map path | path in rows && rows[path].lastSeen >= now - PRUNE_AFTER :: rows[path]
  }

  /** One write-back: what was read goes in, then what is old goes out. */
  function Stored(rows: Table, news: seq<Fresh>, version: nat, now: int): Table {
    Pruned(Upserted(rows, news, version, now), now)
  }

  function Touched(rows: Table, hits: seq<string>, now: int): Table {
    map path | path in rows :: if path in hits then rows[path].(lastSeen := now) else rows[path]
  }

  function Usable(rows: Table, version: nat): map<string, Loaded> {
    map path | path in rows && rows[path].version == version :: Loaded(rows[path].stamp, rows[path].row)
  }

  class ListingCache {
    var rows: Table
    const version: nat

    constructor (version: nat)
      ensures rows == map[] && this.version == version
    {
      rows, this.version := map[], version;
    }

    /** The rows of this cache's version, gathered one by one. */
    method Load() returns (loaded: map<string, Loaded>)
      ensures loaded == Usable(rows, version)
    {
      loaded := map[];
      var open := rows.Keys;
      while open != {}
        invariant open <= rows.Keys
        invariant loaded == map path | path in Usable(rows, version) && path !in open :: Usable(rows, version)[path]
        decreases open
      {
        var path :| path in open;
        open := open - {path};
        if rows[path].version == version {
          loaded := loaded[path := Loaded(rows[path].stamp, rows[path].row)];
        }
      }
    }

    /** Upsert the new rows in order, then prune by age. */
    method Store(news: seq<Fresh>, now: int)
      modifies this
      ensures rows == Stored(old(rows), news, version, now)
    {
      for k := 0 to |news|
        invariant rows == Upserted(old(rows), news[..k], version, now)
      {
        assert news[..k + 1][..k] == news[..k];
        if news[k].stamp.size <= MAX_SIZE {
          rows := rows[news[k].path := Entry(news[k].stamp, version, now, Some(news[k].row))];
        }
      }
      assert news[..|news|] == news;
      rows := map path | path in rows && rows[path].lastSeen >= now - PRUNE_AFTER :: rows[path];
    }

    /** Move the last-seen time of the named rows to now. */
    method Touch(hits: seq<string>, now: int)
      modifies this
      ensures rows == Touched(old(rows), hits, now)
    {
      assert rows == Touched(rows, [], now);
      for k := 0 to |hits|
        invariant rows == Touched(old(rows), hits[..k], now)
      {
        if hits[k] in rows {
          rows := rows[hits[k] := rows[hits[k]].(lastSeen := now)];
        }
      }
      assert hits[..|hits|] == hits;
    }
  }

  // ---------------------------------------------------------------------------
  // One candidate
  // ---------------------------------------------------------------------------

  datatype RowSource = Cached | FromRead(stamp: Stamp) | Uncacheable

  datatype Candidate = Row(summary: Summary, source: RowSource) | Elsewhere | Unreadable(path: string)

  /** What the cache answers for a file stamped `stamp`, if it does. */
  function Answer(cached: map<string, Loaded>, path: string, stamp: Stamp): Option<Summary> {
    if path !in cached || cached[path].row.None? then None
    else if cached[path].stamp == stamp then cached[path].row
    else if Reusable(cached[path].stamp, stamp)
    then Some(cached[path].row.value.(lastActive := Some(stamp.mtime), fileSize := stamp.size))
    else None
  }

  /** What a row read between two stamps may be stored under. */
  function SourceOf(before: Option<Stamp>, after: Option<Stamp>): RowSource {
    if before.Some? && before == after then FromRead(before.value) else Uncacheable
  }

  /** How a candidate comes out, given what was measured on the way: the stamp
      before, what reading gave, and the stamp after. */
  function Classified(differs: bool, cached: map<string, Loaded>, path: string, before: Option<Stamp>,
                      read: Option<Summary>, after: Option<Stamp>): Candidate
  {
    if differs then Elsewhere
    else
      var answer := if before.Some? then Answer(cached, path, before.value) else None;
      if answer.Some? then Row(answer.value, Cached)
      else if read.None? then Unreadable(path)
      else Row(read.value, SourceOf(before, after))
  }

  /** The reuse rule, in one inequality: the file has grown by no more than a
      fifth of what was read. */
  lemma ReusableIff(cached: Stamp, current: Stamp)
    ensures Reusable(cached, current) <==>
            cached.size > 0 && cached.size <= current.size && 5 * current.size <= 6 * cached.size
  {
  }

  /** The modification time does not come into it: a readable row answers for any
      stamp that is its own or whose size is in range. So a file rewritten in
      place at the same length is answered from the row of its old bytes. */
  lemma AnswersIff(cached: map<string, Loaded>, path: string, stamp: Stamp)
    requires path in cached && cached[path].row.Some?
    ensures Answer(cached, path, stamp).Some? <==>
            stamp == cached[path].stamp ||
            (0 < cached[path].stamp.size <= stamp.size && 5 * stamp.size <= 6 * cached[path].stamp.size)
    ensures Answer(cached, path, stamp).Some? ==>
              Answer(cached, path, stamp).value.counts == cached[path].row.value.counts
  {
  }

  /** `row` as the cache may show it for a file stamped `stamp`: itself under its own
      stamp, and otherwise with the activity time and the size of that stamp in place
      of its own. */
  predicate ShowsAs(cached: Loaded, stamp: Stamp, row: Summary) {
    && cached.row.Some?
    && row.path == cached.row.value.path
    && row.counts == cached.row.value.counts
    && row.lastActive == (if stamp == cached.stamp then cached.row.value.lastActive else Some(stamp.mtime))
    && row.fileSize == (if stamp == cached.stamp then cached.row.value.fileSize else stamp.size)
  }

  /** What a row that answers says. */
  lemma AnswerSays(cached: map<string, Loaded>, path: string, stamp: Stamp)
    requires Answer(cached, path, stamp).Some?
    ensures path in cached && ShowsAs(cached[path], stamp, Answer(cached, path, stamp).value)
  {
  }

  // ---------------------------------------------------------------------------
  // Pruning
  // ---------------------------------------------------------------------------

  /** One run's write-back: store, then touch. */
  function WrittenBack(rows: Table, news: seq<Fresh>, reused: seq<string>, version: nat, stored: int, touched: int)
    : Table
  {
    Touched(Stored(rows, news, version, stored), reused, touched)
  }

  predicate Names(news: seq<Fresh>, path: string) {
    exists k :: 0 <= k < |news| && news[k].path == path
  }

  lemma {:induction false} OthersStay(rows: Table, news: seq<Fresh>, version: nat, now: int, path: string)
    requires !Names(news, path)
    ensures path in Upserted(rows, news, version, now) <==> path in rows
    ensures path in rows ==> Upserted(rows, news, version, now)[path] == rows[path]
  {
    if news != [] {
      assert news[|news| - 1].path != path;
      OthersStay(rows, news[..|news| - 1], version, now, path);
    }
  }

  /** Does reusing a row keep it alive, as the touch is there to do? Only if it
      was not already a month old: the run prunes before it touches, so an older
      row is answered from once more and then dropped by the same run. */
  lemma ReusedSurvivesIff(rows: Table, news: seq<Fresh>, reused: seq<string>, version: nat, stored: int,
                          touched: int, path: string)
    requires path in rows && path in reused && !Names(news, path)
    ensures
      var after := WrittenBack(rows, news, reused, version, stored, touched);
      && (path in after <==> rows[path].lastSeen >= stored - 2_592_000_000)
      && (path in after ==> after[path] == rows[path].(lastSeen := touched))
  {
    OthersStay(rows, news, version, stored, path);
  }

  /** When a run writes back: the moments it stores and touches. */
  datatype Moment = Moment(stored: int, touched: int)

  /** The table after a series of runs that each reuse `path` and read nothing. */
  function Reread(rows: Table, path: string, version: nat, runs: seq<Moment>): Table {
    if runs == [] then rows
    else
      var before, m := Reread(rows, path, version, runs[..|runs| - 1]), runs[|runs| - 1];
      WrittenBack(before, [], [path], version, m.stored, m.touched)
  }

  /** Run `k` stores within a month of when the row was last seen. */
  predicate SoonEnough(seen: int, runs: seq<Moment>, k: nat)
    requires k < |runs|
  {
    runs[k].stored - 2_592_000_000 <= (if k == 0 then seen else runs[k - 1].touched)
  }

  predicate OftenEnough(seen: int, runs: seq<Moment>) {
    forall k :: 0 <= k < |runs| ==> SoonEnough(seen, runs, k)
  }

  lemma OftenEnoughStep(seen: int, runs: seq<Moment>)
    requires runs != []
    ensures OftenEnough(seen, runs) <==>
            OftenEnough(seen, runs[..|runs| - 1]) && SoonEnough(seen, runs, |runs| - 1)
  {
    var short := runs[..|runs| - 1];
    assert forall k: nat :: k < |short| ==> SoonEnough(seen, runs, k) == SoonEnough(seen, short, k);
  }

  /** A row that is reused by every run lives exactly as long as the runs come
      often enough. */
  lemma {:induction false} KeptAliveIff(rows: Table, path: string, version: nat, runs: seq<Moment>)
    requires path in rows
    ensures
      var after := Reread(rows, path, version, runs);
      && (path in after <==> OftenEnough(rows[path].lastSeen, runs))
      && (path in after ==>
            after[path].lastSeen == if runs == [] then rows[path].lastSeen else runs[|runs| - 1].touched)
  {
    if runs != [] {
      var n := |runs| - 1;
      var before := Reread(rows, path, version, runs[..n]);
      KeptAliveIff(rows, path, version, runs[..n]);
      OftenEnoughStep(rows[path].lastSeen, runs);
      if path in before {
        ReusedSurvivesIff(before, [], [path], version, runs[n].stored, runs[n].touched, path);
      } else {
        OthersStay(before, [], version, runs[n].stored, path);
      }
    }
  }
}
