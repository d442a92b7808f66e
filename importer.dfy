/**
 * The tracker statistics importer: one pass over the compact catalog that
 * asks the tracker for each torrent's seeders and leechers and stores
 * them, resetting the counters to zero when the tracker cannot answer.
 */
module Importer {
  import opened TrackerTypes
  import opened Collaborators

  /** The write the single-torrent import issues for a tracker outcome. */
  function WriteFor(url: string, torrentId: int, outcome: Result<TorrentInfo, TrackerError>): (w: Write)
  {
    match outcome
    case Ok(info) => Write(torrentId, url, info.seeders, info.leechers)
    case Err(_) => Write(torrentId, url, 0, 0)
  }

  /** The error lines the pass logs for one torrent whose import returned `outcome`. */
  function LogFor(t: CompactTorrent, outcome: Result<TorrentInfo, TrackerError>): (lines: seq<LogEntry>)
  {
    if outcome.Err? && outcome.error != TorrentNotFound then [LogEntry(t.torrentId, t.infoHash, outcome.error)]
    else []
  }

  /** The info-hashes of a catalog, in catalog order: the lookups a pass makes. */
  function Hashes(c: seq<CompactTorrent>): (hashes: seq<string>)
  {
    if c == [] then [] else Hashes(c[..|c| - 1]) + [c[|c| - 1].infoHash]
  }

  /** The writes a pass over catalog `c` issues, in order. */
  function PassWrites(answer: Oracle, url: string, c: seq<CompactTorrent>): (ws: seq<Write>)
  {
    if c == [] then []
    else
      var t := c[|c| - 1];
      PassWrites(answer, url, c[..|c| - 1]) + [WriteFor(url, t.torrentId, answer(t.infoHash))]
  }

  /** The error lines a pass over catalog `c` logs, in order. */
  function PassLog(answer: Oracle, c: seq<CompactTorrent>): (lines: seq<LogEntry>)
  {
    if c == [] then []
    else
      var t := c[|c| - 1];
      PassLog(answer, c[..|c| - 1]) + LogFor(t, answer(t.infoHash))
  }

  /** The rows after the writes `ws`, the first of which has index `base` in the write trace. */
  function ApplyWrites(rows: map<int, Row>, base: nat, ws: seq<Write>, failures: map<nat, DbError>): (r: map<int, Row>)
  {
    if ws == [] then rows
    else StoreWrite(ApplyWrites(rows, base, ws[..|ws| - 1], failures), base + |ws| - 1, ws[|ws| - 1], failures)
  }

  /** The rows after a whole pass over `c` that starts with `base` writes already in the trace. */
  function FinalRows(rows: map<int, Row>, base: nat, answer: Oracle, url: string, c: seq<CompactTorrent>,
                     failures: map<nat, DbError>): (r: map<int, Row>)
  {
    ApplyWrites(rows, base, PassWrites(answer, url, c), failures)
  }

  /** What a pass observably changes: the tracker lookups, the database writes and rows, and the error log. */
  datatype PassState = PassState(lookups: seq<string>, writes: seq<Write>, rows: map<int, Row>, log: seq<LogEntry>)

  /** The effect of importing one catalog entry, as the loop body of a pass does it. */
  function Step(s: PassState, answer: Oracle, url: string, failures: map<nat, DbError>, t: CompactTorrent): (next: PassState)
  {
    var outcome := answer(t.infoHash);
    var w := WriteFor(url, t.torrentId, outcome);
    PassState(s.lookups + [t.infoHash], s.writes + [w], StoreWrite(s.rows, |s.writes|, w, failures), s.log + LogFor(t, outcome))
  }

  /** The effect of importing the entries of `c` one after the other, in order. */
  function Run(s: PassState, answer: Oracle, url: string, failures: map<nat, DbError>, c: seq<CompactTorrent>): (final: PassState)
  {
    if c == [] then s else Step(Run(s, answer, url, failures, c[..|c| - 1]), answer, url, failures, c[|c| - 1])
  }

  lemma AppendAssoc<T>(a: seq<T>, b: seq<T>, c: seq<T>)
    ensures (a + b) + c == a + (b + c)
  {
  }

  /**
   * A run over `c` makes the lookups `Hashes(c)`, issues the writes
   * `PassWrites(c)`, leaves the rows those writes produce and logs `PassLog(c)`.
   */
  lemma {:induction false} RunSpec(s: PassState, answer: Oracle, url: string, failures: map<nat, DbError>, c: seq<CompactTorrent>)
    ensures Run(s, answer, url, failures, c) ==
      PassState(s.lookups + Hashes(c), s.writes + PassWrites(answer, url, c),
                FinalRows(s.rows, |s.writes|, answer, url, c, failures), s.log + PassLog(answer, c))
  {
    if c != [] {
      var c', t := c[..|c| - 1], c[|c| - 1];
      RunSpec(s, answer, url, failures, c');
      var outcome := answer(t.infoHash);
      var w := WriteFor(url, t.torrentId, outcome);
      var ws := PassWrites(answer, url, c');
      AppendAssoc(s.lookups, Hashes(c'), [t.infoHash]);
      AppendAssoc(s.writes, ws, [w]);
      AppendAssoc(s.log, PassLog(answer, c'), LogFor(t, outcome));
      assert (ws + [w])[..|ws + [w]| - 1] == ws;
    }
  }

  class StatisticsImporter {
    const database: Database
    const trackerService: TrackerService
    const trackerUrl: string
    /** The error lines logged so far. */
    var errorLog: seq<LogEntry>

    /** The part of the state a pass changes. */
    ghost function Observed(): (s: PassState)
      reads this, database, trackerService
    {
      PassState(trackerService.lookups, database.writes, database.rows, errorLog)
    }

    /** The tracker URL, which the program reads from its settings, is passed in once at construction. */
    constructor (trackerUrl: string, trackerService: TrackerService, database: Database)
      ensures this.trackerUrl == trackerUrl && this.trackerService == trackerService && this.database == database
      ensures errorLog == []
    {
      this.trackerUrl := trackerUrl;
      this.trackerService := trackerService;
      this.database := database;
      errorLog := [];
    }

    /**
     * Imports one torrent's statistics: one lookup, then exactly one write,
     * of the tracker's counters on success and of zeros on failure. The
     * result is the lookup's, whatever the write reports.
     */
    method ImportTorrentStatistics(torrentId: int, infoHash: string) returns (r: Result<TorrentInfo, TrackerError>)
      modifies database, trackerService
      ensures r == trackerService.answer(infoHash)
      ensures trackerService.lookups == old(trackerService.lookups) + [infoHash]
      ensures r.Ok? ==>
        database.writes == old(database.writes) + [Write(torrentId, trackerUrl, r.value.seeders, r.value.leechers)]
      ensures r.Err? ==>
        database.writes == old(database.writes) + [Write(torrentId, trackerUrl, 0, 0)]
      ensures database.rows ==
        StoreWrite(old(database.rows), |old(database.writes)|, WriteFor(trackerUrl, torrentId, r), database.writeFailures)
    {
      var lookup := trackerService.GetTorrentInfo(infoHash);
      match lookup {
        case Ok(torrentInfo) =>
          var _ := database.UpdateTrackerInfo(torrentId, trackerUrl, torrentInfo.seeders, torrentInfo.leechers);
          r := Ok(torrentInfo);
        case Err(err) =>
          var _ := database.UpdateTrackerInfo(torrentId, trackerUrl, 0, 0);
          r := Err(err);
      }
    }

    /**
     * Imports the statistics of every torrent in the catalog. A failed
     * catalog query ends the pass at once with its error; otherwise every
     * torrent is imported in catalog order, failures other than
     * `TorrentNotFound` are logged, and the pass succeeds.
     */
    method ImportAllTorrentsStatistics() returns (r: Result<(), DbError>)
      modifies this, database, trackerService
      ensures database.catalog.Err? ==>
        r == Err(database.catalog.error) &&
        errorLog == old(errorLog) &&
        trackerService.lookups == old(trackerService.lookups) &&
        database.writes == old(database.writes) &&
        database.rows == old(database.rows)
      ensures database.catalog.Ok? ==>
        var c := database.catalog.value;
        r == Ok(()) &&
        trackerService.lookups == old(trackerService.lookups) + Hashes(c) &&
        database.writes == old(database.writes) + PassWrites(trackerService.answer, trackerUrl, c) &&
        database.rows ==
          FinalRows(old(database.rows), |old(database.writes)|, trackerService.answer, trackerUrl, c, database.writeFailures) &&
        errorLog == old(errorLog) + PassLog(trackerService.answer, c)
    {
      var fetched := database.GetAllTorrentsCompact();
      if fetched.Err? {
        r := Err(fetched.error);
        return;
      }
      var torrents := fetched.value;
      ghost var answer, failures, start := trackerService.answer, database.writeFailures, Observed();
      for i := 0 to |torrents|
        invariant Observed() == Run(start, answer, trackerUrl, failures, torrents[..i])
      {
        var torrent := torrents[i];
        ghost var before := Observed();
        var ret := ImportTorrentStatistics(torrent.torrentId, torrent.infoHash);
        if ret.Err? && ret.error != TorrentNotFound {
          errorLog := errorLog + [LogEntry(torrent.torrentId, torrent.infoHash, ret.error)];
        }
        assert Observed() == Step(before, answer, trackerUrl, failures, torrent);
        assert torrents[..i + 1][..i] == torrents[..i];
      }
      assert torrents[..|torrents|] == torrents;
      RunSpec(start, answer, trackerUrl, failures, torrents);
      r := Ok(());
    }
  }
}
