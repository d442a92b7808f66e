# Tracker statistics importer

A Dafny model of the torrent index's tracker statistics importer
(`StatisticsImporter` in `src/tracker/statistics_importer.rs`). The importer
reconciles the seeder and leecher counts the index stores for each torrent
with what an external BitTorrent tracker reports:

- `import_all_torrents_statistics` fetches the compact catalog (id and
  info-hash of every torrent). If that query fails, the pass returns its error
  at once. Otherwise it imports every torrent in catalog order, logs every
  per-torrent failure except `TorrentNotFound`, and returns `Ok(())`.
- `import_torrent_statistics` looks the info-hash up on the tracker. It then
  writes `(torrent_id, tracker_url, seeders, leechers)` on success, or
  `(torrent_id, tracker_url, 0, 0)` on any failure. It returns the lookup's
  result and throws away the write's result.

Files:

- `types.dfy` (module `TrackerTypes`): the values involved. These are the
  catalog entry, the tracker's `TorrentInfo`, the tracker and database errors,
  a stored row, a write, and an error-log line.
- `collaborators.dfy` (module `Collaborators`): the two collaborators,
  reduced to what the importer sees of them.
  - `Database` keeps the stored rows, a trace of the writes it received, the
    fixed outcome of the catalog query, and which writes fail, keyed by their
    position in the trace.
  - `TrackerService` answers from a fixed oracle `answer` (info-hash to
    `Ok(TorrentInfo)` or `Err(TrackerError)`) and records every lookup.
- `importer.dfy` (module `Importer`): the class `StatisticsImporter`, with its
  constructor and one method per Rust function. It also holds the functions
  that specify a pass:
  - `Hashes`: the lookups made.
  - `PassWrites`: the writes issued.
  - `ApplyWrites` / `FinalRows`: the rows those writes leave.
  - `PassLog`: the error lines logged.
  - `Step` / `Run`: the loop body and the loop, as a fold over the catalog.
- `properties.dfy` (module `ImporterProperties`): lemmas about what a pass
  guarantees, stated on those functions.

Two facts about the code that the model keeps:

- The write's result is discarded (`drop(...)`, `src/tracker/statistics_importer.rs:76-80` and `84`). A failed write is therefore neither returned nor logged.
- A `TorrentNotFound` lookup also writes `(0, 0)` (line 84), just like every other lookup failure.

## Model

| member | source | states |
|---|---|---|
| `Collaborators.StoreWriteSpec` | src/tracker/statistics_importer.rs:76-84 | a failed write leaves every row unchanged; a successful one stores the URL, seeders and leechers together under its torrent id and leaves every other row alone |
| `Collaborators.WriteOutcome` | src/tracker/statistics_importer.rs:76-80 | the database reports an error for a write exactly when that write fails |
| `Collaborators.Database.GetAllTorrentsCompact` | src/tracker/statistics_importer.rs:37 | the catalog query returns the database's catalog or its error and changes nothing |
| `Collaborators.Database.UpdateTrackerInfo` | src/tracker/statistics_importer.rs:78 | appends exactly this write to the trace, updates the rows as `StoreWrite` says, and reports the write's outcome |
| `Collaborators.TrackerService.GetTorrentInfo` | src/tracker/statistics_importer.rs:74 | records one lookup of the info-hash and returns the tracker's answer for it |
| `Importer.StatisticsImporter.constructor` | src/tracker/statistics_importer.rs:20-28 | the importer keeps the given database, tracker client and tracker URL, and starts with an empty error log |
| `Importer.StatisticsImporter.ImportTorrentStatistics` | src/tracker/statistics_importer.rs:73-88 | exactly one lookup and exactly one write. On success the write carries the tracker's seeders and leechers; on any failure it carries zeros. Every write uses the importer's URL and the given id. The result is the tracker's answer unchanged, whatever the write reports. The error log is untouched |
| `Importer.StatisticsImporter.ImportAllTorrentsStatistics` | src/tracker/statistics_importer.rs:36-65 | if the catalog query fails, returns its error with no lookup, no write, no row change and no log line. Otherwise returns `Ok(())` after the lookups `Hashes(c)`, the writes `PassWrites(c)`, the rows `FinalRows(c)` those writes leave, and the log lines `PassLog(c)` |
| `Importer.RunSpec` | src/tracker/statistics_importer.rs:44-58 | importing the catalog entries one by one, in order, adds exactly `Hashes`, `PassWrites` and `PassLog` to the traces and leaves the rows `FinalRows` |
| `ImporterProperties.HashesSpec` | src/tracker/statistics_importer.rs:44-47 | a pass looks up each catalog entry's own info-hash exactly once, in catalog order |
| `ImporterProperties.PassWritesSpec` | src/tracker/statistics_importer.rs:44-47 | a pass issues exactly one write per catalog entry, in order, for that entry's id, with the importer's URL. The write carries the tracker's counters after a successful lookup and zeros after a failed one |
| `ImporterProperties.PassLogCount` | src/tracker/statistics_importer.rs:44-57 | the log of a pass has exactly as many lines as there are catalog entries whose lookup failed with an error other than `TorrentNotFound` |
| `ImporterProperties.PassLogAppend` | src/tracker/statistics_importer.rs:44-57 | the log of a pass is the log of each part of the catalog, concatenated in order |
| `ImporterProperties.PassLogMembership` | src/tracker/statistics_importer.rs:49-57 | a line is in the pass's log if and only if some entry's lookup failed with an error other than `TorrentNotFound`; the line names that entry's id, info-hash and error |
| `ImporterProperties.PassLogBound` | src/tracker/statistics_importer.rs:49-57 | the log has at most one line per entry, and is empty when no lookup failed other than with `TorrentNotFound` |
| `ImporterProperties.FinalRowsStep` | src/tracker/statistics_importer.rs:44-47 | the rows after a pass are the rows after the pass over all but the last entry, updated by the last entry's write |
| `ImporterProperties.PassRowsUntouched` | src/tracker/statistics_importer.rs:78-84 | a torrent id that is not in the catalog keeps its row, or its absence, through the whole pass |
| `ImporterProperties.PassRowsFinal` | src/tracker/statistics_importer.rs:74-86 | with distinct catalog ids, each entry ends up holding its own lookup's counters (or zeros) and the importer's URL, unless its write failed, in which case its row is what it was before the pass |
| `ImporterProperties.ImportTwiceIdempotent` | src/tracker/statistics_importer.rs:76-84 | importing a torrent twice in a row with the same tracker answer leaves the same rows as importing it once, when the first write succeeds |
| `ImporterProperties.Scenario` | src/tracker/statistics_importer.rs:44-86 | a catalog of two torrents, the first reported with 3 seeders and 1 leecher and the second not found, ends with rows (3, 1) and (0, 0) and an empty log |

## Left out

- The `async`/`await` machinery, `Arc` sharing, and the configuration read lock in `new`. These are concurrency and plumbing. The tracker URL is a constructor parameter.
- `Instant` timing and the elapsed-time report. This is wall-clock time and float formatting.
- The `info!` progress messages and the text colouring. Only the `error!` lines are kept, as `LogEntry` values in `errorLog`.
- The tracker HTTP client (`Service::get_torrent_info`) is not part of this model. It is a fixed oracle from info-hash to outcome. Its error variants other than `TorrentNotFound` are folded into `Other(detail)`, since the importer tells only `TorrentNotFound` apart.
- `TorrentInfo` keeps only `seeders` and `leechers`, the two fields the importer reads.
- The SQL database implementation is not part of this model. It is a map of rows, a write trace, a fixed catalog-query outcome, and a fixed set of failing write positions.
- The 64-bit width of ids and counters (`i64`) is not modelled. The importer does no arithmetic on them, so they are unbounded integers here.
- Concurrent callers and cancellation are not modelled. The model assumes two things: nothing else calls the importer or writes the tracker rows during a pass, and a pass runs to completion. The importer itself does not enforce either. Its methods take `&self` over `Arc`-shared collaborators with no lock (`src/tracker/statistics_importer.rs:13-17`, `36`, `73`). A caller may also drop an async pass at any `.await`, for example between the lookup (line 74) and the write (line 78). Within one pass the torrents are imported one at a time, each awaited before the next (lines 44-47).
- FinalRows, PassRowsFinal, PassRowsUntouched: these describe the rows after a pass only under the assumption above. A concurrent writer, or a pass dropped part-way, can leave other rows.
- The end-to-end HTTP tests and the isolated test environment are not part of this model. They are I/O and test set-up.
