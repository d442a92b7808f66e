/**
 * Values exchanged between the tracker statistics importer and its two
 * collaborators: the tracker API client and the index database.
 */
module TrackerTypes {
  datatype Result<T, E> = Ok(value: T) | Err(error: E)

  /**
   * Errors of the tracker API client. The importer only tells
   * `TorrentNotFound` apart from every other failure, so the remaining
   * variants (tracker offline, unexpected status, unparsable body, ...)
   * are folded into `Other`, which keeps their details.
   */
  datatype TrackerError = TorrentNotFound | Other(detail: string)

  /** The swarm statistics the tracker reports for one info-hash. */
  datatype TorrentInfo = TorrentInfo(seeders: int, leechers: int)

  /** An error of the database layer. */
  datatype DbError = DbError(detail: string)

  /** One entry of the compact torrent catalog: id and info-hash. */
  datatype CompactTorrent = CompactTorrent(torrentId: int, infoHash: string)

  /** The tracker-derived columns the database keeps for one torrent. */
  datatype Row = Row(trackerUrl: string, seeders: int, leechers: int)

  /** One call of the database's tracker-info update, as issued. */
  datatype Write = Write(torrentId: int, trackerUrl: string, seeders: int, leechers: int)

  /** One error line the importer logs for a failed torrent. */
  datatype LogEntry = LogEntry(torrentId: int, infoHash: string, error: TrackerError)

  /** What the tracker answers for each info-hash during a pass. */
  type Oracle = string -> Result<TorrentInfo, TrackerError>
}
