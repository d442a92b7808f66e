/**
 * The importer's collaborators, reduced to what it observes of them:
 * the database as a table of tracker rows with a trace of the writes it
 * received, and the tracker client as a fixed oracle with a trace of the
 * lookups it served.
 */
module Collaborators {
  import opened TrackerTypes

  /**
   * The effect of the write with the given index on the stored rows:
   * a write that fails leaves every row as it was; one that succeeds
   * replaces the row of its torrent id and no other.
   */
  function StoreWrite(rows: map<int, Row>, index: nat, w: Write, failures: map<nat, DbError>): (r: map<int, Row>)
  {
    if index in failures then rows
    else rows[w.torrentId := Row(w.trackerUrl, w.seeders, w.leechers)]
  }

  /**
   * A failed write changes nothing; a successful one stores both counters
   * of its torrent together, with its URL, and leaves every other row alone.
   */
  lemma StoreWriteSpec(rows: map<int, Row>, index: nat, w: Write, failures: map<nat, DbError>)
    ensures index in failures ==> StoreWrite(rows, index, w, failures) == rows
    ensures index !in failures ==>
      StoreWrite(rows, index, w, failures).Keys == rows.Keys + {w.torrentId} &&
      StoreWrite(rows, index, w, failures)[w.torrentId] == Row(w.trackerUrl, w.seeders, w.leechers)
    ensures forall id :: id in rows && id != w.torrentId ==>
      id in StoreWrite(rows, index, w, failures) && StoreWrite(rows, index, w, failures)[id] == rows[id]
  {
  }

  /** What the database reports for the write with the given index. */
  function WriteOutcome(index: nat, failures: map<nat, DbError>): (r: Result<(), DbError>)
    ensures r.Err? <==> index in failures
  {
    if index in failures then Err(failures[index]) else Ok(())
  }

  /**
   * The index database. `catalog` is what the compact catalog query
   * yields (the torrents table is not changed by the importer);
   * `writeFailures` says which writes, by their position in the trace,
   * fail and with what error.
   */
  class Database {
    const catalog: Result<seq<CompactTorrent>, DbError>
    const writeFailures: map<nat, DbError>
    var rows: map<int, Row>
    var writes: seq<Write>

    constructor (catalog: Result<seq<CompactTorrent>, DbError>, writeFailures: map<nat, DbError>, rows: map<int, Row>)
      ensures this.catalog == catalog && this.writeFailures == writeFailures
      ensures this.rows == rows && writes == []
    {
      this.catalog := catalog;
      this.writeFailures := writeFailures;
      this.rows := rows;
      writes := [];
    }

    /** The compact catalog query: reads and changes nothing else. */
    method GetAllTorrentsCompact() returns (r: Result<seq<CompactTorrent>, DbError>)
      ensures r == catalog
    {
      r := catalog;
    }

    /** Writes the tracker counters of one torrent, both at once. */
    method UpdateTrackerInfo(torrentId: int, trackerUrl: string, seeders: int, leechers: int)
      returns (r: Result<(), DbError>)
      modifies this
      ensures writes == old(writes) + [Write(torrentId, trackerUrl, seeders, leechers)]
      ensures rows == StoreWrite(old(rows), |old(writes)|, Write(torrentId, trackerUrl, seeders, leechers), writeFailures)
      ensures r == WriteOutcome(|old(writes)|, writeFailures)
    {
      r := WriteOutcome(|writes|, writeFailures);
      rows := StoreWrite(rows, |writes|, Write(torrentId, trackerUrl, seeders, leechers), writeFailures);
      writes := writes + [Write(torrentId, trackerUrl, seeders, leechers)];
    }
  }

  /** The tracker API client: answers from a fixed oracle and records each lookup. */
  class TrackerService {
    const answer: Oracle
    var lookups: seq<string>

    constructor (answer: Oracle)
      ensures this.answer == answer && lookups == []
    {
      this.answer := answer;
      lookups := [];
    }

    method GetTorrentInfo(infoHash: string) returns (r: Result<TorrentInfo, TrackerError>)
      modifies this
      ensures lookups == old(lookups) + [infoHash]
      ensures r == answer(infoHash)
    {
      r := answer(infoHash);
      lookups := lookups + [infoHash];
    }
  }
}
