/**
 * What a pass of the statistics importer guarantees, stated over the
 * functions that describe its lookups, writes, stored rows and error log.
 */
module ImporterProperties {
  import opened TrackerTypes
  import opened Collaborators
  import opened Importer

  /** A tracker outcome the pass reports: any failure except `TorrentNotFound`. */
  predicate IsAnomaly(outcome: Result<TorrentInfo, TrackerError>)
  {
    outcome.Err? && outcome.error != TorrentNotFound
  }

  /** Catalog ids are the torrents table's primary key, so no two entries share one. */
  predicate UniqueIds(c: seq<CompactTorrent>)
  {
    forall i, j :: 0 <= i < j < |c| ==> c[i].torrentId != c[j].torrentId
  }

  /** The row a successful write for a torrent with this tracker outcome leaves behind. */
  function RowFor(url: string, outcome: Result<TorrentInfo, TrackerError>): (row: Row)
  {
    if outcome.Ok? then Row(url, outcome.value.seeders, outcome.value.leechers) else Row(url, 0, 0)
  }

  /** A pass looks up every catalog entry's info-hash exactly once, in catalog order. */
  lemma {:induction false} HashesSpec(c: seq<CompactTorrent>)
    ensures |Hashes(c)| == |c|
    ensures forall i :: 0 <= i < |c| ==> Hashes(c)[i] == c[i].infoHash
  {
    if c != [] {
      HashesSpec(c[..|c| - 1]);
    }
  }

  /**
   * A pass issues exactly one write per catalog entry, in catalog order,
   * for that entry's id, with the importer's URL, carrying the tracker's
   * counters on a successful lookup and zeros on any failed one.
   */
  lemma {:induction false} PassWritesSpec(answer: Oracle, url: string, c: seq<CompactTorrent>)
    ensures |PassWrites(answer, url, c)| == |c|
    ensures forall i :: 0 <= i < |c| ==>
      var w, outcome := PassWrites(answer, url, c)[i], answer(c[i].infoHash);
      w.torrentId == c[i].torrentId && w.trackerUrl == url &&
      (outcome.Ok? ==> w.seeders == outcome.value.seeders && w.leechers == outcome.value.leechers) &&
      (outcome.Err? ==> w.seeders == 0 && w.leechers == 0)
  {
    if c != [] {
      PassWritesSpec(answer, url, c[..|c| - 1]);
    }
  }

  /** Each entry contributes to the log on its own: the log of a concatenation is the concatenation of the logs. */
  lemma {:induction false} PassLogAppend(answer: Oracle, a: seq<CompactTorrent>, b: seq<CompactTorrent>)
    ensures PassLog(answer, a + b) == PassLog(answer, a) + PassLog(answer, b)
  {
    if b != [] {
      var b', t := b[..|b| - 1], b[|b| - 1];
      assert (a + b)[..|a + b| - 1] == a + b';
      PassLogAppend(answer, a, b');
      AppendAssoc(PassLog(answer, a), PassLog(answer, b'), LogFor(t, answer(t.infoHash)));
    } else {
      assert a + b == a;
    }
  }

  /** The positions of the catalog entries whose lookup is an anomaly. */
  function AnomalyPositions(answer: Oracle, c: seq<CompactTorrent>): (ps: set<nat>)
  {
    set i: nat | i < |c| && IsAnomaly(answer(c[i].infoHash))
  }

  /** The log of a pass has exactly one line per catalog entry whose lookup is an anomaly. */
  lemma {:induction false} PassLogCount(answer: Oracle, c: seq<CompactTorrent>)
    ensures |PassLog(answer, c)| == |AnomalyPositions(answer, c)|
  {
    if c == [] {
      assert AnomalyPositions(answer, c) == {};
    } else {
      var c', t := c[..|c| - 1], c[|c| - 1];
      PassLogCount(answer, c');
      var before := AnomalyPositions(answer, c');
      var extra: set<nat> := if IsAnomaly(answer(t.infoHash)) then {|c'|} else {};
      assert AnomalyPositions(answer, c) == before + extra by {
        forall i: nat ensures i in AnomalyPositions(answer, c) <==> i in before + extra {
          if i < |c'| {
            assert c[i] == c'[i];
          }
        }
      }
      assert |c'| !in before;
      assert |before + extra| == |before| + |extra|;
    }
  }

  /**
   * A line is in the log of a pass exactly when some catalog entry's lookup
   * was an anomaly, and the line names that entry's id, info-hash and error.
   */
  lemma {:induction false} PassLogMembership(answer: Oracle, c: seq<CompactTorrent>, e: LogEntry)
    ensures e in PassLog(answer, c) <==>
      exists i :: 0 <= i < |c| && IsAnomaly(answer(c[i].infoHash)) &&
        e == LogEntry(c[i].torrentId, c[i].infoHash, answer(c[i].infoHash).error)
  {
    if c != [] {
      var c', t := c[..|c| - 1], c[|c| - 1];
      PassLogMembership(answer, c', e);
      if e in PassLog(answer, c) {
        if e in PassLog(answer, c') {
          var i :| 0 <= i < |c'| && IsAnomaly(answer(c'[i].infoHash)) &&
            e == LogEntry(c'[i].torrentId, c'[i].infoHash, answer(c'[i].infoHash).error);
          assert c[i] == c'[i];
        } else {
          assert e in LogFor(t, answer(t.infoHash));
          assert c[|c'|] == t;
        }
      }
      if exists i :: 0 <= i < |c| && IsAnomaly(answer(c[i].infoHash)) &&
           e == LogEntry(c[i].torrentId, c[i].infoHash, answer(c[i].infoHash).error) {
        var i :| 0 <= i < |c| && IsAnomaly(answer(c[i].infoHash)) &&
          e == LogEntry(c[i].torrentId, c[i].infoHash, answer(c[i].infoHash).error);
        if i < |c'| {
          assert c'[i] == c[i];
        }
      }
    }
  }

  /** The log never has more lines than the catalog has entries, and is empty when no lookup is an anomaly. */
  lemma {:induction false} PassLogBound(answer: Oracle, c: seq<CompactTorrent>)
    ensures |PassLog(answer, c)| <= |c|
    ensures (forall i :: 0 <= i < |c| ==> !IsAnomaly(answer(c[i].infoHash))) ==> PassLog(answer, c) == []
  {
    if c != [] {
      var c' := c[..|c| - 1];
      assert forall i :: 0 <= i < |c'| ==> c'[i] == c[i];
      PassLogBound(answer, c');
    }
  }

  /** The rows after a pass over a non-empty catalog are those after its last write. */
  lemma FinalRowsStep(rows: map<int, Row>, base: nat, answer: Oracle, url: string, c: seq<CompactTorrent>,
                      failures: map<nat, DbError>)
    requires c != []
    ensures var t := c[|c| - 1];
      FinalRows(rows, base, answer, url, c, failures) ==
      StoreWrite(FinalRows(rows, base, answer, url, c[..|c| - 1], failures), base + |c| - 1,
                 WriteFor(url, t.torrentId, answer(t.infoHash)), failures)
  {
    var c', t := c[..|c| - 1], c[|c| - 1];
    var ws := PassWrites(answer, url, c');
    var w := WriteFor(url, t.torrentId, answer(t.infoHash));
    assert (ws + [w])[..|ws + [w]| - 1] == ws;
    PassWritesSpec(answer, url, c');
  }

  /** A torrent id that is not in the catalog keeps its row, or its absence, through the whole pass. */
  lemma {:induction false} PassRowsUntouched(rows: map<int, Row>, base: nat, answer: Oracle, url: string,
                                            c: seq<CompactTorrent>, failures: map<nat, DbError>, id: int)
    requires forall t :: t in c ==> t.torrentId != id
    ensures id in FinalRows(rows, base, answer, url, c, failures) <==> id in rows
    ensures id in rows ==> FinalRows(rows, base, answer, url, c, failures)[id] == rows[id]
  {
    if c != [] {
      var c', t := c[..|c| - 1], c[|c| - 1];
      assert forall t' :: t' in c' ==> t' in c;
      PassRowsUntouched(rows, base, answer, url, c', failures, id);
      FinalRowsStep(rows, base, answer, url, c, failures);
      StoreWriteSpec(FinalRows(rows, base, answer, url, c', failures), base + |c'|,
                     WriteFor(url, t.torrentId, answer(t.infoHash)), failures);
    }
  }

  /**
   * After a pass over a catalog with distinct ids, the entry at position
   * `i` holds the counters of its own lookup (or zeros when the lookup
   * failed) with the importer's URL, unless its write, the `base + i`-th,
   * failed, in which case its row is what it was before the pass.
   */
  lemma {:induction false} PassRowsFinal(rows: map<int, Row>, base: nat, answer: Oracle, url: string,
                                        c: seq<CompactTorrent>, failures: map<nat, DbError>, i: nat)
    requires UniqueIds(c) && i < |c|
    ensures var final, id := FinalRows(rows, base, answer, url, c, failures), c[i].torrentId;
      base + i !in failures ==> id in final && final[id] == RowFor(url, answer(c[i].infoHash))
    ensures var final, id := FinalRows(rows, base, answer, url, c, failures), c[i].torrentId;
      base + i in failures ==> (id in final <==> id in rows) && (id in rows ==> final[id] == rows[id])
  {
    var c', t := c[..|c| - 1], c[|c| - 1];
    FinalRowsStep(rows, base, answer, url, c, failures);
    StoreWriteSpec(FinalRows(rows, base, answer, url, c', failures), base + |c'|,
                   WriteFor(url, t.torrentId, answer(t.infoHash)), failures);
    if i < |c'| {
      assert UniqueIds(c') by {
        forall k, j | 0 <= k < j < |c'| ensures c'[k].torrentId != c'[j].torrentId {
          assert c'[k] == c[k] && c'[j] == c[j];
        }
      }
      assert c'[i] == c[i];
      PassRowsFinal(rows, base, answer, url, c', failures, i);
    } else {
      forall t' | t' in c' ensures t'.torrentId != t.torrentId {
        var k :| 0 <= k < |c'| && c'[k] == t';
        assert c[k] == t';
      }
      PassRowsUntouched(rows, base, answer, url, c', failures, t.torrentId);
    }
  }

  /**
   * Importing the same torrent twice in a row with the same tracker answer
   * leaves the same rows as importing it once, when the first write
   * succeeds: the write overwrites and accumulates nothing.
   */
  lemma ImportTwiceIdempotent(s: PassState, answer: Oracle, url: string, failures: map<nat, DbError>, t: CompactTorrent)
    requires |s.writes| !in failures
    ensures Step(Step(s, answer, url, failures, t), answer, url, failures, t).rows == Step(s, answer, url, failures, t).rows
  {
  }

  /** The tracker's answers in the two-torrent scenario: counters for the first hash, not found for any other. */
  function ScenarioTracker(h: string): (r: Result<TorrentInfo, TrackerError>)
  {
    if h == "AAAAAAAAAAAAAAAAAAAAAAAAAAAAAAAAAAAAAA11" then Ok(TorrentInfo(3, 1)) else Err(TorrentNotFound)
  }

  /**
   * Two torrents, the first known to the tracker with 3 seeders and 1
   * leecher, the second unknown: the pass stores (3, 1) and (0, 0) and
   * logs nothing.
   */
  lemma Scenario(rows: map<int, Row>, url: string)
    ensures var c := [CompactTorrent(1, "AAAAAAAAAAAAAAAAAAAAAAAAAAAAAAAAAAAAAA11"),
                      CompactTorrent(2, "BBBBBBBBBBBBBBBBBBBBBBBBBBBBBBBBBBBBBB22")];
      var final := FinalRows(rows, 0, ScenarioTracker, url, c, map[]);
      1 in final && final[1] == Row(url, 3, 1) &&
      2 in final && final[2] == Row(url, 0, 0) &&
      PassLog(ScenarioTracker, c) == []
  {
    var a, b := "AAAAAAAAAAAAAAAAAAAAAAAAAAAAAAAAAAAAAA11", "BBBBBBBBBBBBBBBBBBBBBBBBBBBBBBBBBBBBBB22";
    var c := [CompactTorrent(1, a), CompactTorrent(2, b)];
    assert b[0] != a[0];
    assert UniqueIds(c);
    PassRowsFinal(rows, 0, ScenarioTracker, url, c, map[], 0);
    PassRowsFinal(rows, 0, ScenarioTracker, url, c, map[], 1);
    PassLogBound(ScenarioTracker, c);
  }
}
