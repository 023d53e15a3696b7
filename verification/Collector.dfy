/** Reading and joining the two kernel maps (collector/main.go, collector/cgroup_resolver.go). */
module Collector {
  import opened Words
  import opened KubePath
  import opened Rows
  import Block = BlockLatency
  import Runq = RunqLatency

  type Resolver = map<U64, string>

  function Resolve(r: Resolver, id: U64): string {
    if id in r then r[id] else UNRESOLVED
  }

  predicate Known(r: Resolver, id: U64) {
    Resolve(r, id) != UNRESOLVED
  }

  /** A pinned kernel map as user space sees it. */
  class BpfMap<V> {
    var entries: map<U64, V>

    constructor (entries: map<U64, V>)
      ensures this.entries == entries
    {
      this.entries := entries;
    }

    method DeleteAll(stale: set<U64>)
      modifies this
      ensures entries == old(entries) - stale
    {
      var todo := stale;
      assert entries - {} == entries;
      while todo != {}
        invariant todo <= stale
        invariant entries == old(entries) - (stale - todo)
        decreases |todo|
      {
        var k :| k in todo;
        TakeOne(stale, todo, k);
        entries := entries - {k};
        todo := todo - {k};
      }
      assert stale - todo == stale;
    }
  }

  // ----- Rows of the join

  function Average(s: Block.IoStats): U64 {
    if s.ioCount > 0 then s.totalLatency / s.ioCount else 0
  }

  function MakeRow(r: Resolver, id: U64, s: Block.IoStats, q: Runq.RunqStats): Row {
    var path := Resolve(r, id);
    Row(id, path, ClassifyCgroupPath(path), ParseKubePath(path), s, q, Average(s))
  }

  function StatsOr0(block: map<U64, Block.IoStats>, id: U64): Block.IoStats {
    if id in block then block[id] else Block.ZERO_STATS
  }

  function RunqOr0(runq: map<U64, Runq.RunqStats>, id: U64): Runq.RunqStats {
    if id in runq then runq[id] else Runq.ZERO_STATS
  }

  /** The full outer join on cgroup id, an absent side counting as zero. */
  function JoinRow(r: Resolver, block: map<U64, Block.IoStats>, runq: map<U64, Runq.RunqStats>, id: U64): Row {
    MakeRow(r, id, StatsOr0(block, id), RunqOr0(runq, id))
  }

  function JoinIds(r: Resolver, block: map<U64, Block.IoStats>, runq: map<U64, Runq.RunqStats>): set<U64> {
    set id | id in block.Keys + runq.Keys && Known(r, id)
  }

  function Unknowns<V>(r: Resolver, entries: map<U64, V>, visited: set<U64>): set<U64> {
    set id | id in visited && id in entries && !Known(r, id)
  }

  /** The entries of the cgroups the resolver knows. */
  function Kept<V>(r: Resolver, entries: map<U64, V>): map<U64, V> {
    map id | id in entries && Known(r, id) :: entries[id]
  }

  lemma KeptIsRest<V>(r: Resolver, entries: map<U64, V>)
    ensures Kept(r, entries) == entries - Unknowns(r, entries, entries.Keys)
  {
  }

  ghost predicate Ascending(rows: seq<Row>) {
    forall i, j :: 0 <= i < j < |rows| ==> rows[i].cgroupId < rows[j].cgroupId
  }

  /** `rows` lists `rowMap`, one row per id, in order of id. */
  ghost predicate Lists(rows: seq<Row>, rowMap: map<U64, Row>) {
    && Ascending(rows)
    && (forall i :: 0 <= i < |rows| ==> rows[i].cgroupId in rowMap && rows[i] == rowMap[rows[i].cgroupId])
    && (forall id :: id in rowMap ==> exists i :: 0 <= i < |rows| && rows[i].cgroupId == id)
  }

  function JoinMap(r: Resolver, block: map<U64, Block.IoStats>, runq: map<U64, Runq.RunqStats>): map<U64, Row> {
    map id | id in JoinIds(r, block, runq) :: JoinRow(r, block, runq, id)
  }

  /** What a read returns: the join, sorted. */
  ghost predicate IsJoin(rows: seq<Row>, r: Resolver, block: map<U64, Block.IoStats>, runq: map<U64, Runq.RunqStats>) {
    Lists(rows, JoinMap(r, block, runq))
  }

  /** Every row of a read, field by field. */
  lemma JoinedRow(rows: seq<Row>, r: Resolver, block: map<U64, Block.IoStats>, runq: map<U64, Runq.RunqStats>, i: nat)
    requires IsJoin(rows, r, block, runq) && i < |rows|
    ensures var row := rows[i];
      var id := row.cgroupId;
      && (id in block || id in runq) && id in r && r[id] != "<desconocido>"
      && row.cgroupPath == r[id] && row.cgroupKind == ClassifyCgroupPath(r[id]) && row.kubeInfo == ParseKubePath(r[id])
      && (id in block ==> row.stats == block[id]) && (id !in block ==> row.stats == Block.IoStats(0, 0, 0, 0))
      && (id in runq ==> row.runqStats == runq[id]) && (id !in runq ==> row.runqStats == Runq.RunqStats(0, 0))
      && (if row.stats.ioCount > 0 then row.avgNs == row.stats.totalLatency / row.stats.ioCount else row.avgNs == 0)
  {
    hide ClassifyCgroupPath, ParseKubePath;
    assert rows[i] == JoinMap(r, block, runq)[rows[i].cgroupId];
  }

  /** The listing of a map is unique. */
  lemma ListingIsUnique(a: seq<Row>, b: seq<Row>, rowMap: map<U64, Row>)
    requires Lists(a, rowMap) && Lists(b, rowMap)
    ensures a == b
  {
    forall i | 0 <= i < |a| && i < |b| ensures a[i] == b[i] {
      SamePosition(a, b, rowMap, i);
    }
    ListingLength(a, rowMap);
    ListingLength(b, rowMap);
  }

  lemma {:induction false} SamePosition(a: seq<Row>, b: seq<Row>, rowMap: map<U64, Row>, i: nat)
    requires Lists(a, rowMap) && Lists(b, rowMap) && i < |a| && i < |b|
    ensures a[i] == b[i]
    decreases i
  {
    forall j | 0 <= j < i ensures a[j] == b[j] {
      SamePosition(a, b, rowMap, j);
    }
    NotBefore(a, b, rowMap, i);
    NotBefore(b, a, rowMap, i);
  }

  lemma NotBefore(a: seq<Row>, b: seq<Row>, rowMap: map<U64, Row>, i: nat)
    requires Lists(a, rowMap) && Lists(b, rowMap) && i < |a| && i < |b|
    requires forall j :: 0 <= j < i ==> a[j] == b[j]
    ensures b[i].cgroupId <= a[i].cgroupId
  {
    assert forall k :: 0 <= k < i ==> b[k].cgroupId < a[i].cgroupId;
    var j :| 0 <= j < |b| && b[j].cgroupId == a[i].cgroupId;
  }

  ghost function Ids(rows: seq<Row>): set<U64> {
    set i | 0 <= i < |rows| :: rows[i].cgroupId
  }

  lemma {:induction false} AscendingAreDistinct(rows: seq<Row>)
    requires Ascending(rows)
    ensures |Ids(rows)| == |rows|
  {
    if rows != [] {
      var h := Front(rows);
      assert forall i :: 0 <= i < |h| ==> h[i] == rows[i];
      AscendingAreDistinct(h);
      assert rows == h + [rows[|rows| - 1]];
      assert Ids(rows) == Ids(h) + {rows[|rows| - 1].cgroupId};
    }
  }

  lemma ListingLength(rows: seq<Row>, rowMap: map<U64, Row>)
    requires Lists(rows, rowMap)
    ensures |rows| == |rowMap|
  {
    AscendingAreDistinct(rows);
    assert Ids(rows) == rowMap.Keys;
  }

  // ----- Sorting

  /** Where a row goes in an ascending list. */
  function Place(rows: seq<Row>, id: U64): nat
    ensures Place(rows, id) <= |rows|
  {
    if rows == [] || Last(rows).cgroupId < id then |rows| else Place(Front(rows), id)
  }

  lemma {:induction false} PlaceSplits(rows: seq<Row>, id: U64)
    requires Ascending(rows) && forall i :: 0 <= i < |rows| ==> rows[i].cgroupId != id
    ensures var p := Place(rows, id);
      && (forall i :: 0 <= i < p ==> rows[i].cgroupId < id)
      && (forall i :: p <= i < |rows| ==> id < rows[i].cgroupId)
  {
    if rows != [] && Last(rows).cgroupId >= id {
      assert forall i :: 0 <= i < |Front(rows)| ==> Front(rows)[i] == rows[i];
      PlaceSplits(Front(rows), id);
    }
  }

  function Insert(rows: seq<Row>, r: Row): seq<Row> {
    var p := Place(rows, r.cgroupId);
    rows[..p] + [r] + rows[p..]
  }

  lemma InsertAscends(rows: seq<Row>, r: Row)
    requires Ascending(rows) && forall i :: 0 <= i < |rows| ==> rows[i].cgroupId != r.cgroupId
    ensures Ascending(Insert(rows, r))
  {
    PlaceSplits(rows, r.cgroupId);
  }

  /** Inserting adds one row and loses none. */
  lemma InsertKeeps(rows: seq<Row>, r: Row, x: Row)
    ensures x in Insert(rows, r) <==> x in rows || x == r
  {
    var p := Place(rows, r.cgroupId);
    assert rows == rows[..p] + rows[p..];
  }

  lemma InsertLists(rows: seq<Row>, rowMap: map<U64, Row>, r: Row)
    requires Lists(rows, rowMap) && r.cgroupId !in rowMap
    ensures Lists(Insert(rows, r), rowMap[r.cgroupId := r])
  {
    InsertAscends(rows, r);
    var out, m := Insert(rows, r), rowMap[r.cgroupId := r];
    forall i | 0 <= i < |out| ensures out[i].cgroupId in m && out[i] == m[out[i].cgroupId] {
      InsertKeeps(rows, r, out[i]);
    }
    forall id | id in m ensures exists i :: 0 <= i < |out| && out[i].cgroupId == id {
      InsertCovers(rows, rowMap, r, id);
    }
  }

  lemma InsertCovers(rows: seq<Row>, rowMap: map<U64, Row>, r: Row, id: U64)
    requires Lists(rows, rowMap) && (id == r.cgroupId || id in rowMap)
    ensures exists i :: 0 <= i < |Insert(rows, r)| && Insert(rows, r)[i].cgroupId == id
  {
    var x := r;
    if id != r.cgroupId {
      var i :| 0 <= i < |rows| && rows[i].cgroupId == id;
      x := rows[i];
    }
    InsertKeeps(rows, r, x);
    var k :| 0 <= k < |Insert(rows, r)| && Insert(rows, r)[k] == x;
  }

  function Part(rowMap: map<U64, Row>, ids: set<U64>): map<U64, Row> {
    map id | id in rowMap && id in ids :: rowMap[id]
  }

  lemma PartGrows(rowMap: map<U64, Row>, ids: set<U64>, id: U64)
    requires id in rowMap && id !in ids
    ensures Part(rowMap, ids + {id}) == Part(rowMap, ids)[id := rowMap[id]] && id !in Part(rowMap, ids)
  {
  }

  /** sort.Slice over the rows taken out of the map in any order. */
  method SortRows(rowMap: map<U64, Row>) returns (rows: seq<Row>)
    requires forall id :: id in rowMap ==> rowMap[id].cgroupId == id
    ensures Lists(rows, rowMap)
  {
    rows := [];
    var todo := rowMap.Keys;
    assert rowMap.Keys - todo == {} && Lists([], Part(rowMap, {}));
    hide Lists;
    while todo != {}
      invariant todo <= rowMap.Keys
      invariant Lists(rows, Part(rowMap, rowMap.Keys - todo))
      decreases |todo|
    {
      var id :| id in todo;
      TakeOne(rowMap.Keys, todo, id);
      PartGrows(rowMap, rowMap.Keys - todo, id);
      InsertLists(rows, Part(rowMap, rowMap.Keys - todo), rowMap[id]);
      rows := Insert(rows, rowMap[id]);
      todo := todo - {id};
    }
    assert Part(rowMap, rowMap.Keys - todo) == rowMap;
  }

  // ----- The scans

  /** The rows the block scan has made after visiting `seen`. */
  function BlockRows(r: Resolver, block: map<U64, Block.IoStats>, seen: set<U64>): map<U64, Row> {
    map id | id in seen && id in block && Known(r, id) :: JoinRow(r, block, map[], id)
  }

  /** Iterating stops short, with an error, after `stop` entries. */
  predicate Stops(stop: Option<nat>, visited: nat) {
    stop.Some? && stop.value <= visited
  }

  method ScanBlock(block: map<U64, Block.IoStats>, r: Resolver, stop: Option<nat>)
    returns (rowMap: map<U64, Row>, stale: set<U64>, ghost seen: set<U64>)
    ensures seen <= block.Keys && (stop.None? ==> seen == block.Keys)
    ensures rowMap == BlockRows(r, block, seen) && stale == Unknowns(r, block, seen)
    ensures stop.None? ==> rowMap == BlockRows(r, block, block.Keys) && stale == Unknowns(r, block, block.Keys)
  {
    rowMap, stale := map[], {};
    var todo, visited := block.Keys, 0;
    assert block.Keys - todo == {};
    while todo != {} && !Stops(stop, visited)
      invariant todo <= block.Keys
      invariant rowMap == BlockRows(r, block, block.Keys - todo)
      invariant stale == Unknowns(r, block, block.Keys - todo)
      decreases |todo|
    {
      var id :| id in todo;
      TakeOne(block.Keys, todo, id);
      BlockRowsGrow(r, block, block.Keys - todo, id);
      if Resolve(r, id) == UNRESOLVED {
        stale := stale + {id};
      } else {
        rowMap := rowMap[id := MakeRow(r, id, block[id], Runq.ZERO_STATS)];
      }
      todo, visited := todo - {id}, visited + 1;
    }
    seen := block.Keys - todo;
  }

  lemma BlockRowsGrow(r: Resolver, block: map<U64, Block.IoStats>, seen: set<U64>, id: U64)
    requires id in block && id !in seen
    ensures BlockRows(r, block, seen + {id})
         == if Known(r, id) then BlockRows(r, block, seen)[id := MakeRow(r, id, block[id], Runq.ZERO_STATS)]
            else BlockRows(r, block, seen)
    ensures Unknowns(r, block, seen + {id})
         == if Known(r, id) then Unknowns(r, block, seen) else Unknowns(r, block, seen) + {id}
  {
  }

  /** The rows once the run-queue scan has visited `seen`. */
  function RunqRows(r: Resolver, block: map<U64, Block.IoStats>, runq: map<U64, Runq.RunqStats>, seen: set<U64>): map<U64, Row> {
    map id | id in block.Keys + seen && Known(r, id) ::
      MakeRow(r, id, StatsOr0(block, id), if id in seen then RunqOr0(runq, id) else Runq.ZERO_STATS)
  }

  lemma RunqRowsGrow(r: Resolver, block: map<U64, Block.IoStats>, runq: map<U64, Runq.RunqStats>, seen: set<U64>, id: U64)
    requires id in runq && id !in seen
    ensures id in RunqRows(r, block, runq, seen) <==> id in block && Known(r, id)
    ensures RunqRows(r, block, runq, seen + {id})
         == if Known(r, id)
            then RunqRows(r, block, runq, seen)[id := MakeRow(r, id, StatsOr0(block, id), runq[id])]
            else RunqRows(r, block, runq, seen)
  {
  }

  /** One entry of the run-queue map: it completes a row, makes a new one, or is stale. */
  function Visit(rowMap: map<U64, Row>, r: Resolver, id: U64, q: Runq.RunqStats): map<U64, Row> {
    if id in rowMap then rowMap[id := rowMap[id].(runqStats := q)]
    else if Resolve(r, id) == UNRESOLVED then rowMap
    else rowMap[id := MakeRow(r, id, Block.ZERO_STATS, q)]
  }

  lemma VisitGrows(r: Resolver, block: map<U64, Block.IoStats>, runq: map<U64, Runq.RunqStats>, seen: set<U64>, id: U64)
    requires id in runq && id !in seen
    ensures Visit(RunqRows(r, block, runq, seen), r, id, runq[id]) == RunqRows(r, block, runq, seen + {id})
    ensures id in RunqRows(r, block, runq, seen) ==> Known(r, id)
  {
    RunqRowsGrow(r, block, runq, seen, id);
    var rowMap := RunqRows(r, block, runq, seen);
    if id in rowMap {
      assert rowMap[id].(runqStats := runq[id]) == MakeRow(r, id, StatsOr0(block, id), runq[id]);
    }
  }

  lemma UnknownsGrow<V>(r: Resolver, entries: map<U64, V>, seen: set<U64>, id: U64)
    requires id in entries && id !in seen
    ensures Unknowns(r, entries, seen + {id})
         == if Known(r, id) then Unknowns(r, entries, seen) else Unknowns(r, entries, seen) + {id}
  {
  }

  method ScanRunq(ghost block: map<U64, Block.IoStats>, runq: map<U64, Runq.RunqStats>, r: Resolver,
                  stop: Option<nat>, blockRows: map<U64, Row>)
    returns (rowMap: map<U64, Row>, stale: set<U64>, ghost seen: set<U64>)
    requires blockRows == BlockRows(r, block, block.Keys)
    ensures seen <= runq.Keys && (stop.None? ==> seen == runq.Keys)
    ensures rowMap == RunqRows(r, block, runq, seen) && stale == Unknowns(r, runq, seen)
  {
    rowMap, stale := blockRows, {};
    var todo, visited := runq.Keys, 0;
    assert runq.Keys - todo == {};
    NoneSeen(r, block, runq);
    hide RunqRows, BlockRows, Unknowns, Visit;
    while todo != {} && !Stops(stop, visited)
      invariant todo <= runq.Keys
      invariant rowMap == RunqRows(r, block, runq, runq.Keys - todo)
      invariant stale == Unknowns(r, runq, runq.Keys - todo)
      decreases |todo|
    {
      var id :| id in todo;
      TakeOne(runq.Keys, todo, id);
      VisitGrows(r, block, runq, runq.Keys - todo, id);
      UnknownsGrow(r, runq, runq.Keys - todo, id);
      if id !in rowMap && Resolve(r, id) == UNRESOLVED {
        stale := stale + {id};
      }
      rowMap := Visit(rowMap, r, id, runq[id]);
      todo, visited := todo - {id}, visited + 1;
    }
    seen := runq.Keys - todo;
  }

  lemma NoneSeen(r: Resolver, block: map<U64, Block.IoStats>, runq: map<U64, Runq.RunqStats>)
    ensures RunqRows(r, block, runq, {}) == BlockRows(r, block, block.Keys) && Unknowns(r, runq, {}) == {}
  {
    assert block.Keys + {} == block.Keys;
  }

  lemma AllSeen(r: Resolver, block: map<U64, Block.IoStats>, runq: map<U64, Runq.RunqStats>)
    ensures RunqRows(r, block, runq, runq.Keys) == JoinMap(r, block, runq)
  {
  }

  // ----- A whole read

  datatype ReadResult = Rows(rows: seq<Row>, hadUnknown: bool) | ReadError(hadUnknown: bool)

  function RunqEntries(runqMap: BpfMap?<Runq.RunqStats>): map<U64, Runq.RunqStats>
    reads runqMap
  {
    if runqMap == null then map[] else runqMap.entries
  }

  /** Reads both maps, deletes what the resolver does not know, and returns the sorted join. `unknown`
      is the set of ids treated as unknown; a failed iteration deletes nothing from its map. */
  method ReadStats(blockMap: BpfMap<Block.IoStats>, runqMap: BpfMap?<Runq.RunqStats>, r: Resolver,
                   blockStop: Option<nat>, runqStop: Option<nat>)
    returns (res: ReadResult, unknown: set<U64>)
    modifies blockMap, runqMap
    ensures unknown <= Unknowns(r, old(blockMap.entries), old(blockMap.entries).Keys)
                     + Unknowns(r, old(RunqEntries(runqMap)), old(RunqEntries(runqMap)).Keys)
    ensures res.hadUnknown <==> unknown != {}
    ensures blockStop.Some? ==> res.ReadError? && blockMap.entries == old(blockMap.entries)
                                && RunqEntries(runqMap) == old(RunqEntries(runqMap))
    ensures blockStop.None? ==> blockMap.entries == Kept(r, old(blockMap.entries))
    ensures blockStop.None? && runqMap != null && runqStop.Some? ==>
      res.ReadError? && RunqEntries(runqMap) == old(RunqEntries(runqMap))
    ensures blockStop.None? && (runqMap == null || runqStop.None?) ==>
      && res.Rows?
      && IsJoin(res.rows, r, old(blockMap.entries), old(RunqEntries(runqMap)))
      && RunqEntries(runqMap) == Kept(r, old(RunqEntries(runqMap)))
      && unknown == Unknowns(r, old(blockMap.entries), old(blockMap.entries).Keys)
                  + Unknowns(r, old(RunqEntries(runqMap)), old(RunqEntries(runqMap)).Keys)
  {
    ghost var block, runq := blockMap.entries, RunqEntries(runqMap);
    KeptIsRest(r, block);
    KeptIsRest(r, runq);
    var rowMap, staleBlock, _ := ScanBlock(blockMap.entries, r, blockStop);
    unknown := staleBlock;
    if blockStop.Some? {
      return ReadError(unknown != {}), unknown;
    }
    blockMap.DeleteAll(staleBlock);
    if runqMap != null {
      var joined, staleRunq, _ := ScanRunq(block, runqMap.entries, r, runqStop, rowMap);
      unknown := unknown + staleRunq;
      if runqStop.Some? {
        return ReadError(unknown != {}), unknown;
      }
      runqMap.DeleteAll(staleRunq);
      rowMap := joined;
      AllSeen(r, block, runq);
    } else {
      NoneSeen(r, block, runq);
      AllSeen(r, block, runq);
    }
    assert rowMap == JoinMap(r, block, runq);
    var rows := SortRows(rowMap);
    res := Rows(rows, unknown != {});
  }
}
