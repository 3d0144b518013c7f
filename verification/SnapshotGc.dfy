/** Resumable garbage collection of the snapshot store: the slices of `gcSlice`
    (src/filesystem-snapshot-store.ts) as functions on values.

    One slice is one atomic step. Its wall clock is an input: how many turns
    each of its loops gets before the clock runs out, independently of each
    other. Directory listings are inputs too, because their order is not
    specified. Manifests are readable and immutable. */
module SnapshotGc {
  import opened SnapshotTypes
  import opened TerminalTail

  datatype Config = Config(retentionMs: int, retainPerWorkspace: int, orphanGraceMs: int)

  /** A blob file in the sharded layout or in the legacy flat one. */
  datatype BlobFile = Sharded(hash: Hash) | Flat(hash: Hash)

  /** Files with their modification times, and the existing shard directories. */
  datatype Disk = Disk(manifests: map<Ref, int>, blobs: map<BlobFile, int>, shards: set<Shard>)

  /** A durable root held by the database. */
  datatype DbRow = DbRow(ref: Ref, terminal: bool, terminalAt: TerminalTime)
  datatype TerminalTime = At(ms: int) | Unknown

  datatype World = World(disk: Disk, baselines: set<Ref>, rows: seq<DbRow>, now: int)

  // ---- roots ----

  function Pins(rows: seq<DbRow>): set<Ref> {
    set row | row in rows && !row.terminal :: row.ref
  }

  function StrongRoots(w: World): set<Ref> {
    w.baselines + Pins(w.rows)
  }

  /** A terminal row is aged from the persisted time, else from the manifest
      file; a fallback row whose manifest is gone is not a root. */
  function RowRoots(row: DbRow, manifests: map<Ref, int>): seq<Entry> {
    if !row.terminal then []
    else if row.terminalAt.At? then [Entry(row.ref, row.terminalAt.ms, true)]
    else if row.ref in manifests then [Entry(row.ref, manifests[row.ref], false)]
    else []
  }

  function TerminalRoots(rows: seq<DbRow>, manifests: map<Ref, int>): seq<Entry> {
    if rows == [] then [] else RowRoots(rows[0], manifests) + TerminalRoots(rows[1..], manifests)
  }

  function Terminal(w: World): seq<Entry> {
    TerminalRoots(w.rows, w.disk.manifests)
  }

  function Tail(cfg: Config, w: World): set<Ref> {
    TailRefs(Terminal(w), cfg.retainPerWorkspace)
  }

  /** `terminalByRef`, a Map keyed by ref: a later entry replaces an earlier one. */
  function AgeByRef(entries: seq<Entry>): map<Ref, int> {
    if entries == [] then map[]
    else AgeByRef(entries[..|entries| - 1])[entries[|entries| - 1].ref := entries[|entries| - 1].ageAtMs]
  }

  predicate WithinTtl(cfg: Config, now: int, ageAtMs: int) {
    now - ageAtMs < cfg.retentionMs
  }

  // ---- the collector's state ----

  datatype Stage = Idle | Classify | Mark | Expire | Sweep

  /** The blob-directory cursor: probing the 256 shard names, reading the flat
      directory, reading shard directories one by one, or done. */
  datatype Cursor =
    | Probing(next: Probe, found: seq<Shard>)
    | FlatDir(remaining: seq<Hash>)
    | ShardDirs(dirs: seq<Shard>, open: OpenDir)
    | Exhausted

  type Probe = n: nat | n <= 256

  datatype OpenDir = Closed | Open(remaining: seq<Hash>)

  /** `gcState`. Between classification and reset `retained` is also the list
      `markRefs`. */
  datatype GcState = GcState(
    stage: Stage,
    strongRoots: set<Ref>,
    terminalByRef: map<Ref, int>,
    protectedAfterTtl: set<Ref>,
    manifestDir: seq<Ref>,
    retained: seq<Ref>,
    marked: set<Hash>,
    markCursor: nat,
    expired: seq<Ref>,
    expireCursor: nat,
    cursor: Cursor,
    pending: seq<BlobFile>)

  /** A fresh process, a reset mark, and a completed collection. (`gcSlice`
      leaves some fields stale on completion; Begin overwrites all of them.) */
  const IDLE := GcState(Idle, {}, map[], {}, [], [], {}, 0, [], 0, Probing(0, []), [])

  /** What one slice gets from outside. */
  datatype Input = Input(
    pageSize: nat,
    classifyTurns: nat, markTurns: nat, expireTurns: nat, sweepTurns: nat,
    manifestListing: seq<Ref>,
    flatListing: seq<Hash>,
    shardListing: Shard -> seq<Hash>)

  // ---- phase 0: classify, mark, check, expire ----

  function Begin(cfg: Config, w: World, listing: seq<Ref>): GcState {
    IDLE.(stage := Classify,
          strongRoots := StrongRoots(w),
          terminalByRef := AgeByRef(Terminal(w)),
          protectedAfterTtl := Tail(cfg, w),
          manifestDir := listing)
  }

  predicate Retains(cfg: Config, gc: GcState, manifests: map<Ref, int>, now: int, ref: Ref) {
    || ref in gc.strongRoots
    || (ref in gc.terminalByRef && WithinTtl(cfg, now, gc.terminalByRef[ref]))
    || ref in gc.protectedAfterTtl
    || (ref in manifests && now - manifests[ref] < cfg.orphanGraceMs)
  }

  function ClassifyOne(cfg: Config, gc: GcState, w: World): GcState
    requires gc.manifestDir != []
  {
    var ref := gc.manifestDir[0];
    var gc' := gc.(manifestDir := gc.manifestDir[1..]);
    if Retains(cfg, gc, w.disk.manifests, w.now, ref) then gc'.(retained := gc.retained + [ref])
    else gc'.(expired := gc.expired + [ref])
  }

  /** The classify loop; `room` is what the page still allows. */
  function ClassifyLoop(cfg: Config, gc: GcState, w: World, turns: nat, room: nat): (GcState, nat)
    decreases turns
  {
    if gc.stage != Classify || turns == 0 || room == 0 then (gc, room)
    else if gc.manifestDir == [] then (gc.(stage := Mark), room)
    else ClassifyLoop(cfg, ClassifyOne(cfg, gc, w), w, turns - 1, room - 1)
  }

  function MarkOne(gc: GcState, manifests: map<Ref, int>): GcState
    requires gc.markCursor < |gc.retained|
  {
    var ref := gc.retained[gc.markCursor];
    gc.(markCursor := gc.markCursor + 1,
        marked := if ref in manifests then gc.marked + Blobs(ref) else gc.marked)
  }

  function MarkLoop(gc: GcState, w: World, turns: nat, room: nat): GcState
    decreases turns
  {
    if gc.stage != Mark || gc.markCursor >= |gc.retained| || turns == 0 || room == 0 then gc
    else MarkLoop(MarkOne(gc, w.disk.manifests), w, turns - 1, room - 1)
  }

  /** Everything a slice does before it may delete. */
  function MarkPhase(cfg: Config, gc: GcState, w: World, input: Input): GcState {
    var begun := if gc.stage == Idle then Begin(cfg, w, input.manifestListing) else gc;
    var (classified, room) := ClassifyLoop(cfg, begun, w, input.classifyTurns, input.pageSize);
    var marking := MarkLoop(classified, w, input.markTurns, room);
    if marking.stage == Mark && marking.markCursor >= |marking.retained| then marking.(stage := Expire) else marking
  }

  predicate Covers(gc: GcState, manifests: map<Ref, int>, ref: Ref) {
    ref in gc.retained || (ref !in gc.expired && ref !in manifests)
  }

  /** `currentRootsAreCovered`, on the roots as they are now. */
  predicate RootsAreCovered(cfg: Config, gc: GcState, w: World) {
    && (forall ref :: ref in StrongRoots(w) ==> Covers(gc, w.disk.manifests, ref))
    && (forall e :: e in Terminal(w) && (WithinTtl(cfg, w.now, e.ageAtMs) || e.ref in Tail(cfg, w))
          ==> Covers(gc, w.disk.manifests, e.ref))
  }

  function ExpireLoop(gc: GcState, disk: Disk, turns: nat, room: nat): (GcState, Disk)
    decreases turns
  {
    if gc.expireCursor >= |gc.expired| || turns == 0 || room == 0 then (gc, disk)
    else
      ExpireLoop(gc.(expireCursor := gc.expireCursor + 1),
                 disk.(manifests := disk.manifests - {gc.expired[gc.expireCursor]}), turns - 1, room - 1)
  }

  // ---- phase 1: sweep ----

  /** Reading shard directories until the page is full or none is left. */
  function ReadShards(dirs: seq<Shard>, open: OpenDir, limit: nat, input: Input): (Cursor, seq<BlobFile>)
    decreases |dirs|, if open.Closed? then 1 else 0, if open.Open? then |open.remaining| else 0
  {
    if dirs == [] then (Exhausted, [])
    else if limit == 0 then (ShardDirs(dirs, open), [])
    else if open.Closed? then ReadShards(dirs, Open(input.shardListing(dirs[0])), limit, input)
    else if open.remaining == [] then ReadShards(dirs[1..], Closed, limit, input)
    else
      var (cursor, files) := ReadShards(dirs, Open(open.remaining[1..]), limit - 1, input);
      (cursor, [Sharded(open.remaining[0])] + files)
  }

  function ReadFlat(remaining: seq<Hash>, limit: nat): (Cursor, seq<BlobFile>)
    decreases |remaining|
  {
    if limit == 0 then (FlatDir(remaining), [])
    else if remaining == [] then (Exhausted, [])
    else
      var (cursor, files) := ReadFlat(remaining[1..], limit - 1);
      (cursor, [Flat(remaining[0])] + files)
  }

  /** Existing shard directories with numbers in [from, to), ascending. */
  function ShardsIn(shards: set<Shard>, from: Probe, to: Probe): seq<Shard>
    requires from <= to
    decreases 256 - from
  {
    if from == to then []
    else (if from in shards then [from] else []) + ShardsIn(shards, from + 1, to)
  }

  /** `nextGcBlobPage`. */
  function NextPage(cursor: Cursor, disk: Disk, limit: nat, input: Input): (Cursor, seq<BlobFile>) {
    match cursor
    case Exhausted => (Exhausted, [])
    case FlatDir(remaining) => ReadFlat(remaining, limit)
    case ShardDirs(dirs, open) => ReadShards(dirs, open, limit, input)
    case Probing(next, found) =>
      var next' := if next + limit < 256 then next + limit else 256;
      var found' := found + ShardsIn(disk.shards, next, next');
      if next' < 256 then (Probing(next', found'), [])
      else if found' != [] then ReadShards(found', Closed, limit, input)
      else ReadFlat(input.flatListing, limit)
  }

  predicate Recent(cfg: Config, blobs: map<BlobFile, int>, now: int, file: BlobFile) {
    cfg.orphanGraceMs > 0 && (if file in blobs then blobs[file] else 0) - now > -cfg.orphanGraceMs
  }

  function SweepOne(cfg: Config, gc: GcState, disk: Disk, now: int): (GcState, Disk)
    requires gc.pending != []
  {
    var file := gc.pending[0];
    (gc.(pending := gc.pending[1..]),
     if file.hash in gc.marked || Recent(cfg, disk.blobs, now, file) then disk
     else disk.(blobs := disk.blobs - {file}))
  }

  function SweepLoop(cfg: Config, gc: GcState, disk: Disk, now: int, turns: nat, room: nat): (GcState, Disk)
    decreases turns
  {
    if gc.pending == [] || turns == 0 || room == 0 then (gc, disk)
    else
      var (gc', disk') := SweepOne(cfg, gc, disk, now);
      SweepLoop(cfg, gc', disk', now, turns - 1, room - 1)
  }

  datatype Outcome = Outcome(gc: GcState, disk: Disk, hasMore: bool)

  function SweepPhase(cfg: Config, gc: GcState, w: World, disk: Disk, input: Input): Outcome {
    var (cursor, files) := if gc.pending == [] then NextPage(gc.cursor, disk, input.pageSize, input)
      else (gc.cursor, gc.pending);
    var (swept, disk') := SweepLoop(cfg, gc.(cursor := cursor, pending := files), disk, w.now, input.sweepTurns,
                                      input.pageSize);
    if swept.pending != [] || swept.cursor != Exhausted then Outcome(swept, disk', true)
    else Outcome(IDLE, disk', false)
  }

  /** One call of `gcSlice`. */
  function Slice(cfg: Config, gc: GcState, w: World, input: Input): Outcome {
    var gc1 := if gc.stage == Sweep then gc else MarkPhase(cfg, gc, w, input);
    if gc1.stage !in {Expire, Sweep} then Outcome(gc1, w.disk, true)
    else if !RootsAreCovered(cfg, gc1, w) then Outcome(IDLE, w.disk, true)
    else if gc1.stage == Sweep then SweepPhase(cfg, gc1, w, w.disk, input)
    else
      var (gc2, disk) := ExpireLoop(gc1, w.disk, input.expireTurns, input.pageSize);
      if gc2.expireCursor < |gc2.expired| then Outcome(gc2, disk, true)
      else SweepPhase(cfg, gc2.(stage := Sweep, pending := []), w, disk, input)
  }
}
