/** The collector with its state updated in place: `gcSlice` and the loops it is
    made of, each tied to the slice functions of SnapshotGc. */
module SnapshotGcStore {
  import opened SnapshotTypes
  import opened TerminalTail
  import opened SnapshotGc

  /** The effect of one row on the pins and on the terminal list. */
  lemma CollectOne(rows: seq<DbRow>, i: nat, manifests: map<Ref, int>, terminal: seq<Entry>)
    requires i < |rows|
    ensures Pins(rows[..i + 1]) == Pins(rows[..i]) + (if rows[i].terminal then {} else {rows[i].ref})
    ensures terminal + TerminalRoots(rows[i..], manifests)
         == (terminal + RowRoots(rows[i], manifests)) + TerminalRoots(rows[i + 1..], manifests)
  {
    assert rows[..i + 1] == rows[..i] + [rows[i]];
    assert rows[i..][1..] == rows[i + 1..];
  }

  lemma EmptyPins()
    ensures Pins([]) == {}
  {}

  lemma NoRowsLeft(manifests: map<Ref, int>)
    ensures TerminalRoots([], manifests) == []
  {}

  class SnapshotStore {
    const cfg: Config
    var disk: Disk
    var baselines: set<Ref>
    var rows: seq<DbRow>
    var gcState: GcState

    function Now(now: int): World
      reads this
    {
      World(disk, baselines, rows, now)
    }

    constructor (cfg: Config, disk: Disk, baselines: set<Ref>, rows: seq<DbRow>)
      ensures this.cfg == cfg && this.disk == disk && this.baselines == baselines && this.rows == rows
      ensures gcState == IDLE
    {
      this.cfg, this.disk, this.baselines, this.rows := cfg, disk, baselines, rows;
      gcState := IDLE;
    }

    /** `collectRoots`: the strong pins and the terminal list, from baselines and rows. */
    method CollectRoots(ghost now: int) returns (strong: set<Ref>, terminal: seq<Entry>)
      ensures strong == StrongRoots(Now(now)) && terminal == Terminal(Now(now))
    {
      hide Pins, TerminalRoots;
      strong, terminal := baselines, [];
      EmptyPins();
      assert rows[0..] == rows;
      for i := 0 to |rows|
        invariant strong == baselines + Pins(rows[..i])
        invariant terminal + TerminalRoots(rows[i..], disk.manifests) == TerminalRoots(rows, disk.manifests)
      {
        var row := rows[i];
        CollectOne(rows, i, disk.manifests, terminal);
        if row.terminal {
          if row.terminalAt.At? {
            terminal := terminal + [Entry(row.ref, row.terminalAt.ms, true)];
          } else if row.ref in disk.manifests {
            terminal := terminal + [Entry(row.ref, disk.manifests[row.ref], false)];
          }
        } else {
          strong := strong + {row.ref};
        }
      }
      assert rows[..|rows|] == rows && rows[|rows|..] == [];
      NoRowsLeft(disk.manifests);
    }

    /** The first thing a collection does. */
    method BeginMark(now: int, listing: seq<Ref>)
      modifies this`gcState
      ensures gcState == Begin(cfg, Now(now), listing)
    {
      var strong, terminal := CollectRoots(now);
      var byRef: map<Ref, int> := map[];
      for i := 0 to |terminal|
        invariant byRef == AgeByRef(terminal[..i])
      {
        assert terminal[..i + 1][..i] == terminal[..i];
        byRef := byRef[terminal[i].ref := terminal[i].ageAtMs];
      }
      assert terminal[..|terminal|] == terminal;
      var tail := TerminalTailRefs(terminal, cfg.retainPerWorkspace);
      gcState := IDLE.(stage := Classify, strongRoots := strong, terminalByRef := byRef,
                       protectedAfterTtl := tail, manifestDir := listing);
    }

    /** The classify loop, and what it leaves of the page. */
    method ClassifySome(now: int, classifyTurns: nat, pageSize: nat) returns (room: nat)
      modifies this`gcState
      ensures (gcState, room) == ClassifyLoop(cfg, old(gcState), Now(now), classifyTurns, pageSize)
    {
      var turns := classifyTurns;
      room := pageSize;
      while gcState.stage == Classify && turns > 0 && room > 0
        invariant ClassifyLoop(cfg, gcState, Now(now), turns, room)
               == ClassifyLoop(cfg, old(gcState), Now(now), classifyTurns, pageSize)
        decreases turns
      {
        turns := turns - 1;
        if gcState.manifestDir == [] {
          gcState := gcState.(stage := Mark);
          break;
        }
        var ref := gcState.manifestDir[0];
        var retained := Retains(cfg, gcState, disk.manifests, now, ref);
        gcState := gcState.(manifestDir := gcState.manifestDir[1..]);
        if retained {
          gcState := gcState.(retained := gcState.retained + [ref]);
        } else {
          gcState := gcState.(expired := gcState.expired + [ref]);
        }
        room := room - 1;
      }
    }

    /** The mark loop, on the rest of the page. */
    method MarkRetained(now: int, markTurns: nat, room: nat)
      modifies this`gcState
      ensures gcState == MarkLoop(old(gcState), Now(now), markTurns, room)
    {
      var turns, left := markTurns, room;
      while gcState.stage == Mark && gcState.markCursor < |gcState.retained| && turns > 0 && left > 0
        invariant MarkLoop(gcState, Now(now), turns, left) == MarkLoop(old(gcState), Now(now), markTurns, room)
        decreases turns
      {
        var ref := gcState.retained[gcState.markCursor];
        gcState := gcState.(markCursor := gcState.markCursor + 1);
        if ref in disk.manifests { gcState := gcState.(marked := gcState.marked + Blobs(ref)); }
        turns, left := turns - 1, left - 1;
      }
    }

    /** Phase 0 up to the point where deletion may start. */
    method MarkSome(now: int, input: Input)
      requires gcState.stage != Sweep
      modifies this`gcState
      ensures gcState == MarkPhase(cfg, old(gcState), Now(now), input)
    {
      if gcState.stage == Idle { BeginMark(now, input.manifestListing); }
      var room := ClassifySome(now, input.classifyTurns, input.pageSize);
      MarkRetained(now, input.markTurns, room);
      if gcState.stage == Mark && gcState.markCursor >= |gcState.retained| { gcState := gcState.(stage := Expire); }
    }

    /** `currentRootsAreCovered`: an early exit at the first uncovered root. */
    method CurrentRootsAreCovered(now: int) returns (covered: bool)
      ensures covered == RootsAreCovered(cfg, gcState, Now(now))
    {
      var strong, terminal := CollectRoots(now);
      var left := strong;
      while left != {}
        invariant left <= strong
        invariant forall ref :: ref in strong - left ==> Covers(gcState, disk.manifests, ref)
        decreases left
      {
        var ref :| ref in left;
        if !Covers(gcState, disk.manifests, ref) { return false; }
        left := left - {ref};
      }
      var tail := TerminalTailRefs(terminal, cfg.retainPerWorkspace);
      for i := 0 to |terminal|
        invariant forall j :: 0 <= j < i && (WithinTtl(cfg, now, terminal[j].ageAtMs) || terminal[j].ref in tail)
                    ==> Covers(gcState, disk.manifests, terminal[j].ref)
      {
        var e := terminal[i];
        if (WithinTtl(cfg, now, e.ageAtMs) || e.ref in tail) && !Covers(gcState, disk.manifests, e.ref) {
          assert e in Terminal(Now(now));
          return false;
        }
      }
      return true;
    }

    method ExpireSome(input: Input)
      modifies this`gcState, this`disk
      ensures (gcState, disk) == ExpireLoop(old(gcState), old(disk), input.expireTurns, input.pageSize)
    {
      var turns, deleted := input.expireTurns, 0;
      while gcState.expireCursor < |gcState.expired| && turns > 0 && deleted < input.pageSize
        invariant deleted <= input.pageSize
        invariant ExpireLoop(gcState, disk, turns, input.pageSize - deleted)
               == ExpireLoop(old(gcState), old(disk), input.expireTurns, input.pageSize)
        decreases turns
      {
        disk := disk.(manifests := disk.manifests - {gcState.expired[gcState.expireCursor]});
        gcState := gcState.(expireCursor := gcState.expireCursor + 1);
        turns, deleted := turns - 1, deleted + 1;
      }
    }

    /** `nextGcBlobPage` in the sharded layout. */
    method ReadShardPage(limit: nat, input: Input) returns (files: seq<BlobFile>)
      requires gcState.cursor.ShardDirs?
      modifies this`gcState
      ensures (gcState.cursor, files) == ReadShards(old(gcState.cursor.dirs), old(gcState.cursor.open), limit, input)
      ensures gcState == old(gcState).(cursor := gcState.cursor)
    {
      var dirs, open := gcState.cursor.dirs, gcState.cursor.open;
      files := [];
      assert files + ReadShards(dirs, open, limit, input).1 == ReadShards(dirs, open, limit, input).1;
      while |files| < limit && dirs != []
        invariant |files| <= limit
        invariant var (cursor, rest) := ReadShards(dirs, open, limit - |files|, input);
                  (cursor, files + rest) == ReadShards(old(gcState.cursor.dirs), old(gcState.cursor.open), limit, input)
        invariant gcState == old(gcState)
        decreases |dirs|, if open.Closed? then 1 else 0, if open.Open? then |open.remaining| else 0
      {
        if open.Closed? {
          open := Open(input.shardListing(dirs[0]));
        } else if open.remaining == [] {
          dirs, open := dirs[1..], Closed;
        } else {
          ghost var (cursor, rest) := ReadShards(dirs, Open(open.remaining[1..]), limit - |files| - 1, input);
          assert files + ([Sharded(open.remaining[0])] + rest) == (files + [Sharded(open.remaining[0])]) + rest;
          files := files + [Sharded(open.remaining[0])];
          open := Open(open.remaining[1..]);
        }
      }
      assert files + [] == files;
      gcState := gcState.(cursor := if dirs == [] then Exhausted else ShardDirs(dirs, open));
    }

    /** `nextGcBlobPage` in the flat layout. */
    method ReadFlatPage(limit: nat) returns (files: seq<BlobFile>)
      requires gcState.cursor.FlatDir?
      modifies this`gcState
      ensures (gcState.cursor, files) == ReadFlat(old(gcState.cursor.remaining), limit)
      ensures gcState == old(gcState).(cursor := gcState.cursor)
    {
      var remaining := gcState.cursor.remaining;
      files := [];
      assert files + ReadFlat(remaining, limit).1 == ReadFlat(remaining, limit).1;
      while |files| < limit && remaining != []
        invariant |files| <= limit
        invariant var (cursor, rest) := ReadFlat(remaining, limit - |files|);
                  (cursor, files + rest) == ReadFlat(old(gcState.cursor.remaining), limit)
        invariant gcState == old(gcState)
        decreases |remaining|
      {
        ghost var (cursor, rest) := ReadFlat(remaining[1..], limit - |files| - 1);
        assert files + ([Flat(remaining[0])] + rest) == (files + [Flat(remaining[0])]) + rest;
        files := files + [Flat(remaining[0])];
        remaining := remaining[1..];
      }
      assert files + [] == files;
      gcState := gcState.(cursor := if |files| < limit then Exhausted else FlatDir(remaining));
    }

    method NextGcBlobPage(limit: nat, input: Input) returns (files: seq<BlobFile>)
      modifies this`gcState
      ensures (gcState.cursor, files) == NextPage(old(gcState.cursor), disk, limit, input)
      ensures gcState == old(gcState).(cursor := gcState.cursor)
    {
      if gcState.cursor.Exhausted? { return []; }
      if gcState.cursor.Probing? {
        var next: Probe, found, probed := gcState.cursor.next, gcState.cursor.found, 0;
        ghost var first, stop := next, if next + limit < 256 then next + limit else 256;
        while next < 256 && probed < limit
          invariant first <= next <= stop && next == first + probed
          invariant gcState == old(gcState)
          invariant found + ShardsIn(disk.shards, next, stop)
                      == old(gcState.cursor.found) + ShardsIn(disk.shards, first, stop)
          decreases 256 - next
        {
          if next in disk.shards { found := found + [next]; }
          next, probed := next + 1, probed + 1;
        }
        assert next == stop && found + [] == found;
        if next < 256 {
          gcState := gcState.(cursor := Probing(next, found));
          return [];
        }
        gcState := gcState.(cursor := if |found| > 0 then ShardDirs(found, Closed) else FlatDir(input.flatListing));
      }
      if gcState.cursor.FlatDir? { files := ReadFlatPage(limit); } else { files := ReadShardPage(limit, input); }
    }

    method SweepSome(now: int, input: Input)
      modifies this`gcState, this`disk
      ensures (gcState, disk) == SweepLoop(cfg, old(gcState), old(disk), now, input.sweepTurns, input.pageSize)
    {
      var turns, scanned := input.sweepTurns, 0;
      while gcState.pending != [] && turns > 0 && scanned < input.pageSize
        invariant scanned <= input.pageSize
        invariant SweepLoop(cfg, gcState, disk, now, turns, input.pageSize - scanned)
               == SweepLoop(cfg, old(gcState), old(disk), now, input.sweepTurns, input.pageSize)
        decreases turns
      {
        var file := gcState.pending[0];
        gcState := gcState.(pending := gcState.pending[1..]);
        if file.hash !in gcState.marked && !Recent(cfg, disk.blobs, now, file) {
          disk := disk.(blobs := disk.blobs - {file});
        }
        turns, scanned := turns - 1, scanned + 1;
      }
    }

    /** `gcSlice`. */
    method GcSlice(now: int, input: Input) returns (hasMore: bool)
      modifies this`gcState, this`disk
      ensures Outcome(gcState, disk, hasMore) == Slice(cfg, old(gcState), old(Now(now)), input)
    {
      if gcState.stage != Sweep {
        MarkSome(now, input);
        if gcState.stage !in {Expire, Sweep} { return true; }
      }
      var covered := CurrentRootsAreCovered(now);
      if !covered {
        gcState := IDLE;
        return true;
      }
      if gcState.stage != Sweep {
        ExpireSome(input);
        if gcState.expireCursor < |gcState.expired| { return true; }
        gcState := gcState.(stage := Sweep, pending := []);
      }
      if gcState.pending == [] {
        var files := NextGcBlobPage(input.pageSize, input);
        gcState := gcState.(pending := files);
      }
      SweepSome(now, input);
      if gcState.pending != [] || gcState.cursor != Exhausted { return true; }
      gcState := IDLE;
      return false;
    }
  }
}
