/** `get_snapshot` (src/lib.rs): one page of each index, with what is stored under its keys. */
module Snapshots {
  import opened Types
  import opened Ledger
  import opened Host

  const MAX_SNAPSHOT_BATCH_SIZE: u32 := 32

  datatype Snapshot = Snapshot(
    paused: bool,
    failureCount: u32,
    weightThreshold: u64,
    admin: Option<Address>,
    vaultAddress: Option<Address>,
    dripsAddress: Option<Address>,
    guardians: map<Address, bool>,
    reputations: map<Address, u64>,
    tasks: map<u64, Task>,
    votes: map<Ballot, bool>,
    rewardStreams: map<u64, RewardStream>)

  /** How many entries a page can hold. */
  function Batch(limit: u32): u32 {
    Min(limit, MAX_SNAPSHOT_BATCH_SIZE)
  }

  /** The entries from `offset` on, as many as a page holds, in exact arithmetic. */
  function Page<T>(list: seq<T>, offset: nat, limit: u32): seq<T> {
    list[Min(offset, |list|)..Min(offset + Batch(limit), |list|)]
  }

  /** What `m` stores under those of the keys it stores anything under. */
  function Stored<K, V>(keys: seq<K>, m: map<K, V>): map<K, V> {
    map k | k in keys && k in m :: m[k]
  }

  function Standing(keys: seq<Address>, flags: map<Address, bool>): map<Address, bool> {
    map g | g in keys :: g in flags && flags[g]
  }

  function Marked<K>(keys: seq<K>): map<K, bool> {
    map k | k in keys :: true
  }

  function SnapshotAt(s: State, offset: u32, limit: u32): Snapshot {
    Snapshot(
      s.breaker.paused, s.breaker.failures, s.WeightThreshold(), None, s.settings.vault, None,
      Standing(Page(s.roster.listed, offset, limit), s.roster.flags),
      Stored(Page(s.roster.listed, offset, limit), s.reputation),
      Stored(Page(s.board.allTasks, offset, limit), s.board.active),
      Marked(Page(s.board.allVotes, offset, limit)),
      Stored(Page(s.board.allStreams, offset, limit), s.board.streams))
  }

  /** Rust's `u32::saturating_add`. */
  function SaturatingAdd(a: u32, b: u32): (r: u32) {
    if a + b > U32_MAX then U32_MAX else a + b
  }

  /** Entry `i` of a list of `len` is among the first min(limit, 32) from the offset on. */
  predicate InWindow(i: int, len: nat, offset: nat, limit: u32) {
    offset <= i < len && i < offset + if limit < 32 then limit else 32
  }

  ghost predicate Listed<T>(list: seq<T>, x: T, offset: nat, limit: u32) {
    exists i | InWindow(i, |list|, offset, limit) :: list[i] == x
  }

  /** What a page holds, entry by entry. */
  lemma PageIsWindow<T>(list: seq<T>, offset: nat, limit: u32)
    ensures
      var batch := if limit < 32 then limit else 32;
      |Page(list, offset, limit)| == if offset >= |list| then 0 else Min(batch, |list| - offset)
    ensures forall i | 0 <= i < |Page(list, offset, limit)| ::
              offset + i < |list| && Page(list, offset, limit)[i] == list[offset + i]
  {
  }

  lemma PageLists<T>(list: seq<T>, offset: nat, limit: u32, x: T)
    ensures x in Page(list, offset, limit) <==> Listed(list, x, offset, limit)
  {
    PageIsWindow(list, offset, limit);
    if i :| InWindow(i, |list|, offset, limit) && list[i] == x {
      assert Page(list, offset, limit)[i - offset] == x;
    }
    if x in Page(list, offset, limit) {
      var k :| 0 <= k < |Page(list, offset, limit)| && Page(list, offset, limit)[k] == x;
      assert InWindow(offset + k, |list|, offset, limit);
    }
  }

  /** A page of guardians: the standing of those in the window, and the scores of those who have one. */
  ghost predicate ShowsGuardians(s: State, p: Snapshot, offset: nat, limit: u32) {
    && (forall g :: g in p.guardians <==> Listed(s.roster.listed, g, offset, limit))
    && (forall g | g in p.guardians :: p.guardians[g] <==> g in s.roster.flags && s.roster.flags[g])
    && (forall g :: g in p.reputations <==> Listed(s.roster.listed, g, offset, limit) && g in s.reputation)
    && (forall g | g in p.reputations :: p.reputations[g] == s.reputation[g])
  }

  /** Pages of the board: the active tasks, the votes and the streams listed in the window. */
  ghost predicate ShowsBoard(b: Board, p: Snapshot, offset: nat, limit: u32) {
    && (forall id :: id in p.tasks <==> Listed(b.allTasks, id, offset, limit) && id in b.active)
    && (forall id | id in p.tasks :: p.tasks[id] == b.active[id])
    && (forall v :: v in p.votes <==> Listed(b.allVotes, v, offset, limit))
    && (forall v | v in p.votes :: p.votes[v])
    && (forall id :: id in p.rewardStreams <==> Listed(b.allStreams, id, offset, limit) && id in b.streams)
    && (forall id | id in p.rewardStreams :: p.rewardStreams[id] == b.streams[id])
  }

  /** The part of a snapshot that is not paged; the addresses the contract does not keep are absent. */
  ghost predicate ShowsHeader(s: State, p: Snapshot) {
    && p.paused == s.breaker.paused
    && p.failureCount == s.breaker.failures
    && p.weightThreshold == (if s.settings.weightThreshold.Some? then s.settings.weightThreshold.value else 300)
    && p.vaultAddress == s.settings.vault
    && p.admin.None? && p.dripsAddress.None?
  }

  lemma SnapshotGuardians(s: State, offset: u32, limit: u32)
    ensures ShowsGuardians(s, SnapshotAt(s, offset, limit), offset, limit)
  {
    forall g {
      PageLists(s.roster.listed, offset, limit, g);
    }
  }

  lemma SnapshotBoard(s: State, offset: u32, limit: u32)
    ensures ShowsBoard(s.board, SnapshotAt(s, offset, limit), offset, limit)
  {
    forall id {
      PageLists(s.board.allTasks, offset, limit, id);
    }
    forall v {
      PageLists(s.board.allVotes, offset, limit, v);
    }
    forall id {
      PageLists(s.board.allStreams, offset, limit, id);
    }
  }

  /** The slice bounds as the contract computes them: in range, and saturation never shows. */
  method Slice<T>(list: Vec<T>, offset: u32, limit: u32) returns (page: seq<T>)
    ensures page == Page(list, offset, limit)
    ensures
      var batch := if limit < 32 then limit else 32;
      var start := Min(offset, |list|);
      var end := Min(offset + batch, |list|);
      |page| == end - start && forall i | 0 <= i < end - start :: page[i] == list[start + i]
  {
    var batch := Batch(limit);
    var len: u32 := |list|;
    var start := Min(offset, len);
    var end := Min(SaturatingAdd(offset, batch), len);
    page := list[start..end];
  }

  method ReadGuardians(env: Env, page: seq<Address>)
    returns (guardians: map<Address, bool>, reputations: map<Address, u64>)
    ensures guardians == Standing(page, env.guardians)
    ensures reputations == Stored(page, env.reputation)
  {
    guardians, reputations := map[], map[];
    for i := 0 to |page|
      invariant guardians == Standing(page[..i], env.guardians)
      invariant reputations == Stored(page[..i], env.reputation)
    {
      var g := page[i];
      assert page[..i + 1] == page[..i] + [g];
      var isGuardian := if g in env.guardians then env.guardians[g] else false;
      guardians := guardians[g := isGuardian];
      if g in env.reputation {
        reputations := reputations[g := env.reputation[g]];
      }
    }
    assert page[..|page|] == page;
  }

  method ReadTasks(env: Env, page: seq<u64>) returns (tasks: map<u64, Task>)
    ensures tasks == Stored(page, env.active)
  {
    tasks := map[];
    for i := 0 to |page|
      invariant tasks == Stored(page[..i], env.active)
    {
      assert page[..i + 1] == page[..i] + [page[i]];
      if page[i] in env.active {
        tasks := tasks[page[i] := env.active[page[i]]];
      }
    }
    assert page[..|page|] == page;
  }

  method ReadVotes(page: seq<Ballot>) returns (votes: map<Ballot, bool>)
    ensures votes == Marked(page)
  {
    votes := map[];
    for i := 0 to |page|
      invariant votes == Marked(page[..i])
    {
      assert page[..i + 1] == page[..i] + [page[i]];
      votes := votes[page[i] := true];
    }
    assert page[..|page|] == page;
  }

  method ReadStreams(env: Env, page: seq<u64>) returns (streams: map<u64, RewardStream>)
    ensures streams == Stored(page, env.streams)
  {
    streams := map[];
    for i := 0 to |page|
      invariant streams == Stored(page[..i], env.streams)
    {
      assert page[..i + 1] == page[..i] + [page[i]];
      if page[i] in env.streams {
        streams := streams[page[i] := env.streams[page[i]]];
      }
    }
    assert page[..|page|] == page;
  }

  method GetSnapshot(env: Env, offset: u32, limit: u32) returns (snapshot: Snapshot)
    ensures snapshot == SnapshotAt(env.Abs(), offset, limit)
    ensures ShowsHeader(env.Abs(), snapshot)
    ensures ShowsGuardians(env.Abs(), snapshot, offset, limit)
    ensures ShowsBoard(env.Abs().board, snapshot, offset, limit)
  {
    var weightThreshold := if env.weightThreshold.Some? then env.weightThreshold.value else DEFAULT_WEIGHT_THRESHOLD;
    var guardianPage := Slice(env.allGuardians, offset, limit);
    var guardians, reputations := ReadGuardians(env, guardianPage);
    var taskPage := Slice(env.allTasks, offset, limit);
    var tasks := ReadTasks(env, taskPage);
    var votePage := Slice(env.allVotes, offset, limit);
    var votes := ReadVotes(votePage);
    var streamPage := Slice(env.allStreams, offset, limit);
    var streams := ReadStreams(env, streamPage);
    snapshot := Snapshot(
      env.paused, env.failureCount, weightThreshold, None, env.vaultAddress, None,
      guardians, reputations, tasks, votes, streams);
    SnapshotGuardians(env.Abs(), offset, limit);
    SnapshotBoard(env.Abs(), offset, limit);
  }
}
