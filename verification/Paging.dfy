/** Walking `get_snapshot` page by page, with anything at all happening between two pages. */
module Paging {
  import opened Types
  import opened Ledger
  import opened Contract
  import opened Runs
  import opened Indexes
  import opened Lifecycle
  import opened Snapshots

  /** Where page `n` starts: the client goes on by the lesser of its limit and 32 each time. */
  function Offset(n: nat, limit: u32): nat {
    if n == 0 then 0 else Offset(n - 1, limit) + if limit < 32 then limit else 32
  }

  /** So the pages start at the multiples of min(limit, 32), which is what a page holds. */
  lemma {:induction false} OffsetIsMultiple(n: nat, limit: u32)
    ensures Offset(n, limit) == n * if limit < 32 then limit else 32
    ensures Offset(n, limit) == n * Batch(limit)
  {
    if n > 0 {
      OffsetIsMultiple(n - 1, limit);
    }
  }

  /** The `n` pages can be asked for: every offset is a u32. */
  ghost predicate InRange(n: nat, limit: u32) {
    forall k | 0 <= k < n :: Offset(k, limit) <= 0xFFFF_FFFF
  }

  /** What the client has put together from its pages, later pages overriding earlier ones. */
  datatype Reading = Reading(
    guardians: map<Address, bool>,
    reputations: map<Address, u64>,
    tasks: map<u64, Task>,
    votes: map<Ballot, bool>,
    streams: map<u64, RewardStream>)
  {
    function Add(s: Snapshot): Reading {
      Reading(
        guardians + s.guardians, reputations + s.reputations, tasks + s.tasks, votes + s.votes,
        streams + s.rewardStreams)
    }
  }

  const NOTHING_READ := Reading(map[], map[], map[], map[], map[])

  /** A walk over the states the contract is in when each page is asked for. */
  ghost function Walk(states: seq<State>, limit: u32): Reading
    requires InRange(|states|, limit)
  {
    if states == [] then NOTHING_READ
    else
      var n := |states| - 1;
      Walk(states[..n], limit).Add(SnapshotAt(states[n], Offset(n, limit), limit))
  }

  /** The last page of a walk on top of the pages before it. */
  lemma WalkOn(states: seq<State>, limit: u32)
    requires states != [] && InRange(|states|, limit)
    ensures
      var n := |states| - 1;
      && InRange(n, limit)
      && Offset(n, limit) <= U32_MAX
      && Walk(states, limit) == Walk(states[..n], limit).Add(SnapshotAt(states[n], Offset(n, limit), limit))
      && Offset(|states|, limit) == Offset(n, limit) + Batch(limit)
  {
  }

  // ----- pages -----

  /** Entry `i` of a list is on the page that covers `i`, also once the list has grown. */
  lemma PageHolds<T>(older: seq<T>, list: seq<T>, offset: nat, limit: u32, i: nat)
    requires older <= list && i < |older| && offset <= i < offset + Batch(limit)
    ensures older[i] in Page(list, offset, limit)
  {
  }

  // ----- a walk with writes in between -----

  /** A moment of the walk: the indexes agree, and nothing is taken back before or after it. */
  ghost predicate Between(start: State, now: State, end: State) {
    BoardIndexed(now.board) && Grows(start, now) && Grows(now, end)
  }

  ghost predicate Passing(start: State, states: seq<State>, end: State) {
    forall i | 0 <= i < |states| :: Between(start, states[i], end)
  }

  /** The first `reach` entries of a list have been read. */
  ghost predicate Read<K>(list: seq<K>, keys: set<K>, reach: nat) {
    forall i | 0 <= i < Min(reach, |list|) :: list[i] in keys
  }

  /** The first `reach` tasks have been read, those apart that have been archived by the end. */
  ghost predicate ReadActive(list: seq<u64>, keys: set<u64>, reach: nat, end: State) {
    forall i | 0 <= i < Min(reach, |list|) && list[i] in end.board.active :: list[i] in keys
  }

  /** Those of the first `reach` entries have been read that had a score at the start. */
  ghost predicate ReadScored(list: seq<Address>, keys: set<Address>, reach: nat, start: State) {
    forall i | 0 <= i < Min(reach, |list|) && list[i] in start.reputation :: list[i] in keys
  }

  /** No vote, guardian or stream that was there at the start is missed, as far as the pages reach. */
  ghost predicate Complete(start: State, r: Reading, reach: nat) {
    && Read(start.board.allVotes, r.votes.Keys, reach)
    && Read(start.roster.listed, r.guardians.Keys, reach)
    && Read(start.board.allStreams, r.streams.Keys, reach)
  }

  /** Nothing is reported that is not there at the end; a reported task may have moved on since. */
  ghost predicate Sound(end: State, r: Reading) {
    && (forall v | v in r.votes :: v in end.board.allVotes)
    && (forall g | g in r.guardians :: g in end.roster.listed)
    && (forall g | g in r.reputations :: g in end.roster.listed && g in end.reputation)
    && SoundStreams(end, r.streams)
    && SoundTasks(end, r.tasks)
  }

  ghost predicate SoundStreams(end: State, streams: map<u64, RewardStream>) {
    forall id | id in streams :: id in end.board.streams && streams[id] == end.board.streams[id]
  }

  ghost predicate SoundTasks(end: State, tasks: map<u64, Task>) {
    forall id | id in tasks :: end.board.Registered(id) && RecordGrows(tasks[id], end.board.Record(id))
  }

  lemma TasksPage(now: State, end: State, offset: u32, limit: u32)
    requires Grows(now, end)
    ensures SoundTasks(end, SnapshotAt(now, offset, limit).tasks)
  {
  }

  lemma StreamsPage(now: State, end: State, offset: u32, limit: u32)
    requires Grows(now, end)
    ensures SoundStreams(end, SnapshotAt(now, offset, limit).rewardStreams)
  {
  }

  lemma ListsPage(now: State, end: State, offset: u32, limit: u32)
    requires Grows(now, end)
    ensures
      var page := SnapshotAt(now, offset, limit);
      && (forall v | v in page.votes :: v in end.board.allVotes)
      && (forall g | g in page.guardians :: g in end.roster.listed)
      && (forall g | g in page.reputations :: g in end.roster.listed && g in end.reputation)
  {
    assert forall g | g in now.reputation :: g in now.reputation.Keys;
  }

  lemma SoundPage(now: State, end: State, r: Reading, offset: u32, limit: u32)
    requires Grows(now, end) && Sound(end, r)
    ensures Sound(end, r.Add(SnapshotAt(now, offset, limit)))
  {
    TasksPage(now, end, offset, limit);
    StreamsPage(now, end, offset, limit);
    ListsPage(now, end, offset, limit);
    SoundSum(end, r, SnapshotAt(now, offset, limit));
  }

  lemma SoundSum(end: State, r: Reading, page: Snapshot)
    requires Sound(end, r) && SoundTasks(end, page.tasks) && SoundStreams(end, page.rewardStreams)
    requires forall v | v in page.votes :: v in end.board.allVotes
    requires forall g | g in page.guardians :: g in end.roster.listed
    requires forall g | g in page.reputations :: g in end.roster.listed && g in end.reputation
    ensures Sound(end, r.Add(page))
  {
    assert SoundTasks(end, r.tasks + page.tasks);
    assert SoundStreams(end, r.streams + page.rewardStreams);
  }

  /** A task that is active later on was active all along since it was registered. */
  lemma ActiveBefore(a: State, b: State, id: u64)
    requires Grows(a, b) && TaskIndex(b.board)
    requires a.board.Registered(id) && id in b.board.active
    ensures id in a.board.active
  {
  }

  lemma ReadOn<K>(older: seq<K>, list: seq<K>, keys: set<K>, offset: nat, limit: u32, more: set<K>)
    requires older <= list && Read(older, keys, offset)
    requires forall k | k in Page(list, offset, limit) :: k in more
    ensures Read(older, keys + more, offset + Batch(limit))
  {
  }

  lemma ReadScoredPage(start: State, end: State, r: Reading, offset: u32, limit: u32)
    requires Grows(start, end)
    requires ReadScored(start.roster.listed, r.reputations.Keys, offset, start)
    ensures ReadScored(start.roster.listed, r.Add(SnapshotAt(end, offset, limit)).reputations.Keys,
                       offset + Batch(limit), start)
  {
    var older := start.roster.listed;
    var page := SnapshotAt(end, offset, limit);
    assert r.Add(page).reputations.Keys == r.reputations.Keys + page.reputations.Keys;
    forall i | 0 <= i < Min(offset + Batch(limit), |older|) && older[i] in start.reputation
      ensures older[i] in r.reputations.Keys + page.reputations.Keys
    {
      if offset <= i {
        PageHolds(older, end.roster.listed, offset, limit, i);
        assert older[i] in end.reputation.Keys;
      }
    }
  }

  lemma ReadActivePage(start: State, now: State, end: State, r: Reading, offset: u32, limit: u32)
    requires Between(start, now, end) && TaskIndex(end.board)
    requires ReadActive(start.board.allTasks, r.tasks.Keys, offset, end)
    ensures ReadActive(start.board.allTasks, r.Add(SnapshotAt(now, offset, limit)).tasks.Keys,
                       offset + Batch(limit), end)
  {
    var older := start.board.allTasks;
    var page := SnapshotAt(now, offset, limit);
    assert r.Add(page).tasks.Keys == r.tasks.Keys + page.tasks.Keys;
    forall i | 0 <= i < Min(offset + Batch(limit), |older|) && older[i] in end.board.active
      ensures older[i] in r.tasks.Keys + page.tasks.Keys
    {
      if offset <= i {
        PageHolds(older, now.board.allTasks, offset, limit, i);
        assert older[i] in older && older[i] in now.board.allTasks;
        ActiveBefore(now, end, older[i]);
      }
    }
  }

  lemma CompletePage(start: State, end: State, r: Reading, offset: u32, limit: u32)
    requires BoardIndexed(end.board) && Grows(start, end)
    requires Complete(start, r, offset)
    ensures Complete(start, r.Add(SnapshotAt(end, offset, limit)), offset + Batch(limit))
  {
    var page := SnapshotAt(end, offset, limit);
    var r' := r.Add(page);
    assert r'.votes.Keys == r.votes.Keys + page.votes.Keys;
    ReadOn(start.board.allVotes, end.board.allVotes, r.votes.Keys, offset, limit, page.votes.Keys);
    assert r'.guardians.Keys == r.guardians.Keys + page.guardians.Keys;
    ReadOn(start.roster.listed, end.roster.listed, r.guardians.Keys, offset, limit, page.guardians.Keys);
    assert r'.streams.Keys == r.streams.Keys + page.rewardStreams.Keys;
    ReadOn(start.board.allStreams, end.board.allStreams, r.streams.Keys, offset, limit, page.rewardStreams.Keys);
  }

  /** Any walk is sound. */
  lemma {:induction false} WalkSound(start: State, states: seq<State>, end: State, limit: u32)
    requires Passing(start, states, end) && InRange(|states|, limit)
    ensures Sound(end, Walk(states, limit))
  {
    if states != [] {
      var n := |states| - 1;
      WalkSound(start, states[..n], end, limit);
      WalkOn(states, limit);
      assert Between(start, states[n], end);
      SoundPage(states[n], end, Walk(states[..n], limit), Offset(n, limit), limit);
    }
  }

  /** Any walk is complete as far as its pages reach. */
  lemma {:induction false} WalkComplete(start: State, states: seq<State>, end: State, limit: u32)
    requires Passing(start, states, end) && InRange(|states|, limit)
    ensures Complete(start, Walk(states, limit), Offset(|states|, limit))
  {
    if states != [] {
      var n := |states| - 1;
      assert Between(start, states[n], end);
      WalkComplete(start, states[..n], end, limit);
      CompletePage(start, states[n], Walk(states[..n], limit), Offset(n, limit), limit);
    }
  }

  lemma {:induction false} WalkReadsScored(start: State, states: seq<State>, end: State, limit: u32)
    requires Passing(start, states, end) && InRange(|states|, limit)
    ensures ReadScored(start.roster.listed, Walk(states, limit).reputations.Keys, Offset(|states|, limit), start)
  {
    if states != [] {
      var n := |states| - 1;
      WalkReadsScored(start, states[..n], end, limit);
      WalkOn(states, limit);
      assert Between(start, states[n], end);
      ReadScoredPage(start, states[n], Walk(states[..n], limit), Offset(n, limit), limit);
    }
  }

  lemma {:induction false} WalkReadsActive(start: State, states: seq<State>, end: State, limit: u32)
    requires Passing(start, states, end) && InRange(|states|, limit) && TaskIndex(end.board)
    ensures ReadActive(start.board.allTasks, Walk(states, limit).tasks.Keys, Offset(|states|, limit), end)
  {
    if states != [] {
      var n := |states| - 1;
      WalkReadsActive(start, states[..n], end, limit);
      WalkOn(states, limit);
      assert Between(start, states[n], end);
      ReadActivePage(start, states[n], end, Walk(states[..n], limit), Offset(n, limit), limit);
    }
  }

  lemma {:induction false} OffsetReaches(n: nat, limit: u32)
    ensures limit >= 1 ==> n <= Offset(n, limit)
    ensures limit == 0 ==> Offset(n, limit) == 0
  {
    if n > 0 {
      OffsetReaches(n - 1, limit);
    }
  }

  /** As many pages as are needed, if `n` are enough, can be asked for. */
  lemma {:induction false} EnoughPages(n: nat, limit: u32, longest: u32) returns (k: nat)
    requires Offset(n, limit) >= longest
    ensures InRange(k, limit) && Offset(k, limit) >= longest
  {
    if j :| 0 <= j < n && Offset(j, limit) >= longest {
      k := EnoughPages(j, limit, longest);
    } else {
      k := n;
    }
  }

  /** A walk gets past its longest list, at offsets that fit, exactly when it asks for at least one entry a page. */
  lemma WalkFinishes(limit: u32, longest: u32)
    ensures (exists n :: InRange(n, limit) && Offset(n, limit) >= longest) <==> limit >= 1 || longest == 0
  {
    OffsetReaches(longest, limit);
    if limit >= 1 || longest == 0 {
      assert longest == 0 ==> Offset(0, limit) >= longest;
      var n := EnoughPages(longest, limit, longest);
    }
    if n :| InRange(n, limit) && Offset(n, limit) >= longest {
      OffsetReaches(n, limit);
    }
  }

  ghost predicate ReachesAll(s: State, reach: nat) {
    && |s.board.allVotes| <= reach
    && |s.board.allTasks| <= reach
    && |s.board.allStreams| <= reach
    && |s.roster.listed| <= reach
  }

  /** What a walk through `states` that reaches past every list is good for. */
  ghost predicate Faithful(start: State, end: State, r: Reading) {
    && start.board.voted <= r.votes.Keys <= end.board.voted
    && start.board.streams.Keys <= r.streams.Keys
    && SoundStreams(end, r.streams)
    && (forall g | g in start.roster.listed :: g in r.guardians)
    && (forall g | g in r.guardians :: g in end.roster.listed)
    && (forall g | g in start.roster.listed && g in start.reputation :: g in r.reputations)
    && (forall g | g in r.reputations :: g in end.roster.listed && g in end.reputation)
    && (forall id | start.board.Registered(id) && id in end.board.active :: id in r.tasks)
    && SoundTasks(end, r.tasks)
  }

  lemma PassingWalk(start: State, states: seq<State>, end: State, limit: u32)
    requires Passing(start, states, end) && BoardIndexed(start.board) && BoardIndexed(end.board)
    requires InRange(|states|, limit) && ReachesAll(start, Offset(|states|, limit))
    ensures Faithful(start, end, Walk(states, limit))
  {
    WalkSound(start, states, end, limit);
    WalkComplete(start, states, end, limit);
    WalkReadsScored(start, states, end, limit);
    WalkReadsActive(start, states, end, limit);
    ReadAll(start, end, Walk(states, limit), Offset(|states|, limit));
  }

  // ----- a walk during a run -----

  function Joined(gaps: seq<seq<Step>>): seq<Step> {
    if gaps == [] then [] else Joined(gaps[..|gaps| - 1]) + gaps[|gaps| - 1]
  }

  /** The world after the gaps: what happens before the first page, then between pages, is one run. */
  function After(w: World, gaps: seq<seq<Step>>): World {
    Run(w, Joined(gaps))
  }

  /** The states in which the pages are read, one after each gap. */
  function Moments(w: World, gaps: seq<seq<Step>>): (states: seq<State>)
    ensures |states| == |gaps|
  {
    if gaps == [] then [] else Moments(w, gaps[..|gaps| - 1]) + [After(w, gaps).now]
  }

  lemma GrowsReflexive(s: State)
    ensures Grows(s, s)
  {
  }

  /** The pages are read between the start and whatever comes after the last of them. */
  lemma {:induction false} MomentsPass(w: World, gaps: seq<seq<Step>>, end: State)
    requires Indexed(w) && Grows(After(w, gaps).now, end)
    ensures Passing(w.now, Moments(w, gaps), end)
  {
    if gaps != [] {
      var n := |gaps| - 1;
      RunKeepsIndexed(w, Joined(gaps[..n]));
      RunKeepsIndexed(w, Joined(gaps));
      RunGrows(w, Joined(gaps));
      RunConcat(w, Joined(gaps[..n]), gaps[n]);
      RunGrows(After(w, gaps[..n]), gaps[n]);
      GrowsTransitive(After(w, gaps[..n]).now, After(w, gaps).now, end);
      MomentsPass(w, gaps[..n], end);
      assert Between(w.now, After(w, gaps).now, end);
    }
  }

  /**
   Whatever runs between the pages, a walk long enough for the lists it started with
   reports every vote, stream, guardian and score there at the start, and every task active
   from then to the end; and it reports none of these that is not there at the end.
   */
  lemma InterleavedWalk(
      self: Address, clock: u64, balances: Balances, steps: seq<Step>, gaps: seq<seq<Step>>, limit: u32)
    requires InRange(|gaps|, limit)
    requires ReachesAll(Run(Genesis(self, clock, balances), steps).now, Offset(|gaps|, limit))
    ensures
      var w := Run(Genesis(self, clock, balances), steps);
      Faithful(w.now, After(w, gaps).now, Walk(Moments(w, gaps), limit))
  {
    ReachableIndexed(self, clock, balances, steps);
    var w := Run(Genesis(self, clock, balances), steps);
    RunKeepsIndexed(w, Joined(gaps));
    GrowsReflexive(After(w, gaps).now);
    MomentsPass(w, gaps, After(w, gaps).now);
    PassingWalk(w.now, Moments(w, gaps), After(w, gaps).now, limit);
  }

  lemma ReadAll(start: State, end: State, r: Reading, reach: nat)
    requires BoardIndexed(start.board) && BoardIndexed(end.board)
    requires Complete(start, r, reach) && ReadActive(start.board.allTasks, r.tasks.Keys, reach, end)
    requires ReadScored(start.roster.listed, r.reputations.Keys, reach, start)
    requires Sound(end, r) && ReachesAll(start, reach)
    ensures start.board.voted <= r.votes.Keys <= end.board.voted
    ensures start.board.streams.Keys <= r.streams.Keys
    ensures forall g | g in start.roster.listed :: g in r.guardians
    ensures forall g | g in start.roster.listed && g in start.reputation :: g in r.reputations
    ensures forall id | start.board.Registered(id) && id in end.board.active :: id in r.tasks
  {
  }

  // ----- a walk with nothing in between -----

  /** Nothing happens between the pages: each is read in the same state. */
  ghost predicate Undisturbed(s: State, states: seq<State>) {
    forall i | 0 <= i < |states| :: states[i] == s
  }

  function UpTo<T>(list: seq<T>, reach: nat): seq<T> {
    list[..Min(reach, |list|)]
  }

  lemma StoredAdds<K, V>(list: seq<K>, m: map<K, V>, offset: nat, limit: u32)
    ensures Stored(UpTo(list, offset), m) + Stored(Page(list, offset, limit), m) ==
            Stored(UpTo(list, offset + Batch(limit)), m)
  {
  }

  lemma MarkedAdds<K>(list: seq<K>, offset: nat, limit: u32)
    ensures Marked(UpTo(list, offset)) + Marked(Page(list, offset, limit)) ==
            Marked(UpTo(list, offset + Batch(limit)))
  {
  }

  lemma StandingAdds(list: seq<Address>, flags: map<Address, bool>, offset: nat, limit: u32)
    ensures Standing(UpTo(list, offset), flags) + Standing(Page(list, offset, limit), flags) ==
            Standing(UpTo(list, offset + Batch(limit)), flags)
  {
  }

  lemma {:induction false} UndisturbedGuardians(s: State, states: seq<State>, limit: u32)
    requires Undisturbed(s, states) && InRange(|states|, limit)
    ensures Walk(states, limit).guardians == Standing(UpTo(s.roster.listed, Offset(|states|, limit)), s.roster.flags)
  {
    if states != [] {
      var n := |states| - 1;
      UndisturbedGuardians(s, states[..n], limit);
      StandingAdds(s.roster.listed, s.roster.flags, Offset(n, limit), limit);
    }
  }

  lemma {:induction false} UndisturbedScores(s: State, states: seq<State>, limit: u32)
    requires Undisturbed(s, states) && InRange(|states|, limit)
    ensures Walk(states, limit).reputations == Stored(UpTo(s.roster.listed, Offset(|states|, limit)), s.reputation)
  {
    if states != [] {
      var n := |states| - 1;
      UndisturbedScores(s, states[..n], limit);
      StoredAdds(s.roster.listed, s.reputation, Offset(n, limit), limit);
    }
  }

  lemma {:induction false} UndisturbedTasks(s: State, states: seq<State>, limit: u32)
    requires Undisturbed(s, states) && InRange(|states|, limit)
    ensures Walk(states, limit).tasks == Stored(UpTo(s.board.allTasks, Offset(|states|, limit)), s.board.active)
  {
    if states != [] {
      var n := |states| - 1;
      UndisturbedTasks(s, states[..n], limit);
      StoredAdds(s.board.allTasks, s.board.active, Offset(n, limit), limit);
    }
  }

  lemma {:induction false} UndisturbedVotes(s: State, states: seq<State>, limit: u32)
    requires Undisturbed(s, states) && InRange(|states|, limit)
    ensures Walk(states, limit).votes == Marked(UpTo(s.board.allVotes, Offset(|states|, limit)))
  {
    if states != [] {
      var n := |states| - 1;
      UndisturbedVotes(s, states[..n], limit);
      MarkedAdds(s.board.allVotes, Offset(n, limit), limit);
    }
  }

  lemma {:induction false} UndisturbedStreams(s: State, states: seq<State>, limit: u32)
    requires Undisturbed(s, states) && InRange(|states|, limit)
    ensures Walk(states, limit).streams == Stored(UpTo(s.board.allStreams, Offset(|states|, limit)), s.board.streams)
  {
    if states != [] {
      var n := |states| - 1;
      UndisturbedStreams(s, states[..n], limit);
      StoredAdds(s.board.allStreams, s.board.streams, Offset(n, limit), limit);
    }
  }

  /**
   Paging is lossless: in any reachable state, the pages put together are exactly the
   active tasks, the votes, the reward streams, and each listed guardian's standing and score.
   */
  lemma LosslessWalk(self: Address, clock: u64, balances: Balances, steps: seq<Step>, states: seq<State>, limit: u32)
    requires Undisturbed(Run(Genesis(self, clock, balances), steps).now, states)
    requires InRange(|states|, limit)
    requires ReachesAll(Run(Genesis(self, clock, balances), steps).now, Offset(|states|, limit))
    ensures
      var s := Run(Genesis(self, clock, balances), steps).now;
      Walk(states, limit) == Reading(
        map g | g in s.roster.listed :: s.IsGuardian(g),
        map g | g in s.roster.listed && g in s.reputation :: s.reputation[g],
        s.board.active,
        map v | v in s.board.voted :: true,
        s.board.streams)
  {
    ReachableIndexed(self, clock, balances, steps);
    var s := Run(Genesis(self, clock, balances), steps).now;
    UndisturbedGuardians(s, states, limit);
    UndisturbedScores(s, states, limit);
    UndisturbedTasks(s, states, limit);
    UndisturbedVotes(s, states, limit);
    UndisturbedStreams(s, states, limit);
    WholeReading(s, Offset(|states|, limit));
  }

  lemma WholeReading(s: State, reach: nat)
    requires BoardIndexed(s.board) && ReachesAll(s, reach)
    ensures Standing(UpTo(s.roster.listed, reach), s.roster.flags) == map g | g in s.roster.listed :: s.IsGuardian(g)
    ensures Stored(UpTo(s.roster.listed, reach), s.reputation) ==
            map g | g in s.roster.listed && g in s.reputation :: s.reputation[g]
    ensures Stored(UpTo(s.board.allTasks, reach), s.board.active) == s.board.active
    ensures Marked(UpTo(s.board.allVotes, reach)) == map v | v in s.board.voted :: true
    ensures Stored(UpTo(s.board.allStreams, reach), s.board.streams) == s.board.streams
  {
    StoredUnder(s.board.allTasks, s.board.active);
    StoredUnder(s.board.allStreams, s.board.streams);
    assert UpTo(s.roster.listed, reach) == s.roster.listed;
    assert UpTo(s.board.allTasks, reach) == s.board.allTasks;
    assert UpTo(s.board.allVotes, reach) == s.board.allVotes;
    assert UpTo(s.board.allStreams, reach) == s.board.allStreams;
  }

  /** An index that lists every key of a map gives back the map. */
  lemma StoredUnder<K, V>(list: seq<K>, m: map<K, V>)
    requires forall k | k in m :: k in list
    ensures Stored(list, m) == m
  {
  }
}
