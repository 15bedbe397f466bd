/** What the instance registry reports over whole runs of operations. */
module RegistryRuns {
  import opened Wrappers
  import opened LagTypes
  import opened Expiring
  import opened Registry

  ghost predicate Monotone(run: seq<Timed>) {
    forall i, j :: 0 <= i < j < |run| ==> run[i].now <= run[j].now
  }

  /** The operation writes a new registration of id: directly, or as a heartbeat that finds no live key. */
  predicate Registers(keys: Registered, step: Timed, id: string) {
    && step.op.id == id && step.op.write != Lost
    && (step.op.Register? || (step.op.Heartbeat? && step.op.readOk && !Alive(keys, id, step.now)))
  }

  /** The operation is a sign of life of id that the server received. */
  predicate Beats(step: Timed, id: string) {
    && step.op.id == id && step.op.write != Lost
    && (step.op.Register? || (step.op.Heartbeat? && step.op.readOk))
  }

  function LastRegistration(config: RegistryConfig, run: seq<Timed>, id: string): Option<int> {
    if run == [] then None
    else
      var front, last := run[..|run| - 1], run[|run| - 1];
      if Registers(After(config, map[], front), last, id) then Some(last.now) else LastRegistration(config, front, id)
  }

  function LastBeat(run: seq<Timed>, id: string): Option<int> {
    if run == [] then None
    else if Beats(run[|run| - 1], id) then Some(run[|run| - 1].now)
    else LastBeat(run[..|run| - 1], id)
  }

  // ----- what a record says -----

  /** Every key holds a record of its own instance. */
  ghost predicate WellKeyed(keys: Registered) {
    forall id :: id in keys ==> keys[id].value.Info? && keys[id].value.id == id
  }

  predicate OnlineIn(keys: Registered, id: string) {
    id in keys && keys[id].value.Info? && keys[id].value.standing == Online
  }

  predicate OfflineIn(keys: Registered, id: string) {
    id in keys && keys[id].value.Info? && keys[id].value.standing == Offline
  }

  lemma {:induction false} RecordsAreWellKeyed(config: RegistryConfig, run: seq<Timed>)
    ensures WellKeyed(After(config, map[], run))
  {
    if run != [] {
      RecordsAreWellKeyed(config, run[..|run| - 1]);
    }
  }

  /** The record marked online carries the time of the last registration, which no heartbeat on the live key moves. */
  lemma {:induction false} OnlineSinceRegistration(config: RegistryConfig, run: seq<Timed>, id: string)
    ensures var keys := After(config, map[], run);
            OnlineIn(keys, id) ==> LastRegistration(config, run, id) == Some(keys[id].value.lastHeartbeat)
  {
    if run != [] {
      OnlineSinceRegistration(config, run[..|run| - 1], id);
    }
  }

  /**
   An id is reported active exactly when its key is alive, marked online, and the last registration of the run is
   younger than the timeout.
   */
  lemma ReportedExactly(config: RegistryConfig, run: seq<Timed>, id: string, at: int, now: int, timeout: int)
    ensures var keys := After(config, map[], run);
            var registered := LastRegistration(config, run, id);
            Reported(keys, id, at, now, timeout) <==>
              Alive(keys, id, at) && OnlineIn(keys, id) && registered.Some? && now - registered.value < timeout
  {
    OnlineSinceRegistration(config, run, id);
  }

  // ----- listing -----

  /** A page that the listing can use. */
  predicate Usable(page: ScanReply) {
    page.Page? && (page.ids == [] || !page.fetchFails)
  }

  /** The listing finishes after n pages exactly when they fit the limit, are usable and only the last ends it. */
  lemma {:induction false} WalkCompletesIff(scan: nat -> ScanReply, max: nat, i: nat, n: nat)
    ensures Walk(scan, max, i) == Complete(n) <==>
            && i < n <= max
            && forall k :: i <= k < n ==> Usable(scan(k)) && (scan(k).next == 0 <==> k == n - 1)
    decreases max - i
  {
    if i < max {
      WalkCompletesIff(scan, max, i + 1, n);
      assert Usable(scan(i)) <==> !(scan(i).ScanFailed? || (scan(i).ids != [] && scan(i).fetchFails));
    }
  }

  /** Each reported key of a page is listed as often as the page shows it, and nothing else is listed. */
  lemma {:induction false} ListedAsOftenAsScanned(keys: Registered, ids: seq<string>, at: int, now: int, timeout: int,
      id: string)
    requires WellKeyed(keys)
    ensures multiset(ReportedIn(keys, ids, at, now, timeout))[id] ==
            if Reported(keys, id, at, now, timeout) then multiset(ids)[id] else 0
  {
    if ids != [] {
      var n := |ids| - 1;
      ListedAsOftenAsScanned(keys, ids[..n], at, now, timeout, id);
      assert ids == ids[..n] + [ids[n]];
    }
  }

  lemma ListedOnPage(keys: Registered, ids: seq<string>, at: int, now: int, timeout: int, id: string)
    requires WellKeyed(keys)
    ensures id in ReportedIn(keys, ids, at, now, timeout) <==> id in ids && Reported(keys, id, at, now, timeout)
  {
    ListedAsOftenAsScanned(keys, ids, at, now, timeout, id);
    assert id in ReportedIn(keys, ids, at, now, timeout) <==> id in multiset(ReportedIn(keys, ids, at, now, timeout));
    assert id in ids <==> id in multiset(ids);
  }

  /** The run up to the moment when the values of page k are fetched. */
  function UpToPage(run: seq<Timed>, scan: nat -> ScanReply, k: nat): seq<Timed> {
    run + Meanwhile(scan, k + 1)
  }

  /** Page k shows an instance that is active when it is fetched, its last registration by then being young enough. */
  predicate ShownActive(config: RegistryConfig, run: seq<Timed>, scan: nat -> ScanReply, k: nat, now: int,
      timeout: int, id: string)
  {
    var soFar := UpToPage(run, scan, k);
    var keys, registered := After(config, map[], soFar), LastRegistration(config, soFar, id);
    && scan(k).Page? && id in scan(k).ids
    && Alive(keys, id, scan(k).at) && OnlineIn(keys, id) && registered.Some? && now - registered.value < timeout
  }

  lemma ShownOnPage(config: RegistryConfig, run: seq<Timed>, scan: nat -> ScanReply, k: nat, now: int, timeout: int,
      id: string)
    requires scan(k).Page?
    ensures var keys := After(config, After(config, map[], run), Meanwhile(scan, k + 1));
            id in ReportedIn(keys, scan(k).ids, scan(k).at, now, timeout) <==>
              ShownActive(config, run, scan, k, now, timeout, id)
  {
    var soFar := UpToPage(run, scan, k);
    AfterInTwoParts(config, map[], run, Meanwhile(scan, k + 1));
    RecordsAreWellKeyed(config, soFar);
    ListedOnPage(After(config, map[], soFar), scan(k).ids, scan(k).at, now, timeout, id);
    ReportedExactly(config, soFar, id, scan(k).at, now, timeout);
  }

  ghost predicate ShownOnSome(config: RegistryConfig, run: seq<Timed>, scan: nat -> ScanReply, n: nat, now: int,
      timeout: int, id: string)
  {
    exists k :: 0 <= k < n && ShownActive(config, run, scan, k, now, timeout, id)
  }

  lemma ShownOnOneMore(config: RegistryConfig, run: seq<Timed>, scan: nat -> ScanReply, n: nat, now: int,
      timeout: int, id: string)
    ensures ShownOnSome(config, run, scan, n + 1, now, timeout, id) <==>
            || ShownOnSome(config, run, scan, n, now, timeout, id)
            || ShownActive(config, run, scan, n, now, timeout, id)
  {
  }

  lemma {:induction false} FoundExactly(config: RegistryConfig, run: seq<Timed>, scan: nat -> ScanReply, n: nat,
      now: int, timeout: int, id: string)
    ensures id in FoundOn(config, After(config, map[], run), scan, n, now, timeout) <==>
            ShownOnSome(config, run, scan, n, now, timeout, id)
  {
    if n > 0 {
      FoundExactly(config, run, scan, n - 1, now, timeout, id);
      ShownOnOneMore(config, run, scan, n - 1, now, timeout, id);
      if scan(n - 1).Page? {
        PageStep(config, After(config, map[], run), scan, n - 1, now, timeout);
        ShownOnPage(config, run, scan, n - 1, now, timeout, id);
      }
    }
  }

  /**
   A finished listing holds exactly the ids that some page shows while their key is alive and online and their last
   registration is younger than the timeout, whatever others do between the pages.
   */
  lemma ListingIsExact(config: RegistryConfig, run: seq<Timed>, scan: nat -> ScanReply, max: nat, now: int,
      timeout: int, id: string)
    requires Walk(scan, max, 0).Complete?
    ensures var listing := ListingOf(config, After(config, map[], run), scan, max, now, timeout);
            && listing.Listed?
            && (id in listing.ids <==> ShownOnSome(config, run, scan, Walk(scan, max, 0).pages, now, timeout, id))
  {
    FoundExactly(config, run, scan, Walk(scan, max, 0).pages, now, timeout, id);
  }

  /** The scan goes on past every page it is allowed, exactly when each of them is usable and none is the last. */
  lemma {:induction false} WalkTooLongIff(scan: nat -> ScanReply, max: nat, i: nat)
    requires i <= max
    ensures Walk(scan, max, i) == TooLong <==>
            forall k :: i <= k < max ==> Usable(scan(k)) && scan(k).next != 0
    decreases max - i
  {
    if i < max {
      WalkTooLongIff(scan, max, i + 1);
      assert Usable(scan(i)) <==> !(scan(i).ScanFailed? || (scan(i).ids != [] && scan(i).fetchFails));
    }
  }

  /** A hundred usable pages without an end give an error, together with exactly the ids those pages show active. */
  lemma CutAfterHundredPages(config: RegistryConfig, run: seq<Timed>, scan: nat -> ScanReply, store: StateStore,
      now: int, timeout: int, id: string)
    requires store.maxIterations == 100
    requires forall k :: 0 <= k < 100 ==> Usable(scan(k)) && scan(k).next != 0
    ensures var listing := ListingOf(config, After(config, map[], run), scan, store.maxIterations, now, timeout);
            listing.Cut? && (id in listing.ids <==> ShownOnSome(config, run, scan, 100, now, timeout, id))
  {
    WalkTooLongIff(scan, store.maxIterations, 0);
    FoundExactly(config, run, scan, store.maxIterations, now, timeout, id);
  }

  /** Nothing happens and no time passes between the first n pages. */
  ghost predicate QuietScan(scan: nat -> ScanReply, n: nat, now: int) {
    forall k :: 0 <= k < n ==> scan(k).Page? && scan(k).before == [] && scan(k).at == now
  }

  lemma {:induction false} NothingMeanwhile(scan: nat -> ScanReply, n: nat, now: int)
    requires QuietScan(scan, n, now)
    ensures Meanwhile(scan, n) == []
  {
    if n > 0 {
      NothingMeanwhile(scan, n - 1, now);
    }
  }

  /** The instance is active: its key is alive and online, and its last registration is younger than the timeout. */
  predicate IsActive(config: RegistryConfig, run: seq<Timed>, now: int, timeout: int, id: string) {
    var keys, registered := After(config, map[], run), LastRegistration(config, run, id);
    Alive(keys, id, now) && OnlineIn(keys, id) && registered.Some? && now - registered.value < timeout
  }

  lemma ShownQuietly(config: RegistryConfig, run: seq<Timed>, scan: nat -> ScanReply, n: nat, k: nat, now: int,
      timeout: int, id: string)
    requires QuietScan(scan, n, now) && k < n
    ensures ShownActive(config, run, scan, k, now, timeout, id) <==>
            id in scan(k).ids && IsActive(config, run, now, timeout, id)
  {
    NothingMeanwhile(scan, k + 1, now);
    assert UpToPage(run, scan, k) == run + [] == run;
  }

  /** Over a quiet scan that shows each live key the listing is exactly the active instances. */
  lemma QuietListingIsExact(config: RegistryConfig, run: seq<Timed>, scan: nat -> ScanReply, max: nat, now: int,
      timeout: int, id: string)
    requires Walk(scan, max, 0).Complete? && QuietScan(scan, Walk(scan, max, 0).pages, now)
    requires Alive(After(config, map[], run), id, now) ==>
               exists k :: 0 <= k < Walk(scan, max, 0).pages && id in scan(k).ids
    ensures var listing := ListingOf(config, After(config, map[], run), scan, max, now, timeout);
            listing.Listed? && (id in listing.ids <==> IsActive(config, run, now, timeout, id))
  {
    var n := Walk(scan, max, 0).pages;
    ListingIsExact(config, run, scan, max, now, timeout, id);
    forall k | 0 <= k < n
      ensures ShownActive(config, run, scan, k, now, timeout, id) <==>
              id in scan(k).ids && IsActive(config, run, now, timeout, id)
    {
      ShownQuietly(config, run, scan, n, k, now, timeout, id);
    }
  }

  // ----- operations of two calls -----

  /** A mark leaves the record it read, marked and stamped now, for thirty seconds, and no other key changed. */
  lemma MarkLastsThirtySeconds(keys: Registered, id: string, record: string, now: int, later: int)
    ensures var marked := FinishMark(keys, id, record, now, Done);
            && id in marked && marked[id].value == Info(record, now, Offline)
            && (Alive(marked, id, later) <==> later < now + 30 * NANOS_PER_SECOND)
            && forall other :: other != id ==>
                 (other in marked <==> other in keys) && (other in keys ==> marked[other] == keys[other])
  {
  }

  /** A heartbeat whose key is in the same state at both calls does what one of a single instant does at the second. */
  lemma SteadyHeartbeatIsAtomic(config: RegistryConfig, keys: Registered, readAt: int, later: Registered, id: string,
      now: int, write: WriteReply)
    requires Alive(keys, id, readAt) == Alive(later, id, now)
    ensures FinishHeartbeat(config, Alive(keys, id, readAt), later, id, now, write) ==
            Perform(config, later, now, Heartbeat(id, true, write))
  {
  }

  /** So does a mark whose key holds the same record at both calls. */
  lemma SteadyMarkIsAtomic(config: RegistryConfig, keys: Registered, readAt: int, later: Registered, id: string,
      now: int, write: WriteReply)
    requires Alive(keys, id, readAt) && Alive(later, id, now)
    requires keys[id].value.Info? && later[id].value.Info? && keys[id].value.id == later[id].value.id
    ensures FinishMark(later, id, keys[id].value.id, now, write) ==
            Perform(config, later, now, MarkOffline(id, true, write))
  {
  }

  /** An operation whose first call fails changes nothing, nor does a mark that finds no record to write back. */
  lemma FailedReadChangesNothing(config: RegistryConfig, keys: Registered, id: string, now: int, write: WriteReply)
    ensures Perform(config, keys, now, Heartbeat(id, false, write)) == keys
    ensures Perform(config, keys, now, MarkOffline(id, false, write)) == keys
    ensures !Alive(keys, id, now) || keys[id].value.Unreadable? ==>
              Perform(config, keys, now, MarkOffline(id, true, write)) == keys
  {
  }

  /**
   A heartbeat that is told of success leaves the key alive exactly when its first call found no key, or it found one
   that is still alive at the second call and the time to live is positive. Otherwise a key that lapses between the two
   calls is gone, and the instance is neither renewed nor registered.
   */
  lemma HeartbeatLeavesAliveIff(config: RegistryConfig, keys: Registered, id: string, readAt: int,
      between: seq<Timed>, now: int)
    requires config.instanceTTL >= 0
    ensures var found, later := Alive(keys, id, readAt), After(config, keys, between);
            Alive(FinishHeartbeat(config, found, later, id, now, Done), id, now) <==>
              !found || (config.instanceTTL > 0 && Alive(later, id, now))
  {
  }

  /** With nothing else going on, that is: exactly when the key does not lapse between the two calls. */
  lemma LoneHeartbeatLeavesAliveIff(config: RegistryConfig, keys: Registered, id: string, readAt: int, now: int)
    requires config.instanceTTL > 0 && readAt <= now && Alive(keys, id, readAt)
    ensures Alive(FinishHeartbeat(config, true, keys, id, now, Done), id, now) <==> !Lapsed(keys[id].expiry, now)
  {
  }

  /**
   An offline mark that found a record wins over whatever happened since it was read: even a new registration of the
   instance is overwritten, and a key that has lapsed comes back, offline.
   */
  lemma MarkOverwrites(config: RegistryConfig, keys: Registered, id: string, readAt: int, between: seq<Timed>, now: int,
      later: int, timeout: int)
    requires WellKeyed(keys) && Alive(keys, id, readAt)
    ensures var marked := FinishMark(After(config, keys, between), id, keys[id].value.id, now, Done);
            OfflineIn(marked, id) && Alive(marked, id, now) && !Reported(marked, id, now, later, timeout)
  {
  }

  // ----- offline -----

  /** What happens to id keeps clear of registering it again. */
  ghost predicate NeverRegistered(config: RegistryConfig, keys: Registered, run: seq<Timed>, id: string) {
    forall n :: 0 <= n < |run| ==> !Registers(After(config, keys, run[..n]), run[n], id)
  }

  lemma NeverRegisteredBefore(config: RegistryConfig, keys: Registered, run: seq<Timed>, id: string)
    requires run != [] && NeverRegistered(config, keys, run, id)
    ensures NeverRegistered(config, keys, run[..|run| - 1], id)
    ensures !Registers(After(config, keys, run[..|run| - 1]), run[|run| - 1], id)
  {
    var front := run[..|run| - 1];
    forall m | 0 <= m < |front| ensures !Registers(After(config, keys, front[..m]), front[m], id) {
      assert front[..m] == run[..m];
    }
  }

  lemma OfflineStep(config: RegistryConfig, keys: Registered, step: Timed, id: string)
    requires (id in keys ==> OfflineIn(keys, id)) && !Registers(keys, step, id)
    ensures var later := Perform(config, keys, step.now, step.op); id in later ==> OfflineIn(later, id)
  {
  }

  /**
   Once marked offline, an instance is never reported, whatever else happens, until it is registered again: directly,
   or by a heartbeat on its lapsed key.
   */
  lemma {:induction false} OfflineSticks(config: RegistryConfig, keys: Registered, run: seq<Timed>, id: string,
      now: int, timeout: int)
    requires OfflineIn(keys, id) && NeverRegistered(config, keys, run, id)
    ensures var later := After(config, keys, run);
            (id in later ==> OfflineIn(later, id)) && !Reported(later, id, now, now, timeout)
  {
    if run != [] {
      var n := |run| - 1;
      NeverRegisteredBefore(config, keys, run, id);
      OfflineSticks(config, keys, run[..n], id, now, timeout);
      OfflineStep(config, After(config, keys, run[..n]), run[n], id);
    }
  }

  /** Heartbeats of id, the first before the key lapses and each within the time to live of the one before. */
  ghost predicate OnTime(config: RegistryConfig, lapse: int, run: seq<Timed>, id: string) {
    && (forall n :: 0 <= n < |run| ==> run[n].op == Heartbeat(id, true, Done))
    && (run != [] ==> run[0].now < lapse)
    && (forall i, j :: 0 <= i && j == i + 1 && j < |run| ==> run[j].now < run[i].now + config.instanceTTL)
  }

  /** An instance that keeps sending its heartbeats on time after an offline mark stays offline, its key alive. */
  lemma {:induction false} HeartbeatsKeepOffline(config: RegistryConfig, keys: Registered, run: seq<Timed>, id: string,
      lapse: int)
    requires config.instanceTTL > 0 && OfflineIn(keys, id) && keys[id].expiry == At(lapse)
    requires OnTime(config, lapse, run, id)
    ensures After(config, keys, run) ==
            if run == [] then keys
            else keys[id := keys[id].(expiry := At(run[|run| - 1].now + config.instanceTTL))]
  {
    if run != [] {
      var n := |run| - 1;
      HeartbeatsKeepOffline(config, keys, run[..n], id, lapse);
      assert n > 0 ==> run[n].now < run[n - 1].now + config.instanceTTL;
    }
  }

  /** The first heartbeat after an offline mark brings the instance back exactly when the marked key has lapsed. */
  lemma RevivedExactlyAfterLapse(config: RegistryConfig, keys: Registered, id: string, marked: int, beat: int,
      timeout: int)
    requires config.instanceTTL > 0 && timeout > 0 && marked <= beat
    requires Alive(keys, id, marked) && keys[id].value.Info?
    ensures var offline := Perform(config, keys, marked, MarkOffline(id, true, Done));
            var after := Perform(config, offline, beat, Heartbeat(id, true, Done));
            Reported(after, id, beat, beat, timeout) <==> beat >= marked + 30 * NANOS_PER_SECOND
  {
  }

  // ----- freshness -----

  /** A record marked online lives for its time to live from the last sign of life, and was registered no later. */
  lemma {:induction false} OnlineLivesFromLastBeat(config: RegistryConfig, run: seq<Timed>, id: string)
    requires config.instanceTTL > 0 && Monotone(run)
    ensures var keys := After(config, map[], run);
            var beat := LastBeat(run, id);
            OnlineIn(keys, id) ==>
              && beat.Some? && keys[id].expiry == At(beat.value + config.instanceTTL)
              && keys[id].value.lastHeartbeat <= beat.value
    ensures var beat := LastBeat(run, id); beat.Some? ==> exists i :: 0 <= i < |run| && run[i].now == beat.value
  {
    if run != [] {
      OnlineLivesFromLastBeat(config, run[..|run| - 1], id);
    }
  }

  /** The documented rule: while its key lives, an online instance is active when its last heartbeat is young enough. */
  ghost predicate FreshByHeartbeat(keys: Registered, id: string, beat: int, timeout: int) {
    forall now :: beat <= now && Alive(keys, id, now) ==>
      (Reported(keys, id, now, now, timeout) <==> now - beat < timeout)
  }

  lemma FreshnessOfSlot(keys: Registered, id: string, beat: int, ttl: int, timeout: int)
    requires ttl > 0 && OnlineIn(keys, id) && keys[id].expiry == At(beat + ttl)
    requires keys[id].value.lastHeartbeat <= beat
    ensures FreshByHeartbeat(keys, id, beat, timeout) <==>
            var registered := keys[id].value.lastHeartbeat;
            beat == registered || timeout <= 0 || beat + ttl <= registered + timeout
  {
    var registered := keys[id].value.lastHeartbeat;
    if beat != registered && timeout > 0 && beat + ttl > registered + timeout {
      var now := if registered + timeout > beat then registered + timeout else beat;
      assert Alive(keys, id, now) && !Reported(keys, id, now, now, timeout) && now - beat < timeout;
    }
  }

  /**
   The report follows the last heartbeat exactly when that heartbeat was itself the registration, or the timeout lets
   nothing pass, or the timeout outlasts the key. Otherwise an instance with punctual heartbeats drops out of the
   report while its key is alive.
   */
  lemma FreshnessFollowsHeartbeatIff(config: RegistryConfig, run: seq<Timed>, id: string, timeout: int)
    requires config.instanceTTL > 0 && Monotone(run) && OnlineIn(After(config, map[], run), id)
    ensures LastBeat(run, id).Some? && LastRegistration(config, run, id).Some?
    ensures var beat := LastBeat(run, id).value;
            var registered := LastRegistration(config, run, id).value;
            FreshByHeartbeat(After(config, map[], run), id, beat, timeout) <==>
              beat == registered || timeout <= 0 || beat + config.instanceTTL <= registered + timeout
  {
    OnlineSinceRegistration(config, run, id);
    OnlineLivesFromLastBeat(config, run, id);
    FreshnessOfSlot(After(config, map[], run), id, LastBeat(run, id).value, config.instanceTTL, timeout);
  }

  lemma AfterOneMore(config: RegistryConfig, keys: Registered, run: seq<Timed>, step: Timed)
    ensures After(config, keys, run + [step]) == Perform(config, After(config, keys, run), step.now, step.op)
  {
    assert (run + [step])[..|run|] == run;
  }

  // The times that are configured when nothing else is.
  const DEFAULT: RegistryConfig := RegistryConfig(300 * NANOS_PER_SECOND)
  const DEFAULT_TIMEOUT: int := 120 * NANOS_PER_SECOND

  /** With the default times a heartbeat a minute after the registration is one that the report does not follow. */
  lemma DefaultTimesDropPunctualInstance(id: string)
    ensures var run := [Timed(0, Register(id, Done)), Timed(60 * NANOS_PER_SECOND, Heartbeat(id, true, Done))];
            var keys := After(DEFAULT, map[], run);
            OnlineIn(keys, id) && !FreshByHeartbeat(keys, id, 60 * NANOS_PER_SECOND, DEFAULT_TIMEOUT)
  {
    var first, second := Timed(0, Register(id, Done)), Timed(60 * NANOS_PER_SECOND, Heartbeat(id, true, Done));
    AfterOneMore(DEFAULT, map[], [], first);
    AfterOneMore(DEFAULT, map[], [first], second);
    assert [] + [first] == [first] && [first] + [second] == [first, second];
    FreshnessOfSlot(After(DEFAULT, map[], [first, second]), id, 60 * NANOS_PER_SECOND, DEFAULT.instanceTTL,
      DEFAULT_TIMEOUT);
  }
}
