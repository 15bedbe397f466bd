/** The instance registry: registrations, heartbeats and offline marks as keys that lapse. */
module Registry {
  import opened LagTypes
  import opened Expiring

  // The most pages that a listing looks at.
  const MAX_ITERATIONS: nat := 100

  const OFFLINE_TTL: int := 30 * NANOS_PER_SECOND

  datatype Standing = Online | Offline

  /** What a key holds: a record of an instance, or something that does not parse as one. */
  datatype Stored = Info(id: string, lastHeartbeat: int, standing: Standing) | Unreadable

  datatype Slot = Slot(value: Stored, expiry: Expiry)

  /** The instance keys, by the id that ends their name. */
  type Registered = map<string, Slot>

  datatype RegistryConfig = RegistryConfig(instanceTTL: int)

  predicate Alive(keys: Registered, id: string, now: int) {
    id in keys && !Lapsed(keys[id].expiry, now)
  }

  // ----- one operation -----

  /** An operation with what its calls do; a read that fails ends its operation. */
  datatype Op =
    | Register(id: string, write: WriteReply)
    | Heartbeat(id: string, readOk: bool, write: WriteReply)
    | MarkOffline(id: string, readOk: bool, write: WriteReply)

  function SetKey(keys: Registered, id: string, slot: Slot, write: WriteReply): Registered {
    if write == Lost then keys else keys[id := slot]
  }

  /** Renews a time to live; one that is not positive deletes the key. */
  function ExpireKey(keys: Registered, id: string, now: int, ttl: int, write: WriteReply): Registered
    requires id in keys
  {
    if write == Lost then keys
    else if ttl <= 0 then keys - {id}
    else keys[id := keys[id].(expiry := At(now + ttl))]
  }

  function Registration(config: RegistryConfig, id: string, now: int): Slot {
    Slot(Info(id, now, Online), ExpiryOf(now, config.instanceTTL))
  }

  /**
   The second call of a heartbeat: what its first call found is renewed, which does nothing if the key has lapsed
   since; what it did not find is registered.
   */
  function FinishHeartbeat(config: RegistryConfig, found: bool, keys: Registered, id: string, now: int,
      write: WriteReply): Registered
  {
    if !found then SetKey(keys, id, Registration(config, id, now), write)
    else if Alive(keys, id, now) then ExpireKey(keys, id, now, config.instanceTTL, write)
    else keys
  }

  /** The second call of an offline mark: the record that its first call read is written back, marked. */
  function FinishMark(keys: Registered, id: string, record: string, now: int, write: WriteReply): Registered {
    SetKey(keys, id, Slot(Info(record, now, Offline), ExpiryOf(now, OFFLINE_TTL)), write)
  }

  /** The keys after one operation whose calls are made at one instant. */
  function Perform(config: RegistryConfig, keys: Registered, now: int, op: Op): Registered {
    match op
    case Register(id, write) => SetKey(keys, id, Registration(config, id, now), write)
    case Heartbeat(id, readOk, write) =>
      if !readOk then keys else FinishHeartbeat(config, Alive(keys, id, now), keys, id, now, write)
    case MarkOffline(id, readOk, write) =>
      if !readOk || !Alive(keys, id, now) || keys[id].value.Unreadable? then keys
      else FinishMark(keys, id, keys[id].value.id, now, write)
  }

  datatype Timed = Timed(now: int, op: Op)

  /** The keys after a run of operations. */
  function After(config: RegistryConfig, keys: Registered, run: seq<Timed>): Registered {
    if run == [] then keys
    else
      var last := run[|run| - 1];
      Perform(config, After(config, keys, run[..|run| - 1]), last.now, last.op)
  }

  // ----- listing -----

  /**
   An instance is reported active: at the time its key is fetched it is alive and marked online, and the heartbeat
   stamp is young enough by the clock reading taken at the start.
   */
  predicate Reported(keys: Registered, id: string, at: int, now: int, timeout: int) {
    && Alive(keys, id, at) && keys[id].value.Info?
    && now - keys[id].value.lastHeartbeat < timeout && keys[id].value.standing == Online
  }

  /**
   One step of the scan: what others did since the step before, the keys of a page, the next cursor, and when their
   values are fetched and whether that fails.
   */
  datatype ScanReply = ScanFailed | Page(before: seq<Timed>, ids: seq<string>, next: nat, at: int, fetchFails: bool)

  datatype Walked = Complete(pages: nat) | TooLong | Broken

  /** How a scan that stands before page i ends, when at most max pages are looked at. */
  function Walk(scan: nat -> ScanReply, max: nat, i: nat): Walked
    decreases max - i
  {
    if i >= max then TooLong
    else match scan(i)
      case ScanFailed => Broken
      case Page(_, ids, next, _, fetchFails) =>
        if ids != [] && fetchFails then Broken
        else if next == 0 then Complete(i + 1)
        else Walk(scan, max, i + 1)
  }

  /** What others did before the values of page n - 1 were fetched. */
  function Meanwhile(scan: nat -> ScanReply, n: nat): seq<Timed> {
    if n == 0 then []
    else Meanwhile(scan, n - 1) + (if scan(n - 1).Page? then scan(n - 1).before else [])
  }

  /** The ids that the records of the reported keys carry. */
  function ReportedIn(keys: Registered, ids: seq<string>, at: int, now: int, timeout: int): seq<string> {
    if ids == [] then []
    else
      var last := ids[|ids| - 1];
      ReportedIn(keys, ids[..|ids| - 1], at, now, timeout)
      + (if Reported(keys, last, at, now, timeout) then [keys[last].value.id] else [])
  }

  /** The ids found on the first n pages, each page read from the keys as they are then. */
  function FoundOn(config: RegistryConfig, keys: Registered, scan: nat -> ScanReply, n: nat, now: int, timeout: int)
    : seq<string>
  {
    if n == 0 then []
    else
      FoundOn(config, keys, scan, n - 1, now, timeout) +
      if scan(n - 1).Page? then
        ReportedIn(After(config, keys, Meanwhile(scan, n)), scan(n - 1).ids, scan(n - 1).at, now, timeout)
      else []
  }

  /** A scan that grows too long yields an error together with what it found so far. */
  datatype Listing = Listed(ids: seq<string>) | Cut(ids: seq<string>) | NoListing

  function ListingOf(config: RegistryConfig, keys: Registered, scan: nat -> ScanReply, max: nat, now: int,
      timeout: int): Listing
  {
    match Walk(scan, max, 0)
    case Complete(pages) => Listed(FoundOn(config, keys, scan, pages, now, timeout))
    case TooLong => Cut(FoundOn(config, keys, scan, max, now, timeout))
    case Broken => NoListing
  }

  lemma {:induction false} AfterInTwoParts(config: RegistryConfig, keys: Registered, first: seq<Timed>,
      second: seq<Timed>)
    ensures After(config, keys, first + second) == After(config, After(config, keys, first), second)
  {
    if second == [] {
      assert first + second == first;
    } else {
      var n := |second| - 1;
      AfterInTwoParts(config, keys, first, second[..n]);
      assert (first + second)[..|first| + n] == first + second[..n];
    }
  }

  lemma PageStep(config: RegistryConfig, keys: Registered, scan: nat -> ScanReply, i: nat, now: int, timeout: int)
    requires scan(i).Page?
    ensures After(config, keys, Meanwhile(scan, i + 1)) ==
            After(config, After(config, keys, Meanwhile(scan, i)), scan(i).before)
    ensures FoundOn(config, keys, scan, i + 1, now, timeout) ==
            FoundOn(config, keys, scan, i, now, timeout) +
              ReportedIn(After(config, keys, Meanwhile(scan, i + 1)), scan(i).ids, scan(i).at, now, timeout)
  {
    AfterInTwoParts(config, keys, Meanwhile(scan, i), scan(i).before);
  }

  /** A listing that stands before page i: what it has found and what the keys have become. */
  ghost predicate StandsBefore(config: RegistryConfig, keys: Registered, scan: nat -> ScanReply, max: nat, i: nat,
      now: int, timeout: int, current: Registered, found: seq<string>)
  {
    && i <= max && Walk(scan, max, 0) == Walk(scan, max, i)
    && current == After(config, keys, Meanwhile(scan, i)) && found == FoundOn(config, keys, scan, i, now, timeout)
  }

  lemma PageIsRead(config: RegistryConfig, keys: Registered, scan: nat -> ScanReply, max: nat, i: nat, now: int,
      timeout: int, current: Registered, found: seq<string>)
    requires StandsBefore(config, keys, scan, max, i, now, timeout, current, found) && i < max && scan(i).Page?
    ensures var current', page := After(config, current, scan(i).before), scan(i);
            var found' := found + ReportedIn(current', page.ids, page.at, now, timeout);
            && current' == After(config, keys, Meanwhile(scan, i + 1))
            && (page.ids != [] && page.fetchFails ==>
                  ListingOf(config, keys, scan, max, now, timeout) == NoListing)
            && (!(page.ids != [] && page.fetchFails) && page.next == 0 ==>
                  ListingOf(config, keys, scan, max, now, timeout) == Listed(found'))
            && (!(page.ids != [] && page.fetchFails) && page.next != 0 ==>
                  StandsBefore(config, keys, scan, max, i + 1, now, timeout, current', found'))
  {
    PageStep(config, keys, scan, i, now, timeout);
  }

  lemma NoPageIsRead(config: RegistryConfig, keys: Registered, scan: nat -> ScanReply, max: nat, i: nat, now: int,
      timeout: int, current: Registered, found: seq<string>)
    requires StandsBefore(config, keys, scan, max, i, now, timeout, current, found)
    ensures i == max ==> ListingOf(config, keys, scan, max, now, timeout) == Cut(found)
    ensures i < max && scan(i).ScanFailed? ==> ListingOf(config, keys, scan, max, now, timeout) == NoListing
  {
  }

  // ----- the code's methods -----

  class RedisKeys {
    var keys: Registered
  }

  class StateStore {
    const config: RegistryConfig
    const client: RedisKeys
    const maxIterations: nat

    constructor (config: RegistryConfig, client: RedisKeys)
      ensures this.config == config && this.client == client && maxIterations == 100
    {
      this.config, this.client, maxIterations := config, client, MAX_ITERATIONS;
    }

    method RegisterInstance(id: string, now: int, write: WriteReply) returns (ok: bool)
      modifies client
      ensures client.keys == Perform(config, old(client.keys), now, Register(id, write))
      ensures ok == (write == Done)
      ensures client.keys ==
                if write == Lost then old(client.keys)
                else old(client.keys)[id := Slot(Info(id, now, Online), ExpiryOf(now, config.instanceTTL))]
    {
      var info := Info(id, now, Online);
      client.keys := SetKey(client.keys, id, Slot(info, ExpiryOf(now, config.instanceTTL)), write);
      ok := write == Done;
    }

    /** Looks for the key, and then renews or registers; the operations of others may take effect in between. */
    method UpdateHeartbeat(id: string, readAt: int, readOk: bool, between: seq<Timed>, now: int, write: WriteReply)
      returns (ok: bool)
      modifies client
      ensures !readOk ==> !ok && client.keys == old(client.keys)
      ensures readOk ==>
                && ok == (write == Done)
                && client.keys == FinishHeartbeat(config, Alive(old(client.keys), id, readAt),
                     After(config, old(client.keys), between), id, now, write)
    {
      if !readOk {
        return false;
      }
      var found := Alive(client.keys, id, readAt);
      client.keys := After(config, client.keys, between);
      if !found {
        ok := RegisterInstance(id, now, write);
        return;
      }
      if Alive(client.keys, id, now) {
        client.keys := ExpireKey(client.keys, id, now, config.instanceTTL, write);
      }
      ok := write == Done;
    }

    /** Reads the record, and then writes it back marked; the operations of others may take effect in between. */
    method MarkInstanceOffline(id: string, readAt: int, readOk: bool, between: seq<Timed>, now: int,
        write: WriteReply) returns (ok: bool)
      modifies client
      ensures !readOk ==> !ok && client.keys == old(client.keys)
      ensures readOk && !Alive(old(client.keys), id, readAt) ==> ok && client.keys == old(client.keys)
      ensures readOk && Alive(old(client.keys), id, readAt) ==>
                var value := old(client.keys)[id].value;
                if value.Unreadable? then !ok && client.keys == old(client.keys)
                else
                  && ok == (write == Done)
                  && client.keys ==
                       FinishMark(After(config, old(client.keys), between), id, value.id, now, write)
    {
      if !readOk {
        return false;
      }
      if !Alive(client.keys, id, readAt) {
        return true;
      }
      var info := client.keys[id].value;
      if info.Unreadable? {
        return false;
      }
      client.keys := After(config, client.keys, between);
      info := info.(standing := Offline, lastHeartbeat := now);
      client.keys := SetKey(client.keys, id, Slot(info, ExpiryOf(now, OFFLINE_TTL)), write);
      ok := write == Done;
    }

    /** The values of one page's keys, fetched at one instant, and filtered. */
    method ActiveOnPage(ids: seq<string>, at: int, now: int, timeout: int) returns (active: seq<string>)
      ensures active == ReportedIn(client.keys, ids, at, now, timeout)
    {
      active := [];
      for i := 0 to |ids|
        invariant active == ReportedIn(client.keys, ids[..i], at, now, timeout)
      {
        assert ids[..i + 1][..i] == ids[..i];
        if Alive(client.keys, ids[i], at) {
          var info := client.keys[ids[i]].value;
          if info.Info? && now - info.lastHeartbeat < timeout && info.standing == Online {
            active := active + [info.id];
          }
        }
      }
      assert ids[..|ids|] == ids;
    }

    /** Scans page by page, keeping the ids whose record is alive, online and young. */
    method GetActiveInstances(now: int, timeout: int, scan: nat -> ScanReply)
      returns (listing: Listing, ghost pages: nat)
      modifies client
      ensures listing == ListingOf(config, old(client.keys), scan, maxIterations, now, timeout)
      ensures pages <= maxIterations && client.keys == After(config, old(client.keys), Meanwhile(scan, pages))
    {
      ghost var keys := client.keys;
      var instances: seq<string> := [];
      var iterations := 0;
      pages := 0;
      while true
        invariant pages == iterations
        invariant StandsBefore(config, keys, scan, maxIterations, iterations, now, timeout, client.keys, instances)
        decreases maxIterations - iterations
      {
        NoPageIsRead(config, keys, scan, maxIterations, iterations, now, timeout, client.keys, instances);
        if iterations >= maxIterations {
          return Cut(instances), pages;
        }
        var page := scan(iterations);
        if page.ScanFailed? {
          return NoListing, pages;
        }
        PageIsRead(config, keys, scan, maxIterations, iterations, now, timeout, client.keys, instances);
        iterations, pages := iterations + 1, pages + 1;
        client.keys := After(config, client.keys, page.before);
        if page.ids != [] && page.fetchFails {
          return NoListing, pages;
        }
        var active := ActiveOnPage(page.ids, page.at, now, timeout);
        instances := instances + active;
        if page.next == 0 {
          return Listed(instances), pages;
        }
      }
    }
  }
}
