/** Group assignments: a hash replaced as a whole by each store, beside a time stamp that lapses. */
module Assignments {
  import opened Wrappers
  import opened LagTypes
  import opened Expiring

  /** The groups of one instance as stored: a list of names, or something that does not parse as one. */
  datatype Field = Groups(names: seq<string>) | Garbled

  /** The time of the last store in whole seconds since the Unix epoch; text that is no number counts as 0. */
  datatype Stamp = Stamp(seconds: int, expiry: Expiry)

  datatype Stored = Stored(hash: map<string, Field>, stamp: Option<Stamp>)

  const EMPTY: Stored := Stored(map[], None)

  // ----- transactions -----

  datatype Command = Delete | SetField(instance: string, field: Field) | SetStamp(seconds: int, ttl: int)

  function Execute(at: int): (Stored, Command) -> Stored {
    (s: Stored, c: Command) =>
      match c
      case Delete => s.(hash := map[])
      case SetField(instance, field) => s.(hash := s.hash[instance := field])
      case SetStamp(seconds, ttl) => s.(stamp := Some(Stamp(seconds, ExpiryOf(at, ttl))))
  }

  class AssignmentServer {
    var state: Stored

    /** Executes all commands at one instant, or none. */
    method Transact(commands: seq<Command>, at: int, reply: WriteReply)
      modifies this
      ensures state == if reply == Lost then old(state) else Fold(Execute(at), old(state), commands)
    {
      if reply != Lost {
        ghost var before := state;
        for i := 0 to |commands|
          invariant state == Fold(Execute(at), before, commands[..i])
        {
          FoldOneMore(Execute(at), before, commands[..i], commands[i]);
          assert commands[..i + 1] == commands[..i] + [commands[i]];
          state := Execute(at)(state, commands[i]);
        }
        assert commands[..|commands|] == commands;
      }
    }
  }

  // ----- storing -----

  /**
   A store that took effect: the order in which the instances were gone through, when the stamp was taken and when the
   transaction was executed.
   */
  datatype Commit = Commit(assignments: map<string, seq<string>>, order: seq<string>, stampAt: int, at: int)

  /** Each instance is gone through, and nothing else. */
  ghost predicate IsOrder(order: seq<string>, assignments: map<string, seq<string>>) {
    forall instance :: instance in order <==> instance in assignments
  }

  function FieldCommands(assignments: map<string, seq<string>>, order: seq<string>): seq<Command> {
    seq(|order|, i requires 0 <= i < |order| =>
      SetField(order[i], Groups(if order[i] in assignments then assignments[order[i]] else [])))
  }

  /** The transaction of a store. */
  function CommandsOf(timeout: int, c: Commit): seq<Command> {
    [Delete] + FieldCommands(c.assignments, c.order) + [SetStamp(c.stampAt / NANOS_PER_SECOND, timeout * 2)]
  }

  function Encoded(assignments: map<string, seq<string>>): map<string, Field> {
    map instance | instance in assignments :: Groups(assignments[instance])
  }

  /** What a store means to leave: exactly its assignments, and its stamp. */
  function Committed(timeout: int, c: Commit): Stored {
    Stored(Encoded(c.assignments), Some(Stamp(c.stampAt / NANOS_PER_SECOND, ExpiryOf(c.at, 2 * timeout))))
  }

  // ----- reading -----

  function Parsed(hash: map<string, Field>): map<string, seq<string>> {
    map instance | instance in hash && hash[instance].Groups? :: hash[instance].names
  }

  datatype Reply = Assigned(assignments: map<string, seq<string>>) | Expired | Failure

  /** A read: when the stamp is fetched and whether that works, the clock reading after it, whether the hash is read. */
  datatype ReadIO = ReadIO(getAt: int, getOk: bool, clock: int, hashOk: bool)

  /** The stamp is there and its fetch works; any failure is taken for a missing stamp. */
  predicate StampFound(s: Stored, io: ReadIO) {
    io.getOk && s.stamp.Some? && !Lapsed(s.stamp.value.expiry, io.getAt)
  }

  predicate Refused(timeout: int, s: Stored, io: ReadIO) {
    && StampFound(s, io) && s.stamp.value.seconds > 0
    && io.clock - s.stamp.value.seconds * NANOS_PER_SECOND > timeout
  }

  /** The answer when the stamp is read from one state and the hash from a later one. */
  function ReplyTo(timeout: int, atStamp: Stored, atHash: Stored, io: ReadIO): Reply {
    if Refused(timeout, atStamp, io) then Expired
    else if !io.hashOk then Failure
    else Assigned(Parsed(atHash.hash))
  }

  /** The state after the transactions of stores that took effect one after another. */
  function AfterCommits(timeout: int, s: Stored, commits: seq<Commit>): Stored {
    if commits == [] then s
    else
      var front, last := commits[..|commits| - 1], commits[|commits| - 1];
      Fold(Execute(last.at), AfterCommits(timeout, s, front), CommandsOf(timeout, last))
  }

  ghost predicate AllOrdered(commits: seq<Commit>) {
    forall i :: 0 <= i < |commits| ==> IsOrder(commits[i].order, commits[i].assignments)
  }

  // ----- a transaction replaces everything -----

  function FieldsOf(assignments: map<string, seq<string>>, order: seq<string>): map<string, Field> {
    map instance | instance in order && instance in assignments :: Groups(assignments[instance])
  }

  lemma OneMoreField(assignments: map<string, seq<string>>, order: seq<string>, instance: string)
    requires instance in assignments
    ensures FieldsOf(assignments, order + [instance]) ==
            FieldsOf(assignments, order)[instance := Groups(assignments[instance])]
  {
  }

  lemma {:induction false} FieldsAreSet(at: int, s: Stored, assignments: map<string, seq<string>>, order: seq<string>,
      i: nat)
    requires i <= |order| && forall k :: 0 <= k < |order| ==> order[k] in assignments
    ensures Fold(Execute(at), s.(hash := map[]), FieldCommands(assignments, order)[..i]) ==
            s.(hash := FieldsOf(assignments, order[..i]))
  {
    var commands := FieldCommands(assignments, order);
    if i > 0 {
      FieldsAreSet(at, s, assignments, order, i - 1);
      FoldOneMore(Execute(at), s.(hash := map[]), commands[..i - 1], commands[i - 1]);
      OneMoreField(assignments, order[..i - 1], order[i - 1]);
      assert commands[..i] == commands[..i - 1] + [commands[i - 1]];
      assert order[..i] == order[..i - 1] + [order[i - 1]];
    }
  }

  /** Whatever it finds and in whatever order it goes, a store leaves exactly its own map and stamp. */
  lemma TransactionReplaces(timeout: int, s: Stored, c: Commit)
    requires IsOrder(c.order, c.assignments)
    ensures Fold(Execute(c.at), s, CommandsOf(timeout, c)) == Committed(timeout, c)
  {
    var f, fields := Execute(c.at), FieldCommands(c.assignments, c.order);
    var stamp := SetStamp(c.stampAt / NANOS_PER_SECOND, timeout * 2);
    FoldOneMore(f, s, [], Delete);
    assert [] + [Delete] == [Delete];
    FoldInTwoParts(f, s, [Delete], fields);
    FoldOneMore(f, s, [Delete] + fields, stamp);
    FieldsAreSet(c.at, s, c.assignments, c.order, |c.order|);
    assert fields[..|c.order|] == fields && c.order[..|c.order|] == c.order;
    assert FieldsOf(c.assignments, c.order) == Encoded(c.assignments);
  }

  // ----- the code's methods -----

  class AssignmentStore {
    const timeout: int
    const client: AssignmentServer

    constructor (timeout: int, client: AssignmentServer)
      ensures this.timeout == timeout && this.client == client
    {
      this.timeout, this.client := timeout, client;
    }

    /** Queues the commands of a store and executes them as one transaction. */
    method StoreAssignments(assignments: map<string, seq<string>>, order: seq<string>, stampAt: int, at: int,
        reply: WriteReply) returns (ok: bool)
      requires IsOrder(order, assignments)
      modifies client
      ensures var c := Commit(assignments, order, stampAt, at);
              client.state == if reply == Lost then old(client.state)
                              else Fold(Execute(at), old(client.state), CommandsOf(timeout, c))
      ensures client.state == if reply == Lost then old(client.state)
                              else Committed(timeout, Commit(assignments, order, stampAt, at))
      ensures ok == (reply == Done)
    {
      var commands := [Delete];
      for i := 0 to |order|
        invariant commands == [Delete] + FieldCommands(assignments, order)[..i]
      {
        assert order[i] in assignments;
        commands := commands + [SetField(order[i], Groups(assignments[order[i]]))];
      }
      commands := commands + [SetStamp(stampAt / NANOS_PER_SECOND, timeout * 2)];
      ghost var c := Commit(assignments, order, stampAt, at);
      assert commands == CommandsOf(timeout, c);
      TransactionReplaces(timeout, client.state, c);
      client.Transact(commands, at, reply);
      ok := reply == Done;
    }

    /** Stores of other writers take effect. */
    method OthersStore(commits: seq<Commit>)
      requires AllOrdered(commits)
      modifies client
      ensures client.state == AfterCommits(timeout, old(client.state), commits)
    {
      for i := 0 to |commits|
        invariant client.state == AfterCommits(timeout, old(client.state), commits[..i])
      {
        var c := commits[i];
        var ok := StoreAssignments(c.assignments, c.order, c.stampAt, c.at, Done);
        assert commits[..i + 1][..i] == commits[..i];
      }
      assert commits[..|commits|] == commits;
    }

    /** Reads the stamp and then the hash; the stores of others may take effect in between. */
    method GetAssignments(io: ReadIO, between: seq<Commit>) returns (reply: Reply)
      requires AllOrdered(between)
      modifies client
      ensures client.state == if Refused(timeout, old(client.state), io) then old(client.state)
                              else AfterCommits(timeout, old(client.state), between)
      ensures reply == ReplyTo(timeout, old(client.state), client.state, io)
    {
      if io.getOk && client.state.stamp.Some? && !Lapsed(client.state.stamp.value.expiry, io.getAt) {
        var seconds := client.state.stamp.value.seconds;
        if seconds > 0 && io.clock - seconds * NANOS_PER_SECOND > timeout {
          return Expired;
        }
      }
      OthersStore(between);
      if !io.hashOk {
        return Failure;
      }
      var data := client.state.hash;
      var assignments: map<string, seq<string>> := map[];
      var remaining := data.Keys;
      while remaining != {}
        invariant remaining <= data.Keys
        invariant assignments ==
                  map instance | instance in data.Keys - remaining && data[instance].Groups? :: data[instance].names
      {
        var instance :| instance in remaining;
        match data[instance] {
          case Groups(names) => assignments := assignments[instance := names];
          case Garbled =>
        }
        remaining := remaining - {instance};
      }
      reply := Assigned(assignments);
    }
  }

  // ----- every answer, exactly -----

  /**
   A live stamp later than the epoch by a second or more is stale when it is older than the timeout.
   A stale stamp is refused before the hash is read; otherwise a hash that cannot be read is a failure; otherwise the
   answer holds exactly the instances whose field parses, with their groups.
   */
  lemma ReplyExactly(timeout: int, atStamp: Stored, atHash: Stored, io: ReadIO)
    ensures var reply := ReplyTo(timeout, atStamp, atHash, io);
            var stale :=
              && io.getOk && atStamp.stamp.Some? && !Lapsed(atStamp.stamp.value.expiry, io.getAt)
              && atStamp.stamp.value.seconds > 0
              && io.clock - atStamp.stamp.value.seconds * NANOS_PER_SECOND > timeout;
            && (reply.Expired? <==> stale)
            && (reply.Failure? <==> !stale && !io.hashOk)
            && (reply.Assigned? <==> !stale && io.hashOk)
            && (reply.Assigned? ==>
                  forall instance ::
                    && (instance in reply.assignments <==>
                          instance in atHash.hash && atHash.hash[instance].Groups?)
                    && (instance in reply.assignments ==>
                          atHash.hash[instance] == Groups(reply.assignments[instance])))
  {
  }

  // ----- whole runs -----

  lemma ParsedEncoded(assignments: map<string, seq<string>>)
    ensures Parsed(Encoded(assignments)) == assignments
  {
  }

  /** The state after the first n stores of a run. */
  function StateAt(timeout: int, commits: seq<Commit>, n: nat): Stored
    requires n <= |commits|
  {
    AfterCommits(timeout, EMPTY, commits[..n])
  }

  /** Nothing of the stores before the last shows. */
  lemma LastStoreShows(timeout: int, commits: seq<Commit>, n: nat)
    requires n <= |commits| && AllOrdered(commits)
    ensures StateAt(timeout, commits, n) == if n == 0 then EMPTY else Committed(timeout, commits[n - 1])
  {
    if n > 0 {
      assert commits[..n][..n - 1] == commits[..n - 1];
      TransactionReplaces(timeout, StateAt(timeout, commits, n - 1), commits[n - 1]);
    }
  }

  /**
   A read whose stamp comes from after m stores and whose hash comes from after n never mixes two of them: it fails,
   or it yields exactly what the n-th stored (nothing before the first).
   */
  lemma ReadsNeverMix(timeout: int, commits: seq<Commit>, m: nat, n: nat, io: ReadIO)
    requires m <= n <= |commits| && AllOrdered(commits)
    ensures var reply := ReplyTo(timeout, StateAt(timeout, commits, m), StateAt(timeout, commits, n), io);
            || reply.Expired? || reply.Failure?
            || reply == Assigned(if n == 0 then map[] else commits[n - 1].assignments)
  {
    LastStoreShows(timeout, commits, n);
    if n > 0 {
      ParsedEncoded(commits[n - 1].assignments);
    }
  }

  /** The stamp that a reader sees of a store, in nanoseconds: its whole seconds. */
  function InWholeSeconds(t: int): int {
    t / NANOS_PER_SECOND * NANOS_PER_SECOND
  }

  /**
   A read that no store interrupts, after any number of stores: the last map is readable until the timeout, refused
   until its stamp lapses at twice the timeout, and readable without a check from then on, at any age.
   */
  lemma QuietRead(timeout: int, commits: seq<Commit>, io: ReadIO)
    requires timeout > 0 && commits != [] && AllOrdered(commits) && io.hashOk
    requires commits[|commits| - 1].stampAt >= NANOS_PER_SECOND
    ensures var s := StateAt(timeout, commits, |commits|);
            var last := commits[|commits| - 1];
            ReplyTo(timeout, s, s, io) ==
              if io.getOk && InWholeSeconds(last.stampAt) + timeout < io.clock && io.getAt < last.at + 2 * timeout
              then Expired else Assigned(last.assignments)
  {
    LastStoreShows(timeout, commits, |commits|);
    ParsedEncoded(commits[|commits| - 1].assignments);
  }

  /** When a read that found the stamp is accepted, the store whose stamp it found is no older than the timeout. */
  lemma AcceptedAge(timeout: int, commits: seq<Commit>, m: nat, io: ReadIO)
    requires m <= |commits| && AllOrdered(commits)
    requires StampFound(StateAt(timeout, commits, m), io) && !Refused(timeout, StateAt(timeout, commits, m), io)
    requires forall i :: 0 <= i < |commits| ==> commits[i].stampAt >= NANOS_PER_SECOND
    ensures 1 <= m && io.clock - commits[m - 1].stampAt <= timeout
  {
    LastStoreShows(timeout, commits, m);
  }

  /** So when stamps follow the order of the transactions, an accepted map is never older than the timeout. */
  lemma AcceptedIsFresh(timeout: int, commits: seq<Commit>, m: nat, n: nat, io: ReadIO)
    requires m <= n <= |commits| && AllOrdered(commits) && StampFound(StateAt(timeout, commits, m), io)
    requires forall i :: 0 <= i < |commits| ==> commits[i].stampAt >= NANOS_PER_SECOND
    requires forall i, j :: 0 <= i < j < |commits| ==> commits[i].stampAt <= commits[j].stampAt
    ensures var reply := ReplyTo(timeout, StateAt(timeout, commits, m), StateAt(timeout, commits, n), io);
            || reply.Expired? || reply.Failure?
            || (1 <= n && reply == Assigned(commits[n - 1].assignments) && io.clock - commits[n - 1].stampAt <= timeout)
  {
    ReadsNeverMix(timeout, commits, m, n, io);
    if ReplyTo(timeout, StateAt(timeout, commits, m), StateAt(timeout, commits, n), io).Assigned? {
      AcceptedAge(timeout, commits, m, io);
    }
  }

  /** The read sees the state after m stores: it fetches the stamp no earlier than the last of them was executed. */
  ghost predicate Plausible(commits: seq<Commit>, m: nat, io: ReadIO)
    requires m <= |commits|
  {
    io.getAt <= io.clock && (m > 0 ==> commits[m - 1].at <= io.getAt)
  }

  /** Every accepted read that found a stamp returns a map no older than the timeout. */
  ghost predicate AlwaysFresh(timeout: int, commits: seq<Commit>) {
    forall m, n, io | 1 <= m <= n <= |commits| ::
      && Plausible(commits, m, io) && StampFound(StateAt(timeout, commits, m), io)
      && ReplyTo(timeout, StateAt(timeout, commits, m), StateAt(timeout, commits, n), io).Assigned?
      ==> io.clock - commits[n - 1].stampAt <= timeout
  }

  /** The later store's stamp is behind the earlier one's, which is still within its timeout when it is executed. */
  predicate Overtaken(timeout: int, earlier: Commit, later: Commit) {
    later.stampAt < InWholeSeconds(earlier.stampAt) && earlier.at <= InWholeSeconds(earlier.stampAt) + timeout
  }

  lemma OvertakenIsStale(timeout: int, commits: seq<Commit>, i: nat, j: nat)
    requires timeout > 0 && AllOrdered(commits) && i < j < |commits| && Overtaken(timeout, commits[i], commits[j])
    requires commits[i].stampAt >= NANOS_PER_SECOND && commits[i].stampAt <= commits[i].at
    ensures !AlwaysFresh(timeout, commits)
  {
    var m, n := i + 1, j + 1;
    LastStoreShows(timeout, commits, m);
    LastStoreShows(timeout, commits, n);
    var io := ReadIO(commits[i].at, true, InWholeSeconds(commits[i].stampAt) + timeout, true);
    assert Plausible(commits, m, io) && StampFound(StateAt(timeout, commits, m), io);
    assert ReplyTo(timeout, StateAt(timeout, commits, m), StateAt(timeout, commits, n), io).Assigned?;
    assert io.clock - commits[n - 1].stampAt > timeout;
  }

  /**
   Accepted reads are always fresh exactly when no store's stamp falls behind that of an earlier store which could
   still be accepted once it is executed.
   */
  lemma FreshIffNeverOvertaken(timeout: int, commits: seq<Commit>)
    requires timeout > 0 && AllOrdered(commits)
    requires forall i :: 0 <= i < |commits| ==> NANOS_PER_SECOND <= commits[i].stampAt <= commits[i].at
    ensures AlwaysFresh(timeout, commits) <==>
            forall i, j :: 0 <= i < j < |commits| ==> !Overtaken(timeout, commits[i], commits[j])
  {
    if i, j :| 0 <= i < j < |commits| && Overtaken(timeout, commits[i], commits[j]) {
      OvertakenIsStale(timeout, commits, i, j);
    } else {
      forall m, n, io | 1 <= m <= n <= |commits| && Plausible(commits, m, io)
        && StampFound(StateAt(timeout, commits, m), io)
        && ReplyTo(timeout, StateAt(timeout, commits, m), StateAt(timeout, commits, n), io).Assigned?
        ensures io.clock - commits[n - 1].stampAt <= timeout
      {
        LastStoreShows(timeout, commits, m);
        assert m < n ==> !Overtaken(timeout, commits[m - 1], commits[n - 1]);
      }
    }
  }
}
