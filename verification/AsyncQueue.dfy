/** What the asynchronous ring means when its operations are atomic: a FIFO queue of
    entries, each settled by a flush as delivered or discarded. */
module AsyncQueue {
  import opened Bytes
  import opened Protocol = AsyncProtocol

  datatype Settled = Settled(entry: Text, delivered: bool)

  datatype Queue = Queue(settled: seq<Settled>, pending: seq<Text>, capacity: nat, drops: nat, utilization: int)

  datatype Options = Options(mode: Mode, threshold: nat)

  /** What can happen while a blocked writer sleeps: a flush whose sink takes `accepts`
      entries before it first fails, or the last look of another writer, which gets its
      entry in or is refused. A growth cannot: the sleeper holds the read lock. */
  datatype Event = Flushed(accepts: nat) | Looked(entry: Text)

  type Wake = seq<Event>

  /** `wakes` are the sleeps a writer in block mode gets before it gives up. */
  datatype Op = Write(entry: Text, wakes: seq<Wake>) | Flush(accepts: nat) | Grow

  function Empty(capacity: nat): Queue
  {
    Queue([], [], capacity, 0, 0)
  }

  // ---- operations -----------------------------------------------------------

  function Least(a: nat, b: nat): nat
  {
    if a < b then a else b
  }

  function Batch(q: Queue): nat
  {
    Least(|q.pending|, BATCH)
  }

  /** How many entries of its batch a flush delivers. */
  function Taken(q: Queue, accepts: nat): nat
  {
    Least(accepts, Batch(q))
  }

  function Settle(entries: seq<Text>, delivered: bool): seq<Settled>
  {
    seq(|entries|, i requires 0 <= i < |entries| => Settled(entries[i], delivered))
  }

  function Flushing(q: Queue, accepts: nat): Queue
  {
    var n, k := Batch(q), Taken(q, accepts);
    q.(settled := q.settled + Settle(q.pending[..k], true) + Settle(q.pending[k..n], false), pending := q.pending[n..])
  }

  predicate HasRoom(q: Queue)
  {
    |q.pending| < q.capacity
  }

  function Push(q: Queue, entry: Text): Queue
    requires HasRoom(q)
  {
    q.(pending := q.pending + [entry], utilization := (|q.pending| + 1) * 100 / q.capacity)
  }

  function Dropping(q: Queue): Queue
  {
    q.(drops := q.drops + 1)
  }

  /** The last look of a writer: its entry gets in if there is room. */
  function Looking(q: Queue, entry: Text): Queue
  {
    if HasRoom(q) then Push(q, entry) else Dropping(q)
  }

  function Happening(q: Queue, e: Event): Queue
  {
    match e
    case Flushed(accepts) => Flushing(q, accepts)
    case Looked(entry) => Looking(q, entry)
  }

  function Happenings(q: Queue, events: seq<Event>): Queue
    decreases |events|
  {
    if events == [] then q else Happenings(Happening(q, events[0]), events[1..])
  }

  /** The retry loop: the queue afterwards and whether the entry got in. */
  function Retrying(o: Options, q: Queue, entry: Text, wakes: seq<Wake>): (Queue, bool)
    decreases |wakes|
  {
    if HasRoom(q) || o.mode == DropMode || wakes == [] then (Looking(q, entry), HasRoom(q))
    else Retrying(o, Happenings(q, wakes[0]), entry, wakes[1..])
  }

  function Growing(o: Options, q: Queue): Queue
  {
    if q.utilization <= o.threshold || 2 * q.capacity > MAX_SIZE then q else q.(capacity := 2 * q.capacity)
  }

  function Apply(o: Options, q: Queue, op: Op): Queue
  {
    match op
    case Write(entry, wakes) => Retrying(o, q, entry, wakes).0
    case Flush(accepts) => Flushing(q, accepts)
    case Grow => Growing(o, q)
  }

  function Run(o: Options, q: Queue, ops: seq<Op>): Queue
    decreases |ops|
  {
    if ops == [] then q else Run(o, Apply(o, q, ops[0]), ops[1..])
  }

  /** Everything that happens in the course of a write, its own last look included. */
  function Course(o: Options, q: Queue, entry: Text, wakes: seq<Wake>): seq<Event>
    decreases |wakes|
  {
    if HasRoom(q) || o.mode == DropMode || wakes == [] then [Looked(entry)]
    else wakes[0] + Course(o, Happenings(q, wakes[0]), entry, wakes[1..])
  }

  /** The entries that get in, in order. */
  function Entered(q: Queue, events: seq<Event>): seq<Text>
    decreases |events|
  {
    if events == [] then []
    else
      (if events[0].Looked? && HasRoom(q) then [events[0].entry] else [])
      + Entered(Happening(q, events[0]), events[1..])
  }

  function Looks(events: seq<Event>): nat
  {
    if events == [] then 0 else (if events[0].Looked? then 1 else 0) + Looks(events[1..])
  }

  function Events(o: Options, q: Queue, op: Op): seq<Event>
  {
    match op
    case Write(entry, wakes) => Course(o, q, entry, wakes)
    case Flush(accepts) => [Flushed(accepts)]
    case Grow => []
  }

  /** The entries the writers of a run got accepted, in order. */
  function Accepted(o: Options, q: Queue, ops: seq<Op>): seq<Text>
    decreases |ops|
  {
    if ops == [] then []
    else Entered(q, Events(o, q, ops[0])) + Accepted(o, Apply(o, q, ops[0]), ops[1..])
  }

  /** How many writers had their last look. */
  function Attempts(o: Options, q: Queue, ops: seq<Op>): nat
    decreases |ops|
  {
    if ops == [] then 0 else Looks(Events(o, q, ops[0])) + Attempts(o, Apply(o, q, ops[0]), ops[1..])
  }

  lemma {:induction false} HappeningsAppend(q: Queue, a: seq<Event>, b: seq<Event>)
    ensures Happenings(q, a + b) == Happenings(Happenings(q, a), b)
    decreases |a|
  {
    if a == [] {
      assert a + b == b;
    } else {
      assert (a + b)[0] == a[0] && (a + b)[1..] == a[1..] + b;
      HappeningsAppend(Happening(q, a[0]), a[1..], b);
    }
  }

  /** The retry loop amounts to the events of its course. */
  lemma {:induction false} RetryIsCourse(o: Options, q: Queue, entry: Text, wakes: seq<Wake>)
    ensures Retrying(o, q, entry, wakes).0 == Happenings(q, Course(o, q, entry, wakes))
    decreases |wakes|
  {
    if HasRoom(q) || o.mode == DropMode || wakes == [] {
      assert [Looked(entry)][1..] == [];
    } else {
      var q1 := Happenings(q, wakes[0]);
      RetryIsCourse(o, q1, entry, wakes[1..]);
      HappeningsAppend(q, wakes[0], Course(o, q1, entry, wakes[1..]));
    }
  }

  // ---- what was settled -----------------------------------------------------

  function Entries(settled: seq<Settled>): seq<Text>
  {
    seq(|settled|, i requires 0 <= i < |settled| => settled[i].entry)
  }

  /** The entries with the given fate, in order. */
  function Fated(settled: seq<Settled>, delivered: bool): seq<Text>
  {
    if settled == [] then []
    else (if settled[0].delivered == delivered then [settled[0].entry] else []) + Fated(settled[1..], delivered)
  }

  function Delivered(q: Queue): seq<Text>
  {
    Fated(q.settled, true)
  }

  function Discarded(q: Queue): seq<Text>
  {
    Fated(q.settled, false)
  }

  lemma {:induction false} FatedAppend(a: seq<Settled>, b: seq<Settled>, delivered: bool)
    ensures Fated(a + b, delivered) == Fated(a, delivered) + Fated(b, delivered)
  {
    if a == [] {
      assert a + b == b;
    } else {
      assert (a + b)[0] == a[0] && (a + b)[1..] == a[1..] + b;
      FatedAppend(a[1..], b, delivered);
    }
  }

  lemma {:induction false} FatedSettle(entries: seq<Text>, fate: bool, asked: bool)
    ensures Fated(Settle(entries, fate), asked) == if fate == asked then entries else []
    decreases |entries|
  {
    if entries != [] {
      assert Settle(entries, fate)[1..] == Settle(entries[1..], fate);
      FatedSettle(entries[1..], fate, asked);
    }
  }

  /** A flush hands the sink a prefix of its batch of at most 100 entries and
      discards the rest of that batch. */
  lemma FlushDeliversPrefix(q: Queue, accepts: nat)
    ensures var n, k, q' := Batch(q), Taken(q, accepts), Flushing(q, accepts);
            && Delivered(q') == Delivered(q) + q.pending[..k]
            && Discarded(q') == Discarded(q) + q.pending[k..n]
            && q'.pending == q.pending[n..]
  {
    var n, k := Batch(q), Taken(q, accepts);
    var yes, no := Settle(q.pending[..k], true), Settle(q.pending[k..n], false);
    forall asked: bool
      ensures Fated(q.settled + yes + no, asked)
              == Fated(q.settled, asked) + (if asked then q.pending[..k] else q.pending[k..n])
    {
      FatedAppend(q.settled + yes, no, asked);
      FatedAppend(q.settled, yes, asked);
      FatedSettle(q.pending[..k], true, asked);
      FatedSettle(q.pending[k..n], false, asked);
    }
  }

  // ---- conservation ---------------------------------------------------------

  /** Everything the queue ever took in, in the order it took it in. */
  function History(q: Queue): seq<Text>
  {
    Entries(q.settled) + q.pending
  }

  lemma FlushKeepsHistory(q: Queue, accepts: nat)
    ensures History(Flushing(q, accepts)) == History(q)
  {
    var n, k := Batch(q), Taken(q, accepts);
    var q' := Flushing(q, accepts);
    assert Entries(q'.settled) == Entries(q.settled) + q.pending[..k] + q.pending[k..n];
    assert q.pending == q.pending[..k] + q.pending[k..n] + q.pending[n..];
  }

  lemma {:induction false} EventsHistory(q: Queue, events: seq<Event>)
    ensures var q' := Happenings(q, events);
            && History(q') == History(q) + Entered(q, events)
            && |Entered(q, events)| + q'.drops == q.drops + Looks(events)
    decreases |events|
  {
    if events == [] {
      assert History(q) + [] == History(q);
    } else {
      var q1 := Happening(q, events[0]);
      EventsHistory(q1, events[1..]);
      EventHistory(q, events[0]);
    }
  }

  lemma EventHistory(q: Queue, e: Event)
    ensures History(Happening(q, e)) == History(q) + (if e.Looked? && HasRoom(q) then [e.entry] else [])
    ensures Happening(q, e).drops == q.drops + (if e.Looked? && !HasRoom(q) then 1 else 0)
  {
    match e
    case Flushed(accepts) => FlushKeepsHistory(q, accepts);
    case Looked(entry) => assert History(q) + [] == History(q);
  }

  lemma ApplyHistory(o: Options, q: Queue, op: Op)
    ensures var q', events := Apply(o, q, op), Events(o, q, op);
            && History(q') == History(q) + Entered(q, events)
            && |Entered(q, events)| + q'.drops == q.drops + Looks(events)
  {
    EventsHistory(q, Events(o, q, op));
    match op
    case Write(entry, wakes) => RetryIsCourse(o, q, entry, wakes);
    case Flush(accepts) => assert [Flushed(accepts)][1..] == [];
    case Grow =>
  }

  lemma Regroup(a: seq<Text>, b: seq<Text>, c: seq<Text>)
    ensures a + (b + c) == (a + b) + c
  {
  }

  /** Over any run, with the sink failing wherever it likes: the accepted entries are
      the settled ones followed by the pending ones, in write order, and every attempt,
      those of the writers that come by while another sleeps among them, is either an
      accepted entry or a counted drop. */
  lemma {:induction false} RunConserves(o: Options, q: Queue, ops: seq<Op>)
    ensures var q' := Run(o, q, ops);
            && History(q') == History(q) + Accepted(o, q, ops)
            && |Accepted(o, q, ops)| + q'.drops == q.drops + Attempts(o, q, ops)
    decreases |ops|
  {
    if ops == [] {
      assert History(q) + [] == History(q);
    } else {
      var q1 := Apply(o, q, ops[0]);
      ApplyHistory(o, q, ops[0]);
      RunConserves(o, q1, ops[1..]);
      Regroup(History(q), Entered(q, Events(o, q, ops[0])), Accepted(o, q1, ops[1..]));
    }
  }

  /** `a` arises from `b` by leaving elements out. */
  predicate Subsequence(a: seq<Text>, b: seq<Text>)
    decreases |b|
  {
    a == [] || (b != [] && (Subsequence(a, b[1..]) || (a[0] == b[0] && Subsequence(a[1..], b[1..]))))
  }

  lemma {:induction false} FatedIsSubsequence(settled: seq<Settled>, rest: seq<Text>, delivered: bool)
    ensures Subsequence(Fated(settled, delivered), Entries(settled) + rest)
    decreases |settled|
  {
    if settled != [] {
      FatedIsSubsequence(settled[1..], rest, delivered);
      assert (Entries(settled) + rest)[0] == settled[0].entry;
      assert settled[0].delivered == delivered ==> Fated(settled, delivered)[1..] == Fated(settled[1..], delivered);
      assert settled[0].delivered != delivered ==> Fated(settled, delivered) == Fated(settled[1..], delivered);
      assert (Entries(settled) + rest)[1..] == Entries(settled[1..]) + rest;
    }
  }

  lemma {:induction false} FatesPartition(settled: seq<Settled>)
    ensures multiset(Entries(settled)) == multiset(Fated(settled, true)) + multiset(Fated(settled, false))
  {
    if settled != [] {
      assert Entries(settled) == [settled[0].entry] + Entries(settled[1..]);
      FatesPartition(settled[1..]);
    }
  }

  /** Conservation from a fresh ring: delivered, discarded and pending entries make
      up the accepted ones, and deliveries keep the write order. */
  lemma Conservation(o: Options, capacity: nat, ops: seq<Op>)
    ensures var q, accepted := Run(o, Empty(capacity), ops), Accepted(o, Empty(capacity), ops);
            && multiset(accepted) == multiset(Delivered(q)) + multiset(Discarded(q)) + multiset(q.pending)
            && Subsequence(Delivered(q), accepted)
            && |accepted| + q.drops == Attempts(o, Empty(capacity), ops)
  {
    var q, accepted := Run(o, Empty(capacity), ops), Accepted(o, Empty(capacity), ops);
    RunConserves(o, Empty(capacity), ops);
    assert accepted == History(q) by {
      assert History(Empty(capacity)) + accepted == accepted;
    }
    HistoryParts(q);
  }

  lemma HistoryParts(q: Queue)
    ensures multiset(History(q)) == multiset(Delivered(q)) + multiset(Discarded(q)) + multiset(q.pending)
    ensures Subsequence(Delivered(q), History(q))
  {
    FatedIsSubsequence(q.settled, q.pending, true);
    FatesPartition(q.settled);
  }

  // ---- FIFO under a sink that does not fail ---------------------------------

  predicate EventSinkOk(e: Event)
  {
    e.Flushed? ==> e.accepts >= BATCH
  }

  predicate WakeSinkOk(w: Wake)
  {
    forall e | e in w :: EventSinkOk(e)
  }

  /** No flush of this operation meets a failing sink. */
  predicate SinkOk(op: Op)
  {
    match op
    case Write(_, wakes) => forall w | w in wakes :: WakeSinkOk(w)
    case Flush(accepts) => accepts >= BATCH
    case Grow => true
  }

  function Stream(q: Queue): seq<Text>
  {
    Delivered(q) + q.pending
  }

  lemma FlushKeepsStream(q: Queue, accepts: nat)
    requires accepts >= BATCH
    ensures Stream(Flushing(q, accepts)) == Stream(q)
  {
    FlushDeliversPrefix(q, accepts);
    assert q.pending == q.pending[..Batch(q)] + q.pending[Batch(q)..];
  }

  lemma {:induction false} EventsStream(q: Queue, events: seq<Event>)
    requires WakeSinkOk(events)
    ensures Stream(Happenings(q, events)) == Stream(q) + Entered(q, events)
    decreases |events|
  {
    if events == [] {
      assert Stream(q) + [] == Stream(q);
    } else {
      assert EventSinkOk(events[0]);
      EventStream(q, events[0]);
      EventsStream(Happening(q, events[0]), events[1..]);
    }
  }

  lemma EventStream(q: Queue, e: Event)
    requires EventSinkOk(e)
    ensures Stream(Happening(q, e)) == Stream(q) + (if e.Looked? && HasRoom(q) then [e.entry] else [])
  {
    match e
    case Flushed(accepts) => FlushKeepsStream(q, accepts);
    case Looked(entry) => assert Stream(q) + [] == Stream(q);
  }

  lemma {:induction false} CourseSinkOk(o: Options, q: Queue, entry: Text, wakes: seq<Wake>)
    requires forall w | w in wakes :: WakeSinkOk(w)
    ensures WakeSinkOk(Course(o, q, entry, wakes))
    decreases |wakes|
  {
    if !(HasRoom(q) || o.mode == DropMode || wakes == []) {
      assert WakeSinkOk(wakes[0]);
      CourseSinkOk(o, Happenings(q, wakes[0]), entry, wakes[1..]);
    }
  }

  lemma ApplyStream(o: Options, q: Queue, op: Op)
    requires SinkOk(op)
    ensures Stream(Apply(o, q, op)) == Stream(q) + Entered(q, Events(o, q, op))
  {
    match op
    case Write(entry, wakes) =>
      RetryIsCourse(o, q, entry, wakes);
      CourseSinkOk(o, q, entry, wakes);
      EventsStream(q, Course(o, q, entry, wakes));
    case Flush(accepts) =>
      assert [Flushed(accepts)][1..] == [];
      EventsStream(q, [Flushed(accepts)]);
    case Grow =>
  }

  /** With a sink that does not fail, what was delivered followed by what is pending
      is exactly what was accepted, in write order; growing changes nothing. */
  lemma {:induction false} RunIsFifo(o: Options, q: Queue, ops: seq<Op>)
    requires forall op | op in ops :: SinkOk(op)
    ensures Stream(Run(o, q, ops)) == Stream(q) + Accepted(o, q, ops)
    decreases |ops|
  {
    if ops == [] {
      assert Stream(q) + [] == Stream(q);
    } else {
      var q1 := Apply(o, q, ops[0]);
      assert SinkOk(ops[0]);
      ApplyStream(o, q, ops[0]);
      RunIsFifo(o, q1, ops[1..]);
      Regroup(Stream(q), Entered(q, Events(o, q, ops[0])), Accepted(o, q1, ops[1..]));
    }
  }

  // ---- blocking writers -----------------------------------------------------

  /** The queue a blocked writer sees after its first k sleeps. */
  function Seen(q: Queue, wakes: seq<Wake>, k: nat): Queue
    requires k <= |wakes|
    decreases k
  {
    if k == 0 then q else Seen(Happenings(q, wakes[0]), wakes[1..], k - 1)
  }

  /** Look k of a writer, of which one in drop mode has only the first, finds room. */
  predicate FindsRoom(o: Options, q: Queue, wakes: seq<Wake>, k: nat)
  {
    k <= |wakes| && (k == 0 || o.mode == BlockMode) && HasRoom(Seen(q, wakes, k))
  }

  /** A writer gets its entry in exactly when at one of its looks the ring has room. */
  lemma {:induction false} BlockedWriterOutcome(o: Options, q: Queue, entry: Text, wakes: seq<Wake>)
    ensures Retrying(o, q, entry, wakes).1
            <==> exists k: nat :: FindsRoom(o, q, wakes, k)
    decreases |wakes|
  {
    if HasRoom(q) {
      assert FindsRoom(o, q, wakes, 0);
    } else if o.mode == BlockMode && wakes != [] {
      var q1 := Happenings(q, wakes[0]);
      BlockedWriterOutcome(o, q1, entry, wakes[1..]);
      if k: nat :| FindsRoom(o, q, wakes, k) {
        assert FindsRoom(o, q1, wakes[1..], k - 1);
      }
      if k: nat :| FindsRoom(o, q1, wakes[1..], k) {
        assert FindsRoom(o, q, wakes, k + 1);
      }
    }
  }

  predicate OnlyFlushes(w: Wake)
  {
    forall e | e in w :: e.Flushed?
  }

  lemma {:induction false} FlushesMakeRoom(q: Queue, w: Wake)
    requires OnlyFlushes(w) && 0 < q.capacity && |q.pending| <= q.capacity
    ensures HasRoom(q) || w != [] ==> HasRoom(Happenings(q, w))
    ensures |Happenings(q, w).pending| <= q.capacity == Happenings(q, w).capacity
    decreases |w|
  {
    if w != [] {
      assert w[0].Flushed?;
      FlushesMakeRoom(Happening(q, w[0]), w[1..]);
    }
  }

  /** With no other writers about: exactly when there is room already or, in block mode,
      a flush happens before it gives up, whether its sink fails or not. */
  lemma {:induction false} LoneWriterOutcome(o: Options, q: Queue, entry: Text, wakes: seq<Wake>)
    requires 0 < q.capacity && |q.pending| <= q.capacity && forall w | w in wakes :: OnlyFlushes(w)
    ensures Retrying(o, q, entry, wakes).1
            <==> HasRoom(q) || (o.mode == BlockMode && exists w | w in wakes :: w != [])
    decreases |wakes|
  {
    if !HasRoom(q) && o.mode == BlockMode && wakes != [] {
      var q1 := Happenings(q, wakes[0]);
      assert OnlyFlushes(wakes[0]);
      FlushesMakeRoom(q, wakes[0]);
      LoneWriterOutcome(o, q1, entry, wakes[1..]);
      assert forall w :: w in wakes <==> w == wakes[0] || w in wakes[1..];
      if wakes[0] != [] {
        assert wakes[0] in wakes;
      } else {
        assert q1 == q;
        assert Retrying(o, q, entry, wakes).1 == Retrying(o, q, entry, wakes[1..]).1;
      }
    }
  }

  /** With others about a flush is not enough: the room of a one-slot ring goes to the
      writer that looks first. */
  lemma CrowdedOut(threshold: nat, x: Text, y: Text, z: Text)
    ensures var q := Queue([], [x], 1, 0, 100);
            var (q', ok) := Retrying(Options(BlockMode, threshold), q, z, [[Flushed(BATCH), Looked(y)]]);
            !ok && q'.pending == [y] && Delivered(q') == [x] && q'.drops == 1
  {
    var q := Queue([], [x], 1, 0, 100);
    var w: Wake := [Flushed(BATCH), Looked(y)];
    var wakes: seq<Wake> := [w];
    var q1 := Flushing(q, BATCH);
    FlushDeliversPrefix(q, BATCH);
    assert q1.pending == [] && Delivered(q1) == [x];
    assert w[1..] == [Looked(y)] && [Looked(y)][1..] == [];
    assert Happenings(q, w) == Happenings(q1, [Looked(y)]) == Push(q1, y);
    assert wakes[1..] == [];
    assert Push(q1, y).pending == [y];
  }

  // ---- a ring without slots --------------------------------------------------

  predicate Slotless(q: Queue)
  {
    q.capacity == 0 && q.pending == []
  }

  lemma {:induction false} SlotlessEvents(q: Queue, events: seq<Event>)
    requires Slotless(q)
    ensures Slotless(Happenings(q, events)) && Entered(q, events) == []
    decreases |events|
  {
    if events != [] {
      SlotlessEvents(Happening(q, events[0]), events[1..]);
    }
  }

  lemma {:induction false} SlotlessRun(o: Options, q: Queue, ops: seq<Op>)
    requires Slotless(q)
    ensures Slotless(Run(o, q, ops)) && Accepted(o, q, ops) == []
    decreases |ops|
  {
    if ops != [] {
      SlotlessEvents(q, Events(o, q, ops[0]));
      if ops[0].Write? {
        RetryIsCourse(o, q, ops[0].entry, ops[0].wakes);
      }
      SlotlessRun(o, Apply(o, q, ops[0]), ops[1..]);
    }
  }

  /** What a ring built with a size that is not positive does: it accepts nothing and
      counts every attempt as a drop. */
  lemma SlotlessRefusesAll(o: Options, ops: seq<Op>)
    ensures var q := Run(o, Empty(0), ops);
            && Accepted(o, Empty(0), ops) == [] && Delivered(q) == []
            && q.drops == Attempts(o, Empty(0), ops)
  {
    var q := Run(o, Empty(0), ops);
    SlotlessRun(o, Empty(0), ops);
    RunConserves(o, Empty(0), ops);
    assert Entries(q.settled) == [];
    assert q.settled == [];
  }

  // ---- growing ---------------------------------------------------------------

  /** A growth changes the capacity exactly if the last stored utilization is over the
      threshold and twice the capacity is at most 2^20; then it doubles it, and it never
      changes anything else. */
  lemma GrowthExactly(o: Options, q: Queue)
    requires q.capacity > 0
    ensures var q' := Apply(o, q, Grow);
            && (q'.capacity != q.capacity <==> q.utilization > o.threshold && 2 * q.capacity <= 1048576)
            && (q'.capacity != q.capacity ==> q'.capacity == 2 * q.capacity)
            && q' == q.(capacity := q'.capacity)
  {
  }

  /** The slots a growth finds after a write that leaves `used` of `capacity` in use. */
  function GrownTo(threshold: nat, used: nat, capacity: nat): nat
    requires capacity > 0
  {
    if used * 100 / capacity > threshold && capacity <= 524288 then 2 * capacity else capacity
  }

  lemma {:induction false} FlushesKeepSize(o: Options, q: Queue, ops: seq<Op>)
    requires forall op | op in ops :: op.Flush?
    ensures Run(o, q, ops).capacity == q.capacity && Run(o, q, ops).utilization == q.utilization
    decreases |ops|
  {
    if ops != [] {
      assert ops[0].Flush?;
      FlushesKeepSize(o, Apply(o, q, ops[0]), ops[1..]);
    }
  }

  /** A growth goes by the write that got in last: by how full that left the ring, in
      whole percent, no matter how many flushes have emptied it since. */
  lemma GrowthFollowsWrite(o: Options, q: Queue, entry: Text, flushes: seq<Op>)
    requires HasRoom(q) && forall op | op in flushes :: op.Flush?
    ensures var q' := Run(o, Apply(o, q, Write(entry, [])), flushes);
            Apply(o, q', Grow) == q'.(capacity := GrownTo(o.threshold, |q.pending| + 1, q.capacity))
  {
    FlushesKeepSize(o, Apply(o, q, Write(entry, [])), flushes);
  }

  /** With a threshold below 100, a growth after the write that fills a ring of at most
      2^19 slots makes room; at or below the threshold nothing grows. */
  lemma GrowthMakesRoom(o: Options, q: Queue, entry: Text)
    requires |q.pending| + 1 <= q.capacity <= 524288
    ensures var q' := Apply(o, Apply(o, q, Write(entry, [])), Grow);
            && (|q.pending| + 1 == q.capacity && o.threshold < 100 ==> HasRoom(q') && q'.capacity == 2 * q.capacity)
            && ((|q.pending| + 1) * 100 / q.capacity <= o.threshold ==> q'.capacity == q.capacity)
  {
    var n := q.capacity;
    assert n * 100 / n == 100;
  }

  /** Over any run the capacity never falls, and it is past 2^20 slots only if it was to
      begin with. */
  lemma {:induction false} CapacityBound(o: Options, q: Queue, ops: seq<Op>)
    ensures Run(o, q, ops).capacity >= q.capacity
    ensures Run(o, q, ops).capacity <= (if q.capacity > 1048576 then q.capacity else 1048576)
    decreases |ops|
  {
    if ops != [] {
      ApplyCapacity(o, q, ops[0]);
      CapacityBound(o, Apply(o, q, ops[0]), ops[1..]);
    }
  }

  lemma ApplyCapacity(o: Options, q: Queue, op: Op)
    ensures !op.Grow? ==> Apply(o, q, op).capacity == q.capacity
  {
    if op.Write? {
      RetryIsCourse(o, q, op.entry, op.wakes);
      EventsCapacity(q, Course(o, q, op.entry, op.wakes));
    }
  }

  lemma {:induction false} EventsCapacity(q: Queue, events: seq<Event>)
    ensures Happenings(q, events).capacity == q.capacity
    decreases |events|
  {
    if events != [] {
      EventsCapacity(Happening(q, events[0]), events[1..]);
    }
  }

  // ---- draining -------------------------------------------------------------

  function Flushes(q: Queue, n: nat): Queue
    decreases n
  {
    if n == 0 then q else Flushes(Flushing(q, BATCH), n - 1)
  }

  /** Each flush takes exactly min(100, pending) entries off the front, so n of them
      leave what lies beyond the first 100·n and deliver the rest. */
  lemma FullFlush(q: Queue)
    ensures var b, q' := Least(|q.pending|, BATCH), Flushing(q, BATCH);
            q'.pending == q.pending[b..] && Delivered(q') == Delivered(q) + q.pending[..b]
  {
    FlushDeliversPrefix(q, BATCH);
  }

  lemma TakeTwice(s: seq<Text>, a: nat, b: nat)
    requires a + b <= |s|
    ensures s[..a] + s[a..][..b] == s[..a + b] && s[a..][b..] == s[a + b..]
  {
  }

  /** Each flush takes exactly min(100, pending) entries off the front, so n of them
      leave what lies beyond the first 100·n and deliver the rest. */
  lemma {:induction false} FlushesDrain(q: Queue, n: nat)
    ensures var q', gone := Flushes(q, n), Least(|q.pending|, BATCH * n);
            q'.pending == q.pending[gone..] && Delivered(q') == Delivered(q) + q.pending[..gone]
    decreases n
  {
    if n > 0 {
      var q1 := Flushing(q, BATCH);
      var b, rest := Least(|q.pending|, BATCH), Least(|q1.pending|, BATCH * (n - 1));
      FullFlush(q);
      FlushesDrain(q1, n - 1);
      assert b + rest == Least(|q.pending|, BATCH * n);
      TakeTwice(q.pending, b, rest);
      Regroup(Delivered(q), q.pending[..b], q1.pending[..rest]);
    }
  }

  /** n flushes with no writes in between empty the ring exactly when n·100 reaches
      the number pending; for the single final flush on stop, when at most 100 were. */
  lemma DrainBound(q: Queue, n: nat)
    ensures Flushes(q, n).pending == [] <==> |q.pending| <= 100 * n
    ensures Flushing(q, BATCH).pending == [] <==> |q.pending| <= 100
  {
    FlushesDrain(q, n);
    FlushesDrain(q, 1);
  }
}
