/** Why each of the three conditions is needed under which deliveries come in claim
    order: for each a run that keeps to the other two and delivers [2, 1]. */
module AsyncDisorder {
  import opened Wrappers
  import opened AsyncProtocol
  import opened AsyncTheorems
  import opened AsyncOrder
  import opened AsyncPlacement
  import opened AsyncRefusals
  import opened AsyncScenario

  // ---- a take before the store -----------------------------------------------

  /** A ring of two slots, of fixed size. */
  const PAIR := Config(DropMode, false, 75, 1, 2)

  /** Only refusals come after the stores to their batch. */
  const LOOSE := Law(false, false, true)

  lemma SlotsOfPair()
    ensures Slot(0, 1) == 0 && Slot(1, 1) == 1 && Slot(2, 1) == 0 && Slot(3, 1) == 1
  {
  }

  /** Entries 0 and 1 are stored, 0 is refused and 1 given up with it. */
  lemma BothRefused() returns (t: State)
    ensures Leads(PAIR, Init(PAIR), t, LOOSE)
    ensures t == Init(PAIR).(readIndex := 2, writeIndex := 2, claims := [0, 1], buffer := [Some(0), Some(1)],
                             utilization := 100, calls := map[0 := Returned(true), 1 := Returned(true)])
  {
    var s := Init(PAIR);
    assert s.buffer == [None, None] && s.shards == [None];
    SlotsOfPair();
    Stay(PAIR, s, LOOSE);
    t := WholeCall(PAIR, s, s, 0, 0, LOOSE);
    assert t.buffer == [Some(0), None];
    t := WholeCall(PAIR, s, t, 1, 0, LOOSE);
    assert t.buffer == [Some(0), Some(1)];
    t := OpenFlush(PAIR, s, t, LOOSE);
    t := Refuse(PAIR, s, t, 0, 2, 0, 0, LOOSE);
  }

  /** Call 2 stores over entry 0; call 3 claims the slot of entry 1 but does not store. */
  lemma ThirdClaim() returns (t: State)
    ensures Leads(PAIR, Init(PAIR), t, LOOSE)
    ensures t == Init(PAIR).(readIndex := 2, writeIndex := 4, claims := [0, 1, 2, 3], buffer := [Some(2), Some(1)],
                             utilization := 50,
                             calls := map[0 := Returned(true), 1 := Returned(true), 2 := Returned(true),
                                          3 := LockShard(false, 3, 2)])
  {
    var s := Init(PAIR);
    assert s.shards == [None];
    SlotsOfPair();
    t := BothRefused();
    t := WholeCall(PAIR, s, t, 2, 0, LOOSE);
    assert t.buffer == [Some(2), Some(1)];
    t := ClaimIndex(PAIR, s, t, 3, LOOSE);
  }

  lemma NotAscending()
    ensures !Within([2, 1], [0, 1, 2, 3]) && !Within([2, 1], [0, 1, 2])
  {
    assert [0, 1, 2, 3][..3] == [0, 1, 2] && [0, 1, 2][..2] == [0, 1] && [0, 1][..1] == [0] && [0][..0] == [];
    assert [2, 1][..1] == [2] && [2][..0] == [];
    assert !Within([2], [0]) && !Within([2, 1], [0]) && !Within([2, 1], [0, 1]) && !Within([2, 1], [0, 1, 2]);
  }

  /** A flush then takes index 3 before its store, finds the refused entry 1 in the slot
      and delivers it after entry 2: delivery is out of claim order. */
  lemma RefusedEntryDelivered()
    ensures exists run :: Possible(PAIR, Init(PAIR), run)
              && AllCareful(PAIR, Init(PAIR), run) && AllDropsStored(PAIR, Init(PAIR), run)
              && var t := Reached(PAIR, run);
                 t.delivered == [2, 1] && t.claims == [0, 1, 2, 3] && !Within(t.delivered, t.claims)
  {
    var s := Init(PAIR);
    assert s.shards == [None] && s.delivered == [];
    SlotsOfPair();
    var t := ThirdClaim();
    t := OpenFlush(PAIR, s, t, LOOSE);
    t := Deliver(PAIR, s, t, 2, 4, 2, 2, LOOSE);
    assert t.delivered == [2] && t.buffer[1] == Some(1);
    t := Deliver(PAIR, s, t, 2, 4, 3, 1, LOOSE);
    NotAscending();
    var run :| Drives(PAIR, s, run, t, LOOSE);
    FixedSizeIsCareful(PAIR, s, run);
    assert Reached(PAIR, run) == t && t.delivered == [2, 1];
  }

  // ---- a refusal before a store ----------------------------------------------

  /** Takes come after stores, whatever the sink does. */
  const TIMELY := Law(true, false, false)

  /** Entry 0 is refused before call 1 has stored at index 1, which is given up with it. */
  lemma RefusedTooEarly() returns (t: State)
    ensures Leads(PAIR, Init(PAIR), t, TIMELY)
    ensures t == Init(PAIR).(readIndex := 2, writeIndex := 2, claims := [0, 1], buffer := [Some(0), None],
                             utilization := 50, calls := map[0 := Returned(true), 1 := LockShard(false, 1, 0)])
  {
    var s := Init(PAIR);
    assert s.buffer == [None, None] && s.shards == [None];
    SlotsOfPair();
    Stay(PAIR, s, TIMELY);
    t := WholeCall(PAIR, s, s, 0, 0, TIMELY);
    assert t.buffer == [Some(0), None];
    t := ClaimIndex(PAIR, s, t, 1, TIMELY);
    t := OpenFlush(PAIR, s, t, TIMELY);
    t := Refuse(PAIR, s, t, 0, 2, 0, 0, TIMELY);
  }

  /** Calls 2 and 3 fill the ring. */
  lemma Refilled() returns (t: State)
    ensures Leads(PAIR, Init(PAIR), t, TIMELY)
    ensures t == Init(PAIR).(readIndex := 2, writeIndex := 4, claims := [0, 1, 2, 3], buffer := [Some(2), Some(3)],
                             utilization := 100,
                             calls := map[0 := Returned(true), 1 := LockShard(false, 1, 0), 2 := Returned(true),
                                          3 := Returned(true)])
  {
    var s := Init(PAIR);
    assert s.shards == [None];
    SlotsOfPair();
    t := RefusedTooEarly();
    t := WholeCall(PAIR, s, t, 2, 0, TIMELY);
    assert t.buffer == [Some(2), None];
    t := WholeCall(PAIR, s, t, 3, 0, TIMELY);
    assert t.buffer == [Some(2), Some(3)];
  }

  /** Only then call 1 stores, over entry 3. */
  lemma LateStoreOver() returns (t: State)
    ensures Leads(PAIR, Init(PAIR), t, TIMELY)
    ensures t == Init(PAIR).(readIndex := 2, writeIndex := 4, claims := [0, 1, 2, 3], buffer := [Some(2), Some(1)],
                             utilization := 100,
                             calls := map[0 := Returned(true), 1 := Returned(true), 2 := Returned(true),
                                          3 := Returned(true)])
  {
    var s := Init(PAIR);
    assert s.shards == [None];
    t := Refilled();
    t := StoreOver(s, t);
    t := FinishCall(PAIR, s, t, 1, 1, 0, 0, TIMELY);
  }

  lemma StoreOver(s: State, t: State) returns (u: State)
    requires Leads(PAIR, s, t, TIMELY) && 1 in t.calls && t.calls[1] == LockShard(false, 1, 0)
    requires t.shards == [None] && t.mask == 1 && t.buffer == [Some(2), Some(3)]
    ensures Leads(PAIR, s, u, TIMELY)
    ensures u == t.(buffer := [Some(2), Some(1)], calls := t.calls[1 := SetUtilization(false, 1, 0)])
  {
    SlotsOfPair();
    u := StoreSlot(PAIR, s, t, 1, 1, 0, TIMELY);
    assert u.buffer == [Some(2), Some(1)];
  }

  /** The next flush takes both indices after their stores, but delivers entry 1 for 3. */
  lemma DeliverOverwritten() returns (t: State)
    ensures Leads(PAIR, Init(PAIR), t, TIMELY)
    ensures t.delivered == [2, 1] && t.claims == [0, 1, 2, 3]
  {
    var s := Init(PAIR);
    SlotsOfPair();
    t := LateStoreOver();
    assert t.shards == [None];
    t := OpenFlush(PAIR, s, t, TIMELY);
    t := Deliver(PAIR, s, t, 2, 4, 2, 2, TIMELY);
    assert t.delivered == [2] && t.buffer[1] == Some(1);
    t := Deliver(PAIR, s, t, 2, 4, 3, 1, TIMELY);
    assert t.delivered == [2, 1];
  }

  lemma EarlyRefusalDisorders()
    ensures exists run :: Possible(PAIR, Init(PAIR), run)
              && AllTimely(PAIR, Init(PAIR), run) && AllCareful(PAIR, Init(PAIR), run)
              && var t := Reached(PAIR, run);
                 t.delivered == [2, 1] && t.claims == [0, 1, 2, 3] && !Within(t.delivered, t.claims)
  {
    var s := Init(PAIR);
    var t := DeliverOverwritten();
    NotAscending();
    var run :| Drives(PAIR, s, run, t, TIMELY);
    FixedSizeIsCareful(PAIR, s, run);
    assert Reached(PAIR, run) == t;
  }

  // ---- a store that misses a growth ------------------------------------------

  /** The same, growing when more than three quarters full. */
  const GROWING_PAIR := Config(DropMode, true, 75, 1, 2)

  /** Takes come after stores and the sink never fails. */
  const HEALTHY := Law(true, true, true)

  lemma SlotsOfGrowth()
    ensures Slot(0, 3) == 0 && Slot(1, 3) == 1 && Slot(2, 3) == 2
  {
  }

  /** Two calls fill the ring and a growth copies it. */
  lemma PairCopied() returns (t: State)
    ensures Leads(GROWING_PAIR, Init(GROWING_PAIR), t, HEALTHY)
    ensures t == Init(GROWING_PAIR).(writeIndex := 2, claims := [0, 1], buffer := [Some(0), Some(1)],
                                     utilization := 100, calls := map[0 := Returned(true), 1 := Returned(true)],
                                     resize := Held(0, SetBuffer([Some(0), Some(1), None, None])))
  {
    var c, s := GROWING_PAIR, Init(GROWING_PAIR);
    assert s.shards == [None];
    t := PairFilled();
    t := StartGrowth(c, s, t, 0, HEALTHY);
    t := LockGrowth(c, s, t, 0, HEALTHY);
    assert t.resize.pc.grown == [None, None, None, None];
    t := CopyPair(s, t);
    t := EndCopy(c, s, t, 0, 0, 2, [Some(0), Some(1), None, None], HEALTHY);
  }

  lemma PairFilled() returns (t: State)
    ensures Leads(GROWING_PAIR, Init(GROWING_PAIR), t, HEALTHY)
    ensures t == Init(GROWING_PAIR).(writeIndex := 2, claims := [0, 1], buffer := [Some(0), Some(1)],
                                     utilization := 100, calls := map[0 := Returned(true), 1 := Returned(true)],
                                     waiting := map[0 := FirstCheck])
  {
    var c, s := GROWING_PAIR, Init(GROWING_PAIR);
    assert s.buffer == [None, None] && s.shards == [None];
    SlotsOfPair();
    Stay(c, s, HEALTHY);
    t := WholeCall(c, s, s, 0, 0, HEALTHY);
    assert t.buffer == [Some(0), None];
    t := WholeCall(c, s, t, 1, 0, HEALTHY);
    assert t.buffer == [Some(0), Some(1)];
  }

  lemma CopyPair(s: State, t: State) returns (u: State)
    requires Leads(GROWING_PAIR, s, t, HEALTHY) && t.resize == Held(0, Copy(0, 2, 0, [None, None, None, None]))
    requires t.size == 2 && t.mask == 1 && t.buffer == [Some(0), Some(1)]
    ensures Leads(GROWING_PAIR, s, u, HEALTHY)
    ensures u == t.(resize := Held(0, Copy(0, 2, 2, [Some(0), Some(1), None, None])))
  {
    SlotsOfPair();
    SlotsOfGrowth();
    u := CopySlot(GROWING_PAIR, s, t, 0, 0, 2, 0, [None, None, None, None], HEALTHY);
    assert u.resize.pc.grown == [Some(0), None, None, None];
    u := CopySlot(GROWING_PAIR, s, u, 0, 0, 2, 1, [Some(0), None, None, None], HEALTHY);
    assert u.resize.pc.grown == [Some(0), Some(1), None, None];
  }

  /** Between the stores of the new size and of the new mask, call 2 claims the room the
      growth has made. */
  lemma ClaimNewRoom() returns (t: State)
    ensures Leads(GROWING_PAIR, Init(GROWING_PAIR), t, HEALTHY)
    ensures t == State(4, 1, [Some(0), Some(1), None, None], 0, 3, 100, 0, [], [0, 1, 2], [None], {},
                       map[0 := Returned(true), 1 := Returned(true), 2 := LockShard(false, 2, 0)], Idle, map[],
                       Held(0, SetMask(4)))
  {
    var c, s := GROWING_PAIR, Init(GROWING_PAIR);
    assert s.shards == [None];
    t := PairCopied();
    t := InstallSize(c, s, t, 0, [Some(0), Some(1), None, None], HEALTHY);
    t := ClaimIndex(c, s, t, 2, HEALTHY);
  }

  /** It stores by the old mask, over pending entry 0. */
  lemma StoreByOldMask() returns (t: State)
    ensures Leads(GROWING_PAIR, Init(GROWING_PAIR), t, HEALTHY)
    ensures t == State(4, 3, [Some(2), Some(1), None, None], 0, 3, 75, 0, [], [0, 1, 2], [None], {},
                       map[0 := Returned(true), 1 := Returned(true), 2 := Returned(true)], Idle, map[], Free)
  {
    var c, s := GROWING_PAIR, Init(GROWING_PAIR);
    SlotsOfPair();
    t := ClaimNewRoom();
    t := StoreSlot(c, s, t, 2, 2, 0, HEALTHY);
    assert t.buffer == [Some(2), Some(1), None, None];
    t := FinishCall(c, s, t, 2, 2, 0, 0, HEALTHY);
    t := InstallMask(c, s, t, 0, 4, HEALTHY);
  }

  lemma DeliverDisordered() returns (t: State)
    ensures Leads(GROWING_PAIR, Init(GROWING_PAIR), t, HEALTHY)
    ensures t.delivered == [2, 1] && t.claims == [0, 1, 2]
  {
    var c, s := GROWING_PAIR, Init(GROWING_PAIR);
    SlotsOfGrowth();
    t := StoreByOldMask();
    t := OpenFlush(c, s, t, HEALTHY);
    t := Deliver(c, s, t, 0, 3, 0, 2, HEALTHY);
    assert t.delivered == [2] && t.buffer[1] == Some(1);
    t := Deliver(c, s, t, 0, 3, 1, 1, HEALTHY);
    assert t.delivered == [2, 1];
  }

  /** The next flush takes every index after its store and the sink never fails; entry 0
      is overwritten and entry 2 comes before entry 1. */
  lemma CarelessStoreDisorders()
    ensures exists run :: Possible(GROWING_PAIR, Init(GROWING_PAIR), run)
              && AllTimely(GROWING_PAIR, Init(GROWING_PAIR), run) && (forall a | a in run :: SinkAccepts(a))
              && AllDropsStored(GROWING_PAIR, Init(GROWING_PAIR), run)
              && var t := Reached(GROWING_PAIR, run);
                 t.delivered == [2, 1] && t.claims == [0, 1, 2] && !Within(t.delivered, t.claims)
  {
    var c, s := GROWING_PAIR, Init(GROWING_PAIR);
    var t := DeliverDisordered();
    NotAscending();
    var run :| Drives(c, s, run, t, HEALTHY);
    assert Reached(c, run) == t;
  }
}
