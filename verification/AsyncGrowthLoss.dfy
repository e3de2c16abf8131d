/** Why a growing ring needs its stores to be careful: an accepted entry, stored before
    any flush looked for it, that the growth leaves behind in the old buffer. */
module AsyncGrowthLoss {
  import opened Wrappers
  import opened AsyncProtocol
  import opened AsyncTheorems
  import opened AsyncScenario

  const GROWING := Config(DropMode, true, 75, 1, 1)

  /** The sink never fails and every take comes after the store. */
  const FAIR := Law(true, true, false)

  /** Entry 0 has been delivered, a growth is waiting, and call 1 has claimed index 1. */
  lemma SecondClaim() returns (t: State)
    ensures Leads(GROWING, Init(GROWING), t, FAIR)
    ensures t == Init(GROWING).(readIndex := 1, writeIndex := 2, claims := [0, 1], buffer := [None],
                                utilization := 100, delivered := [0], waiting := map[0 := FirstCheck],
                                calls := map[0 := Returned(true), 1 := LockShard(false, 1, 1)])
  {
    var s := Init(GROWING);
    assert s.buffer == [None] && s.shards == [None];
    Stay(GROWING, s, FAIR);
    t := WholeCall(GROWING, s, s, 0, 0, FAIR);
    t := WholeFlush(GROWING, s, t, 0, FAIR);
    t := ClaimIndex(GROWING, s, t, 1, FAIR);
  }

  /** The growth copies the empty slot of index 1 and lets the shard go. */
  lemma CopyEmpty(s: State, t: State) returns (u: State)
    requires Leads(GROWING, s, t, FAIR) && t.resize == Held(0, Copy(1, 2, 1, [None, None]))
    requires t.shards == [Some(ByResizer)] && t.size == 1 && t.mask == 0 && t.buffer == [None]
    ensures Leads(GROWING, s, u, FAIR) && u == t.(shards := [None], resize := Held(0, SetBuffer([None, None])))
  {
    assert Slot(1, 1) == 1 && Slot(1, 0) == 0;
    u := CopySlot(GROWING, s, t, 0, 1, 2, 1, [None, None], FAIR);
    assert u.resize.pc.grown == [None, None];
    u := EndCopy(GROWING, s, u, 0, 1, 2, [None, None], FAIR);
  }

  /** Call 1 stores its entry into the old buffer after the copy, and its own growth waits. */
  lemma StoreBehind(s: State, t: State) returns (u: State)
    requires Leads(GROWING, s, t, FAIR) && t.calls == map[0 := Returned(true), 1 := LockShard(false, 1, 1)]
    requires t.shards == [None] && t.mask == 0 && t.size == 1 && t.buffer == [None]
    requires t.waiting == map[] && t.resize == Held(0, SetBuffer([None, None]))
    ensures Leads(GROWING, s, u, FAIR)
    ensures u == t.(buffer := [Some(1)], utilization := 100, waiting := map[1 := FirstCheck],
                    calls := map[0 := Returned(true), 1 := Returned(true)])
  {
    u := StoreSlot(GROWING, s, t, 1, 1, 1, FAIR);
    assert u == t.(buffer := [Some(1)], calls := map[0 := Returned(true), 1 := SetUtilization(false, 1, 1)]);
    u := FinishCall(GROWING, s, u, 1, 1, 1, 1, FAIR);
  }

  lemma GrowthPasses() returns (t: State)
    ensures Leads(GROWING, Init(GROWING), t, FAIR)
    ensures t == State(2, 1, [None, None], 1, 2, 100, 0, [0], [0, 1], [None], {},
                       map[0 := Returned(true), 1 := Returned(true)], Idle, map[1 := FirstCheck], Free)
  {
    var s := Init(GROWING);
    assert s.shards == [None];
    t := SecondClaim();
    t := StartGrowth(GROWING, s, t, 0, FAIR);
    t := LockGrowth(GROWING, s, t, 0, FAIR);
    assert t.resize.pc.grown == [None, None];
    t := CopyEmpty(s, t);
    t := StoreBehind(s, t);
    t := InstallSize(GROWING, s, t, 0, [None, None], FAIR);
    t := InstallMask(GROWING, s, t, 0, 2, FAIR);
  }

  /** Both calls succeed, the sink never fails, every take comes after the store of its
      index and nothing is pending at the end; yet only entry 0 was delivered and entry 1
      is nowhere: the growth lost it. */
  lemma StoredEntryLost()
    ensures exists run :: Possible(GROWING, Init(GROWING), run) && Lawful(GROWING, Init(GROWING), run, FAIR)
              && var t := Reached(GROWING, run);
                 && t.calls == map[0 := Returned(true), 1 := Returned(true)]
                 && t.readIndex == t.writeIndex == 2 && t.flusher.Idle? && t.resize.Free?
                 && t.delivered == [0] && t.buffer == [None, None]
  {
    var s := Init(GROWING);
    var t := GrowthPasses();
    t := OpenFlush(GROWING, s, t, FAIR);
    assert Slot(1, 1) == 1;
    t := Step(GROWING, s, t, StepFlush(true, 0), FAIR);
    t := EndFlush(GROWING, s, t, 1, 2, FAIR);
    var run :| Drives(GROWING, s, run, t, FAIR);
    assert Reached(GROWING, run) == t;
  }
}
