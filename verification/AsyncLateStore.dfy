/** A call that has claimed its index but not yet stored its entry can be overtaken
    by a flush. Its entry is then lost although the call returns success, so keeping
    every accepted entry needs the atomicity of the whole `write`. */
module AsyncLateStore {
  import opened Wrappers
  import opened AsyncProtocol
  import opened AsyncTheorems
  import opened AsyncScenario

  const FIXED := Config(DropMode, false, 75, 1, 1)

  /** Call 0 claims index 0, a flush passes over the empty slot, and only then call 0
      stores its entry and returns success. */
  lemma LateStore() returns (t: State)
    ensures Leads(FIXED, Init(FIXED), t, SOUND)
    ensures t == Init(FIXED).(readIndex := 1, writeIndex := 1, claims := [0], buffer := [Some(0)],
                              utilization := 100, calls := map[0 := Returned(true)])
  {
    var s := Init(FIXED);
    assert s.buffer == [None] && s.shards == [None];
    Stay(FIXED, s, SOUND);
    t := ClaimIndex(FIXED, s, s, 0, SOUND);
    t := OpenFlush(FIXED, s, t, SOUND);
    t := Step(FIXED, s, t, StepFlush(true, 0), SOUND);
    t := EndFlush(FIXED, s, t, 0, 1, SOUND);
    t := StoreBehind(s, t);
  }

  /** The rest of call 0. */
  lemma StoreBehind(s: State, t: State) returns (u: State)
    requires Leads(FIXED, s, t, SOUND) && t.calls == map[0 := LockShard(false, 0, 0)]
    requires t.shards == [None] && t.mask == 0 && t.size == 1 && t.buffer == [None]
    ensures Leads(FIXED, s, u, SOUND)
    ensures u == t.(buffer := [Some(0)], utilization := 100, calls := map[0 := Returned(true)])
  {
    u := StoreSlot(FIXED, s, t, 0, 0, 0, SOUND);
    u := FinishCall(FIXED, s, u, 0, 0, 0, 0, SOUND);
  }

  /** Call 0 stores its entry behind the read index and call 1 comes round to the same
      slot. The sink never fails, both calls succeed, nothing is pending, and only
      entry 1 was delivered; entry 0 is nowhere. */
  lemma AcceptedEntryLost()
    ensures exists run :: Possible(FIXED, Init(FIXED), run) && Lawful(FIXED, Init(FIXED), run, SOUND)
              && var t := Reached(FIXED, run);
                 && t.calls == map[0 := Returned(true), 1 := Returned(true)]
                 && t.readIndex == t.writeIndex == 2 && t.flusher.Idle? && t.resize.Free?
                 && t.delivered == [1] && t.buffer == [None]
  {
    var s := Init(FIXED);
    var t := LateStore();
    assert s.shards == [None];
    t := WholeCall(FIXED, s, t, 1, 0, SOUND);
    t := WholeFlush(FIXED, s, t, 1, SOUND);
    assert Init(FIXED).delivered + [1] == [1];
    var run :| Drives(FIXED, s, run, t, SOUND);
    assert Reached(FIXED, run) == t;
  }
}
