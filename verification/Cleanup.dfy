/** Which rotated files a cleanup leaves: by age, and by count in the order of an
    in-place exchange sort. */
module Cleanup {
  import opened Bytes

  datatype FileInfo = FileInfo(name: Text, time: int, compressed: bool)

  // ---- sorting --------------------------------------------------------------

  predicate SortedByTime(s: seq<FileInfo>)
  {
    forall i, j | 0 <= i < j < |s| :: s[i].time <= s[j].time
  }

  lemma SwapKeepsElements(s: seq<FileInfo>, t: seq<FileInfo>, i: nat, j: nat)
    requires i < j < |s| && t == s[i := s[j]][j := s[i]]
    ensures multiset(t) == multiset(s)
  {
    assert s == s[..i] + [s[i]] + s[i + 1..j] + [s[j]] + s[j + 1..];
    assert t == s[..i] + [s[j]] + s[i + 1..j] + [s[i]] + s[j + 1..];
  }

  method Swap(logs: array<FileInfo>, i: nat, j: nat)
    requires i < j < logs.Length
    modifies logs
    ensures logs[..] == old(logs[..])[i := old(logs[j])][j := old(logs[i])]
    ensures multiset(logs[..]) == multiset(old(logs[..]))
  {
    ghost var was := logs[..];
    logs[i], logs[j] := logs[j], logs[i];
    SwapKeepsElements(was, logs[..], i, j);
  }

  /** Everything before i is in its place. */
  predicate Placed(s: seq<FileInfo>, i: nat)
  {
    forall a, b | 0 <= a < i && a < b < |s| :: s[a].time <= s[b].time
  }

  /** Nothing from i up to j is older than entry i. */
  predicate Oldest(s: seq<FileInfo>, i: nat, j: nat)
    requires i < |s|
  {
    forall b | i <= b < j && b < |s| :: s[i].time <= s[b].time
  }

  lemma SwapKeepsPlaced(s: seq<FileInfo>, t: seq<FileInfo>, i: nat, j: nat)
    requires i < j < |s| && t == s[i := s[j]][j := s[i]]
    requires Placed(s, i) && Oldest(s, i, j) && s[i].time > s[j].time
    ensures Placed(t, i) && Oldest(t, i, j + 1)
  {
  }

  /** One comparison of the sort. */
  method Exchange(logs: array<FileInfo>, i: nat, j: nat)
    requires i < j < logs.Length && Placed(logs[..], i) && Oldest(logs[..], i, j)
    modifies logs
    ensures Placed(logs[..], i) && Oldest(logs[..], i, j + 1)
    ensures multiset(logs[..]) == multiset(old(logs[..]))
  {
    if logs[i].time > logs[j].time {
      ghost var was := logs[..];
      Swap(logs, i, j);
      SwapKeepsPlaced(was, logs[..], i, j);
    }
  }

  /** sortLogsByTime */
  method SortLogsByTime(logs: array<FileInfo>)
    modifies logs
    ensures SortedByTime(logs[..]) && multiset(logs[..]) == multiset(old(logs[..]))
  {
    for i := 0 to logs.Length
      invariant Placed(logs[..], i)
      invariant multiset(logs[..]) == multiset(old(logs[..]))
    {
      for j := i + 1 to logs.Length
        invariant Placed(logs[..], i) && Oldest(logs[..], i, j)
        invariant multiset(logs[..]) == multiset(old(logs[..]))
      {
        Exchange(logs, i, j);
      }
    }
  }

  // ---- counting by time -----------------------------------------------------

  /** How many logs are from t or later. */
  function Since(s: seq<FileInfo>, t: int): (n: nat)
    ensures n <= |s|
  {
    if s == [] then 0 else (if s[0].time >= t then 1 else 0) + Since(s[1..], t)
  }

  lemma {:induction false} SinceAll(s: seq<FileInfo>, t: int)
    requires forall i | 0 <= i < |s| :: s[i].time >= t
    ensures Since(s, t) == |s|
  {
    if s != [] {
      SinceAll(s[1..], t);
    }
  }

  /** In a sorted sequence they are the last ones. */
  lemma {:induction false} SinceIsSuffix(s: seq<FileInfo>, t: int, k: nat)
    requires SortedByTime(s) && k < |s|
    ensures s[k].time >= t <==> k >= |s| - Since(s, t)
    decreases |s|
  {
    if s[0].time >= t {
      SinceAll(s, t);
    } else if k > 0 {
      assert s[1..][k - 1] == s[k];
      SinceIsSuffix(s[1..], t, k - 1);
    }
  }

  lemma {:induction false} SinceAppend(a: seq<FileInfo>, b: seq<FileInfo>, t: int)
    ensures Since(a + b, t) == Since(a, t) + Since(b, t)
  {
    if a == [] {
      assert a + b == b;
    } else {
      assert (a + b)[1..] == a[1..] + b;
      SinceAppend(a[1..], b, t);
    }
  }

  lemma RemoveOne(s: seq<FileInfo>, k: nat, t: int) returns (rest: seq<FileInfo>)
    requires k < |s|
    ensures multiset(s) == multiset{s[k]} + multiset(rest) && |rest| == |s| - 1
    ensures Since(s, t) == (if s[k].time >= t then 1 else 0) + Since(rest, t)
  {
    rest := s[..k] + s[k + 1..];
    assert s == s[..k] + ([s[k]] + s[k + 1..]);
    SinceAppend(s[..k], [s[k]] + s[k + 1..], t);
    SinceAppend(s[..k], s[k + 1..], t);
    assert ([s[k]] + s[k + 1..])[1..] == s[k + 1..];
  }

  /** The count does not depend on the order. */
  lemma {:induction false} SincePermutes(a: seq<FileInfo>, b: seq<FileInfo>, t: int)
    requires multiset(a) == multiset(b)
    ensures Since(a, t) == Since(b, t) && |a| == |b|
    decreases |a|
  {
    assert |multiset(a)| == |a| && |multiset(b)| == |b|;
    if a != [] {
      assert a[0] in multiset(b);
      var k :| 0 <= k < |b| && b[k] == a[0];
      var a' := RemoveOne(a, 0, t);
      var b' := RemoveOne(b, k, t);
      assert multiset(a') == multiset(a) - multiset{a[0]};
      assert multiset(b') == multiset(b) - multiset{a[0]};
      SincePermutes(a', b', t);
    }
  }

  // ---- what survives --------------------------------------------------------

  datatype Policy = Policy(now: int, maxAge: int, maxBackups: int)

  /** Before the cutoff. */
  predicate Old(p: Policy, log: FileInfo)
  {
    p.maxAge > 0 && log.time < p.now - p.maxAge
  }

  /** How many of n logs the count limit lets live. */
  function Limit(p: Policy, n: nat): nat
  {
    if p.maxBackups > 0 && n > p.maxBackups then p.maxBackups else n
  }

  /** The log at position k of the order is left. */
  predicate Kept(p: Policy, order: seq<FileInfo>, k: nat)
    requires k < |order|
  {
    !Old(p, order[k]) && k >= |order| - Limit(p, |order|)
  }

  function Young(p: Policy, logs: seq<FileInfo>): (n: nat)
    ensures n <= |logs|
  {
    if p.maxAge > 0 then Since(logs, p.now - p.maxAge) else |logs|
  }

  function Least(a: nat, b: nat): nat
  {
    if a < b then a else b
  }

  /** The listed logs in an order cleanup may have put them in. */
  ghost predicate CleanupOrder(p: Policy, listed: seq<FileInfo>, order: seq<FileInfo>)
  {
    multiset(order) == multiset(listed) && (Limit(p, |listed|) < |listed| ==> SortedByTime(order))
  }

  /** In time order the survivors are exactly the newest min(maxBackups, number not
      before the cutoff): logs deleted for their age take no place from younger ones. */
  lemma NewestSurvive(p: Policy, listed: seq<FileInfo>, order: seq<FileInfo>, k: nat)
    requires multiset(order) == multiset(listed) && SortedByTime(order) && k < |order|
    ensures |order| == |listed|
    ensures Kept(p, order, k) <==> k >= |order| - Least(Limit(p, |listed|), Young(p, listed))
  {
    SincePermutes(order, listed, p.now - p.maxAge);
    SinceIsSuffix(order, p.now - p.maxAge, k);
  }

  /** Not before the cutoff, and at most maxBackups logs are at least as new. */
  predicate SurelyKept(p: Policy, listed: seq<FileInfo>, log: FileInfo)
  {
    !Old(p, log) && (p.maxBackups > 0 ==> Since(listed, log.time) <= p.maxBackups)
  }

  /** Before the cutoff, or maxBackups logs are newer. */
  predicate SurelyGone(p: Policy, listed: seq<FileInfo>, log: FileInfo)
  {
    Old(p, log) || (p.maxBackups > 0 && Since(listed, log.time + 1) >= p.maxBackups)
  }

  /** Whatever the order of equal times: a log survives if it is not before the cutoff
      and at most maxBackups logs are at least as new as it, and goes if it is before
      the cutoff or maxBackups logs are newer. */
  lemma SurvivalByRank(p: Policy, listed: seq<FileInfo>, order: seq<FileInfo>, k: nat)
    requires CleanupOrder(p, listed, order) && k < |order|
    ensures SurelyKept(p, listed, order[k]) ==> Kept(p, order, k)
    ensures SurelyGone(p, listed, order[k]) ==> !Kept(p, order, k)
  {
    var t := order[k].time;
    SincePermutes(order, listed, t);
    SincePermutes(order, listed, t + 1);
    if Limit(p, |listed|) < |listed| {
      SinceIsSuffix(order, t, k);
      SinceIsSuffix(order, t + 1, k);
    } else if p.maxBackups > 0 {
      NewerAreFewer(order, k);
    }
  }

  /** A log is not newer than itself. */
  lemma NewerAreFewer(s: seq<FileInfo>, k: nat)
    requires k < |s|
    ensures Since(s, s[k].time + 1) < |s|
  {
    var rest := RemoveOne(s, k, s[k].time + 1);
  }

  predicate DistinctTimes(s: seq<FileInfo>)
  {
    forall i, j | 0 <= i < j < |s| :: s[i].time != s[j].time
  }

  /** With distinct times a log survives exactly when it is not before the cutoff and
      fewer than maxBackups logs are newer. */
  lemma SurvivalExactly(p: Policy, listed: seq<FileInfo>, order: seq<FileInfo>, k: nat)
    requires CleanupOrder(p, listed, order) && DistinctTimes(order) && k < |order|
    ensures Kept(p, order, k) <==>
            !Old(p, order[k]) && (p.maxBackups > 0 ==> Since(listed, order[k].time + 1) < p.maxBackups)
  {
    SurvivalByRank(p, listed, order, k);
    OneAtATime(order, k);
    SincePermutes(order, listed, order[k].time);
    SincePermutes(order, listed, order[k].time + 1);
  }

  lemma {:induction false} NoneAt(s: seq<FileInfo>, t: int)
    requires forall i | 0 <= i < |s| :: s[i].time != t
    ensures Since(s, t) == Since(s, t + 1)
  {
    if s != [] {
      NoneAt(s[1..], t);
    }
  }

  lemma {:induction false} OneAtATime(s: seq<FileInfo>, k: nat)
    requires DistinctTimes(s) && k < |s|
    ensures Since(s, s[k].time) == Since(s, s[k].time + 1) + 1
  {
    if k == 0 {
      NoneAt(s[1..], s[0].time);
    } else {
      assert s[1..][k - 1] == s[k];
      OneAtATime(s[1..], k - 1);
    }
  }

  // ---- the cleanup ----------------------------------------------------------

  predicate DistinctNames(logs: seq<FileInfo>)
  {
    forall i, j | 0 <= i < j < |logs| :: logs[i].name != logs[j].name
  }

  /** The names of the logs that are before the cutoff. */
  ghost function OldNames(p: Policy, logs: seq<FileInfo>): set<Text>
  {
    set i | 0 <= i < |logs| && Old(p, logs[i]) :: logs[i].name
  }

  ghost function FirstNames(logs: seq<FileInfo>, n: nat): set<Text>
  {
    set i | 0 <= i < n && i < |logs| :: logs[i].name
  }

  /** The age-based loop. A removal fails for the names in `stuck`, and its error is
      ignored. */
  method RemoveOld(p: Policy, logs: array<FileInfo>, files: set<Text>, stuck: set<Text>) returns (left: set<Text>)
    requires p.maxAge > 0
    ensures left == files - (OldNames(p, logs[..]) - stuck)
  {
    left := files;
    var cutoff := p.now - p.maxAge;
    for i := 0 to logs.Length
      invariant left == files - (OldNames(p, logs[..i]) - stuck)
    {
      OldNamesSnoc(p, logs[..], i);
      assert logs[..][..i + 1] == logs[..i + 1] && logs[..][..i] == logs[..i];
      if logs[i].time < cutoff {
        if logs[i].name !in stuck {
          left := left - {logs[i].name};
        }
      }
    }
    assert logs[..logs.Length] == logs[..];
  }

  lemma OldNamesSnoc(p: Policy, logs: seq<FileInfo>, i: nat)
    requires i < |logs|
    ensures OldNames(p, logs[..i + 1]) == OldNames(p, logs[..i]) + (if Old(p, logs[i]) then {logs[i].name} else {})
  {
    assert forall j | 0 <= j < i :: logs[..i + 1][j] == logs[..i][j];
    assert logs[..i + 1][i] == logs[i];
  }

  /** The count-based loop. */
  method RemoveFirst(logs: array<FileInfo>, n: nat, files: set<Text>, stuck: set<Text>) returns (left: set<Text>)
    requires n <= logs.Length
    ensures left == files - (FirstNames(logs[..], n) - stuck)
  {
    left := files;
    for i := 0 to n
      invariant left == files - (FirstNames(logs[..], i) - stuck)
    {
      assert FirstNames(logs[..], i + 1) == FirstNames(logs[..], i) + {logs[..][i].name};
      if logs[i].name !in stuck {
        left := left - {logs[i].name};
      }
    }
  }

  lemma NameOnce(order: seq<FileInfo>, k: nat, n: nat, p: Policy)
    requires DistinctNames(order) && k < |order|
    ensures order[k].name in FirstNames(order, n) <==> k < n
    ensures order[k].name in OldNames(p, order) <==> Old(p, order[k])
  {
  }

  lemma OldNamesPermute(p: Policy, a: seq<FileInfo>, b: seq<FileInfo>)
    requires multiset(a) == multiset(b)
    ensures OldNames(p, a) <= OldNames(p, b)
  {
    forall i | 0 <= i < |a| && Old(p, a[i]) ensures a[i].name in OldNames(p, b) {
      assert a[i] in multiset(b);
      var k :| 0 <= k < |b| && b[k] == a[i];
    }
  }

  lemma Once(a: seq<FileInfo>, x: nat)
    requires DistinctNames(a) && x < |a|
    ensures multiset(a)[a[x]] == 1
  {
    assert a == a[..x] + [a[x]] + a[x + 1..];
    assert a[x] !in a[..x] && a[x] !in a[x + 1..];
  }

  lemma Twice(b: seq<FileInfo>, i: nat, j: nat)
    requires i < j < |b| && b[i] == b[j]
    ensures multiset(b)[b[i]] >= 2
  {
    assert b == b[..i] + [b[i]] + b[i + 1..j] + [b[j]] + b[j + 1..];
  }

  lemma DistinctPermutes(a: seq<FileInfo>, b: seq<FileInfo>)
    requires multiset(a) == multiset(b) && DistinctNames(a)
    ensures DistinctNames(b)
  {
    forall i, j | 0 <= i < j < |b| ensures b[i].name != b[j].name {
      assert b[i] in multiset(a) && b[j] in multiset(a);
      var x :| 0 <= x < |a| && a[x] == b[i];
      var y :| 0 <= y < |a| && a[y] == b[j];
      Once(a, x);
      if b[i] == b[j] {
        Twice(b, i, j);
        assert false;
      }
    }
  }

  /** The globbed files that can be examined. */
  function Readable(globbed: seq<FileInfo>, unreadable: set<Text>): seq<FileInfo>
  {
    if globbed == [] then []
    else
      var n := |globbed| - 1;
      Readable(globbed[..n], unreadable) + if globbed[n].name in unreadable then [] else [globbed[n]]
  }

  lemma {:induction false} ReadableIsSubset(globbed: seq<FileInfo>, unreadable: set<Text>)
    ensures forall log | log in Readable(globbed, unreadable) :: log in globbed && log.name !in unreadable
    ensures DistinctNames(globbed) ==> DistinctNames(Readable(globbed, unreadable))
    decreases |globbed|
  {
    if globbed != [] {
      var n := |globbed| - 1;
      var init, logs := globbed[..n], Readable(globbed[..n], unreadable);
      ReadableIsSubset(init, unreadable);
      if DistinctNames(globbed) {
        assert DistinctNames(init);
        forall i | 0 <= i < |logs| ensures logs[i].name != globbed[n].name {
          assert logs[i] in init;
        }
      }
    }
  }

  /** A globbed file is considered exactly if it can be examined, and as often as it is
      globbed. */
  lemma {:induction false} ReadableExactly(globbed: seq<FileInfo>, unreadable: set<Text>, log: FileInfo)
    ensures multiset(Readable(globbed, unreadable))[log]
            == if log.name in unreadable then 0 else multiset(globbed)[log]
    decreases |globbed|
  {
    if globbed != [] {
      var n := |globbed| - 1;
      ReadableExactly(globbed[..n], unreadable, log);
      assert globbed == globbed[..n] + [globbed[n]];
    }
  }

  lemma ReadableMember(globbed: seq<FileInfo>, unreadable: set<Text>, log: FileInfo)
    ensures log in Readable(globbed, unreadable) <==> log in globbed && log.name !in unreadable
  {
    ReadableExactly(globbed, unreadable, log);
    assert log in Readable(globbed, unreadable) <==> log in multiset(Readable(globbed, unreadable));
    assert log in globbed <==> log in multiset(globbed);
  }

  ghost predicate Increasing(at: seq<nat>)
  {
    forall i, j | 0 <= i < j < |at| :: at[i] < at[j]
  }

  /** And in the order of the glob. */
  lemma {:induction false} ReadableInOrder(globbed: seq<FileInfo>, unreadable: set<Text>) returns (at: seq<nat>)
    ensures |at| == |Readable(globbed, unreadable)| && Increasing(at)
    ensures forall i | 0 <= i < |at| :: at[i] < |globbed| && globbed[at[i]] == Readable(globbed, unreadable)[i]
    decreases |globbed|
  {
    at := [];
    if globbed != [] {
      var n := |globbed| - 1;
      at := ReadableInOrder(globbed[..n], unreadable);
      if globbed[n].name !in unreadable {
        at := at + [n];
      }
    }
  }

  lemma ReadableAmong(globbed: seq<FileInfo>, unreadable: set<Text>, files: set<Text>)
    requires forall i | 0 <= i < |globbed| :: globbed[i].name in files
    ensures forall i | 0 <= i < |Readable(globbed, unreadable)| :: Readable(globbed, unreadable)[i].name in files
  {
    var logs := Readable(globbed, unreadable);
    ReadableIsSubset(globbed, unreadable);
    forall i | 0 <= i < |logs| ensures logs[i].name in files {
      assert logs[i] in globbed;
    }
  }

  /** The loop that collects them: a file that cannot be examined is skipped. */
  method Collect(globbed: seq<FileInfo>, unreadable: set<Text>) returns (logs: seq<FileInfo>)
    ensures logs == Readable(globbed, unreadable)
  {
    logs := [];
    for i := 0 to |globbed|
      invariant logs == Readable(globbed[..i], unreadable)
    {
      assert globbed[..i + 1][..i] == globbed[..i];
      if globbed[i].name !in unreadable {
        logs := logs + [globbed[i]];
      }
    }
    assert globbed[..|globbed|] == globbed;
  }

  /** Which files resist: examining them fails, or one of the two removals. */
  datatype Faults = Faults(unreadable: set<Text>, oldStuck: set<Text>, firstStuck: set<Text>)

  /** The log at position k is left: every removal that is tried on it fails, if any is. */
  predicate Left(p: Policy, order: seq<FileInfo>, k: nat, faults: Faults)
    requires k < |order|
  {
    && (Old(p, order[k]) ==> order[k].name in faults.oldStuck)
    && (k < |order| - Limit(p, |order|) ==> order[k].name in faults.firstStuck)
  }

  /** Without faults that is to be kept. */
  lemma LeftIsKept(p: Policy, order: seq<FileInfo>, k: nat, faults: Faults)
    requires k < |order| && order[k].name !in faults.oldStuck && order[k].name !in faults.firstStuck
    ensures Left(p, order, k, faults) <==> Kept(p, order, k)
  {
  }

  /** cleanup. `globbed` are the files of the pattern, and `order` is the one the logs
      among them are left in. */
  method Clean(p: Policy, globbed: seq<FileInfo>, files: set<Text>, faults: Faults)
    returns (left: set<Text>, ghost order: seq<FileInfo>)
    requires DistinctNames(globbed)
    requires forall i | 0 <= i < |globbed| :: globbed[i].name in files
    ensures CleanupOrder(p, Readable(globbed, faults.unreadable), order)
    ensures left <= files
    ensures forall k | 0 <= k < |order| :: order[k].name in left <==> Left(p, order, k, faults)
    ensures forall f | f in files && (forall k | 0 <= k < |order| :: f != order[k].name) :: f in left
    ensures forall log | log in globbed && log.name !in faults.unreadable :: log in order
    ensures p.maxBackups > 0 && faults == Faults({}, {}, {}) ==> |LeftOf(globbed, left)| <= p.maxBackups
    ensures faults == Faults({}, {}, {}) && DistinctTimes(globbed) ==>
              forall log | log in globbed :: log.name in left <==> IsNew(p, globbed, log)
  {
    var listed := Collect(globbed, faults.unreadable);
    ReadableIsSubset(globbed, faults.unreadable);
    var logs := new FileInfo[|listed|](i requires 0 <= i < |listed| => listed[i]);
    assert logs[..] == listed;
    left := files;
    if p.maxAge > 0 {
      left := RemoveOld(p, logs, left, faults.oldStuck);
    }
    var cut := 0;
    if p.maxBackups > 0 && |listed| > p.maxBackups {
      SortLogsByTime(logs);
      cut := |listed| - p.maxBackups;
      left := RemoveFirst(logs, cut, left, faults.firstStuck);
    }
    order := logs[..];
    ReadableAmong(globbed, faults.unreadable, files);
    LeftExactly(p, listed, order, files, left, cut, faults);
    AllListed(globbed, faults.unreadable, order);
    if p.maxBackups > 0 && faults == Faults({}, {}, {}) {
      FewLeft(p, globbed, order, left);
    }
    if faults == Faults({}, {}, {}) && DistinctTimes(globbed) {
      NewAreLeft(p, globbed, order, left);
    }
  }

  /** The globbed files that are newer. */
  ghost function Newer(globbed: seq<FileInfo>, log: FileInfo): set<FileInfo>
  {
    set other | other in globbed && other.time > log.time
  }

  /** Not older than maxAge, and fewer than maxBackups are newer; a limit that is not
      positive is none. */
  ghost predicate IsNew(p: Policy, globbed: seq<FileInfo>, log: FileInfo)
  {
    (p.maxAge <= 0 || log.time >= p.now - p.maxAge) && (p.maxBackups <= 0 || |Newer(globbed, log)| < p.maxBackups)
  }

  lemma {:induction false} SinceCounts(s: seq<FileInfo>, t: int)
    requires DistinctNames(s)
    ensures Since(s, t + 1) == |set other | other in s && other.time > t|
  {
    var newer := set other | other in s && other.time > t;
    if s != [] {
      var rest := set other | other in s[1..] && other.time > t;
      SinceCounts(s[1..], t);
      assert forall i | 0 <= i < |s[1..]| :: s[1..][i] == s[i + 1];
      assert s[0] !in s[1..];
      assert newer == if s[0].time > t then {s[0]} + rest else rest;
    }
  }

  lemma AllReadable(globbed: seq<FileInfo>)
    ensures multiset(Readable(globbed, {})) == multiset(globbed)
  {
    forall log: FileInfo ensures multiset(Readable(globbed, {}))[log] == multiset(globbed)[log] {
      ReadableExactly(globbed, {}, log);
    }
  }

  lemma DistinctTimesPermute(a: seq<FileInfo>, b: seq<FileInfo>)
    requires multiset(a) == multiset(b) && DistinctNames(b) && DistinctTimes(a)
    ensures DistinctTimes(b)
  {
    forall i, j | 0 <= i < j < |b| ensures b[i].time != b[j].time {
      assert b[i] in multiset(a) && b[j] in multiset(a);
      var x :| 0 <= x < |a| && a[x] == b[i];
      var y :| 0 <= y < |a| && a[y] == b[j];
      assert b[i].name != b[j].name;
    }
  }

  lemma KeptIsNew(p: Policy, listed: seq<FileInfo>, order: seq<FileInfo>, k: nat)
    requires DistinctNames(listed) && DistinctTimes(order) && CleanupOrder(p, listed, order) && k < |order|
    ensures Kept(p, order, k) <==> IsNew(p, listed, order[k])
  {
    SurvivalExactly(p, listed, order, k);
    SinceCounts(listed, order[k].time);
  }

  lemma IsNewPermutes(p: Policy, a: seq<FileInfo>, b: seq<FileInfo>, log: FileInfo)
    requires multiset(a) == multiset(b)
    ensures IsNew(p, a, log) <==> IsNew(p, b, log)
  {
    forall other: FileInfo ensures other in a <==> other in b {
      assert other in a <==> other in multiset(a);
      assert other in b <==> other in multiset(b);
    }
    assert Newer(a, log) == Newer(b, log);
  }

  lemma PlaceOf(order: seq<FileInfo>, globbed: seq<FileInfo>, log: FileInfo) returns (k: nat)
    requires multiset(order) == multiset(globbed) && log in globbed
    ensures k < |order| && order[k] == log
  {
    assert log in multiset(order);
    k :| k < |order| && order[k] == log;
  }

  /** Without faults, and with no two files of the same time, those are left. */
  lemma NewAreLeft(p: Policy, globbed: seq<FileInfo>, order: seq<FileInfo>, left: set<Text>)
    requires DistinctNames(globbed) && DistinctTimes(globbed) && CleanupOrder(p, Readable(globbed, {}), order)
    requires forall k | 0 <= k < |order| :: order[k].name in left <==> Left(p, order, k, Faults({}, {}, {}))
    ensures forall log | log in globbed :: log.name in left <==> IsNew(p, globbed, log)
  {
    var listed := Readable(globbed, {});
    AllReadable(globbed);
    DistinctPermutes(globbed, order);
    DistinctPermutes(globbed, listed);
    DistinctTimesPermute(globbed, order);
    forall log | log in globbed ensures log.name in left <==> IsNew(p, globbed, log) {
      var k := PlaceOf(order, globbed, log);
      LeftIsKept(p, order, k, Faults({}, {}, {}));
      KeptIsNew(p, listed, order, k);
      IsNewPermutes(p, listed, globbed, log);
    }
  }

  /** The names among the globbed ones that are left. */
  ghost function LeftOf(globbed: seq<FileInfo>, left: set<Text>): set<Text>
  {
    set log | log in globbed && log.name in left :: log.name
  }

  lemma AllListed(globbed: seq<FileInfo>, unreadable: set<Text>, order: seq<FileInfo>)
    requires multiset(order) == multiset(Readable(globbed, unreadable))
    ensures forall log | log in globbed && log.name !in unreadable :: log in order
  {
    forall log | log in globbed && log.name !in unreadable ensures log in order {
      ReadableMember(globbed, unreadable, log);
      assert log in multiset(Readable(globbed, unreadable));
      assert log in multiset(order);
    }
  }

  lemma {:induction false} NamesFew(s: seq<FileInfo>)
    ensures |set log | log in s :: log.name| <= |s|
  {
    if s != [] {
      NamesFew(s[1..]);
      assert (set log | log in s :: log.name) == {s[0].name} + set log | log in s[1..] :: log.name;
    }
  }

  /** Without faults what is left stands in the last maxBackups places. */
  lemma FewLeft(p: Policy, globbed: seq<FileInfo>, order: seq<FileInfo>, left: set<Text>)
    requires p.maxBackups > 0 && forall log | log in globbed :: log in order
    requires forall k | 0 <= k < |order| :: order[k].name in left <==> Left(p, order, k, Faults({}, {}, {}))
    ensures |LeftOf(globbed, left)| <= p.maxBackups
  {
    var last := order[|order| - Limit(p, |order|)..];
    var names := set log | log in last :: log.name;
    forall f | f in LeftOf(globbed, left) ensures f in names {
      var log :| log in globbed && log.name in left && log.name == f;
      var k :| 0 <= k < |order| && order[k] == log;
      assert k >= |order| - Limit(p, |order|);
      assert last[k - (|order| - Limit(p, |order|))] == log;
    }
    NamesFew(last);
    SmallerSet(LeftOf(globbed, left), names);
  }

  lemma {:induction false} SmallerSet(a: set<Text>, b: set<Text>)
    requires a <= b
    ensures |a| <= |b|
  {
    assert b == a + (b - a);
  }

  lemma LeftExactly(p: Policy, listed: seq<FileInfo>, order: seq<FileInfo>, files: set<Text>, left: set<Text>,
                    cut: nat, faults: Faults)
    requires DistinctNames(listed) && multiset(order) == multiset(listed)
    requires forall i | 0 <= i < |listed| :: listed[i].name in files
    requires |order| == |listed| && cut == |listed| - Limit(p, |listed|)
    requires left == files - ((if p.maxAge > 0 then OldNames(p, listed) else {}) - faults.oldStuck)
                     - (FirstNames(order, cut) - faults.firstStuck)
    ensures forall k | 0 <= k < |order| :: order[k].name in left <==> Left(p, order, k, faults)
    ensures forall f | f in files && (forall k | 0 <= k < |order| :: f != order[k].name) :: f in left
  {
    DistinctPermutes(listed, order);
    OldNamesPermute(p, listed, order);
    OldNamesPermute(p, order, listed);
    forall k | 0 <= k < |order| ensures order[k].name in left <==> Left(p, order, k, faults) {
      NameOnce(order, k, cut, p);
      assert order[k] in multiset(listed);
    }
    forall f | f in files && (forall k | 0 <= k < |order| :: f != order[k].name) ensures f in left {
      assert f !in FirstNames(order, cut) && f !in OldNames(p, order);
    }
  }
}
