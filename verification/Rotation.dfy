/** The rotating file writer over an abstract directory. Every file operation may fail;
    whether it does, and the time, are inputs. */
module Rotation {
  import opened Bytes

  /** The log file itself, or the file it was renamed to in a given second. */
  datatype Name = Current | Rotated(second: int)

  /** The writer's file: not open, open, or closed without having been let go. */
  datatype Handle = NotOpen | Live | Dead

  /** `order` are the rotated files, oldest rotation first. */
  datatype State = State(files: map<Name, Text>, order: seq<int>, handle: Handle, size: nat)

  /** What the operating system answers during one call. */
  datatype Io = Io(opens: bool, closes: bool, renames: bool, reopens: bool, takes: nat, now: int)

  datatype Result = Result(state: State, written: nat, ok: bool)

  // ---- operations -----------------------------------------------------------

  function Content(files: map<Name, Text>, name: Name): Text
  {
    if name in files then files[name] else []
  }

  /** openFile */
  function Opening(s: State, ok: bool): State
  {
    if !ok then s
    else
      var text := Content(s.files, Current);
      State(s.files[Current := text], s.order, Live, |text|)
  }

  function Without(order: seq<int>, k: int): seq<int>
  {
    if order == [] then [] else (if order[0] == k then [] else [order[0]]) + Without(order[1..], k)
  }

  /** Renaming replaces a file that already has the name. */
  function Renamed(s: State, second: int): State
  {
    State((s.files - {Current})[Rotated(second) := Content(s.files, Current)],
          Without(s.order, second) + [second], Dead, s.size)
  }

  /** rotate: closing a closed file fails, and a failure on the way leaves it closed. */
  function Rotating(s: State, io: Io): (State, bool)
  {
    if s.handle != Live then (s, false)
    else if !io.closes || !io.renames then (s.(handle := Dead), false)
    else (Opening(Renamed(s, io.now), io.reopens), io.reopens)
  }

  predicate Full(s: State, maxSize: int, p: Text)
  {
    maxSize > 0 && s.size + |p| > maxSize
  }

  /** The writer once its file has been opened, if it was not, and rotated, if full. */
  function Prepared(s: State, maxSize: int, p: Text, io: Io): (State, bool)
  {
    var begun := if s.handle == NotOpen then Opening(s, io.opens) else s;
    if begun.handle == NotOpen then (begun, false)
    else if Full(begun, maxSize, p) then Rotating(begun, io)
    else (begun, true)
  }

  function Least(a: nat, b: nat): nat
  {
    if a < b then a else b
  }

  function Appended(s: State, p: Text): State
  {
    s.(files := s.files[Current := Content(s.files, Current) + p], size := s.size + |p|)
  }

  function Writing(s: State, maxSize: int, p: Text, io: Io): (r: Result)
    ensures r.written <= |p| && (r.ok ==> r.written == |p|)
  {
    var (ready, ok) := Prepared(s, maxSize, p, io);
    if !ok || ready.handle != Live then Result(ready, 0, false)
    else
      var n := Least(io.takes, |p|);
      Result(Appended(ready, p[..n]), n, n == |p|)
  }

  function Closing(s: State): State
  {
    s.(handle := NotOpen)
  }

  // ---- the invariant --------------------------------------------------------

  predicate Distinct(order: seq<int>)
  {
    forall i, j | 0 <= i < j < |order| :: order[i] != order[j]
  }

  ghost predicate Lists(files: map<Name, Text>, order: seq<int>)
  {
    Distinct(order) && forall k: int :: k in order <==> Rotated(k) in files
  }

  /** The order lists the rotated files, and while the file is open, `size` is its
      length. */
  ghost predicate Valid(s: State)
  {
    && Lists(s.files, s.order)
    && (s.handle == Live ==> Current in s.files && s.size == |s.files[Current]|)
  }

  lemma {:induction false} WithoutMembers(order: seq<int>, k: int)
    ensures forall x: int :: x in Without(order, k) <==> x in order && x != k
  {
    if order != [] {
      WithoutMembers(order[1..], k);
      assert forall x: int :: x in order <==> x == order[0] || x in order[1..];
    }
  }

  lemma {:induction false} WithoutDistinct(order: seq<int>, k: int)
    requires Distinct(order)
    ensures Distinct(Without(order, k))
  {
    if order != [] {
      WithoutDistinct(order[1..], k);
      WithoutMembers(order[1..], k);
      assert order[0] !in order[1..];
    }
  }

  lemma RenamedLists(s: State, second: int)
    requires Lists(s.files, s.order)
    ensures Lists(Renamed(s, second).files, Renamed(s, second).order)
  {
    WithoutMembers(s.order, second);
    WithoutDistinct(s.order, second);
    var s' := Renamed(s, second);
    forall k: int ensures k in s'.order <==> Rotated(k) in s'.files {
      assert k in s'.order <==> k == second || k in Without(s.order, second);
    }
  }

  lemma RotatingValid(s: State, io: Io)
    requires Valid(s)
    ensures Valid(Rotating(s, io).0)
  {
    RenamedLists(s, io.now);
  }

  /** Whatever fails, every write keeps the invariant, and after one that succeeds the
      file holds at most maxSize bytes or exactly that one record. */
  lemma WritingValid(s: State, maxSize: int, p: Text, io: Io)
    requires Valid(s)
    ensures var r := Writing(s, maxSize, p, io);
            && Valid(r.state)
            && (r.ok ==> r.state.handle == Live)
            && (r.ok && maxSize > 0 ==> r.state.size <= maxSize || r.state.files[Current] == p)
  {
    var begun := if s.handle == NotOpen then Opening(s, io.opens) else s;
    RotatingValid(begun, io);
    var (ready, ok) := Prepared(s, maxSize, p, io);
    if ok && Full(begun, maxSize, p) {
      assert ready.files[Current] == [];
      assert [] + p == p && p[..|p|] == p;
    }
  }

  // ---- the bytes on disk ----------------------------------------------------

  function Archive(files: map<Name, Text>, order: seq<int>): Text
  {
    if order == [] then [] else Content(files, Rotated(order[0])) + Archive(files, order[1..])
  }

  /** The rotated files, oldest first, and then the current one. */
  function Contents(s: State): Text
  {
    Archive(s.files, s.order) + Content(s.files, Current)
  }

  lemma {:induction false} ArchiveSnoc(files: map<Name, Text>, order: seq<int>, k: int)
    ensures Archive(files, order + [k]) == Archive(files, order) + Content(files, Rotated(k))
  {
    if order == [] {
      assert ([] + [k])[1..] == [];
      assert Archive(files, []) == [];
    } else {
      assert (order + [k])[1..] == order[1..] + [k];
      ArchiveSnoc(files, order[1..], k);
    }
  }

  lemma {:induction false} ArchiveAgrees(a: map<Name, Text>, b: map<Name, Text>, order: seq<int>)
    requires forall k | k in order :: Content(a, Rotated(k)) == Content(b, Rotated(k))
    ensures Archive(a, order) == Archive(b, order)
  {
    if order != [] {
      ArchiveAgrees(a, b, order[1..]);
    }
  }

  /** Dropping one file from the archive loses its bytes and no others. */
  lemma {:induction false} ArchiveWithout(files: map<Name, Text>, order: seq<int>, k: int)
    requires Distinct(order)
    ensures var lost := if k in order then |Content(files, Rotated(k))| else 0;
            && |Archive(files, Without(order, k))| + lost == |Archive(files, order)|
            && (lost == 0 ==> Archive(files, Without(order, k)) == Archive(files, order))
  {
    if order != [] {
      ArchiveWithout(files, order[1..], k);
      assert order[0] !in order[1..];
      var rest := Without(order[1..], k);
      if order[0] == k {
        assert Without(order, k) == [] + rest == rest;
      } else {
        assert Without(order, k)[1..] == rest;
      }
    }
  }

  /** Whether renaming would replace a file that has bytes in it. */
  predicate Overwrites(s: State, second: int)
  {
    Content(s.files, Rotated(second)) != []
  }

  lemma RenamedContents(s: State, second: int)
    requires Lists(s.files, s.order)
    ensures Contents(Renamed(s, second)) == Contents(s) <==> !Overwrites(s, second)
    ensures |Contents(Renamed(s, second))| + |Content(s.files, Rotated(second))| == |Contents(s)|
  {
    var s' := Renamed(s, second);
    var kept := Without(s.order, second);
    WithoutMembers(s.order, second);
    ArchiveSnoc(s'.files, kept, second);
    ArchiveAgrees(s.files, s'.files, kept);
    ArchiveWithout(s.files, s.order, second);
    assert Contents(s') == Archive(s.files, kept) + Content(s.files, Current);
  }

  lemma OpeningContents(s: State, ok: bool)
    ensures Contents(Opening(s, ok)) == Contents(s)
  {
    ArchiveAgrees(s.files, Opening(s, ok).files, s.order);
  }

  lemma AppendedContents(s: State, p: Text)
    ensures Contents(Appended(s, p)) == Contents(s) + p
  {
    ArchiveAgrees(s.files, Appended(s, p).files, s.order);
  }

  /** Whether this write gets as far as renaming the file. */
  predicate Renames(s: State, maxSize: int, p: Text, io: Io)
  {
    var begun := if s.handle == NotOpen then Opening(s, io.opens) else s;
    begun.handle == Live && Full(begun, maxSize, p) && io.closes && io.renames
  }

  predicate Loses(s: State, maxSize: int, p: Text, io: Io)
  {
    Renames(s, maxSize, p, io) && Overwrites(s, io.now)
  }

  lemma RotatingContents(s: State, io: Io)
    requires Lists(s.files, s.order)
    ensures var lost := s.handle == Live && io.closes && io.renames && Overwrites(s, io.now);
            && (Contents(Rotating(s, io).0) == Contents(s) <==> !lost)
            && (lost ==> |Contents(Rotating(s, io).0)| < |Contents(s)|)
  {
    RenamedContents(s, io.now);
    OpeningContents(Renamed(s, io.now), io.reopens);
    HandleContents(s, Dead);
  }

  lemma HandleContents(s: State, handle: Handle)
    ensures Contents(s.(handle := handle)) == Contents(s)
  {
  }

  lemma PreparedContents(s: State, maxSize: int, p: Text, io: Io)
    requires Valid(s)
    ensures Contents(Prepared(s, maxSize, p, io).0) == Contents(s) <==> !Loses(s, maxSize, p, io)
    ensures Loses(s, maxSize, p, io) ==> |Contents(Prepared(s, maxSize, p, io).0)| < |Contents(s)|
  {
    var begun := if s.handle == NotOpen then Opening(s, io.opens) else s;
    assert Valid(begun);
    OpeningContents(s, io.opens);
    RotatingContents(begun, io);
    assert Contents(begun) == Contents(s);
    assert begun.files.Keys - {Current} == s.files.Keys - {Current};
    assert Overwrites(begun, io.now) <==> Overwrites(s, io.now);
  }

  /** Whatever fails, a write adds to the bytes on disk exactly those it reports as
      written, unless it renames the file onto one rotated in the same second that has
      bytes in it: then those bytes are gone. */
  lemma WritingContents(s: State, maxSize: int, p: Text, io: Io)
    requires Valid(s)
    ensures var r := Writing(s, maxSize, p, io);
            Contents(r.state) == Contents(s) + p[..r.written] <==> !Loses(s, maxSize, p, io)
    ensures var r := Writing(s, maxSize, p, io);
            Loses(s, maxSize, p, io) ==> |Contents(r.state)| < |Contents(s)| + r.written
  {
    var (ready, ok) := Prepared(s, maxSize, p, io);
    var r := Writing(s, maxSize, p, io);
    PreparedContents(s, maxSize, p, io);
    if ok && ready.handle == Live {
      AppendedContents(ready, p[..r.written]);
    } else {
      assert Contents(s) + p[..0] == Contents(s);
    }
  }

  // ---- runs -----------------------------------------------------------------

  datatype Op = Write(p: Text, io: Io) | Close

  function Apply(s: State, maxSize: int, op: Op): State
  {
    match op
    case Write(p, io) => Writing(s, maxSize, p, io).state
    case Close => Closing(s)
  }

  function Run(s: State, maxSize: int, ops: seq<Op>): State
    decreases |ops|
  {
    if ops == [] then s else Run(Apply(s, maxSize, ops[0]), maxSize, ops[1..])
  }

  function ReportedBy(s: State, maxSize: int, op: Op): Text
  {
    match op
    case Write(p, io) => p[..Writing(s, maxSize, p, io).written]
    case Close => []
  }

  /** The bytes the writes of a run report as written, in order. */
  function Reported(s: State, maxSize: int, ops: seq<Op>): Text
    decreases |ops|
  {
    if ops == [] then []
    else ReportedBy(s, maxSize, ops[0]) + Reported(Apply(s, maxSize, ops[0]), maxSize, ops[1..])
  }

  predicate LosesIn(s: State, maxSize: int, op: Op)
  {
    op.Write? && Loses(s, maxSize, op.p, op.io)
  }

  lemma ApplyKeepsEverything(s: State, maxSize: int, op: Op)
    requires Valid(s)
    ensures Valid(Apply(s, maxSize, op))
    ensures Contents(Apply(s, maxSize, op)) == Contents(s) + ReportedBy(s, maxSize, op) <==> !LosesIn(s, maxSize, op)
    ensures |Contents(Apply(s, maxSize, op))| <= |Contents(s)| + |ReportedBy(s, maxSize, op)|
    ensures LosesIn(s, maxSize, op) ==> |Contents(Apply(s, maxSize, op))| < |Contents(s)| + |ReportedBy(s, maxSize, op)|
  {
    match op
    case Write(p, io) =>
      WritingValid(s, maxSize, p, io);
      WritingContents(s, maxSize, p, io);
    case Close =>
      assert Contents(Closing(s)) == Contents(s) == Contents(s) + [];
  }

  lemma Regroup(a: Text, b: Text, c: Text)
    ensures a + (b + c) == (a + b) + c
  {
  }

  /** No write of the run renames the file onto one with bytes in it. */
  predicate NothingLost(s: State, maxSize: int, ops: seq<Op>)
    decreases |ops|
  {
    ops == []
    || (!LosesIn(s, maxSize, ops[0]) && NothingLost(Apply(s, maxSize, ops[0]), maxSize, ops[1..]))
  }

  /** Over every run, with any failures and any closing and reopening: `size` tracks the
      open file, and the rotated files in order followed by the current one hold what
      was there before and then all bytes reported as written, exactly when no rename
      hit a file with bytes in it. */
  lemma {:induction false} RunKeepsEverything(s: State, maxSize: int, ops: seq<Op>)
    requires Valid(s)
    ensures Valid(Run(s, maxSize, ops))
    ensures Contents(Run(s, maxSize, ops)) == Contents(s) + Reported(s, maxSize, ops) <==> NothingLost(s, maxSize, ops)
    ensures |Contents(Run(s, maxSize, ops))| <= |Contents(s)| + |Reported(s, maxSize, ops)|
    ensures !NothingLost(s, maxSize, ops) ==>
              |Contents(Run(s, maxSize, ops))| < |Contents(s)| + |Reported(s, maxSize, ops)|
    decreases |ops|
  {
    if ops == [] {
      assert Contents(s) + [] == Contents(s);
    } else {
      var s' := Apply(s, maxSize, ops[0]);
      ApplyKeepsEverything(s, maxSize, ops[0]);
      RunKeepsEverything(s', maxSize, ops[1..]);
      Regroup(Contents(s), ReportedBy(s, maxSize, ops[0]), Reported(s', maxSize, ops[1..]));
    }
  }

  /** Distinct rotation seconds, none of them in use, are enough. */
  ghost predicate FreshSeconds(s: State, ops: seq<Op>)
  {
    forall i | 0 <= i < |ops| && ops[i].Write? ::
      && Rotated(ops[i].io.now) !in s.files
      && forall j | 0 <= j < i && ops[j].Write? :: ops[j].io.now != ops[i].io.now
  }

  lemma ApplyNames(s: State, maxSize: int, op: Op, k: int)
    requires Rotated(k) !in s.files && (op.Write? ==> op.io.now != k)
    ensures Rotated(k) !in Apply(s, maxSize, op).files
  {
  }

  lemma {:induction false} FreshSecondsLoseNothing(s: State, maxSize: int, ops: seq<Op>)
    requires FreshSeconds(s, ops)
    ensures NothingLost(s, maxSize, ops)
    decreases |ops|
  {
    if ops != [] {
      var s', rest := Apply(s, maxSize, ops[0]), ops[1..];
      forall i | 0 <= i < |rest| && rest[i].Write?
        ensures Rotated(rest[i].io.now) !in s'.files
        ensures forall j | 0 <= j < i && rest[j].Write? :: rest[j].io.now != rest[i].io.now
      {
        assert rest[i] == ops[i + 1];
        ApplyNames(s, maxSize, ops[0], rest[i].io.now);
        assert forall j | 0 <= j < i :: rest[j] == ops[j + 1];
      }
      FreshSecondsLoseNothing(s', maxSize, rest);
    }
  }

  const FINE: Io := Io(true, true, true, true, 1, 0)

  /** A write of one byte to a full one-byte file, twice in one second. */
  lemma FullFileRotates(s: State, b: Byte, c: Byte)
    requires s.handle == Live && s.size == 1 && Current in s.files && s.files[Current] == [b]
    requires s.order == [] || s.order == [0]
    ensures Writing(s, 1, [c], FINE)
            == Result(State((s.files - {Current})[Rotated(0) := [b]][Current := [c]], [0], Live, 1), 1, true)
  {
    assert Without(s.order, 0) == [] by {
      assert Without([0], 0) == [] + Without([0][1..], 0);
    }
    assert [] + [c][..1] == [c];
    var files := Renamed(s, 0).files;
    assert files[Current := []][Current := [c]] == files[Current := [c]];
  }

  /** Three records of one byte in one second, one byte to a file: the first is gone. */
  lemma SameSecondLoses()
    ensures var s, ops := State(map[Current := [65]], [], Live, 1), [Write([66], FINE), Write([67], FINE)];
            && Valid(s)
            && Contents(s) + Reported(s, 1, ops) == [65, 66, 67]
            && Contents(Run(s, 1, ops)) == [66, 67]
  {
    var b, c := Write([66], FINE), Write([67], FINE);
    var s1 := State(map[Current := [65]], [], Live, 1);
    FullFileRotates(s1, 65, 66);
    var s2 := State(map[Rotated(0) := [65], Current := [66]], [0], Live, 1);
    assert Apply(s1, 1, b) == s2;
    FullFileRotates(s2, 66, 67);
    var s3 := State(map[Rotated(0) := [66], Current := [67]], [0], Live, 1);
    assert Apply(s2, 1, c) == s3;
    assert [b, c][1..] == [c] && [c][1..] == [];
    assert Run(s2, 1, [c]) == Run(s3, 1, []) == s3;
    assert Reported(s2, 1, [c]) == [67] + Reported(s3, 1, []);
    assert Archive(s3.files, [0]) == [66] + Archive(s3.files, []);
  }

  // ---- after a failed rotation ----------------------------------------------

  /** A write leaves the writer with a closed file exactly when it had one already or a
      rotation fails on the way. */
  lemma DeadAfter(s: State, maxSize: int, p: Text, io: Io)
    ensures Writing(s, maxSize, p, io).state.handle == Dead
            <==> s.handle == Dead
                 || (var begun := if s.handle == NotOpen then Opening(s, io.opens) else s;
                     begun.handle == Live && Full(begun, maxSize, p)
                     && !(io.closes && io.renames && io.reopens))
  {
  }

  /** From then on every write fails and changes nothing, whatever the operating system
      answers, until the writer is closed. */
  lemma {:induction false} DeadWritesFail(s: State, maxSize: int, ops: seq<Op>)
    requires s.handle == Dead && forall i | 0 <= i < |ops| :: ops[i].Write?
    ensures Run(s, maxSize, ops) == s && Reported(s, maxSize, ops) == []
    decreases |ops|
  {
    if ops != [] {
      assert ops[0].Write?;
      DeadWritesFail(s, maxSize, ops[1..]);
    }
  }

  // ---- file by file ----------------------------------------------------------

  /** The file is open, or this call opens it. */
  predicate Opens(s: State, io: Io)
  {
    s.handle == Live || (s.handle == NotOpen && io.opens)
  }

  /** The record would make the current file longer than allowed. */
  predicate TooLong(s: State, maxSize: int, p: Text)
  {
    maxSize > 0 && |Content(s.files, Current)| + |p| > maxSize
  }

  ghost predicate SameRotated(a: State, b: State)
  {
    a.order == b.order && forall k: int :: (Rotated(k) in a.files <==> Rotated(k) in b.files)
                                           && Content(a.files, Rotated(k)) == Content(b.files, Rotated(k))
  }

  /** As long as the record fits, or there is no limit, nothing is rotated: it goes
      behind what the current file holds, as far as the disk takes it. */
  lemma FittingIsAppended(s: State, maxSize: int, p: Text, io: Io)
    requires Valid(s) && Opens(s, io) && !TooLong(s, maxSize, p)
    ensures var r := Writing(s, maxSize, p, io);
            && SameRotated(r.state, s)
            && Content(r.state.files, Current) == Content(s.files, Current) + p[..r.written]
            && r.written == Least(io.takes, |p|) && (r.ok <==> io.takes >= |p|) && r.state.handle == Live
  {
  }

  /** Otherwise the current file is put under the name of the second, and the record
      starts a new one. */
  lemma OverlongIsRotated(s: State, maxSize: int, p: Text, io: Io)
    requires Valid(s) && Opens(s, io) && TooLong(s, maxSize, p) && io.closes && io.renames && io.reopens
    ensures var r := Writing(s, maxSize, p, io);
            && Content(r.state.files, Rotated(io.now)) == Content(s.files, Current)
            && Content(r.state.files, Current) == p[..r.written]
            && (forall k: int | k != io.now ::
                  (Rotated(k) in r.state.files <==> Rotated(k) in s.files)
                  && Content(r.state.files, Rotated(k)) == Content(s.files, Rotated(k)))
            && r.state.order != [] && r.state.order[|r.state.order| - 1] == io.now
            && r.written == Least(io.takes, |p|) && (r.ok <==> io.takes >= |p|) && r.state.handle == Live
  {
    var r := Writing(s, maxSize, p, io);
    assert [] + p[..r.written] == p[..r.written];
  }

  /** Where opening, closing or renaming fails, the write does and no file changes but
      for an empty current one that opening may create; where only reopening fails, the
      current file is put away and none takes its place. */
  lemma FailureWritesNothing(s: State, maxSize: int, p: Text, io: Io)
    requires Valid(s)
    requires !Opens(s, io) || (TooLong(s, maxSize, p) && !(io.closes && io.renames && io.reopens))
    ensures var r := Writing(s, maxSize, p, io);
            && !r.ok && r.written == 0
            && (if Opens(s, io) && io.closes && io.renames then
                  Current !in r.state.files && Content(r.state.files, Rotated(io.now)) == Content(s.files, Current)
                else
                  SameRotated(r.state, s) && Content(r.state.files, Current) == Content(s.files, Current))
  {
  }

  /** Closing changes no file, and the write after it opens the file anew, whatever has
      failed before. */
  lemma ClosingRevives(s: State, maxSize: int, p: Text, io: Io)
    requires Valid(s) && io.opens && io.takes >= |p| && !TooLong(s, maxSize, p)
    ensures var r := Writing(Apply(s, maxSize, Close), maxSize, p, io);
            r.ok && SameRotated(r.state, s) && Content(r.state.files, Current) == Content(s.files, Current) + p
  {
    var closed := Apply(s, maxSize, Close);
    FittingIsAppended(closed, maxSize, p, io);
    assert p[..|p|] == p;
  }

  // ---- the writer -----------------------------------------------------------

  class FileWriter {
    const maxSize: int
    var files: map<Name, Text>
    ghost var order: seq<int>
    var handle: Handle
    var size: nat

    ghost function Now(): State
      reads this
    {
      State(files, order, handle, size)
    }

    /** A writer whose file is not open yet. */
    constructor (maxSize: int, files: map<Name, Text>, ghost order: seq<int>)
      ensures this.maxSize == maxSize && Now() == State(files, order, NotOpen, 0)
    {
      this.maxSize, this.files, this.order := maxSize, files, order;
      this.handle, this.size := NotOpen, 0;
    }

    method OpenFile(opens: bool) returns (ok: bool)
      modifies this
      ensures Now() == Opening(old(Now()), opens) && ok == opens
    {
      if !opens {
        return false;
      }
      files := files[Current := if Current in files then files[Current] else []];
      handle := Live;
      size := |files[Current]|;
      return true;
    }

    method Rotate(io: Io) returns (ok: bool)
      modifies this
      ensures (Now(), ok) == Rotating(old(Now()), io)
    {
      if handle != Live {
        return false;
      }
      handle := Dead;
      if !io.closes {
        return false;
      }
      if !io.renames {
        return false;
      }
      var text := if Current in files then files[Current] else [];
      files := (files - {Current})[Rotated(io.now) := text];
      order := Without(order, io.now) + [io.now];
      ok := OpenFile(io.reopens);
    }

    /** The first half of Write: the file is opened if need be and rotated if full. */
    method Prepare(p: Text, io: Io) returns (ok: bool)
      modifies this
      ensures (Now(), ok) == Prepared(old(Now()), maxSize, p, io)
    {
      if handle == NotOpen {
        ok := OpenFile(io.opens);
        if !ok {
          return false;
        }
      }
      if maxSize > 0 && size + |p| > maxSize {
        ok := Rotate(io);
        if !ok {
          return false;
        }
      }
      return true;
    }

    method Write(p: Text, io: Io) returns (n: nat, ok: bool)
      requires Valid(Now())
      modifies this
      ensures Result(Now(), n, ok) == Writing(old(Now()), maxSize, p, io)
      ensures Valid(Now())
      ensures ok && maxSize > 0 ==> size <= maxSize || (Current in files && files[Current] == p)
    {
      WritingValid(Now(), maxSize, p, io);
      ok := Prepare(p, io);
      if !ok || handle != Live {
        return 0, false;
      }
      n := Least(io.takes, |p|);
      files := files[Current := (if Current in files then files[Current] else []) + p[..n]];
      size := size + n;
      ok := n == |p|;
    }

    /** The file is let go even when closing it fails. */
    method Close(closes: bool) returns (ok: bool)
      requires Valid(Now())
      modifies this
      ensures Now() == Closing(old(Now())) && Valid(Now())
      ensures ok <==> old(handle) == NotOpen || (old(handle) == Live && closes)
    {
      if handle == NotOpen {
        return true;
      }
      ok := handle == Live && closes;
      handle := NotOpen;
    }
  }

  /** NewFileWriter: no writer if the file cannot be opened; otherwise a log file that is
      there already is appended to. */
  method NewFileWriter(maxSize: int, files: map<Name, Text>, ghost order: seq<int>, opens: bool)
    returns (w: FileWriter?)
    requires Lists(files, order)
    ensures w == null <==> !opens
    ensures w != null ==> fresh(w) && w.maxSize == maxSize && Valid(w.Now())
    ensures w != null ==> w.Now() == Opening(State(files, order, NotOpen, 0), true)
    ensures w != null ==> w.handle == Live && w.order == order && w.size == |Content(files, Current)|
    ensures w != null ==> w.files == files[Current := Content(files, Current)]
  {
    var writer := new FileWriter(maxSize, files, order);
    var ok := writer.OpenFile(opens);
    w := if ok then writer else null;
  }
}
