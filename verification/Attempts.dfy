/**
  The checkpoint attempt machine: the state of the runtime over a whole run, as far as
  it decides which attempt writes which directory.
 */
module Attempts {
  import opened Streams
  import opened Records
  import opened Directory

  /** What a directory holds: the info file's two numbers and the records written so far. */
  datatype Saved = Saved(labelNumber: nat, count: nat, records: seq<Record>) {
    function Bytes(): Dir {
      Files(InfoFile(labelNumber, count), records)
    }
  }

  datatype State = State(
    checkpointing: bool,
    counter: nat,
    interval: nat,
    enabled: bool,
    nextTime: nat,
    dir: nat,
    dirs: map<nat, Saved>)
  {
    predicate Performing() { checkpointing && enabled }

    /** The clock failing disables checkpointing for good and reads as zero. */
    function Clock(time: Option<nat>): (nat, State) {
      if time.Some? then (time.value, this) else (0, this.(checkpointing := false))
    }
  }

  /** One call of the emitted checkpoint block that writes a record. */
  datatype Request =
    | Pointer(sizeBits: nat, numElements: nat, body: seq<Byte>)
    | Alias(sizeBits: nat, numElements: nat, candidates: seq<Candidate<nat>>, current: nat)
  {
    /** An alias lookup that fails is written all the same, and ends the attempt. */
    predicate Resolves() {
      Alias? ==> FirstMatch(candidates, current).Some?
    }

    function Record(): Record {
      match this
      case Pointer(size, count, body) => PointerRecord(size, count, body)
      case Alias(size, count, candidates, current) => AliasRecord(size, count, LabelOf(FirstMatch(candidates, current)))
    }
  }

  // ----- the calls -----

  function Fresh(interval: nat, setupTime: Option<nat>, nextTime: Option<nat>, mkdir: bool): State {
    var start := State(true, 0, interval, true, 0, 0, map[]);
    var (_, s) := start.Clock(setupTime);
    var (now, t) := s.Clock(nextTime);
    var u := t.(nextTime := now + interval);
    if u.checkpointing && !mkdir then u.(checkpointing := false) else u
  }

  function Start(s: State, time: Option<nat>, labelNumber: nat, count: nat, mkdir: bool): State {
    var (now, t) := s.Clock(time);
    if now < t.nextTime then t.(enabled := false)
    else
      var u := t.(dir := t.counter, enabled := true);
      if !u.Performing() then u
      else if u.dir in u.dirs || !mkdir then u.(enabled := false)
      else u.(dirs := u.dirs[u.dir := Saved(labelNumber, count, [])])
  }

  /** More records in the current directory, with the attempt left live or not. */
  function Append(s: State, records: seq<Record>, live: bool): State
    requires s.dir in s.dirs
  {
    var d := s.dirs[s.dir];
    s.(dirs := s.dirs[s.dir := d.(records := d.records + records)], enabled := live)
  }

  function Write(s: State, r: Request): State {
    if !s.Performing() || s.dir !in s.dirs then s else Append(s, [r.Record()], r.Resolves())
  }

  function Finish(s: State, time: Option<nat>): State {
    if !s.Performing() then s
    else
      var (now, t) := s.(counter := s.counter + 1).Clock(time);
      t.(nextTime := now + t.interval)
  }

  /** The end of a restart: the next checkpoint is due an interval later. */
  function Restarted(s: State, time: Option<nat>): State {
    var (now, t) := s.Clock(time);
    t.(nextTime := now + t.interval)
  }

  // ----- attempts and runs -----

  /** One pass through a checkpoint block, with the clock readings and the outcome of `mkdir` it meets. */
  datatype Attempt = Attempt(
    labelNumber: nat,
    requests: seq<Request>,
    startTime: Option<nat>,
    mkdir: bool,
    finishTime: Option<nat>)
  {
    predicate Resolves() {
      AllResolve(requests)
    }

    /** The directory the attempt leaves: its records up to the first failed lookup. */
    function Left(): Saved {
      Saved(labelNumber, |requests|, RecordsWritten(requests))
    }
  }

  function RecordsWritten(rs: seq<Request>): seq<Record> {
    if rs == [] then []
    else if rs[0].Resolves() then [rs[0].Record()] + RecordsWritten(rs[1..])
    else [rs[0].Record()]
  }

  function WriteAll(s: State, rs: seq<Request>): State
    decreases |rs|
  {
    if rs == [] then s else WriteAll(Write(s, rs[0]), rs[1..])
  }

  function Opened(s: State, a: Attempt): State {
    Start(s, a.startTime, a.labelNumber, |a.requests|, a.mkdir)
  }

  function Run1(s: State, a: Attempt): State {
    Finish(WriteAll(Opened(s, a), a.requests), a.finishTime)
  }

  /** The machine as a function of state and attempt; the facts about runs only need its effect. */
  type Machine = (State, Attempt) -> State

  function Runtime(): Machine {
    (s: State, a: Attempt) => Run1(s, a)
  }

  function Run(machine: Machine, s: State, attempts: seq<Attempt>): State
    decreases |attempts|
  {
    if attempts == [] then s else Run(machine, machine(s, attempts[0]), attempts[1..])
  }

  /** The attempts that were completed, in order. */
  function Completed(machine: Machine, s: State, attempts: seq<Attempt>): seq<Attempt>
    decreases |attempts|
  {
    if attempts == [] then []
    else
      var t := machine(s, attempts[0]);
      var rest := Completed(machine, t, attempts[1..]);
      if t.counter > s.counter then [attempts[0]] + rest else rest
  }

  // ----- one attempt -----

  lemma {:induction false} NotPerforming(s: State, rs: seq<Request>)
    requires !s.Performing()
    ensures WriteAll(s, rs) == s
    decreases |rs|
  {
    if rs != [] { NotPerforming(s, rs[1..]); }
  }

  lemma AppendTwice(s: State, x: seq<Record>, y: seq<Record>, live: bool)
    requires s.dir in s.dirs
    ensures Append(Append(s, x, true), y, live) == Append(s, x + y, live)
  {
    var d := s.dirs[s.dir];
    assert d.records + x + y == d.records + (x + y);
  }

  predicate AllResolve(rs: seq<Request>) {
    forall r :: r in rs ==> r.Resolves()
  }

  lemma {:induction false} WritesAppend(s: State, rs: seq<Request>)
    requires s.Performing() && s.dir in s.dirs
    ensures WriteAll(s, rs) == Append(s, RecordsWritten(rs), AllResolve(rs))
    decreases |rs|
  {
    if rs == [] {
      assert s.dirs[s.dir].records + [] == s.dirs[s.dir].records;
      assert s.dirs[s.dir := s.dirs[s.dir]] == s.dirs;
    } else {
      var t := Write(s, rs[0]);
      assert forall r :: r in rs <==> r == rs[0] || r in rs[1..];
      if rs[0].Resolves() {
        WritesAppend(t, rs[1..]);
        AppendTwice(s, [rs[0].Record()], RecordsWritten(rs[1..]), AllResolve(rs[1..]));
      } else {
        NotPerforming(t, rs[1..]);
      }
    }
  }

  /** Whether an attempt gets a directory of its own. */
  predicate GetsDirectory(s: State, a: Attempt) {
    && s.checkpointing && a.startTime.Some? && s.nextTime <= a.startTime.value
    && s.counter !in s.dirs && a.mkdir
  }

  /**
    Everything one attempt does: at most one new directory, which counts exactly when all lookups succeed; checkpointing
    goes on unless the clock fails, however early the attempt comes.
   */
  ghost predicate Effect(s: State, a: Attempt, t: State) {
    && t.interval == s.interval
    && t.dirs == (if GetsDirectory(s, a) then s.dirs[s.counter := a.Left()] else s.dirs)
    && t.counter == (if GetsDirectory(s, a) && a.Resolves() then s.counter + 1 else s.counter)
    && (t.checkpointing <==> s.checkpointing && a.startTime.Some? && (t.counter > s.counter ==> a.finishTime.Some?))
    && t.nextTime == (if t.counter == s.counter then s.nextTime
                      else (if a.finishTime.Some? then a.finishTime.value else 0) + s.interval)
  }

  ghost predicate Behaves(machine: Machine) {
    forall s, a :: Effect(s, a, machine(s, a))
  }

  lemma AttemptEffect(s: State, a: Attempt)
    ensures Effect(s, a, Run1(s, a))
  {
    var o := Opened(s, a);
    if GetsDirectory(s, a) {
      WritesAppend(o, a.requests);
      assert [] + RecordsWritten(a.requests) == RecordsWritten(a.requests);
      assert o.dirs[o.dir := a.Left()] == s.dirs[s.counter := a.Left()];
    } else {
      assert !o.Performing();
      NotPerforming(o, a.requests);
    }
  }

  lemma RuntimeBehaves()
    ensures Behaves(Runtime())
  {
    forall s, a ensures Effect(s, a, Runtime()(s, a)) { AttemptEffect(s, a); }
  }

  lemma {:induction false} WrittenWhenResolved(rs: seq<Request>)
    ensures |RecordsWritten(rs)| <= |rs|
    ensures (forall r :: r in rs ==> r.Resolves()) ==> |RecordsWritten(rs)| == |rs|
    ensures forall i :: 0 <= i < |RecordsWritten(rs)| ==> RecordsWritten(rs)[i] == rs[i].Record()
  {
    if rs != [] {
      assert rs[0] in rs && forall r :: r in rs[1..] ==> r in rs;
      WrittenWhenResolved(rs[1..]);
      var written, rest := RecordsWritten(rs), RecordsWritten(rs[1..]);
      forall i | 0 <= i < |written| ensures written[i] == rs[i].Record() {
        if i > 0 { assert written[i] == rest[i - 1] == rs[1..][i - 1].Record(); }
      }
    }
  }

  /** Writing stops behind the first lookup that fails, and nowhere else. */
  lemma {:induction false} StopsAtFailure(rs: seq<Request>)
    ensures var n := |RecordsWritten(rs)|;
            && n <= |rs| && (forall i :: 0 <= i < n - 1 ==> rs[i].Resolves())
            && (n < |rs| ==> n > 0 && !rs[n - 1].Resolves())
  {
    if rs != [] && rs[0].Resolves() {
      StopsAtFailure(rs[1..]);
      var n := |RecordsWritten(rs)|;
      forall i | 0 <= i < n - 1 ensures rs[i].Resolves() {
        if i > 0 { assert rs[i] == rs[1..][i - 1]; }
      }
    }
  }

  // ----- runs -----

  /** Between attempts: the completed directories are there, and at most the next one besides. */
  ghost predicate Between(s: State) {
    forall d: nat :: (d < s.counter ==> d in s.dirs) && (d in s.dirs ==> d <= s.counter)
  }

  /** An attempt never writes into a directory that exists. */
  lemma {:induction false} RunKeepsDirectories(machine: Machine, s: State, attempts: seq<Attempt>)
    requires Behaves(machine)
    ensures var t := Run(machine, s, attempts);
            t.counter >= s.counter && forall d :: d in s.dirs && d != s.counter ==> d in t.dirs && t.dirs[d] == s.dirs[d]
    ensures s.counter in s.dirs ==> Run(machine, s, attempts).dirs == s.dirs
    decreases |attempts|
  {
    if attempts != [] {
      var t := machine(s, attempts[0]);
      assert Effect(s, attempts[0], t);
      RunKeepsDirectories(machine, t, attempts[1..]);
    }
  }

  /** What is known of the directories of `done` after a run that started with `first` complete ones. */
  ghost predicate Hold(dirs: map<nat, Saved>, first: nat, done: seq<Attempt>) {
    forall i :: 0 <= i < |done| ==>
      done[i].Resolves() && first + i in dirs && dirs[first + i] == done[i].Left()
  }

  /**
    Over every run the completed directories are exactly those below the counter, one for each completed
    attempt in turn, each holding all the records of its attempt and nothing else.
   */
  lemma {:induction false} CompletedDirectories(machine: Machine, s: State, attempts: seq<Attempt>)
    requires Behaves(machine) && Between(s)
    ensures var t := Run(machine, s, attempts);
            var done := Completed(machine, s, attempts);
            Between(t) && t.counter == s.counter + |done| && Hold(t.dirs, s.counter, done)
    decreases |attempts|
  {
    if attempts != [] {
      var a := attempts[0];
      var t := machine(s, a);
      assert Effect(s, a, t);
      CompletedDirectories(machine, t, attempts[1..]);
      RunKeepsDirectories(machine, t, attempts[1..]);
      var rest := Completed(machine, t, attempts[1..]);
      if t.counter > s.counter {
        HoldCons(Run(machine, t, attempts[1..]).dirs, s.counter, a, rest);
      }
    }
  }

  lemma HoldCons(dirs: map<nat, Saved>, first: nat, a: Attempt, rest: seq<Attempt>)
    requires Hold(dirs, first + 1, rest)
    requires a.Resolves() && first in dirs && dirs[first] == a.Left()
    ensures Hold(dirs, first, [a] + rest)
  {
    var done := [a] + rest;
    forall i | 0 <= i < |done|
      ensures done[i].Resolves() && first + i in dirs && dirs[first + i] == done[i].Left()
    {
      if i > 0 { assert done[i] == rest[i - 1] && first + 1 + (i - 1) == first + i; }
    }
  }

  /** Once the next directory exists without being complete, nothing is written or counted ever again. */
  lemma {:induction false} AbandonedFreezes(machine: Machine, s: State, attempts: seq<Attempt>)
    requires Behaves(machine) && s.counter in s.dirs
    ensures Run(machine, s, attempts).counter == s.counter && Run(machine, s, attempts).dirs == s.dirs
    ensures Completed(machine, s, attempts) == []
    decreases |attempts|
  {
    if attempts != [] {
      assert Effect(s, attempts[0], machine(s, attempts[0]));
      AbandonedFreezes(machine, machine(s, attempts[0]), attempts[1..]);
    }
  }

  /** An attempt that got its directory and failed a lookup leaves the runtime in that frozen state. */
  lemma FailedLookupFreezes(machine: Machine, s: State, a: Attempt, later: seq<Attempt>)
    requires Behaves(machine) && GetsDirectory(s, a) && !a.Resolves()
    ensures var t := Run(machine, s, [a] + later);
            t.counter == s.counter && t.dirs == s.dirs[s.counter := a.Left()]
    ensures Completed(machine, s, [a] + later) == []
  {
    var t := machine(s, a);
    assert Effect(s, a, t);
    assert ([a] + later)[1..] == later;
    AbandonedFreezes(machine, t, later);
  }

  // ----- the directories of a run -----

  /** The attempts that got a directory of their own, in order. */
  function Writers(machine: Machine, s: State, attempts: seq<Attempt>): seq<Attempt>
    decreases |attempts|
  {
    if attempts == [] then []
    else
      var rest := Writers(machine, machine(s, attempts[0]), attempts[1..]);
      if GetsDirectory(s, attempts[0]) then [attempts[0]] + rest else rest
  }

  ghost predicate LeftAt(dirs: map<nat, Saved>, d: nat, a: Attempt) {
    d in dirs && dirs[d] == a.Left()
  }

  /** Numbered from `first`, the directories are those of `ws`; all but the last one's attempt were completed. */
  ghost predicate WrittenBy(dirs: map<nat, Saved>, first: nat, ws: seq<Attempt>) {
    && (forall d :: d in dirs && first <= d ==> d < first + |ws|)
    && (forall i :: 0 <= i < |ws| ==> LeftAt(dirs, first + i, ws[i]))
    && forall i :: 0 <= i < |ws| - 1 ==> ws[i].Resolves()
  }

  predicate AllComplete(ws: seq<Attempt>) {
    ws == [] || ws[|ws| - 1].Resolves()
  }

  function WithoutAbandoned(ws: seq<Attempt>): seq<Attempt> {
    if AllComplete(ws) then ws else ws[..|ws| - 1]
  }

  /** From directory `first` on the attempts `ws` got their directories, and those that were not abandoned were completed. */
  ghost predicate Wrote(first: nat, t: State, ws: seq<Attempt>, done: seq<Attempt>) {
    WrittenBy(t.dirs, first, ws) && done == WithoutAbandoned(ws) && t.counter == first + |done|
  }

  /**
    Over every run the directories are one for each attempt that got one, numbered in their order; only the last of these
    attempts may have been abandoned, and the counter is its number then.
   */
  lemma {:induction false} DirectoriesWritten(machine: Machine, s: State, attempts: seq<Attempt>)
    requires Behaves(machine) && Between(s) && s.counter !in s.dirs
    ensures Wrote(s.counter, Run(machine, s, attempts), Writers(machine, s, attempts), Completed(machine, s, attempts))
    decreases |attempts|
  {
    if attempts != [] {
      var a, rest := attempts[0], attempts[1..];
      var t := machine(s, a);
      assert Effect(s, a, t);
      if t.counter in t.dirs {
        AbandonedFreezes(machine, t, rest);
        FrozenWrites(machine, t, rest);
        AbandonedWrote(s, a, t);
      } else {
        DirectoriesWritten(machine, t, rest);
        if GetsDirectory(s, a) {
          RunKeepsDirectories(machine, t, rest);
          WroteCons(s.counter, a, Run(machine, t, rest), Writers(machine, t, rest), Completed(machine, t, rest));
        }
      }
    }
  }

  lemma AbandonedWrote(s: State, a: Attempt, t: State)
    requires Effect(s, a, t) && Between(s) && s.counter !in s.dirs && t.counter in t.dirs
    ensures GetsDirectory(s, a) && t.counter == s.counter && Wrote(s.counter, t, [a], [])
  {
  }

  lemma WroteCons(first: nat, a: Attempt, t: State, ws: seq<Attempt>, done: seq<Attempt>)
    requires Wrote(first + 1, t, ws, done) && a.Resolves() && first in t.dirs && t.dirs[first] == a.Left()
    ensures Wrote(first, t, [a] + ws, [a] + done)
  {
    WrittenCons(t.dirs, first, a, ws);
  }

  lemma {:induction false} WritersAreAttempts(machine: Machine, s: State, attempts: seq<Attempt>)
    ensures forall a :: a in Writers(machine, s, attempts) ==> a in attempts
    decreases |attempts|
  {
    if attempts != [] { WritersAreAttempts(machine, machine(s, attempts[0]), attempts[1..]); }
  }

  lemma {:induction false} FrozenWrites(machine: Machine, s: State, attempts: seq<Attempt>)
    requires Behaves(machine) && s.counter in s.dirs
    ensures Writers(machine, s, attempts) == []
    decreases |attempts|
  {
    if attempts != [] {
      assert Effect(s, attempts[0], machine(s, attempts[0]));
      FrozenWrites(machine, machine(s, attempts[0]), attempts[1..]);
    }
  }

  lemma WrittenCons(dirs: map<nat, Saved>, first: nat, a: Attempt, rest: seq<Attempt>)
    requires WrittenBy(dirs, first + 1, rest) && a.Resolves() && first in dirs && dirs[first] == a.Left()
    ensures WrittenBy(dirs, first, [a] + rest)
    ensures WithoutAbandoned([a] + rest) == [a] + WithoutAbandoned(rest)
  {
    var ws := [a] + rest;
    forall i | 0 <= i < |ws| ensures LeftAt(dirs, first + i, ws[i]) && (i < |ws| - 1 ==> ws[i].Resolves()) {
      if i > 0 { assert LeftAt(dirs, first + 1 + (i - 1), rest[i - 1]) && ws[i] == rest[i - 1]; }
    }
    if rest != [] {
      assert ws[|ws| - 1] == rest[|rest| - 1] && ws[..|ws| - 1] == [a] + rest[..|rest| - 1];
    }
  }

  /** Clock readings never go back during an attempt. */
  predicate Monotone(a: Attempt) {
    a.startTime.Some? && a.finishTime.Some? ==> a.startTime.value <= a.finishTime.value
  }

  /** No attempt of `done` starts before `earliest`, nor within an interval of the finish of an earlier one. */
  ghost predicate Spaced(done: seq<Attempt>, earliest: nat, interval: nat) {
    && (forall i :: 0 <= i < |done| ==> done[i].startTime.Some? && earliest <= done[i].startTime.value)
    && (forall i, j :: 0 <= i < j < |done| ==> Apart(done[i], done[j], interval))
  }

  predicate Apart(a: Attempt, b: Attempt, interval: nat) {
    a.finishTime.Some? && b.startTime.Some? && a.finishTime.value + interval <= b.startTime.value
  }

  lemma SpacedCons(a: Attempt, rest: seq<Attempt>, earliest: nat, interval: nat)
    requires a.startTime.Some? && earliest <= a.startTime.value && Monotone(a)
    requires rest != [] ==> a.finishTime.Some? && Spaced(rest, a.finishTime.value + interval, interval)
    ensures Spaced([a] + rest, earliest, interval)
  {
    var done := [a] + rest;
    assert forall i :: 0 < i < |done| ==> done[i] == rest[i - 1];
    forall i, j | 0 <= i < j < |done| ensures Apart(done[i], done[j], interval) {
      assert done[j] == rest[j - 1];
      if i > 0 { assert Apart(rest[i - 1], rest[j - 1], interval); }
    }
  }

  /** Each completed attempt starts at least one interval after every earlier one finished. */
  lemma {:induction false} IntervalsKept(machine: Machine, s: State, attempts: seq<Attempt>)
    requires Behaves(machine)
    requires forall a :: a in attempts ==> Monotone(a)
    ensures Spaced(Completed(machine, s, attempts), s.nextTime, s.interval)
    ensures !s.checkpointing ==> Completed(machine, s, attempts) == []
    decreases |attempts|
  {
    if attempts != [] {
      var a := attempts[0];
      var t := machine(s, a);
      assert Effect(s, a, t);
      IntervalsKept(machine, t, attempts[1..]);
      if t.counter > s.counter {
        SpacedCons(a, Completed(machine, t, attempts[1..]), s.nextTime, s.interval);
      }
    }
  }

  // ----- which attempts are completed -----

  /** An attempt that meets no failure. */
  predicate Smooth(a: Attempt) {
    a.startTime.Some? && a.finishTime.Some? && a.mkdir && a.Resolves()
  }

  /** Of attempts without failures, those that start when one is due: at `next`, and an interval after the last one's finish. */
  function Due(next: nat, interval: nat, attempts: seq<Attempt>): seq<Attempt>
    requires forall a :: a in attempts ==> Smooth(a)
    decreases |attempts|
  {
    if attempts == [] then []
    else
      var a := attempts[0];
      assert a in attempts && Smooth(a);
      if a.startTime.value < next then Due(next, interval, attempts[1..])
      else [a] + Due(a.finishTime.value + interval, interval, attempts[1..])
  }

  /** Without failures exactly the attempts that are due are completed, however many come too early in between. */
  lemma {:induction false} CompletedAreDue(machine: Machine, s: State, attempts: seq<Attempt>)
    requires Behaves(machine) && Between(s) && s.checkpointing && s.counter !in s.dirs
    requires forall a :: a in attempts ==> Smooth(a)
    ensures Completed(machine, s, attempts) == Due(s.nextTime, s.interval, attempts)
    ensures Run(machine, s, attempts).checkpointing
    decreases |attempts|
  {
    if attempts != [] {
      var t := machine(s, attempts[0]);
      assert attempts[0] in attempts && Effect(s, attempts[0], t);
      CompletedAreDue(machine, t, attempts[1..]);
    }
  }

  /** A run whose setup reads the clock and makes its directory completes nothing before an interval has passed. */
  lemma FirstInterval(interval: nat, setup: nat, reading: nat, attempts: seq<Attempt>)
    requires forall a :: a in attempts ==> Monotone(a)
    ensures Spaced(Completed(Runtime(), Fresh(interval, Some(setup), Some(reading), true), attempts), reading + interval, interval)
    ensures (forall a :: a in attempts ==> Smooth(a)) ==>
              Completed(Runtime(), Fresh(interval, Some(setup), Some(reading), true), attempts)
              == Due(reading + interval, interval, attempts)
  {
    var s := Fresh(interval, Some(setup), Some(reading), true);
    RuntimeBehaves();
    IntervalsKept(Runtime(), s, attempts);
    if forall a :: a in attempts ==> Smooth(a) {
      CompletedAreDue(Runtime(), s, attempts);
    }
  }

  /** Where the setup fails to read the clock or to make its directory, no directory is ever written. */
  lemma FailedSetup(interval: nat, setup: Option<nat>, reading: Option<nat>, mkdir: bool, attempts: seq<Attempt>)
    requires setup.None? || reading.None? || !mkdir
    ensures Run(Runtime(), Fresh(interval, setup, reading, mkdir), attempts).dirs == map[]
    ensures Completed(Runtime(), Fresh(interval, setup, reading, mkdir), attempts) == []
  {
    RuntimeBehaves();
    NothingWhenOff(Runtime(), Fresh(interval, setup, reading, mkdir), attempts);
  }

  lemma {:induction false} NothingWhenOff(machine: Machine, s: State, attempts: seq<Attempt>)
    requires Behaves(machine) && !s.checkpointing
    ensures Run(machine, s, attempts).dirs == s.dirs && Completed(machine, s, attempts) == []
    decreases |attempts|
  {
    if attempts != [] {
      assert Effect(s, attempts[0], machine(s, attempts[0]));
      NothingWhenOff(machine, machine(s, attempts[0]), attempts[1..]);
    }
  }

  /** A restarted process, which has not made a checkpoint yet, waits an interval from the end of its restart. */
  lemma IntervalBehindRestart(s: State, reading: nat, attempts: seq<Attempt>)
    requires forall a :: a in attempts ==> Monotone(a)
    ensures Spaced(Completed(Runtime(), Restarted(s, Some(reading)), attempts), reading + s.interval, s.interval)
  {
    RuntimeBehaves();
    IntervalsKept(Runtime(), Restarted(s, Some(reading)), attempts);
  }

  // ----- what the validator makes of the directories -----

  /** The bytes of the records of an attempt are as long as their sizes say, and there are fewer than 2^64. */
  predicate ValidAttempt(a: Attempt) {
    && a.labelNumber < WORD / 2 && 0 < |a.requests| < WORD
    && forall r :: r in a.requests ==> r.Record().Valid()
  }

  function RecordsOf(a: Attempt): seq<Record> {
    seq(|a.requests|, i requires 0 <= i < |a.requests| => a.requests[i].Record())
  }

  lemma LeftWhenAllWritten(a: Attempt)
    requires |RecordsWritten(a.requests)| == |a.requests|
    ensures a.Left() == Saved(a.labelNumber, |a.requests|, RecordsOf(a))
  {
    WrittenWhenResolved(a.requests);
    assert RecordsWritten(a.requests) == RecordsOf(a);
  }

  /** All records are there exactly when no lookup but the last one's failed. */
  lemma {:induction false} AllWritten(rs: seq<Request>)
    ensures |RecordsWritten(rs)| == |rs| <==> OnlyLastMayFail(rs)
  {
    if |rs| > 1 {
      AllWritten(rs[1..]);
      if rs[0].Resolves() {
        assert forall i :: 0 <= i < |rs| - 2 ==> rs[1..][i] == rs[i + 1];
      } else {
        assert !rs[0].Resolves();
      }
    }
  }

  predicate OnlyLastMayFail(rs: seq<Request>) {
    forall i :: 0 <= i < |rs| - 1 ==> rs[i].Resolves()
  }

  /** No lookup but the last record's failed, and each record is acceptable to the validator. */
  predicate LeavesUsable(lib: Library, a: Attempt) {
    OnlyLastMayFail(a.requests) && AllAcceptable(AcceptableBy(lib), RecordsOf(a))
  }

  /** Exactly then the directory an attempt leaves is accepted, and with the attempt's label. */
  lemma LeftAccepted(lib: Library, a: Attempt)
    requires ValidAttempt(a)
    ensures Accepted(lib, a.Left().Bytes()) ==
            if LeavesUsable(lib, a) then Some((a.labelNumber, |a.requests|)) else None
  {
    AllWritten(a.requests);
    WrittenWhenResolved(a.requests);
    if |RecordsWritten(a.requests)| == |a.requests| {
      LeftWhenAllWritten(a);
      RecordsAreValid(a);
      WrittenAccepted(lib, a.labelNumber, RecordsOf(a));
    } else {
      InfoRoundTrip(lib, a.labelNumber, |a.requests|);
      LastRejected(lib, InfoFile(a.labelNumber, |a.requests|), a.labelNumber, |a.requests|, a.Left().Bytes());
    }
  }

  lemma RecordsAreValid(a: Attempt)
    requires ValidAttempt(a)
    ensures forall r :: r in RecordsOf(a) ==> r.Valid()
  {
    forall r | r in RecordsOf(a)
      ensures r.Valid()
    {
      var i :| 0 <= i < |a.requests| && RecordsOf(a)[i] == r;
      assert a.requests[i] in a.requests;
    }
  }

  /** An attempt whose only lookup fails: it is abandoned, and what it leaves validates all the same. */
  function Unresolved(): Attempt {
    Attempt(7, [Alias(8, 1, [], 0)], Some(1), true, Some(2))
  }

  lemma FailedLookupValidates(lib: Library)
    ensures ValidAttempt(Unresolved()) && !Unresolved().Resolves() && Unresolved().Left().records == [AliasRecord(8, 1, 0)]
    ensures Accepted(lib, Unresolved().Left().Bytes()) == Some((7, 1))
  {
    assert Unresolved().requests[0] in Unresolved().requests;
    LeftAccepted(lib, Unresolved());
  }
}
