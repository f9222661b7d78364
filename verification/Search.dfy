/**
  The search for the newest checkpoint that validates, and what it finds after a crash.
 */
module Search {
  import opened Streams
  import opened Records
  import opened Directory
  import opened Attempts

  /** The numbers read from directory names, and the directories found under the rebuilt names. */
  datatype Listing = Listing(numbers: map<nat, set<nat>>, dirs: map<(nat, nat), Dir>)

  type Verdicts = Dir -> Option<(nat, nat)>

  function ValidatorVerdicts(lib: Library): Verdicts {
    (dir: Dir) => Accepted(lib, dir)
  }

  ghost predicate JudgesDirectories(lib: Library, verdict: Verdicts) {
    forall dir {:trigger Accepted(lib, dir)} :: verdict(dir) == Accepted(lib, dir)
  }

  predicate Usable(verdict: Verdicts, fs: Listing, epoch: nat, number: nat) {
    && epoch in fs.numbers && number in fs.numbers[epoch]
    && (epoch, number) in fs.dirs && verdict(fs.dirs[(epoch, number)]).Some?
  }

  predicate Older(e: nat, n: nat, epoch: nat, number: nat) {
    e < epoch || (e == epoch && n <= number)
  }

  /** The usable directory with the largest epoch, and the largest number in it. */
  ghost predicate Newest(verdict: Verdicts, fs: Listing, epoch: nat, number: nat) {
    && Usable(verdict, fs, epoch, number)
    && forall e, n :: Usable(verdict, fs, e, n) ==> Older(e, n, epoch, number)
  }

  lemma {:induction false} LargestExists(s: set<nat>) returns (m: nat)
    requires s != {}
    ensures m in s && forall x :: x in s ==> x <= m
  {
    m :| m in s;
    if s != {m} {
      var rest := s - {m};
      var k := LargestExists(rest);
      assert forall x :: x in s ==> x == m || x in rest;
      if k > m { m := k; }
    }
  }

  /** The validator's verdict on a directory of the listing, when it is there. */
  method Judge(lib: Library, fs: Listing, epoch: nat, number: nat, ghost verdict: Verdicts)
    returns (valid: bool, labelNumber: int)
    requires JudgesDirectories(lib, verdict) && epoch in fs.numbers && number in fs.numbers[epoch]
    ensures valid == Usable(verdict, fs, epoch, number)
    ensures valid ==> labelNumber == verdict(fs.dirs[(epoch, number)]).value.0
  {
    valid, labelNumber := false, -1;
    if (epoch, number) in fs.dirs {
      assert verdict(fs.dirs[(epoch, number)]) == Accepted(lib, fs.dirs[(epoch, number)]);
      var numVariables;
      valid, labelNumber, numVariables := CheckpointValid(lib, fs.dirs[(epoch, number)]);
    }
  }

  /** `__acriilRestartGetLabel`: the label of the newest usable checkpoint and its directory, or -1. */
  method RestartGetLabel(lib: Library, fs: Listing, ghost verdict: Verdicts) returns (labelNumber: int, chosen: Option<(nat, nat)>)
    requires JudgesDirectories(lib, verdict)
    ensures chosen.Some? ==> Newest(verdict, fs, chosen.value.0, chosen.value.1)
                             && labelNumber == verdict(fs.dirs[chosen.value]).value.0
    ensures chosen.None? ==> labelNumber == -1 && forall e, n :: !Usable(verdict, fs, e, n)
  {
    labelNumber, chosen := -1, None;
    var epochs := fs.numbers.Keys;
    while epochs != {} && chosen.None?
      invariant epochs <= fs.numbers.Keys
      invariant chosen.None? ==> labelNumber == -1 && forall e, n :: Usable(verdict, fs, e, n) ==> e in epochs
      invariant chosen.Some? ==> Newest(verdict, fs, chosen.value.0, chosen.value.1)
                                 && labelNumber == verdict(fs.dirs[chosen.value]).value.0
      decreases epochs
    {
      ghost var last := LargestExists(epochs);
      var epoch: nat :| epoch in epochs && forall x :: x in epochs ==> x <= epoch;
      var checkpoints := fs.numbers[epoch];
      while checkpoints != {} && chosen.None?
        invariant checkpoints <= fs.numbers[epoch]
        invariant chosen.None? ==> labelNumber == -1
        invariant chosen.None? ==> forall n :: Usable(verdict, fs, epoch, n) ==> n in checkpoints
        invariant chosen.Some? ==> Newest(verdict, fs, chosen.value.0, chosen.value.1)
                                   && labelNumber == verdict(fs.dirs[chosen.value]).value.0
        decreases checkpoints
      {
        ghost var top := LargestExists(checkpoints);
        var number: nat :| number in checkpoints && forall x :: x in checkpoints ==> x <= number;
        var valid, read := Judge(lib, fs, epoch, number, verdict);
        if valid {
          labelNumber, chosen := read, Some((epoch, number));
        }
        checkpoints := checkpoints - {number};
      }
      epochs := epochs - {epoch};
    }
  }

  lemma NewestIsUnique(verdict: Verdicts, fs: Listing, e: nat, n: nat, epoch: nat, number: nat)
    requires Newest(verdict, fs, e, n) && Newest(verdict, fs, epoch, number)
    ensures e == epoch && n == number
  {
    assert Older(e, n, epoch, number) && Older(epoch, number, e, n);
  }

  // ----- after a crash -----

  /** What older runs left, this run's base directory, and what a crash left of the directory being written. */
  function AfterCrash(older: Listing, epoch: nat, dirs: map<nat, Saved>, cut: Option<(nat, Dir)>): Listing {
    var saved := map d | d in dirs :: dirs[d].Bytes();
    var all := if cut.Some? then saved[cut.value.0 := cut.value.1] else saved;
    Listing(older.numbers[epoch := all.Keys], older.dirs + map d | d in all :: (epoch, d) := all[d])
  }

  predicate Earlier(older: Listing, epoch: nat) {
    (forall e :: e in older.numbers ==> e < epoch) && forall k :: k in older.dirs ==> k.0 < epoch
  }

  /** A directory of this run, or of an older one, seen from the disk. */
  ghost predicate SeesAt(verdict: Verdicts, older: Listing, fs: Listing, epoch: nat, dirs: map<nat, Saved>, e: nat, n: nat) {
    if e != epoch then
      && (Usable(verdict, fs, e, n) <==> Usable(verdict, older, e, n))
      && (Usable(verdict, older, e, n) ==> e < epoch)
    else
      && (Usable(verdict, fs, e, n) <==> n in dirs && verdict(dirs[n].Bytes()).Some?)
      && (n in dirs ==> (e, n) in fs.dirs && fs.dirs[(e, n)] == dirs[n].Bytes())
      && !Usable(verdict, older, e, n)
  }

  ghost predicate Sees(verdict: Verdicts, older: Listing, fs: Listing, epoch: nat, dirs: map<nat, Saved>) {
    forall e: nat, n: nat :: SeesAt(verdict, older, fs, epoch, dirs, e, n)
  }

  lemma UsableAfterCrash(verdict: Verdicts, older: Listing, epoch: nat, dirs: map<nat, Saved>, cut: Option<(nat, Dir)>)
    requires Earlier(older, epoch)
    requires cut.Some? ==> cut.value.0 !in dirs && verdict(cut.value.1).None?
    ensures Sees(verdict, older, AfterCrash(older, epoch, dirs, cut), epoch, dirs)
  {
    forall e: nat, n: nat ensures SeesAt(verdict, older, AfterCrash(older, epoch, dirs, cut), epoch, dirs, e, n) {
      if e == epoch {
        OwnUsable(verdict, older, epoch, dirs, cut, n);
      } else {
        OlderUsable(verdict, older, epoch, dirs, cut, e, n);
      }
    }
  }

  lemma OwnUsable(verdict: Verdicts, older: Listing, epoch: nat, dirs: map<nat, Saved>, cut: Option<(nat, Dir)>, n: nat)
    requires Earlier(older, epoch) && (cut.Some? ==> cut.value.0 !in dirs && verdict(cut.value.1).None?)
    ensures var fs := AfterCrash(older, epoch, dirs, cut);
            && (Usable(verdict, fs, epoch, n) <==> n in dirs && verdict(dirs[n].Bytes()).Some?)
            && (n in dirs ==> (epoch, n) in fs.dirs && fs.dirs[(epoch, n)] == dirs[n].Bytes())
  {
    OwnDirectory(older, epoch, dirs, cut, n);
  }

  lemma OlderUsable(verdict: Verdicts, older: Listing, epoch: nat, dirs: map<nat, Saved>, cut: Option<(nat, Dir)>, e: nat, n: nat)
    requires e != epoch
    ensures Usable(verdict, AfterCrash(older, epoch, dirs, cut), e, n) <==> Usable(verdict, older, e, n)
  {
    OlderDirectory(older, epoch, dirs, cut, e, n);
  }

  lemma OwnDirectory(older: Listing, epoch: nat, dirs: map<nat, Saved>, cut: Option<(nat, Dir)>, n: nat)
    requires Earlier(older, epoch) && (cut.Some? ==> cut.value.0 !in dirs)
    ensures var fs := AfterCrash(older, epoch, dirs, cut);
            && epoch in fs.numbers
            && (n in fs.numbers[epoch] <==> n in dirs || (cut.Some? && n == cut.value.0))
            && ((epoch, n) in fs.dirs <==> n in fs.numbers[epoch])
            && (n in fs.numbers[epoch] ==> fs.dirs[(epoch, n)] == if n in dirs then dirs[n].Bytes() else cut.value.1)
  {
  }

  lemma OlderDirectory(older: Listing, epoch: nat, dirs: map<nat, Saved>, cut: Option<(nat, Dir)>, e: nat, n: nat)
    requires e != epoch
    ensures var fs := AfterCrash(older, epoch, dirs, cut);
            && (e in fs.numbers <==> e in older.numbers) && (e in fs.numbers ==> fs.numbers[e] == older.numbers[e])
            && ((e, n) in fs.dirs <==> (e, n) in older.dirs) && ((e, n) in fs.dirs ==> fs.dirs[(e, n)] == older.dirs[(e, n)])
  {
  }

  /** The last of the attempts `ws` that leave a usable directory. */
  ghost predicate LastUsable(lib: Library, ws: seq<Attempt>, n: nat) {
    n < |ws| && LeavesUsable(lib, ws[n]) && forall m :: n < m < |ws| ==> !LeavesUsable(lib, ws[m])
  }

  /** What the search finds: the last usable directory of this run, and only without any the newest of the older runs. */
  ghost predicate FallsBack(lib: Library, older: Listing, fs: Listing, epoch: nat, ws: seq<Attempt>) {
    var verdict := ValidatorVerdicts(lib);
    && (forall n: nat :: Newest(verdict, fs, epoch, n) <==> LastUsable(lib, ws, n))
    && (forall n: nat :: LastUsable(lib, ws, n) ==> verdict(fs.dirs[(epoch, n)]) == Some((ws[n].labelNumber, |ws[n].requests|)))
    && ((forall n :: 0 <= n < |ws| ==> !LeavesUsable(lib, ws[n])) ==>
          forall e: nat, n: nat :: Newest(verdict, fs, e, n) <==> Newest(verdict, older, e, n))
  }

  lemma WriterUsable(lib: Library, dirs: map<nat, Saved>, ws: seq<Attempt>, n: nat)
    requires WrittenBy(dirs, 0, ws) && forall a :: a in ws ==> ValidAttempt(a)
    ensures n in dirs <==> n < |ws|
    ensures n < |ws| ==> ValidatorVerdicts(lib)(dirs[n].Bytes()) == WriterVerdict(lib, ws[n])
  {
    if n < |ws| {
      assert ws[n] in ws && LeftAt(dirs, 0 + n, ws[n]);
      LeftAccepted(lib, ws[n]);
    }
  }

  function WriterVerdict(lib: Library, a: Attempt): Option<(nat, nat)> {
    if LeavesUsable(lib, a) then Some((a.labelNumber, |a.requests|)) else None
  }

  /** The newest directory, when those of this run are usable as `usable` says. */
  lemma NewestOfRun(verdict: Verdicts, older: Listing, fs: Listing, epoch: nat, dirs: map<nat, Saved>, count: nat, usable: nat -> bool)
    requires Sees(verdict, older, fs, epoch, dirs)
    requires forall n: nat :: n in dirs && verdict(dirs[n].Bytes()).Some? <==> n < count && usable(n)
    ensures forall n: nat :: Newest(verdict, fs, epoch, n) <==>
                             n < count && usable(n) && forall m: nat :: n < m < count ==> !usable(m)
    ensures (forall n: nat :: n < count ==> !usable(n)) ==>
              forall e: nat, n: nat :: Newest(verdict, fs, e, n) <==> Newest(verdict, older, e, n)
  {
    forall e: nat, n: nat
      ensures Usable(verdict, fs, e, n) <==> if e == epoch then n < count && usable(n) else Usable(verdict, older, e, n)
      ensures Usable(verdict, older, e, n) ==> e < epoch
    {
      assert SeesAt(verdict, older, fs, epoch, dirs, e, n);
    }
    forall n: nat
      ensures Newest(verdict, fs, epoch, n) <==> n < count && usable(n) && forall m: nat :: n < m < count ==> !usable(m)
    {
      if Newest(verdict, fs, epoch, n) {
        forall m: nat | n < m < count ensures !usable(m) { assert Usable(verdict, fs, epoch, m) ==> Older(epoch, m, epoch, n); }
      }
    }
  }

  /** The attempts of `ws` that leave usable directories, by their numbers. */
  function UsableNumbers(lib: Library, ws: seq<Attempt>): nat -> bool {
    (n: nat) => n < |ws| && LeavesUsable(lib, ws[n])
  }

  /** The directories are those of `ws`, and the validator says of each what its attempt left. */
  ghost predicate Judged(lib: Library, verdict: Verdicts, dirs: map<nat, Saved>, ws: seq<Attempt>) {
    && (forall n: nat :: n in dirs <==> n < |ws|)
    && forall n: nat :: n < |ws| ==> verdict(dirs[n].Bytes()) == WriterVerdict(lib, ws[n])
  }

  lemma WritersDecide(lib: Library, older: Listing, epoch: nat, dirs: map<nat, Saved>, cut: Option<(nat, Dir)>, ws: seq<Attempt>)
    requires Earlier(older, epoch) && WrittenBy(dirs, 0, ws) && forall a :: a in ws ==> ValidAttempt(a)
    requires cut.Some? ==> cut.value.0 !in dirs && ValidatorVerdicts(lib)(cut.value.1).None?
    ensures FallsBack(lib, older, AfterCrash(older, epoch, dirs, cut), epoch, ws)
  {
    UsableAfterCrash(ValidatorVerdicts(lib), older, epoch, dirs, cut);
    forall n: nat ensures n in dirs <==> n < |ws| { WriterUsable(lib, dirs, ws, n); }
    forall n: nat | n < |ws| ensures ValidatorVerdicts(lib)(dirs[n].Bytes()) == WriterVerdict(lib, ws[n]) {
      WriterUsable(lib, dirs, ws, n);
    }
    JudgedDecide(lib, ValidatorVerdicts(lib), older, AfterCrash(older, epoch, dirs, cut), epoch, dirs, ws);
  }

  lemma JudgedDecide(lib: Library, verdict: Verdicts, older: Listing, fs: Listing, epoch: nat, dirs: map<nat, Saved>, ws: seq<Attempt>)
    requires verdict == ValidatorVerdicts(lib) && Sees(verdict, older, fs, epoch, dirs) && Judged(lib, verdict, dirs, ws)
    ensures FallsBack(lib, older, fs, epoch, ws)
  {
    NewestOfRun(verdict, older, fs, epoch, dirs, |ws|, UsableNumbers(lib, ws));
    forall n: nat | n < |ws| ensures n in dirs && (epoch, n) in fs.dirs && fs.dirs[(epoch, n)] == dirs[n].Bytes() {
      assert SeesAt(verdict, older, fs, epoch, dirs, epoch, n);
    }
    NewestIsLast(lib, verdict, older, fs, epoch, dirs, ws);
  }

  lemma NewestIsLast(lib: Library, verdict: Verdicts, older: Listing, fs: Listing, epoch: nat, dirs: map<nat, Saved>, ws: seq<Attempt>)
    requires verdict == ValidatorVerdicts(lib)
    requires forall n: nat :: Newest(verdict, fs, epoch, n) <==>
                              && n < |ws| && UsableNumbers(lib, ws)(n)
                              && forall m: nat :: n < m < |ws| ==> !UsableNumbers(lib, ws)(m)
    requires (forall n: nat :: n < |ws| ==> !UsableNumbers(lib, ws)(n)) ==>
               forall e: nat, n: nat :: Newest(verdict, fs, e, n) <==> Newest(verdict, older, e, n)
    requires forall n: nat :: n < |ws| ==>
               n in dirs && (epoch, n) in fs.dirs && fs.dirs[(epoch, n)] == dirs[n].Bytes()
               && verdict(dirs[n].Bytes()) == WriterVerdict(lib, ws[n])
    ensures FallsBack(lib, older, fs, epoch, ws)
  {
    forall n: nat ensures Newest(verdict, fs, epoch, n) <==> LastUsable(lib, ws, n) {
      LastUsableBy(lib, ws, UsableNumbers(lib, ws), n);
    }
  }

  lemma LastUsableBy(lib: Library, ws: seq<Attempt>, usable: nat -> bool, n: nat)
    requires forall m: nat :: usable(m) <==> m < |ws| && LeavesUsable(lib, ws[m])
    ensures LastUsable(lib, ws, n) <==> n < |ws| && usable(n) && forall m: nat :: n < m < |ws| ==> !usable(m)
  {
    if n < |ws| && usable(n) && forall m: nat :: n < m < |ws| ==> !usable(m) {
      forall m | n < m < |ws| ensures !LeavesUsable(lib, ws[m]) { assert !usable(m); }
    }
  }

  /** What a crash may cut: the directory of an attempt that got one. */
  predicate Cuttable(s: State, a: Attempt, point: CrashPoint) {
    && ValidAttempt(a) && s.counter !in s.dirs && HasBody(a.requests[|a.requests| - 1].Record())
    && Possible(a.labelNumber, RecordsOf(a), point)
  }

  function CutAt(s: State, crash: Option<(Attempt, CrashPoint)>): Option<(nat, Dir)>
    requires crash.Some? ==> Cuttable(s, crash.value.0, crash.value.1)
  {
    if crash.None? then None
    else Some((s.counter, CutDir(crash.value.0.labelNumber, RecordsOf(crash.value.0), crash.value.1)))
  }

  /**
    A run with a fresh base directory crashes, between two attempts or while one writes its directory.  Where nothing the
    validator looks at is missing, the search finds what was being written.  Otherwise it finds the newest directory whose
    attempt had all its records written and acceptable, be it completed or abandoned for the lookup of its very last
    record; it turns to older runs only when this one left none.
   */
  lemma CrashFallsBack(lib: Library, machine: Machine, s: State, attempts: seq<Attempt>, crash: Option<(Attempt, CrashPoint)>,
                       older: Listing, epoch: nat)
    requires Behaves(machine) && s.counter == 0 && s.dirs == map[] && Earlier(older, epoch)
    requires forall b :: b in attempts ==> ValidAttempt(b)
    requires crash.Some? ==> Cuttable(Run(machine, s, attempts), crash.value.0, crash.value.1)
    ensures var t := Run(machine, s, attempts);
            var fs := AfterCrash(older, epoch, t.dirs, CutAt(t, crash));
            if crash.Some? && CutUsable(lib, RecordsOf(crash.value.0), crash.value.1)
            then FoundCut(lib, fs, epoch, t.counter, crash.value.0)
            else FallsBack(lib, older, fs, epoch, Writers(machine, s, attempts))
  {
    var t := Run(machine, s, attempts);
    DirectoriesWritten(machine, s, attempts);
    WritersAreAttempts(machine, s, attempts);
    if crash.Some? { CutJudged(lib, t, crash.value.0, crash.value.1); }
    if crash.Some? && CutUsable(lib, RecordsOf(crash.value.0), crash.value.1) {
      CutIsNewest(lib, ValidatorVerdicts(lib), older, epoch, t.dirs, t.counter, CutAt(t, crash).value.1, crash.value.0);
    } else {
      WritersDecide(lib, older, epoch, t.dirs, CutAt(t, crash), Writers(machine, s, attempts));
    }
  }

  /** The newest directory is number `n`, and it is read as the checkpoint of `a`. */
  ghost predicate FoundCut(lib: Library, fs: Listing, epoch: nat, n: nat, a: Attempt) {
    && Newest(ValidatorVerdicts(lib), fs, epoch, n)
    && ValidatorVerdicts(lib)(fs.dirs[(epoch, n)]) == Some((a.labelNumber, |a.requests|))
  }

  lemma CutJudged(lib: Library, s: State, a: Attempt, point: CrashPoint)
    requires Cuttable(s, a, point)
    ensures ValidatorVerdicts(lib)(CutDir(a.labelNumber, RecordsOf(a), point)) ==
            if CutUsable(lib, RecordsOf(a), point) then Some((a.labelNumber, |a.requests|)) else None
  {
    RecordsAreValid(a);
    CrashVerdict(lib, a.labelNumber, RecordsOf(a), point);
  }

  lemma CutIsNewest(lib: Library, verdict: Verdicts, older: Listing, epoch: nat, dirs: map<nat, Saved>, n: nat, cut: Dir, a: Attempt)
    requires verdict == ValidatorVerdicts(lib) && Earlier(older, epoch) && (forall d :: d in dirs ==> d < n)
    requires verdict(cut) == Some((a.labelNumber, |a.requests|))
    ensures FoundCut(lib, AfterCrash(older, epoch, dirs, Some((n, cut))), epoch, n, a)
  {
    var fs := AfterCrash(older, epoch, dirs, Some((n, cut)));
    OwnDirectory(older, epoch, dirs, Some((n, cut)), n);
    forall e: nat, m: nat | Usable(verdict, fs, e, m) ensures Older(e, m, epoch, n) {
      if e == epoch {
        OwnDirectory(older, epoch, dirs, Some((n, cut)), m);
      } else {
        OlderDirectory(older, epoch, dirs, Some((n, cut)), e, m);
      }
    }
  }

  /** Where every lookup succeeds, the directories the search chooses from are those of the completed attempts. */
  lemma CompletedAreWriters(machine: Machine, s: State, attempts: seq<Attempt>)
    requires Behaves(machine) && s.counter == 0 && s.dirs == map[]
    requires forall b :: b in attempts ==> b.Resolves()
    ensures Writers(machine, s, attempts) == Completed(machine, s, attempts)
  {
    DirectoriesWritten(machine, s, attempts);
    WritersAreAttempts(machine, s, attempts);
    var ws := Writers(machine, s, attempts);
    if ws != [] { assert ws[|ws| - 1] in ws; }
  }

  /** A run that ends after one abandoned attempt: nothing was completed, and the search finds that directory. */
  lemma AbandonedIsFound(lib: Library, older: Listing, epoch: nat)
    requires Earlier(older, epoch)
    ensures var s := Fresh(0, Some(0), Some(0), true);
            var fs := AfterCrash(older, epoch, Run(Runtime(), s, [Unresolved()]).dirs, None);
            && Completed(Runtime(), s, [Unresolved()]) == []
            && Newest(ValidatorVerdicts(lib), fs, epoch, 0) && ValidatorVerdicts(lib)(fs.dirs[(epoch, 0)]) == Some((7, 1))
  {
    var s := Fresh(0, Some(0), Some(0), true);
    RuntimeBehaves();
    FailedLookupValidates(lib);
    LeftAccepted(lib, Unresolved());
    CrashFallsBack(lib, Runtime(), s, [Unresolved()], None, older, epoch);
    DirectoriesWritten(Runtime(), s, [Unresolved()]);
    assert Effect(s, Unresolved(), Runtime()(s, Unresolved()));
    assert [Unresolved()][1..] == [];
    assert Writers(Runtime(), s, [Unresolved()]) == [Unresolved()];
    assert LastUsable(lib, [Unresolved()], 0);
  }
}
