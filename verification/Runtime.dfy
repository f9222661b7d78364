/**
  The runtime state object and its methods, which keep the files on disk and the fields
  in step with the attempt machine.
 */
module Runtime {
  import opened Streams
  import opened Records
  import opened Directory
  import opened Attempts

  /** The files of a directory, from its description. */
  ghost predicate Stored(disk: map<nat, Dir>, dirs: map<nat, Saved>) {
    disk.Keys == dirs.Keys && forall d :: d in dirs ==> disk[d] == dirs[d].Bytes()
  }

  lemma StoredAppend(disk: map<nat, Dir>, dirs: map<nat, Saved>, d: nat, r: Record)
    requires Stored(disk, dirs) && d in dirs
    ensures Stored(disk[d := disk[d].(bodies := disk[d].bodies + [r.File()])],
                   dirs[d := dirs[d].(records := dirs[d].records + [r])])
  {
    var saved := dirs[d];
    assert Files(InfoFile(saved.labelNumber, saved.count), saved.records + [r]).bodies == disk[d].bodies + [r.File()];
  }

  class ACRIiLState {
    var checkpointing: bool
    var currentCheckpointDirectory: nat
    var checkpointCounter: nat
    var currentCheckpointArgumentIndexCounter: nat
    var checkpointInterval: nat
    var currentCheckpointEnabled: bool
    var nextCheckpointTime: nat
    var disk: map<nat, Dir>
    /** The state of the attempt machine. */
    ghost var model: State

    ghost predicate Valid()
      reads this
    {
      && model == State(checkpointing, checkpointCounter, checkpointInterval, currentCheckpointEnabled,
                        nextCheckpointTime, currentCheckpointDirectory, model.dirs)
      && Stored(disk, model.dirs)
      && (model.Performing() && model.dir in model.dirs ==>
            currentCheckpointArgumentIndexCounter == |model.dirs[model.dir].records|)
    }

    method GetTimeInMicroseconds(time: Option<nat>) returns (micros: nat)
      requires Valid()
      modifies this`checkpointing, this`model
      ensures Valid()
      ensures (micros, model) == old(model).Clock(time)
    {
      if time.None? {
        checkpointing := false;
        model := model.(checkpointing := false);
        return 0;
      }
      micros := time.value;
    }

    method UpdateNextCheckpointTime(time: Option<nat>)
      requires Valid()
      modifies this`checkpointing, this`nextCheckpointTime, this`model
      ensures Valid()
      ensures var (now, s) := old(model).Clock(time);
              model == s.(nextTime := now + s.interval)
    {
      var now := GetTimeInMicroseconds(time);
      nextCheckpointTime := now + checkpointInterval;
      model := model.(nextTime := now + checkpointInterval);
    }

    /** `restartFinish`, but for the table of restored pointers, which it frees. */
    method RestartFinish(time: Option<nat>)
      requires Valid()
      modifies this`checkpointing, this`nextCheckpointTime, this`model
      ensures Valid() && model == Restarted(old(model), time)
    {
      UpdateNextCheckpointTime(time);
    }

    /** Construction followed by `__acriilCheckpointSetup`, in a base directory that `mkdir` made or refused. */
    constructor (interval: nat, setupTime: Option<nat>, nextTime: Option<nat>, mkdir: bool)
      ensures Valid() && model == Fresh(interval, setupTime, nextTime, mkdir)
    {
      checkpointing := true;
      checkpointCounter := 0;
      currentCheckpointArgumentIndexCounter := 0;
      checkpointInterval := interval;
      currentCheckpointEnabled := true;
      nextCheckpointTime := 0;
      currentCheckpointDirectory := 0;
      disk := map[];
      model := State(true, 0, interval, true, 0, 0, map[]);
      new;
      var _ := GetTimeInMicroseconds(setupTime);
      UpdateNextCheckpointTime(nextTime);
      if checkpointing && !mkdir {
        checkpointing := false;
        model := model.(checkpointing := false);
      }
    }

    /** `__acriilCheckpointStart` */
    method CheckpointStart(time: Option<nat>, labelNumber: nat, numVariables: nat, mkdir: bool)
      requires Valid()
      modifies this
      ensures Valid() && model == Start(old(model), time, labelNumber, numVariables, mkdir)
    {
      var now := GetTimeInMicroseconds(time);
      if now < nextCheckpointTime {
        currentCheckpointEnabled := false;
        model := model.(enabled := false);
        return;
      }
      currentCheckpointDirectory := checkpointCounter;
      currentCheckpointArgumentIndexCounter := 0;
      currentCheckpointEnabled := true;
      model := model.(dir := model.counter, enabled := true);
      if !(checkpointing && currentCheckpointEnabled) {
        return;
      }
      if currentCheckpointDirectory in disk || !mkdir {
        currentCheckpointEnabled := false;
        model := model.(enabled := false);
        return;
      }
      var info := InfoFile(labelNumber, numVariables);
      disk := disk[currentCheckpointDirectory := Dir(Some(info), [])];
      model := model.(dirs := model.dirs[model.dir := Saved(labelNumber, numVariables, [])]);
      assert Files(info, []) == Dir(Some(info), []);
    }

    /** `__acriilCheckpointPointer`; the emitted block has called `CheckpointStart` before. */
    method CheckpointPointer(elementSizeBits: nat, numElements: nat, data: array<Byte>)
      requires Valid() && (model.Performing() ==> model.dir in model.dirs)
      requires TotalBits(elementSizeBits, numElements) + 8 <= WORD
      requires BytesFor(TotalBits(elementSizeBits, numElements)) <= data.Length
      modifies this
      ensures var body := data[..BytesFor(TotalBits(elementSizeBits, numElements))];
              Valid() && model == Write(old(model), Pointer(elementSizeBits, numElements, body))
    {
      if !(checkpointing && currentCheckpointEnabled) {
        return;
      }
      var file := WritePointer(elementSizeBits, numElements, data);
      ghost var r := Pointer(elementSizeBits, numElements, data[..BytesFor(TotalBits(elementSizeBits, numElements))]);
      AddFile(r, file);
    }

    /** `__acriilCheckpointAlias`; a failed lookup stops the attempt before its record is written. */
    method CheckpointAlias(elementSizeBits: nat, numElements: nat, currentPointer: nat, candidates: seq<Candidate<nat>>)
      requires Valid() && (model.Performing() ==> model.dir in model.dirs)
      modifies this
      ensures Valid() && model == Write(old(model), Alias(elementSizeBits, numElements, candidates, currentPointer))
    {
      if !(checkpointing && currentCheckpointEnabled) {
        return;
      }
      var foundAlias, file := WriteAlias(candidates, elementSizeBits, numElements, currentPointer);
      AddFile(Alias(elementSizeBits, numElements, candidates, currentPointer), file);
      if !foundAlias {
        currentCheckpointEnabled := false;
      }
    }

    /** The next record file of the current directory. */
    method AddFile(ghost r: Request, file: File)
      requires Valid() && model.Performing() && model.dir in model.dirs
      requires file == r.Record().File()
      modifies this`disk, this`currentCheckpointArgumentIndexCounter, this`model
      ensures model == Write(old(model), r)
      ensures r.Resolves() ==> Valid()
      ensures Stored(disk, model.dirs)
      ensures currentCheckpointArgumentIndexCounter == |model.dirs[model.dir].records|
    {
      StoredAppend(disk, model.dirs, model.dir, r.Record());
      var dir := disk[currentCheckpointDirectory];
      disk := disk[currentCheckpointDirectory := dir.(bodies := dir.bodies + [file])];
      currentCheckpointArgumentIndexCounter := currentCheckpointArgumentIndexCounter + 1;
      model := Write(model, r);
    }

    /** `__acriilCheckpointFinish` */
    method CheckpointFinish(time: Option<nat>)
      requires Valid()
      modifies this
      ensures Valid() && model == Finish(old(model), time)
    {
      if checkpointing && currentCheckpointEnabled {
        checkpointCounter := checkpointCounter + 1;
        model := model.(counter := model.counter + 1);
        UpdateNextCheckpointTime(time);
      }
    }
  }
}
