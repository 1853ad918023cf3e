/** The state file of the embedded store on disk: persisting, replacing, quarantine and recovery. Every
    file-system operation may fail, as a fault plan says, and the process may stop after any step. */
module StateFiles {

  /** What a file holds: a complete state, something that does not decode, or no bytes at all. */
  datatype File<S> = Whole(state: S) | Torn | Blank

  /** The state file and its companions .tmp, .bak, .bak.tmp, .corrupt, .replace-old, .bak.replace-old. */
  datatype Path = Main | Tmp | Bak | BakTmp | Corrupt | MainAside | BakAside

  type Files<S> = map<Path, File<S>>

  /** What opening the store finds: no files of an earlier run, a state, or nothing it can decode. */
  datatype Outcome<S> = Fresh | Found(state: S) | Unrecoverable

  datatype ReadResult<S> = Content(file: File<S>) | NotExist | ReadFailed

  datatype Removal = Removed | Missing | RemoveFailed

  function BackupOutcome<S>(files: Files<S>): Outcome<S> {
    if Bak in files && files[Bak].Whole? then Found(files[Bak].state) else Unrecoverable
  }

  function OutcomeOf<S>(files: Files<S>): Outcome<S> {
    if Main in files then
      if files[Main].Whole? then Found(files[Main].state) else BackupOutcome(files)
    else if Bak in files then BackupOutcome(files)
    else Fresh
  }

  /** The disk of a running store: the state file is whole, or missing while the backup is whole, or
      neither exists. */
  predicate Ready<S>(files: Files<S>) {
    OutcomeOf(files) != Unrecoverable && (Main in files ==> files[Main].Whole?)
  }

  predicate Same<S(==)>(f: Files<S>, g: Files<S>, p: Path) {
    (p in f <==> p in g) && (p in f ==> f[p] == g[p])
  }

  /** What opening the store returns. */
  datatype Opened<S> = Opened(state: S) | OpenFailed

  /** The state an outcome stands for, before normalization. */
  function StateOr<S>(outcome: Outcome<S>, blank: S): S {
    if outcome.Found? then outcome.state else blank
  }

  /** The state file is damaged and the backup is whole. */
  predicate DamagedWithBackup<S>(files: Files<S>) {
    Main in files && !files[Main].Whole? && Bak in files && files[Bak].Whole?
  }

  function Aside(target: Path): Path {
    if target == Main then MainAside else BakAside
  }

  function TempOf(target: Path): Path {
    if target == Main then Tmp else BakTmp
  }

  // ---------------------------------------------------------------- what the steps recorded keep

  /** The recorded steps continue an earlier record. */
  ghost predicate Continues<S>(earlier: seq<Files<S>>, history: seq<Files<S>>) {
    earlier <= history
  }

  /** Every step from `first` on leaves the target as it was. */
  ghost predicate Keeps<S>(history: seq<Files<S>>, first: nat, before: Files<S>, target: Path) {
    forall k :: first <= k < |history| ==> Same(before, history[k], target)
  }

  /** From `first` on the outcome is `before` at first and `after` from step m on. */
  ghost predicate SwitchesAt<S>(history: seq<Files<S>>, first: nat, m: nat, before: Outcome<S>, after: Outcome<S>) {
    && first <= m
    && (forall k :: first <= k < |history| ==> OutcomeOf(history[k]) == if k < m then before else after)
  }

  ghost predicate AllReady<S>(history: seq<Files<S>>, first: nat) {
    forall k :: first <= k < |history| ==> Ready(history[k])
  }

  // ---------------------------------------------------------------- the disk

  /** What the file system does in one step: a file is emptied, damaged while it is written, or completed after that; it
      gets another name, or goes. */
  datatype Step = Empties(p: Path) | Damages(p: Path) | Completes(p: Path) | Moves(p: Path, q: Path) | Drops(p: Path)

  predicate Makes<S(==)>(before: Files<S>, step: Step, after: Files<S>) {
    match step
    case Empties(p) => after == before[p := Blank]
    case Damages(p) => after == before[p := Torn]
    case Completes(p) => p in before && before[p] == Torn && p in after && after == before[p := after[p]]
    case Moves(p, q) => p in before && after == (before - {p})[q := before[p]]
    case Drops(p) => p in before && after == before - {p}
  }

  ghost predicate OneStep<S>(before: Files<S>, after: Files<S>) {
    exists step: Step :: Makes(before, step, after)
  }

  function FilesAt<S>(start: Files<S>, history: seq<Files<S>>, n: nat): Files<S>
    requires n <= |history|
  {
    if n == 0 then start else history[n - 1]
  }

  ghost predicate RecordedStep<S>(start: Files<S>, history: seq<Files<S>>, k: nat)
    requires k < |history|
  {
    OneStep(FilesAt(start, history, k), history[k])
  }

  /** The record leads from the start to the files in single steps, and none is missing. */
  ghost predicate Journal<S>(start: Files<S>, history: seq<Files<S>>, files: Files<S>) {
    && FilesAt(start, history, |history|) == files
    && forall k {:trigger RecordedStep(start, history, k)} :: 0 <= k < |history| ==> RecordedStep(start, history, k)
  }

  lemma JournalSnoc<S>(start: Files<S>, history: seq<Files<S>>, files: Files<S>, step: Step, next: Files<S>)
    requires Journal(start, history, files) && Makes(files, step, next)
    ensures Journal(start, history + [next], next)
  {
    var more := history + [next];
    forall k | 0 <= k < |more| ensures RecordedStep(start, more, k) {
      if k < |history| {
        assert RecordedStep(start, history, k);
      }
    }
  }

  /** Whether the n-th file-system operation succeeds. */
  type Plan = nat -> bool

  predicate Clean(plan: Plan, start: nat, n: nat) {
    forall i :: start <= i < start + n ==> plan(i)
  }

  /** No operation fails from here on. */
  ghost predicate Faultless(plan: Plan, start: nat) {
    forall i: nat :: i >= start ==> plan(i)
  }

  const WRITE_STEPS: nat := 3

  /** The operations that replacing a target takes: one rename, or on Windows a look at the target and, when it
      exists, the removal of an older file aside, three renames' worth of moving and the final removal. */
  function ReplaceSteps(windows: bool, exists': bool): nat {
    if !windows then 1 else if exists' then 5 else 2
  }

  function BackUpSteps<S>(windows: bool, files: Files<S>): nat {
    1 + if Main in files then WRITE_STEPS + ReplaceSteps(windows, Bak in files) else 0
  }

  function PersistSteps<S>(windows: bool, files: Files<S>): nat {
    WRITE_STEPS + BackUpSteps(windows, files) + ReplaceSteps(windows, Main in files)
  }

  /** What comes after the new content is in place: on Windows the removal of the file moved aside. */
  function FinalSteps(windows: bool, exists': bool): nat {
    if windows && exists' then 1 else 0
  }

  /** On Windows, with a state file to replace: of the operations that persisting takes only the last one fails. */
  ghost predicate OnlyLastFails<S>(windows: bool, plan: Plan, start: nat, files: Files<S>) {
    && windows && Main in files
    && Clean(plan, start, PersistSteps(windows, files) - 1) && !plan(start + PersistSteps(windows, files) - 1)
  }

  class Disk<S(==)> {
    const windows: bool
    const plan: Plan
    const start: Files<S>
    var files: Files<S>
    var clock: nat               // the operations so far
    var history: seq<Files<S>>   // the files after every step so far

    constructor (windows: bool, plan: Plan, files: Files<S>)
      ensures this.windows == windows && this.plan == plan && this.files == files
      ensures clock == 0 && history == [] && start == files && Valid()
    {
      this.windows := windows;
      this.plan := plan;
      this.files := files;
      start := files;
      clock := 0;
      history := [];
    }

    /** Every step is on record. */
    ghost predicate Valid()
      reads this
    {
      Journal(start, history, files)
    }

    method Tick() returns (ok: bool)
      modifies this`clock
      ensures clock == old(clock) + 1 && ok == plan(old(clock))
    {
      ok := plan(clock);
      clock := clock + 1;
    }

    method Create(p: Path) returns (ok: bool)
      requires Valid()
      modifies this
      ensures Valid()
      ensures clock == old(clock) + 1 && ok == plan(old(clock))
      ensures files == if ok then old(files)[p := Blank] else old(files)
      ensures Continues(old(history), history)
      ensures forall k :: |old(history)| <= k < |history| ==> history[k] == old(files)[p := Blank]
    {
      ok := Tick();
      if ok {
        JournalSnoc(start, history, files, Empties(p), files[p := Blank]);
        files := files[p := Blank];
        history := history + [files];
      }
    }

    /** Writing passes through a state in which only a part of the bytes is there. */
    method Write(p: Path, content: File<S>) returns (ok: bool)
      requires Valid()
      modifies this
      ensures Valid()
      ensures clock == old(clock) + 1 && ok == plan(old(clock))
      ensures files == old(files)[p := if ok then content else Torn]
      ensures Continues(old(history), history)
      ensures forall k :: |old(history)| <= k < |history| ==>
                history[k] == old(files)[p := Torn] || history[k] == old(files)[p := content]
    {
      JournalSnoc(start, history, files, Damages(p), files[p := Torn]);
      files := files[p := Torn];
      history := history + [files];
      ok := Tick();
      if ok {
        JournalSnoc(start, history, files, Completes(p), files[p := content]);
        files := files[p := content];
        history := history + [files];
      }
    }

    method Read(p: Path) returns (r: ReadResult<S>)
      modifies this`clock
      ensures clock == old(clock) + 1 && (r.ReadFailed? <==> !plan(old(clock)))
      ensures r.Content? ==> p in files && r.file == files[p]
      ensures r.NotExist? ==> p !in files
    {
      var ok := Tick();
      if !ok {
        return ReadFailed;
      }
      r := if p in files then Content(files[p]) else NotExist;
    }

    method Rename(source: Path, target: Path) returns (ok: bool)
      requires Valid()
      modifies this
      ensures Valid()
      ensures clock == old(clock) + 1 && (ok <==> plan(old(clock)) && source in old(files))
      ensures files == if ok then (old(files) - {source})[target := old(files)[source]] else old(files)
      ensures history == if ok then old(history) + [files] else old(history)
    {
      ok := Tick();
      ok := ok && source in files;
      if ok {
        JournalSnoc(start, history, files, Moves(source, target), (files - {source})[target := files[source]]);
        files := (files - {source})[target := files[source]];
        history := history + [files];
      }
    }

    method Remove(p: Path) returns (r: Removal)
      requires Valid()
      modifies this
      ensures Valid()
      ensures clock == old(clock) + 1 && (r.RemoveFailed? <==> !plan(old(clock)))
      ensures r.Removed? ==> p in old(files)
      ensures r.Missing? ==> p !in old(files)
      ensures files == if r.Removed? then old(files) - {p} else old(files)
      ensures history == if r.Removed? then old(history) + [files] else old(history)
    {
      var ok := Tick();
      if !ok {
        return RemoveFailed;
      }
      if p !in files {
        return Missing;
      }
      JournalSnoc(start, history, files, Drops(p), files - {p});
      files := files - {p};
      history := history + [files];
      r := Removed;
    }

    /** Create, write, flush and close a temporary file; a failure may leave a damaged one. */
    method WriteSyncedFile(p: Path, content: File<S>) returns (ok: bool)
      requires p == Tmp || p == BakTmp
      requires Valid()
      modifies this
      ensures Valid()
      ensures clock >= old(clock)
      ensures Continues(old(history), history)
      ensures forall k :: |old(history)| <= k < |history| ==> TempOnly(old(files), history[k], p)
      ensures TempOnly(old(files), files, p)
      ensures ok ==> files == old(files)[p := content] && clock == old(clock) + WRITE_STEPS
      ensures ok <==> Clean(plan, old(clock), WRITE_STEPS)
    {
      ok := Create(p);
      if !ok {
        assert !plan(old(clock));
        return;
      }
      ok := Write(p, content);
      if !ok {
        assert !plan(old(clock) + 1);
        return;
      }
      ok := Tick();
      if !ok {
        assert !plan(old(clock) + 2);
      }
    }

    /** Put the temporary file in the place of its target. On Windows the target is moved aside first,
        and moved back when the second rename fails. */
    method Replace(target: Path) returns (ok: bool, ghost installed: bool, ghost m: nat)
      requires target == Main || target == Bak
      requires TempOf(target) in files
      requires Valid()
      modifies this
      ensures Valid()
      ensures clock >= old(clock)
      ensures Continues(old(history), history)
      ensures ReplaceRecord(history, |old(history)|, m, old(files), files, target, windows, installed)
      ensures ok <==> Clean(plan, old(clock), ReplaceSteps(windows, target in old(files)))
      ensures installed <==>
                Clean(plan, old(clock), ReplaceSteps(windows, target in old(files)) - FinalSteps(windows, target in old(files)))
      ensures ok ==> clock == old(clock) + ReplaceSteps(windows, target in old(files))
    {
      if windows {
        ok, installed, m := ReplaceWithRollback(target);
      } else {
        ok := Rename(TempOf(target), target);
        installed, m := ok, if ok then |old(history)| else |history|;
        assert ok <==> plan(old(clock));
      }
    }

    method ReplaceWithRollback(target: Path) returns (ok: bool, ghost installed: bool, ghost m: nat)
      requires target == Main || target == Bak
      requires TempOf(target) in files
      requires Valid()
      modifies this
      ensures Valid()
      ensures clock >= old(clock)
      ensures Continues(old(history), history)
      ensures ReplaceRecord(history, |old(history)|, m, old(files), files, target, true, installed)
      ensures ok <==> Clean(plan, old(clock), ReplaceSteps(true, target in old(files)))
      ensures installed <==>
                Clean(plan, old(clock), ReplaceSteps(true, target in old(files)) - FinalSteps(true, target in old(files)))
      ensures ok ==> clock == old(clock) + ReplaceSteps(true, target in old(files))
    {
      ok, installed, m := false, false, |history|;
      var stat := Read(target);
      if stat.ReadFailed? {
        assert !plan(old(clock));
        return;
      }
      if stat.NotExist? {
        ok := Rename(TempOf(target), target);
        installed := ok;
        assert !ok ==> !plan(old(clock) + 1);
        return;
      }
      var moved := MoveAside(target);
      m := |history|;
      if moved {
        ok, installed, m := MoveIn(target, |old(history)|, old(files));
      }
    }

    method MoveAside(target: Path) returns (moved: bool)
      requires target == Main || target == Bak
      requires TempOf(target) in files && target in files
      requires Valid()
      modifies this
      ensures Valid()
      ensures clock >= old(clock)
      ensures Continues(old(history), history)
      ensures ReplaceRecord(history, |old(history)|, |history|, old(files), files, target, true, false)
      ensures moved ==> AsideStep(old(files), files, target) && clock == old(clock) + 2
      ensures moved <==> plan(old(clock)) && plan(old(clock) + 1)
    {
      moved := false;
      var removal := Remove(Aside(target));
      if !removal.RemoveFailed? {
        moved := Rename(target, Aside(target));
      }
    }

    /** The target is aside: rename the temporary file, or move the target back. */
    method MoveIn(target: Path, ghost first: nat, ghost before: Files<S>)
      returns (ok: bool, ghost installed: bool, ghost m: nat)
      requires target == Main || target == Bak
      requires TempOf(target) in before && target in before
      requires AsideStep(before, files, target)
      requires first <= |history| && ReplaceRecord(history, first, |history|, before, files, target, true, false)
      requires Valid()
      modifies this
      ensures Valid()
      ensures clock >= old(clock)
      ensures Continues(old(history), history)
      ensures ReplaceRecord(history, first, m, before, files, target, true, installed)
      ensures installed <==> plan(old(clock))
      ensures ok <==> plan(old(clock)) && plan(old(clock) + 1)
      ensures ok ==> clock == old(clock) + 2
    {
      ok, installed, m := false, false, |history|;
      var renamed := Rename(TempOf(target), target);
      if !renamed {
        var restored := Rename(Aside(target), target);
        m := |history|;
        assert ReplaceStep(before, files, target, true, false);
        return;
      }
      installed := true;
      assert ReplaceStep(before, files, target, true, true);
      var removal := Remove(Aside(target));
      ok := !removal.RemoveFailed?;
      assert ReplaceStep(before, files, target, true, true);
    }

    // ---------------------------------------------------------------- persisting

    /** Copy the current state file to the backup; the state file itself is not touched. */
    method BackUp() returns (ok: bool)
      requires Ready(files) && Tmp in files
      requires Valid()
      modifies this
      ensures Valid()
      ensures clock >= old(clock)
      ensures Continues(old(history), history)
      ensures forall k :: |old(history)| <= k < |history| ==> QuietStep(old(files), history[k])
      ensures QuietStep(old(files), files) && Same(old(files), files, Tmp)
      ensures ok && Main in old(files) ==> Bak in files && files[Bak] == old(files)[Main]
      ensures ok <==> Clean(plan, old(clock), BackUpSteps(windows, old(files)))
      ensures ok ==> clock == old(clock) + BackUpSteps(windows, old(files))
    {
      ok := true;
      var current := Read(Main);
      if current.Content? && current.file != Blank {
        ok := CopyToBackup(current.file);
        if !ok {
          var cleanup := Remove(BakTmp);
        }
      } else if current.ReadFailed? {
        ok := false;
      }
    }

    method CopyToBackup(content: File<S>) returns (ok: bool)
      requires Ready(files) && Tmp in files && Main in files && content == files[Main]
      requires Valid()
      modifies this
      ensures Valid()
      ensures clock >= old(clock)
      ensures Continues(old(history), history)
      ensures forall k :: |old(history)| <= k < |history| ==> QuietStep(old(files), history[k])
      ensures QuietStep(old(files), files) && Same(old(files), files, Tmp)
      ensures ok ==> Bak in files && files[Bak] == content
      ensures ok <==> Clean(plan, old(clock), WRITE_STEPS + ReplaceSteps(windows, Bak in old(files)))
      ensures ok ==> clock == old(clock) + WRITE_STEPS + ReplaceSteps(windows, Bak in old(files))
    {
      ok := WriteSyncedFile(BakTmp, content);
      if ok {
        ghost var installed, m;
        ok, installed, m := Replace(Bak);
      }
    }

    /** Write the state next to the state file, back the state file up, and put the new one in place.
        Whenever the process stops, what is found is the old outcome or, from one step on, exactly the
        new state. It succeeds exactly when every operation does; an error means that nothing changed,
        except on Windows when there was a state file and only its removal at the end failed. */
    method Persist(s: S) returns (ok: bool, ghost installed: bool)
      requires Ready(files)
      requires Valid()
      modifies this
      ensures Valid()
      ensures clock >= old(clock)
      ensures Continues(old(history), history)
      ensures Ready(files) && AllReady(history, |old(history)|)
      ensures exists m: nat :: SwitchesAt(history, |old(history)|, m, OutcomeOf(old(files)), Found(s))
      ensures !installed ==> SwitchesAt(history, |old(history)|, |history|, OutcomeOf(old(files)), Found(s))
      ensures OutcomeOf(files) == if installed then Found(s) else OutcomeOf(old(files))
      ensures ok ==> installed && Main in files && files[Main] == Whole(s)
      ensures ok <==> Clean(plan, old(clock), PersistSteps(windows, old(files)))
      ensures installed && !ok <==> OnlyLastFails(windows, plan, old(clock), old(files))
      ensures Main !in old(files) ==> Keeps(history, |old(history)|, old(files), Bak) && Same(old(files), files, Bak)
    {
      ghost var m: nat;
      ok, installed, m := WriteAndReplace(s);
      ghost var steps := history;
      if !ok {
        var cleanup := Remove(Tmp);
      }
      SwitchSnoc(steps, history, |old(history)|, m, OutcomeOf(old(files)), Found(s), installed);
      CleanUpTo(plan, old(clock), PersistSteps(windows, old(files)));
    }

    method WriteAndReplace(s: S) returns (ok: bool, ghost installed: bool, ghost m: nat)
      requires Ready(files)
      requires Valid()
      modifies this
      ensures Valid()
      ensures clock >= old(clock)
      ensures Continues(old(history), history)
      ensures Ready(files) && AllReady(history, |old(history)|)
      ensures SwitchesAt(history, |old(history)|, m, OutcomeOf(old(files)), Found(s))
      ensures !installed ==> m >= |history|
      ensures OutcomeOf(files) == if installed then Found(s) else OutcomeOf(old(files))
      ensures ok ==> installed && Main in files && files[Main] == Whole(s)
      ensures ok <==> Clean(plan, old(clock), PersistSteps(windows, old(files)))
      ensures installed <==>
                Clean(plan, old(clock), PersistSteps(windows, old(files)) - FinalSteps(windows, Main in old(files)))
      ensures Main !in old(files) ==> Keeps(history, |old(history)|, old(files), Bak) && Same(old(files), files, Bak)
    {
      installed := false;
      ok := WriteSyncedFile(Tmp, Whole(s));
      ghost var written, h1 := files, |history|;
      if ok {
        ok := BackUp();
      }
      QuietTrans(history, |old(history)|, h1, old(files), written, files);
      m := |history|;
      if ok {
        ghost var mid, before := |history|, files;
        ok, installed, m := Replace(Main);
        Installed(history, |old(history)|, mid, m, old(files), before, files, s, windows, installed);
      }
    }

    // ---------------------------------------------------------------- opening

    /** The damaged state file becomes the .corrupt file, never the backup. */
    method QuarantineCorruptState() returns (ok: bool)
      requires DamagedWithBackup(files)
      requires Valid()
      modifies this
      ensures Valid()
      ensures clock >= old(clock)
      ensures Continues(old(history), history)
      ensures forall k :: |old(history)| <= k < |history| ==>
                Same(old(files), history[k], Bak) && OutcomeOf(history[k]) == OutcomeOf(old(files))
      ensures Same(old(files), files, Bak) && OutcomeOf(files) == OutcomeOf(old(files))
      ensures ok ==> Main !in files
      ensures ok <==> plan(old(clock)) && plan(old(clock) + 1)
    {
      ok := false;
      var removal := Remove(Corrupt);
      if !removal.RemoveFailed? {
        ok := Rename(Main, Corrupt);
      }
    }

    /** Load the state file, or the backup when it is missing or damaged, and persist what was loaded in
        normalized form. Whenever the process stops, what is found next is the same outcome or the
        normalized state. */
    method Open(blank: S, normalize: S -> S) returns (r: Opened<S>)
      requires Valid()
      modifies this
      ensures Valid()
      ensures clock >= old(clock)
      ensures Continues(old(history), history)
      ensures OutcomeOf(old(files)).Unrecoverable? ==> r.OpenFailed? && files == old(files) && history == old(history)
      ensures !OutcomeOf(old(files)).Unrecoverable? ==>
                var target := Found(normalize(StateOr(OutcomeOf(old(files)), blank)));
                && (exists m: nat :: SwitchesAt(history, |old(history)|, m, OutcomeOf(old(files)), target))
                && (OutcomeOf(files) == OutcomeOf(old(files)) || OutcomeOf(files) == target)
                && (r.Opened? ==> Found(r.state) == target == OutcomeOf(files) && Ready(files))
      ensures DamagedWithBackup(old(files)) ==>
                Keeps(history, |old(history)|, old(files), Bak) && Same(old(files), files, Bak)
      ensures Faultless(plan, old(clock)) && !OutcomeOf(old(files)).Unrecoverable? ==> r.Opened?
    {
      r := OpenFailed;
      var state := blank;
      var main := Read(Main);
      var backup: ReadResult<S> := NotExist;
      assert SwitchesAt(history, |old(history)|, |history|, OutcomeOf(files), Found(normalize(StateOr(OutcomeOf(files), blank))));
      if main.ReadFailed? {
        return;
      }
      if main.Content? && main.file.Whole? {
        state := main.file.state;
      } else {
        backup := Read(Bak);
        if backup.ReadFailed? || (backup.Content? && !backup.file.Whole?) || (backup.NotExist? && main.Content?) {
          return;
        }
        if backup.Content? {
          state := backup.file.state;
        }
      }
      assert state == StateOr(OutcomeOf(old(files)), blank);
      var ok := true;
      if backup.Content? && main.Content? {
        ok := QuarantineCorruptState();
        assert SwitchesAt(history, |old(history)|, |history|, OutcomeOf(old(files)), Found(normalize(state)));
      }
      if !ok {
        return;
      }
      ghost var mid := history;
      ghost var installed;
      ok, installed := Persist(normalize(state));
      SwitchAppend(mid, history, |old(history)|, OutcomeOf(old(files)), Found(normalize(state)));
      if ok {
        r := Opened(normalize(state));
      }
    }

    // ---------------------------------------------------------------- stopping at any step

    /** Persist, stop after step k of it, and open again, in a new process with faults of its own: the store opens with
        exactly the old state or exactly the new one. */
    method PersistStopOpen(s: S, k: nat, restartPlan: Plan, blank: S, normalize: S -> S) returns (r: Opened<S>)
      requires Valid() && Ready(files)
      modifies this
      ensures r.Opened? ==> r.state == normalize(StateOr(OutcomeOf(old(files)), blank)) || r.state == normalize(s)
      ensures Faultless(restartPlan, 0) ==> r.Opened?
    {
      var first := |history|;
      var ok, _ := Persist(s);
      var left := StoppedAt(first + k);
      var next := new Disk(windows, restartPlan, left);
      r := next.Open(blank, normalize);
    }

    /** Open over a damaged state file, stop after step k of the recovery, and open again, in a new process: the store
        opens with the state of the backup, which is still there. The two openings may normalize in different ways. */
    method RecoverStopOpen(k: nat, restartPlan: Plan, blank: S, normalize: S -> S, again: S -> S) returns (r: Opened<S>)
      requires Valid() && DamagedWithBackup(files)
      requires again(normalize(files[Bak].state)) == normalize(files[Bak].state)
      modifies this
      ensures r.Opened? ==> r.state == normalize(old(files)[Bak].state) || r.state == again(old(files)[Bak].state)
      ensures Faultless(restartPlan, 0) ==> r.Opened?
    {
      var first := |history|;
      var recovered := Open(blank, normalize);
      var left := StoppedAt(first + k);
      var next := new Disk(windows, restartPlan, left);
      r := next.Open(blank, again);
    }

    /** What a stop after the step of that number leaves; after the last one, all that is there now. */
    function StoppedAt(k: nat): (left: Files<S>)
      reads this
      ensures left == if k < |history| then history[k] else files
    {
      if k < |history| then history[k] else files
    }
  }

  /** It happens: on Windows a disk that fails only the last of the fourteen operations reports an error and has the
      new state in place. */
  method InstalledWithError<S(==)>(before: S, s: S) returns (disk: Disk<S>, ok: bool)
    ensures fresh(disk) && disk.windows && (forall i: nat :: disk.plan(i) <==> i != 13)
    ensures !ok && OutcomeOf(disk.files) == Found(s)
  {
    disk := new Disk(true, i => i != 13, map[Main := Whole(before)]);
    ghost var installed;
    ok, installed := disk.Persist(s);
  }

  lemma CleanUpTo(plan: Plan, start: nat, n: nat)
    requires n >= 1
    ensures Clean(plan, start, n) <==> Clean(plan, start, n - 1) && plan(start + n - 1)
  {}

  /** The target is moved aside, everything else the replacement may touch is in place. */
  ghost predicate AsideStep<S>(before: Files<S>, now: Files<S>, target: Path)
    requires target in before && TempOf(target) in before
  {
    && target !in now && Aside(target) in now && now[Aside(target)] == before[target]
    && TempOf(target) in now && now[TempOf(target)] == before[TempOf(target)]
    && Same(before, now, if target == Main then Bak else Main)
    && (target == Bak ==> Same(before, now, Tmp))
  }

  /** While a target is replaced it holds its old content, or is missing for a moment (rename-aside
      only, when it existed), and from step m on the content of the temporary file. The other pair of
      files is left alone. */
  ghost predicate ReplaceRecord<S>(history: seq<Files<S>>, first: nat, m: nat, before: Files<S>, now: Files<S>,
                                   target: Path, windows: bool, installed: bool)
    requires TempOf(target) in before
  {
    && first <= m && (!installed ==> m == |history|)
    && (forall k :: first <= k < |history| ==> ReplaceStep(before, history[k], target, windows, k >= m))
    && ReplaceStep(before, now, target, windows, installed)
  }

  ghost predicate ReplaceStep<S>(before: Files<S>, now: Files<S>, target: Path, windows: bool, installed: bool)
    requires TempOf(target) in before
  {
    && Same(before, now, if target == Main then Bak else Main)
    && (target == Bak ==> Same(before, now, Tmp))
    && if installed then target in now && now[target] == before[TempOf(target)]
       else Same(before, now, target) || (windows && target in before && target !in now)
  }

  /** A step that leaves the outcome alone: the state file is as before, and so is the backup when it is
      what would be loaded. */
  ghost predicate QuietStep<S>(before: Files<S>, now: Files<S>) {
    Same(before, now, Main) && (Main !in before ==> Same(before, now, Bak))
  }

  ghost predicate Quiet<S>(history: seq<Files<S>>, first: nat, before: Files<S>) {
    forall k :: first <= k < |history| ==> QuietStep(before, history[k])
  }

  /** Of the files that matter to the outcome, at most the temporary file p changed. */
  ghost predicate TempOnly<S>(before: Files<S>, now: Files<S>, p: Path) {
    Same(before, now, Main) && Same(before, now, Bak) && (p != Tmp ==> Same(before, now, Tmp))
  }

  lemma QuietTrans<S>(history: seq<Files<S>>, first: nat, mid: nat, before: Files<S>, between: Files<S>, now: Files<S>)
    requires first <= mid <= |history| && Ready(before) && QuietStep(before, between) && QuietStep(between, now)
    requires Quiet(history[..mid], first, before)
    requires forall k :: mid <= k < |history| ==> QuietStep(between, history[k])
    ensures Quiet(history, first, before) && AllReady(history, first) && Ready(now)
    ensures QuietStep(before, now) && OutcomeOf(now) == OutcomeOf(before)
    ensures SwitchesAt(history, first, |history|, OutcomeOf(before), Unrecoverable)
  {
    forall k | first <= k < |history| ensures QuietStep(before, history[k]) {
      assert k < mid ==> history[k] == history[..mid][k];
    }
  }

  /** Putting the new state in place: while the state file is missing, the backup holds the old state. */
  lemma Installed<S>(history: seq<Files<S>>, first: nat, mid: nat, m: nat, old': Files<S>, before: Files<S>, now: Files<S>,
                     s: S, windows: bool, installed: bool)
    requires Ready(old') && QuietStep(old', before) && first <= mid <= |history|
    requires Tmp in before && before[Tmp] == Whole(s)
    requires Main in old' ==> Bak in before && before[Bak] == old'[Main]
    requires Quiet(history[..mid], first, old')
    requires ReplaceRecord(history, mid, m, before, now, Main, windows, installed)
    ensures AllReady(history, first) && Ready(now)
    ensures SwitchesAt(history, first, m, OutcomeOf(old'), Found(s))
    ensures OutcomeOf(now) == if installed then Found(s) else OutcomeOf(old')
    ensures Main !in old' ==> Keeps(history, first, old', Bak) && Same(old', now, Bak)
  {
    forall k | first <= k < |history|
      ensures Ready(history[k]) && OutcomeOf(history[k]) == if k < m then OutcomeOf(old') else Found(s)
      ensures Main !in old' ==> Same(old', history[k], Bak)
    {
      if k < mid {
        assert history[k] == history[..mid][k];
      } else {
        assert ReplaceStep(before, history[k], Main, windows, k >= m);
      }
    }
  }

  /** Removing the temporary file at the end changes nothing about the outcome. */
  lemma SwitchSnoc<S>(steps: seq<Files<S>>, history: seq<Files<S>>, first: nat, m: nat, before: Outcome<S>,
                      after: Outcome<S>, installed: bool)
    requires first <= |steps| <= |history| <= |steps| + 1 && steps <= history
    requires SwitchesAt(steps, first, m, before, after) && (!installed ==> m >= |steps|)
    requires |history| > |steps| ==> OutcomeOf(history[|steps|]) == if installed then after else before
    ensures exists n: nat :: SwitchesAt(history, first, n, before, after)
    ensures !installed ==> SwitchesAt(history, first, |history|, before, after)
  {
    var n := if !installed then |history| else if m < |steps| then m else |steps|;
    forall k | first <= k < |history| ensures OutcomeOf(history[k]) == if k < n then before else after {
      assert k < |steps| ==> history[k] == steps[k];
    }
    assert SwitchesAt(history, first, n, before, after);
  }

  lemma SwitchAppend<S>(mid: seq<Files<S>>, history: seq<Files<S>>, first: nat, before: Outcome<S>, after: Outcome<S>)
    requires first <= |mid| <= |history| && mid <= history
    requires forall k :: first <= k < |mid| ==> OutcomeOf(mid[k]) == before
    requires exists m: nat :: SwitchesAt(history, |mid|, m, before, after)
    ensures exists m: nat :: SwitchesAt(history, first, m, before, after)
  {
    var m: nat :| SwitchesAt(history, |mid|, m, before, after);
    forall k | first <= k < |history| ensures OutcomeOf(history[k]) == if k < m then before else after {
      assert k < |mid| ==> history[k] == mid[k];
    }
    assert SwitchesAt(history, first, m, before, after);
  }
}
