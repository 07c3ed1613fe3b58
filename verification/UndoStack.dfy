/**
 * The undo stack of the migration CLI: a plan's files are copied before they are
 * written (apps/migration-cli/src/backup.ts, plan.ts), and a rollback puts the most
 * recent copies back. Client configurations and backups are separate parts of the disk.
 */
module UndoStack {
  import opened Wrappers
  import opened Text

  type Files = map<string, string>

  /** What a plan writes, file by file. */
  datatype Change = Change(path: string, contents: string)

  /** A file as it was before a plan touched it; None when it did not exist. */
  datatype Saved = Saved(path: string, before: Option<string>)

  function Lookup(files: Files, path: string): Option<string> {
    if path in files then Some(files[path]) else None
  }

  function Put(files: Files, path: string, contents: Option<string>): Files {
    if contents.Some? then files[path := contents.value] else files - {path}
  }

  predicate HasPath(saved: seq<Saved>, path: string) {
    exists n :: 0 <= n < |saved| && saved[n].path == path
  }

  // ----- applying and undoing --------------------------------------------------------

  function Captured(files: Files, saved: seq<Saved>, path: string): seq<Saved> {
    if HasPath(saved, path) then saved else saved + [Saved(path, Lookup(files, path))]
  }

  datatype Progress = Progress(files: Files, saved: seq<Saved>)

  /** Each change is written after the file's contents were recorded, once per path. */
  function Applied(files: Files, saved: seq<Saved>, changes: seq<Change>): Progress {
    if changes == [] then Progress(files, saved)
    else
      var p := Applied(files, saved, changes[..|changes| - 1]);
      var change := changes[|changes| - 1];
      Progress(p.files[change.path := change.contents], Captured(p.files, p.saved, change.path))
  }

  function Restored(files: Files, saved: seq<Saved>): Files {
    if saved == [] then files
    else Put(Restored(files, saved[..|saved| - 1]), saved[|saved| - 1].path, saved[|saved| - 1].before)
  }

  lemma HasPathAppended(saved: seq<Saved>, e: Saved, path: string)
    ensures HasPath(saved + [e], path) <==> HasPath(saved, path) || e.path == path
  {
    var all := saved + [e];
    assert all[|saved|] == e;
    if HasPath(saved, path) {
      var n :| 0 <= n < |saved| && saved[n].path == path;
      assert all[n].path == path;
    }
  }

  /** What is recorded is what was there at the start; paths not recorded have not been touched. */
  ghost predicate Records(start: Files, now: Files, saved: seq<Saved>) {
    && (forall n :: 0 <= n < |saved| ==> saved[n].before == Lookup(start, saved[n].path))
    && forall path :: !HasPath(saved, path) ==> Lookup(now, path) == Lookup(start, path)
  }

  lemma {:induction false} AppliedRecords(start: Files, changes: seq<Change>)
    ensures var p := Applied(start, [], changes); Records(start, p.files, p.saved)
    ensures Applied(start, [], changes).saved == [] <==> changes == []
  {
    if changes != [] {
      AppliedRecords(start, changes[..|changes| - 1]);
      var p := Applied(start, [], changes[..|changes| - 1]);
      var change := changes[|changes| - 1];
      var saved := Captured(p.files, p.saved, change.path);
      var files := p.files[change.path := change.contents];
      forall path ensures HasPath(saved, path) <==> HasPath(p.saved, path) || change.path == path {
        HasPathAppended(p.saved, Saved(change.path, Lookup(p.files, change.path)), path);
      }
      hide HasPath;
      forall path | !HasPath(saved, path) ensures Lookup(files, path) == Lookup(start, path) {}
    }
  }

  lemma {:induction false} RestoredAt(start: Files, files: Files, saved: seq<Saved>, path: string)
    requires forall n :: 0 <= n < |saved| ==> saved[n].before == Lookup(start, saved[n].path)
    ensures Lookup(Restored(files, saved), path) == if HasPath(saved, path) then Lookup(start, path) else Lookup(files, path)
  {
    if saved != [] {
      var earlier, last := saved[..|saved| - 1], saved[|saved| - 1];
      RestoredAt(start, files, earlier, path);
      assert saved == earlier + [last];
      HasPathAppended(earlier, last, path);
    }
  }

  lemma SameFiles(a: Files, b: Files)
    requires forall path :: Lookup(a, path) == Lookup(b, path)
    ensures a == b
  {
    forall path ensures path in a <==> path in b { assert Lookup(a, path) == Lookup(b, path); }
    forall path | path in a ensures a[path] == b[path] { assert Lookup(a, path) == Lookup(b, path); }
  }

  lemma PutAt(files: Files, path: string, contents: string, other: string)
    ensures Lookup(files[path := contents], other) == if other == path then Some(contents) else Lookup(files, other)
  {
  }

  /** Applying a plan leaves a file with what the last change for it writes ... */
  lemma {:induction false} LastChangeIsWritten(files: Files, saved: seq<Saved>, changes: seq<Change>, n: nat)
    requires n < |changes| && forall m :: n < m < |changes| ==> changes[m].path != changes[n].path
    ensures Lookup(Applied(files, saved, changes).files, changes[n].path) == Some(changes[n].contents)
    decreases |changes|
  {
    hide Lookup, Captured;
    var earlier, last := changes[..|changes| - 1], changes[|changes| - 1];
    PutAt(Applied(files, saved, earlier).files, last.path, last.contents, changes[n].path);
    if n < |earlier| {
      assert forall m :: 0 <= m < |earlier| ==> earlier[m] == changes[m];
      LastChangeIsWritten(files, saved, earlier, n);
    }
  }

  /** ... and a file no change is for as it was. */
  lemma {:induction false} OtherFilesAreKept(files: Files, saved: seq<Saved>, changes: seq<Change>, path: string)
    requires forall n :: 0 <= n < |changes| ==> changes[n].path != path
    ensures Lookup(Applied(files, saved, changes).files, path) == Lookup(files, path)
    decreases |changes|
  {
    hide Lookup, Captured;
    if changes != [] {
      var earlier, last := changes[..|changes| - 1], changes[|changes| - 1];
      PutAt(Applied(files, saved, earlier).files, last.path, last.contents, path);
      OtherFilesAreKept(files, saved, earlier, path);
    }
  }

  /** Putting back what a plan recorded undoes the plan, created files included. */
  lemma RestoringUndoesThePlan(start: Files, changes: seq<Change>)
    ensures var p := Applied(start, [], changes); Restored(p.files, p.saved) == start
  {
    var p := Applied(start, [], changes);
    AppliedRecords(start, changes);
    forall path ensures Lookup(Restored(p.files, p.saved), path) == Lookup(start, path) {
      RestoredAt(start, p.files, p.saved, path);
    }
    SameFiles(Restored(p.files, p.saved), start);
  }

  // ----- the stack -------------------------------------------------------------------

  /** Complete backups by id. */
  type Stack = map<string, seq<Saved>>

  datatype Disk = Disk(files: Files, stack: Stack)

  /** One run of a command that edits: a plan without changes leaves no backup behind. */
  function RunPlan(disk: Disk, id: string, changes: seq<Change>): Disk {
    var p := Applied(disk.files, [], changes);
    Disk(p.files, if p.saved == [] then disk.stack - {id} else disk.stack[id := p.saved])
  }

  ghost predicate IsLatest(stack: Stack, id: string) {
    id in stack && forall other :: other in stack ==> other == id || Less(other, id)
  }

  /** A rollback without an id takes the latest backup; with none there it does nothing. */
  ghost predicate RollsBack(before: Disk, after: Disk) {
    if before.stack == map[] then after == before
    else exists id :: IsLatest(before.stack, id) && after == Disk(Restored(before.files, before.stack[id]), before.stack - {id})
  }

  lemma LatestIsUnique(stack: Stack, a: string, b: string)
    requires IsLatest(stack, a) && IsLatest(stack, b)
    ensures a == b
  {
    if a != b {
      LessTransitive(a, b, a);
      LessIrreflexive(a);
    }
  }

  /** A rollback straight after a run undoes exactly that run, on disk and on the stack. */
  lemma RollbackUndoesLatest(disk: Disk, id: string, changes: seq<Change>, after: Disk)
    requires changes != [] && (forall other :: other in disk.stack ==> Less(other, id))
    requires RollsBack(RunPlan(disk, id, changes), after)
    ensures after == disk
  {
    var p := Applied(disk.files, [], changes);
    var run := RunPlan(disk, id, changes);
    AppliedRecords(disk.files, changes);
    RestoringUndoesThePlan(disk.files, changes);
    LessIrreflexive(id);
    hide Applied, Restored, Less;
    assert id !in disk.stack && IsLatest(run.stack, id);
    forall other | IsLatest(run.stack, other) ensures other == id { LatestIsUnique(run.stack, other, id); }
    assert run.stack - {id} == disk.stack;
  }

  datatype Command = Command(id: string, changes: seq<Change>)

  /** The disk after each command of a list, the first one included. */
  function RunAll(disk: Disk, commands: seq<Command>): Disk {
    if commands == [] then disk
    else RunPlan(RunAll(disk, commands[..|commands| - 1]), commands[|commands| - 1].id, commands[|commands| - 1].changes)
  }

  /** Ids grow from command to command, and beyond everything backed up before. */
  ghost predicate Growing(disk: Disk, commands: seq<Command>) {
    && (forall m, n :: 0 <= m < n < |commands| ==> Less(commands[m].id, commands[n].id))
    && forall n, other :: 0 <= n < |commands| && other in disk.stack ==> Less(other, commands[n].id)
  }

  lemma {:induction false} StackHoldsEarlier(disk: Disk, commands: seq<Command>, id: string)
    requires Growing(disk, commands)
    requires (forall n :: 0 <= n < |commands| ==> Less(commands[n].id, id)) && forall other :: other in disk.stack ==> Less(other, id)
    ensures forall other :: other in RunAll(disk, commands).stack ==> Less(other, id)
    decreases |commands|
  {
    hide Applied, Less;
    if commands != [] {
      StackHoldsEarlier(disk, commands[..|commands| - 1], id);
    }
  }

  /** `disks` is what successive rollbacks make of a disk. */
  ghost predicate Rollbacks(disks: seq<Disk>) {
    forall n :: 0 <= n < |disks| - 1 ==> RollsBack(disks[n], disks[n + 1])
  }

  /**
   * After any number of plans, as many rollbacks step back through exactly the states
   * in between, to the files and the backups there were at the start.
   */
  lemma {:induction false} RollbacksRetraceThePlans(disk: Disk, commands: seq<Command>, disks: seq<Disk>, n: nat)
    requires Growing(disk, commands) && (forall m :: 0 <= m < |commands| ==> commands[m].changes != [])
    requires Rollbacks(disks) && |disks| == |commands| + 1 && disks[0] == RunAll(disk, commands)
    requires n <= |commands|
    ensures disks[n] == RunAll(disk, commands[..|commands| - n])
    decreases n
  {
    hide RunPlan, RollsBack;
    if n == 0 {
      assert commands[..|commands|] == commands;
    } else {
      RollbacksRetraceThePlans(disk, commands, disks, n - 1);
      var m := |commands| - n;
      var done := commands[..m + 1];
      assert done[..m] == commands[..m] && done[m] == commands[m];
      StackHoldsEarlier(disk, commands[..m], commands[m].id);
      assert RollsBack(disks[n - 1], disks[n - 1 + 1]);
      RollbackUndoesLatest(RunAll(disk, commands[..m]), commands[m].id, commands[m].changes, disks[n]);
    }
  }

  lemma RollbacksReturnToStart(disk: Disk, commands: seq<Command>, disks: seq<Disk>)
    requires Growing(disk, commands) && (forall m :: 0 <= m < |commands| ==> commands[m].changes != [])
    requires Rollbacks(disks) && |disks| == |commands| + 1 && disks[0] == RunAll(disk, commands)
    ensures disks[|commands|] == disk
  {
    RollbacksRetraceThePlans(disk, commands, disks, |commands|);
    assert commands[..0] == [];
  }

  // ----- the disk and the backup directories -----------------------------------------

  /** `copy` names the saved copy inside the backup's directory; None when the file did not exist. */
  datatype Entry = Entry(path: string, copy: Option<string>, existed: bool)

  /** A backup directory; without a manifest it is what an interrupted run left. */
  datatype Directory = Directory(copies: map<string, string>, manifest: Option<seq<Entry>>)

  function SavedBy(entry: Entry, copies: map<string, string>): Saved {
    Saved(entry.path, if entry.existed && entry.copy.Some? then Lookup(copies, entry.copy.value) else None)
  }

  function SavedIn(entries: seq<Entry>, copies: map<string, string>): (r: seq<Saved>)
    ensures |r| == |entries| && forall n :: 0 <= n < |r| ==> r[n] == SavedBy(entries[n], copies)
  {
    seq(|entries|, n requires 0 <= n < |entries| => SavedBy(entries[n], copies))
  }

  /** Every entry of a file that existed has its copy. */
  predicate Complete(entries: seq<Entry>, copies: map<string, string>) {
    forall n :: 0 <= n < |entries| ==>
      (entries[n].existed <==> entries[n].copy.Some?) && (entries[n].copy.Some? ==> entries[n].copy.value in copies)
  }

  /** `${index}-${basename}`. */
  function CopyName(index: nat, basename: string): string {
    Decimal(index) + ("-" + basename)
  }

  /** Copies of different entries have different names, whatever the files are called. */
  lemma CopyNamesDiffer(m: nat, a: string, n: nat, b: string)
    requires CopyName(m, a) == CopyName(n, b)
    ensures m == n
  {
    var s, t := Decimal(m), Decimal(n);
    var x, y := s + ("-" + a), t + ("-" + b);
    assert x[|s|] == '-' && y[|t|] == '-';
    assert forall i :: 0 <= i < |s| ==> x[i] == s[i];
    assert forall i :: 0 <= i < |t| ==> y[i] == t[i];
    assert |s| == |t|;
    assert s == x[..|s|] && t == y[..|t|];
    DecimalInjective(m, n);
  }

  /** The backups that count: the directories with a manifest. */
  ghost function StackOf(directories: map<string, Directory>): Stack {
    map id | id in directories && directories[id].manifest.Some? ::
      SavedIn(directories[id].manifest.value, directories[id].copies)
  }

  lemma CommitStacks(before: map<string, Directory>, after: map<string, Directory>, id: string, entries: seq<Entry>)
    requires id !in before && after.Keys == before.Keys + {id}
    requires forall other :: other in before ==> after[other] == before[other]
    ensures StackOf(after - {id}) == StackOf(before) == StackOf(before) - {id}
    ensures StackOf(after[id := after[id].(manifest := Some(entries))]) == StackOf(before)[id := SavedIn(entries, after[id].copies)]
  {
  }

  class Machine {
    var files: Files
    var directories: map<string, Directory>

    ghost predicate Valid()
      reads this
    {
      forall id :: id in directories && directories[id].manifest.Some? ==>
        Complete(directories[id].manifest.value, directories[id].copies)
    }

    ghost function Stacked(): Stack
      reads this
    {
      StackOf(directories)
    }

    ghost function State(): Disk
      reads this
    {
      Disk(files, Stacked())
    }

    constructor (files: Files)
      ensures Valid() && State() == Disk(files, map[])
    {
      this.files := files;
      directories := map[];
    }

    /** `listBackups(...).at(-1)`: the greatest id that has a manifest. */
    method Latest() returns (latest: Option<string>)
      ensures latest.None? <==> Stacked() == map[]
      ensures latest.Some? ==> IsLatest(Stacked(), latest.value)
    {
      hide Less;
      latest := None;
      var rest := directories.Keys;
      while rest != {}
        invariant rest <= directories.Keys
        invariant latest.Some? ==> latest.value in Stacked()
        invariant forall id :: id in Stacked() && id !in rest ==> latest.Some? && (id == latest.value || Less(id, latest.value))
        decreases |rest|
      {
        var id :| id in rest;
        rest := rest - {id};
        if directories[id].manifest.Some? {
          assert id in Stacked();
          if latest.None? {
            latest := Some(id);
          } else if Less(latest.value, id) {
            forall other | other in Stacked() && other !in rest && other != id ensures Less(other, id) {
              if other != latest.value { LessTransitive(other, latest.value, id); }
            }
            latest := Some(id);
          } else {
            LessTotal(latest.value, id);
          }
        }
      }
    }

    /** The restore loop: a file that had not existed is removed again. */
    method Restore(entries: seq<Entry>, copies: map<string, string>)
      requires Complete(entries, copies)
      modifies this`files
      ensures files == Restored(old(files), SavedIn(entries, copies))
    {
      ghost var saved := SavedIn(entries, copies);
      for n := 0 to |entries|
        invariant files == Restored(old(files), saved[..n])
      {
        assert saved[..n + 1][..n] == saved[..n];
        var entry := entries[n];
        if entry.existed && entry.copy.Some? {
          files := files[entry.path := copies[entry.copy.value]];
        } else {
          files := files - {entry.path};
        }
      }
      assert saved[..|entries|] == saved;
    }

    /** restoreBackup without an id. */
    method Rollback() returns (restored: Option<string>)
      requires Valid()
      modifies this
      ensures Valid() && RollsBack(old(State()), State())
      ensures restored.None? <==> old(State()).stack == map[]
    {
      restored := Latest();
      if restored.None? {
        return;
      }
      var id := restored.value;
      var directory := directories[id];
      ghost var before := State();
      Restore(directory.manifest.value, directory.copies);
      directories := directories - {id};
      assert Stacked() == before.stack - {id};
      assert IsLatest(before.stack, id) && State() == Disk(Restored(before.files, before.stack[id]), before.stack - {id});
    }

    /** One editing command: open a backup, apply the plan, commit. */
    method Run(id: string, changes: seq<Change>, basename: string -> string)
      requires Valid() && id !in directories
      modifies this
      ensures Valid() && State() == RunPlan(old(State()), id, changes)
      ensures directories.Keys == old(directories.Keys) + if changes == [] then {} else {id}
    {
      hide StackOf, Applied, Complete;
      ghost var before := directories;
      AppliedRecords(files, changes);
      var backups := new BackupSet(this, id);
      ApplyPlan(changes, backups, basename);
      CommitStacks(before, directories, id, backups.entries);
      assert backups.entries == [] <==> changes == [];
      backups.Commit();
    }

    /** applyPlan: capture, then write. */
    method ApplyPlan(changes: seq<Change>, backups: BackupSet, basename: string -> string)
      requires backups.machine == this && backups.Valid() && Valid() && backups.entries == []
      modifies this, backups`entries
      ensures backups.Valid() && Valid()
      ensures files == Applied(old(files), [], changes).files
      ensures backups.Recorded() == Applied(old(files), [], changes).saved
      ensures directories.Keys == old(directories.Keys)
      ensures forall id :: id in directories && id != backups.id ==> directories[id] == old(directories)[id]
    {
      hide Complete;
      assert backups.Recorded() == [];
      for n := 0 to |changes|
        invariant backups.Valid() && Valid()
        invariant Progress(files, backups.Recorded()) == Applied(old(files), [], changes[..n])
        invariant directories.Keys == old(directories.Keys)
        invariant forall id :: id in directories && id != backups.id ==> directories[id] == old(directories)[id]
      {
        assert changes[..n + 1][..n] == changes[..n];
        backups.Capture(changes[n].path, basename);
        files := files[changes[n].path := changes[n].contents];
      }
      assert changes[..|changes|] == changes;
    }
  }

  class BackupSet {
    const machine: Machine
    const id: string
    var entries: seq<Entry>

    ghost predicate Valid()
      reads this, machine
    {
      && id in machine.directories && machine.directories[id].manifest.None?
      && Complete(entries, machine.directories[id].copies)
      && forall n :: 0 <= n < |entries| && entries[n].copy.Some? ==>
           exists name :: entries[n].copy == Some(CopyName(n, name))
    }

    ghost function Recorded(): seq<Saved>
      requires id in machine.directories
      reads this, machine
    {
      SavedIn(entries, machine.directories[id].copies)
    }

    /** Makes the backup's directory. */
    constructor (machine: Machine, id: string)
      requires machine.Valid() && id !in machine.directories
      modifies machine
      ensures this.machine == machine && this.id == id && entries == [] && Valid() && machine.Valid()
      ensures machine.files == old(machine.files)
      ensures machine.directories == old(machine.directories)[id := Directory(map[], None)]
    {
      this.machine := machine;
      this.id := id;
      entries := [];
      new;
      machine.directories := machine.directories[id := Directory(map[], None)];
    }

    /** Records the contents of a file, or its absence, the first time it is named. */
    method Capture(path: string, basename: string -> string)
      requires Valid() && machine.Valid()
      modifies machine`directories, this`entries
      ensures Valid() && machine.Valid()
      ensures Recorded() == Captured(machine.files, old(Recorded()), path)
      ensures machine.directories.Keys == old(machine.directories.Keys)
      ensures forall other :: other in machine.directories && other != id ==>
        machine.directories[other] == old(machine.directories)[other]
    {
      ghost var saved := Recorded();
      var known := false;
      for n := 0 to |entries|
        invariant known <==> exists m :: 0 <= m < n && entries[m].path == path
      {
        if entries[n].path == path {
          known := true;
        }
      }
      assert known <==> HasPath(saved, path) by {
        if known { var m :| 0 <= m < |entries| && entries[m].path == path; assert saved[m].path == path; }
        if HasPath(saved, path) { var m :| 0 <= m < |saved| && saved[m].path == path; assert entries[m].path == path; }
      }
      if known {
        return;
      }
      if path !in machine.files {
        entries := entries + [Entry(path, None, false)];
      } else {
        var directory := machine.directories[id];
        var copy := CopyName(|entries|, basename(path));
        CopiesStay(entries, directory.copies, basename(path), machine.files[path]);
        machine.directories := machine.directories[id := directory.(copies := directory.copies[copy := machine.files[path]])];
        entries := entries + [Entry(path, Some(copy), true)];
      }
      assert Recorded() == saved + [Saved(path, Lookup(machine.files, path))];
    }

    /** Writes the manifest; a set that captured nothing takes its directory away again. */
    method Commit()
      requires Valid() && machine.Valid()
      modifies machine`directories
      ensures machine.Valid()
      ensures entries == [] ==> machine.directories == old(machine.directories) - {id}
      ensures entries != [] ==>
        machine.directories == old(machine.directories)[id := old(machine.directories)[id].(manifest := Some(entries))]
    {
      if |entries| == 0 {
        machine.directories := machine.directories - {id};
        return;
      }
      machine.directories := machine.directories[id := machine.directories[id].(manifest := Some(entries))];
    }
  }

  /** A new copy overwrites none of the earlier ones. */
  lemma CopiesStay(entries: seq<Entry>, copies: map<string, string>, basename: string, contents: string)
    requires Complete(entries, copies)
    requires forall n :: 0 <= n < |entries| && entries[n].copy.Some? ==> exists name :: entries[n].copy == Some(CopyName(n, name))
    ensures var more := copies[CopyName(|entries|, basename) := contents];
            Complete(entries, more) && SavedIn(entries, more) == SavedIn(entries, copies)
  {
    var more := copies[CopyName(|entries|, basename) := contents];
    forall n | 0 <= n < |entries| ensures SavedBy(entries[n], more) == SavedBy(entries[n], copies) {
      if entries[n].copy.Some? {
        var name :| entries[n].copy == Some(CopyName(n, name));
        if CopyName(n, name) == CopyName(|entries|, basename) { CopyNamesDiffer(n, name, |entries|, basename); }
      }
    }
  }
}
