/** Self-update and rollback of the daemon binary by renames (cmd/daao/update.go).  Every file operation
    may fail on its own; a command carries the outcome each of its operations would have.
 */
module BinarySwap {

  /** The executable, its backup, the parking place used by rollback and the download. */
  datatype Place = Exe | Bak | New | Tmp

  type Files = map<Place, nat>

  datatype Command =
    | Update(binary: nat, removeBak: bool, backup: bool, install: bool, restore: bool, cleanup: bool)
    | Rollback(removeNew: bool, park: bool, swap: bool, unpark: bool, keep: bool)

  datatype Outcome = Outcome(files: Files, ok: bool)

  function Removed(fs: Files, p: Place, ok: bool): Files { if ok then fs - {p} else fs }

  predicate CanRename(fs: Files, from: Place, ok: bool) { ok && from in fs }

  /** A rename is atomic and replaces its target. */
  function Renamed(fs: Files, from: Place, to: Place, ok: bool): Files {
    if CanRename(fs, from, ok) then (fs - {from})[to := fs[from]] else fs
  }

  function Swapped(fs: Files, c: Command): Outcome
    requires c.Update? && Exe in fs
  {
    var f1 := Removed(fs, Bak, c.removeBak);
    var f2 := Renamed(f1, Exe, Bak, c.backup);
    if !CanRename(f1, Exe, c.backup) then Outcome(f1, false)
    else
      var f3 := Renamed(f2, Tmp, Exe, c.install);
      if CanRename(f2, Tmp, c.install) then Outcome(f3, true)
      else Outcome(Renamed(f2, Bak, Exe, c.restore), false)
  }

  /** The whole update: the download is removed on the way out, whatever happened. */
  function Updated(fs: Files, c: Command): Outcome
    requires c.Update?
  {
    var f0 := fs[Tmp := c.binary];
    var o := if Exe in fs then Swapped(f0, c) else Outcome(f0, false);
    Outcome(Removed(o.files, Tmp, c.cleanup), o.ok)
  }

  function RolledBack(fs: Files, c: Command): Outcome
    requires c.Rollback?
  {
    if Exe !in fs || Bak !in fs then Outcome(fs, false)
    else
      var f1 := Removed(fs, New, c.removeNew);
      if !CanRename(f1, Exe, c.park) then Outcome(f1, false)
      else
        var f2 := Renamed(f1, Exe, New, c.park);
        if !CanRename(f2, Bak, c.swap) then Outcome(Renamed(f2, New, Exe, c.unpark), false)
        else Outcome(Renamed(Renamed(f2, Bak, Exe, c.swap), New, Bak, c.keep), true)
  }

  function Done(fs: Files, c: Command): Outcome { if c.Update? then Updated(fs, c) else RolledBack(fs, c) }

  // ---------------------------------------------------------------- one command

  predicate Holds(fs: Files, p: Place, b: nat) { p in fs && fs[p] == b }

  /** The binary that ran before an update is at the executable path or in the backup, whatever failed; a
      reported success installs the download and keeps the old binary as the backup. */
  lemma UpdateKeepsTheBinary(fs: Files, c: Command)
    requires c.Update? && Exe in fs
    ensures var o := Updated(fs, c);
            && (Holds(o.files, Exe, fs[Exe]) || Holds(o.files, Bak, fs[Exe]))
            && (o.ok ==> Holds(o.files, Exe, c.binary) && Holds(o.files, Bak, fs[Exe]))
            && (!o.ok && Exe in o.files ==> Holds(o.files, Exe, fs[Exe]))
            && (o.ok <==> c.backup && c.install)
            && (Exe !in o.files <==> c.backup && !c.install && !c.restore)
  {
  }

  /** A rollback keeps both binaries, at different places, whatever failed; a reported success runs the
      former backup. */
  lemma RollbackKeepsBoth(fs: Files, c: Command)
    requires c.Rollback? && Exe in fs && Bak in fs
    ensures var o := RolledBack(fs, c);
            && (o.ok <==> c.park && c.swap)
            && (o.ok ==> Holds(o.files, Exe, fs[Bak]) && Holds(o.files, if c.keep then Bak else New, fs[Exe]))
            && (!o.ok ==> Holds(o.files, Bak, fs[Bak])
                          && Holds(o.files, if c.park && !c.unpark then New else Exe, fs[Exe]))
            && (Exe !in o.files <==> c.park && !c.swap && !c.unpark)
  {
  }

  /** Two rollbacks that both report success run the first binary again; the backup is back in its place
      exactly when the last rename of the second one worked. */
  lemma TwoRollbacksRestore(fs: Files, c: Command, d: Command)
    requires c.Rollback? && d.Rollback?
    requires RolledBack(fs, c).ok && RolledBack(RolledBack(fs, c).files, d).ok
    ensures var o := RolledBack(RolledBack(fs, c).files, d);
            && Exe in fs && Bak in fs && Holds(o.files, Exe, fs[Exe])
            && (Holds(o.files, Bak, fs[Bak]) <==> d.keep)
  {
    RollbackKeepsBoth(fs, c);
    var f := RolledBack(fs, c).files;
    assert c.keep;
    assert f[Bak] == fs[Exe];
  }

  // ---------------------------------------------------------------- any sequence of commands

  function Run(fs: Files, cs: seq<Command>): Files {
    if cs == [] then fs else Done(Run(fs, cs[..|cs| - 1]), cs[|cs| - 1]).files
  }

  /** The binary that was at the executable path when a command last found one there. */
  function LastRun(fs: Files, cs: seq<Command>): nat
    requires Exe in fs
  {
    if cs == [] then fs[Exe]
    else
      var f := Run(fs, cs[..|cs| - 1]);
      if Exe in f then f[Exe] else LastRun(fs, cs[..|cs| - 1])
  }

  predicate Somewhere(fs: Files, b: nat) { Holds(fs, Exe, b) || Holds(fs, Bak, b) || Holds(fs, New, b) }

  /** A command that finds no executable leaves the three places alone. */
  lemma StuckIsStable(fs: Files, c: Command)
    requires Exe !in fs
    ensures var f := Done(fs, c).files;
            Exe !in f && (Bak in f <==> Bak in fs) && (New in f <==> New in fs)
            && (Bak in fs ==> f[Bak] == fs[Bak]) && (New in fs ==> f[New] == fs[New])
  {
  }

  /** After any sequence of updates and rollbacks, with any failures, the binary that last ran is still at
      the executable path, in the backup or in the parking place. */
  lemma {:induction false} WorkingBinarySurvives(fs: Files, cs: seq<Command>)
    requires Exe in fs
    ensures Somewhere(Run(fs, cs), LastRun(fs, cs))
  {
    if cs != [] {
      hide Updated, RolledBack;
      var f := Run(fs, cs[..|cs| - 1]);
      var c := cs[|cs| - 1];
      WorkingBinarySurvives(fs, cs[..|cs| - 1]);
      if Exe !in f {
        StuckIsStable(f, c);
      } else if c.Update? {
        UpdateKeepsTheBinary(f, c);
      } else if Bak in f {
        RollbackKeepsBoth(f, c);
      } else {
        NoBackup(f, c);
      }
    }
  }

  lemma NoBackup(fs: Files, c: Command)
    requires c.Rollback? && Bak !in fs
    ensures RolledBack(fs, c) == Outcome(fs, false)
  {
  }

  /** Both renames that could leave the executable in place failed after it was moved away. */
  predicate Strands(fs: Files, c: Command) {
    if c.Update? then c.backup && !c.install && !c.restore
    else Bak in fs && c.park && !c.swap && !c.unpark
  }

  ghost predicate StrandedAt(fs: Files, cs: seq<Command>, i: nat)
    requires i < |cs|
  {
    Exe in Run(fs, cs[..i]) && Strands(Run(fs, cs[..i]), cs[i])
  }

  /** The executable path is empty exactly when some command failed twice in a row on it. */
  lemma {:induction false} ExecutableMissingIff(fs: Files, cs: seq<Command>)
    requires Exe in fs
    ensures Exe !in Run(fs, cs) <==> exists i :: 0 <= i < |cs| && StrandedAt(fs, cs, i)
  {
    if cs != [] {
      hide Done, Strands;
      var n := |cs| - 1;
      var pre := cs[..n];
      ExecutableMissingIff(fs, pre);
      forall i | 0 <= i < n
        ensures StrandedAt(fs, pre, i) == StrandedAt(fs, cs, i)
      {
        assert pre[..i] == cs[..i];
      }
      MissingStep(Run(fs, pre), cs[n]);
      assert StrandedAt(fs, cs, n) <==> Exe in Run(fs, pre) && Strands(Run(fs, pre), cs[n]);
    }
  }

  lemma MissingStep(fs: Files, c: Command)
    ensures Exe !in Done(fs, c).files <==> Exe !in fs || Strands(fs, c)
  {
  }

  // ---------------------------------------------------------------- the commands

  class Disk {
    var files: Files

    method Remove(p: Place, ok: bool)
      modifies this
      ensures files == Removed(old(files), p, ok)
    {
      if ok {
        files := files - {p};
      }
    }

    method Rename(from: Place, to: Place, ok: bool) returns (done: bool)
      modifies this
      ensures done == CanRename(old(files), from, ok) && files == Renamed(old(files), from, to, ok)
    {
      done := ok && from in files;
      if done {
        files := (files - {from})[to := files[from]];
      }
    }

    /** updateCommand from the finished download on. */
    method UpdateCommand(c: Command) returns (ok: bool)
      requires c.Update?
      modifies this
      ensures files == Updated(old(files), c).files && ok == Updated(old(files), c).ok
    {
      var located := Exe in files;
      files := files[Tmp := c.binary];
      if !located {
        Remove(Tmp, c.cleanup);
        return false;
      }
      Remove(Bak, c.removeBak);
      var backedUp := Rename(Exe, Bak, c.backup);
      if !backedUp {
        Remove(Tmp, c.cleanup);
        return false;
      }
      var installed := Rename(Tmp, Exe, c.install);
      if !installed {
        var _ := Rename(Bak, Exe, c.restore);
        Remove(Tmp, c.cleanup);
        return false;
      }
      Remove(Tmp, c.cleanup);
      ok := true;
    }

    method RollbackCommand(c: Command) returns (ok: bool)
      requires c.Rollback?
      modifies this
      ensures files == RolledBack(old(files), c).files && ok == RolledBack(old(files), c).ok
    {
      if Exe !in files || Bak !in files {
        return false;
      }
      Remove(New, c.removeNew);
      var parked := Rename(Exe, New, c.park);
      if !parked {
        return false;
      }
      var swapped := Rename(Bak, Exe, c.swap);
      if !swapped {
        var _ := Rename(New, Exe, c.unpark);
        return false;
      }
      var _ := Rename(New, Bak, c.keep);
      ok := true;
    }
  }
}
