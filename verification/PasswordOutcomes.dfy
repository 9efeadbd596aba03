/** Who reports what about the dashboard password: exactly one creates it, or migrates it, or all find it. */
module PasswordOutcomes {
  import opened Password
  import opened Text
  import opened Wrappers

  /** The process that put the password in place, on its way to saying so. */
  predicate Placer(p: Process, start: Dir) {
    match start.legacy
    case None => p.phase == Unlinking(false, true) || p.phase == Done(Ok((p.secret, File(true, false))))
    case Some(text) => p.phase == Reading(true) || p.phase == Done(Ok((Trim(text), File(false, true))))
  }

  /** A password that was not there at the start has its placer. */
  ghost predicate Placed(s: System, start: Dir) {
    s.dir.password.Some? ==> exists i: nat :: i < |s.processes| && Placer(s.processes[i], start)
  }

  /** Nothing but a password that can be sent, under whichever name. */
  predicate Usable(dir: Dir) {
    Found(dir).Some? ==> Sendable(Trim(Found(dir).value))
  }

  lemma UsableIsNotShort(dir: Dir)
    requires Usable(dir)
    ensures NotShort(dir)
  {
  }

  lemma OwnPlacing(dir: Dir, pid: nat, p: Process, start: Dir)
    requires NotShort(dir) && PhaseFits(dir, p) && TmpFits(dir, pid, p)
    requires start.password.None? && start.writable && Usable(start) && Moves(start, dir)
    ensures var (dir', phase) := Next(dir, pid, p);
            var p' := p.(phase := phase);
            && (Placer(p, start) ==> Placer(p', start))
            && (dir.password.None? && dir'.password.Some? ==> Placer(p', start))
  {
    hide Trim, Sendable, ByteLength, Drawn;
    ByteLengthOf(dir);
  }

  lemma StepPlaced(s: System, pid: nat, start: Dir)
    requires Agreeing(s) && Moves(start, s.dir) && Placed(s, start)
    requires start.password.None? && start.writable && Usable(start)
    ensures Placed(Stepping(s, pid), start)
  {
    hide Next, PhaseFits, Placer, Moves, Usable, NotShort;
    if pid < |s.processes| {
      OwnPlacing(s.dir, pid, s.processes[pid], start);
      var s' := Stepping(s, pid);
      if s'.dir.password.Some? {
        if s.dir.password.None? {
          assert Placer(s'.processes[pid], start);
        } else {
          var i: nat :| i < |s.processes| && Placer(s.processes[i], start);
          assert Placer(s'.processes[i], start);
        }
      }
    }
  }

  lemma {:induction false} RunPlaced(s: System, schedule: seq<nat>)
    requires Initial(s) && s.dir.password.None? && s.dir.writable && Usable(s.dir)
    ensures Placed(Run(s, schedule), s.dir)
  {
    hide Stepping, Placed, Agreeing, Moves;
    UsableIsNotShort(s.dir);
    InitialAgrees(s);
    if schedule == [] {
      NothingPlaced(s);
    } else {
      var front := schedule[..|schedule| - 1];
      RunPlaced(s, front);
      RunAgrees(s, front);
      StepPlaced(Run(s, front), schedule[|schedule| - 1], s.dir);
    }
  }

  lemma NothingPlaced(s: System)
    requires s.dir.password.None?
    ensures Placed(s, s.dir)
  {
  }

  /** Process `i` ended with this password from the file. */
  predicate Ended(s: System, i: nat, pw: string, created: bool, migrated: bool) {
    i < |s.processes| && s.processes[i].phase == Done(Ok((pw, File(created, migrated))))
  }

  /** Process `c` alone put the password in place; everyone else who relies on the file just found it. */
  ghost predicate Sole(s: System, end: System, c: nat, pw: string, created: bool, migrated: bool) {
    && |end.processes| == |s.processes|
    && Ended(end, c, pw, created, migrated)
    && forall j: nat :: j < |s.processes| && j != c && !Overridden(s.processes[j].env) ==> Ended(end, j, pw, false, false)
  }

  predicate AllDone(s: System) {
    forall i :: 0 <= i < |s.processes| ==> s.processes[i].phase.Done?
  }

  /** Every process that relies on the file ends with the password that the file holds. */
  lemma Reported(s: System, schedule: seq<nat>, i: nat)
    requires Initial(s) && s.dir.writable && Usable(s.dir)
    requires i < |s.processes| && !Overridden(s.processes[i].env)
    requires |Run(s, schedule).processes| == |s.processes| && Run(s, schedule).processes[i].phase.Done?
    ensures var end := Run(s, schedule);
            && end.dir.password.Some?
            && exists created, migrated :: Ended(end, i, Trim(end.dir.password.value), created, migrated)
  {
    hide Run, Trim, Sendable, ByteLength;
    UsableIsNotShort(s.dir);
    InitialAgrees(s);
    RunAgrees(s, schedule);
    NobodyFails(s, schedule, i);
    var end := Run(s, schedule);
    assert PhaseFits(end.dir, end.processes[i]);
    var (pw, source) := end.processes[i].phase.outcome.value;
    assert Ended(end, i, Trim(end.dir.password.value), source.created, source.migrated);
  }

  /** Two processes never both claim to have put the password in place. */
  lemma SoleClaim(s: System, schedule: seq<nat>, c: nat, j: nat)
    requires Initial(s) && Usable(s.dir) && c != j
    requires c < |Run(s, schedule).processes| && j < |Run(s, schedule).processes|
    requires Claims(Run(s, schedule).processes[c].phase)
    ensures !Claims(Run(s, schedule).processes[j].phase)
  {
    hide Run;
    UsableIsNotShort(s.dir);
    InitialAgrees(s);
    RunAgrees(s, schedule);
  }

  lemma OthersFind(s: System, schedule: seq<nat>, c: nat, pw: string, created: bool, migrated: bool)
    requires Initial(s) && s.dir.writable && Usable(s.dir)
    requires |Run(s, schedule).processes| == |s.processes| && AllDone(Run(s, schedule))
    requires Ended(Run(s, schedule), c, pw, created, migrated) && (created || migrated)
    requires Run(s, schedule).dir.password.Some? && Trim(Run(s, schedule).dir.password.value) == pw
    ensures Sole(s, Run(s, schedule), c, pw, created, migrated)
  {
    hide Run, Trim, Usable;
    var end := Run(s, schedule);
    forall j: nat | j < |s.processes| && j != c && !Overridden(s.processes[j].env)
      ensures Ended(end, j, pw, false, false)
    {
      Reported(s, schedule, j);
      SoleClaim(s, schedule, c, j);
    }
  }

  /**
   * First start. From a writable directory without a password under either name, whatever the schedule, once all processes
   * have ended and one of them relies on the file: exactly one of these reports that it created the password, which is the
   * one it drew itself and what the file holds; all others that rely on the file report that password as found.
   */
  lemma OneCreates(s: System, schedule: seq<nat>, i: nat) returns (c: nat)
    requires Initial(s) && s.dir.writable && Found(s.dir).None?
    requires i < |s.processes| && !Overridden(s.processes[i].env)
    requires AllDone(Run(s, schedule))
    ensures c < |s.processes| && Sole(s, Run(s, schedule), c, s.processes[c].secret, true, false)
    ensures Run(s, schedule).dir.password == Some(s.processes[c].secret + "\n")
  {
    hide Run, Trim, Sendable, Drawn;
    var end := Run(s, schedule);
    EnvDecides(s, schedule, i);
    RunPlaced(s, schedule);
    Reported(s, schedule, i);
    c :| c < |end.processes| && Placer(end.processes[c], s.dir);
    EnvDecides(s, schedule, c);
    InitialAgrees(s);
    RunAgrees(s, schedule);
    assert PhaseFits(end.dir, end.processes[c]);
    DrawnIsSendable(s.processes[c].secret);
    OthersFind(s, schedule, c, s.processes[c].secret, true, false);
  }

  /**
   * Migration. From a writable directory with only a former file whose password can be sent, exactly one process reports
   * that it migrated it, its text has moved as it was, and all others that rely on the file report it as found.
   */
  lemma OneMigrates(s: System, schedule: seq<nat>, i: nat) returns (c: nat)
    requires Initial(s) && s.dir.writable && s.dir.password.None? && s.dir.legacy.Some? && Sendable(Trim(s.dir.legacy.value))
    requires i < |s.processes| && !Overridden(s.processes[i].env)
    requires AllDone(Run(s, schedule))
    ensures Sole(s, Run(s, schedule), c, Trim(s.dir.legacy.value), false, true)
    ensures Run(s, schedule).dir.password == s.dir.legacy && Run(s, schedule).dir.legacy.None?
  {
    hide Run, Trim, Sendable, Drawn;
    var end := Run(s, schedule);
    EnvDecides(s, schedule, i);
    RunPlaced(s, schedule);
    Reported(s, schedule, i);
    c :| c < |end.processes| && Placer(end.processes[c], s.dir);
    UsableIsNotShort(s.dir);
    InitialAgrees(s);
    RunAgrees(s, schedule);
    OthersFind(s, schedule, c, Trim(s.dir.legacy.value), false, true);
  }

  lemma {:induction false} NobodyClaims(s: System, schedule: seq<nat>)
    requires Initial(s) && NotShort(s.dir) && s.dir.password.Some?
    ensures forall i :: 0 <= i < |Run(s, schedule).processes| ==> !Claims(Run(s, schedule).processes[i].phase)
  {
    hide Next, PhaseFits, NotShort, Agreeing;
    if schedule != [] {
      var front, pid := schedule[..|schedule| - 1], schedule[|schedule| - 1];
      NobodyClaims(s, front);
      InitialAgrees(s);
      RunAgrees(s, front);
      var before := Run(s, front);
      if pid < |before.processes| {
        AgreeingFits(before, pid);
        OwnStep(before.dir, pid, before.processes[pid]);
      }
    }
  }

  lemma AgreeingFits(s: System, pid: nat)
    requires Agreeing(s) && pid < |s.processes|
    ensures NotShort(s.dir) && PhaseFits(s.dir, s.processes[pid]) && TmpFits(s.dir, pid, s.processes[pid])
  {
  }

  /** With a sendable password already in place, all that rely on the file report it as found, and nothing changes. */
  lemma AllFind(s: System, schedule: seq<nat>, i: nat)
    requires Initial(s) && s.dir.writable && s.dir.password.Some? && Sendable(Trim(s.dir.password.value))
    requires i < |s.processes| && !Overridden(s.processes[i].env)
    requires AllDone(Run(s, schedule))
    ensures Ended(Run(s, schedule), i, Trim(s.dir.password.value), false, false)
    ensures Run(s, schedule).dir.password == s.dir.password
  {
    hide Run, Trim, Sendable;
    EnvDecides(s, schedule, i);
    Reported(s, schedule, i);
    UsableIsNotShort(s.dir);
    InitialAgrees(s);
    RunAgrees(s, schedule);
    NobodyClaims(s, schedule);
  }

  // ----- one process on its own

  /** From the reading of the password file on, in a writable directory. */
  lemma ReadsAlone(dir: Dir, pid: nat, p: Process, migrated: bool)
    requires dir.writable && Drawn(p.secret) && p.phase == Reading(migrated)
    ensures Alone(dir, pid, p) ==
            if dir.password.Some? && !Short(dir.password.value) then
              (dir, if Sendable(Trim(dir.password.value)) then Ok((Trim(dir.password.value), File(false, migrated))) else Err(BadFile))
            else
              (dir.(password := Some(p.secret + "\n"), tmps := dir.tmps - {pid}), Ok((p.secret, File(true, migrated))))
  {
    hide Trim, Sendable, ByteLength, Drawn, Alone;
    ByteLengthOf(dir);
    if dir.password.Some? && !Short(dir.password.value) {
      var (dir', phase) := Next(dir, pid, p);
      AloneStep(dir, pid, p, phase, dir');
    } else {
      var empty := dir.(password := None);
      if dir.password.Some? {
        AloneStep(dir, pid, p, Removing(migrated), dir);
        AloneStep(dir, pid, p.(phase := Removing(migrated)), Writing(migrated), empty);
      } else {
        AloneStep(dir, pid, p, Writing(migrated), dir);
      }
      var written := empty.(tmps := dir.tmps[pid := p.secret + "\n"]);
      var linked := written.(password := Some(p.secret + "\n"));
      AloneStep(empty, pid, p.(phase := Writing(migrated)), Linking(migrated), written);
      AloneStep(written, pid, p.(phase := Linking(migrated)), Unlinking(migrated, true), linked);
      var done := linked.(tmps := linked.tmps - {pid});
      AloneStep(linked, pid, p.(phase := Unlinking(migrated, true)), Done(Ok((p.secret, File(true, migrated)))), done);
      assert done.tmps == dir.tmps - {pid};
    }
  }

  /**
   * Every case of a single process in a writable directory. The variable wins unless it is blank; else the password file,
   * or the former one moved into its place, is reported as it is; and where it is missing or too short, the drawn password
   * is put there and reported as created.
   */
  lemma StartsAlone(dir: Dir, pid: nat, env: Option<string>, secret: string)
    requires dir.writable && Drawn(secret)
    ensures var (dir', r) := Alone(dir, pid, Process(env, secret, Starting));
            var moved := dir.password.None? && dir.legacy.Some?;
            if Overridden(env) then
              dir' == dir && r == if Sendable(Trim(env.value)) then Ok((Trim(env.value), Env)) else Err(BadEnv)
            else if Found(dir).Some? && !Short(Found(dir).value) then
              && dir' == (if moved then dir.(password := dir.legacy, legacy := None) else dir)
              && r == if Sendable(Trim(Found(dir).value)) then Ok((Trim(Found(dir).value), File(false, moved))) else Err(BadFile)
            else
              && dir'.password == Some(secret + "\n")
              && dir'.legacy == (if moved then None else dir.legacy)
              && dir'.tmps == dir.tmps - {pid}
              && r == Ok((secret, File(true, moved)))
  {
    hide Trim, Sendable, Short, Drawn, Alone;
    var p := Process(env, secret, Starting);
    var (dir1, phase1) := Next(dir, pid, p);
    AloneStep(dir, pid, p, phase1, dir1);
    if !Overridden(env) {
      var (dir2, phase2) := Next(dir, pid, p.(phase := SeekingPassword));
      AloneStep(dir, pid, p.(phase := SeekingPassword), phase2, dir2);
      if dir.password.None? {
        var (dir3, phase3) := Next(dir, pid, p.(phase := SeekingLegacy));
        AloneStep(dir, pid, p.(phase := SeekingLegacy), phase3, dir3);
        if dir.legacy.Some? {
          var moved := dir.(password := dir.legacy, legacy := None);
          AloneStep(dir, pid, p.(phase := Renaming), Reading(true), moved);
          ReadsAlone(moved, pid, p.(phase := Reading(true)), true);
        } else {
          ReadsAlone(dir, pid, p.(phase := Reading(false)), false);
        }
      } else {
        ReadsAlone(dir, pid, p.(phase := Reading(false)), false);
      }
    }
  }

  lemma {:induction false} AsciiLength(pw: string)
    requires forall i :: 0 <= i < |pw| ==> '!' <= pw[i] <= '~'
    ensures ByteLength(pw) == |pw|
    decreases |pw|
  {
    if pw != "" {
      AsciiLength(pw[1..]);
    }
  }

  /** A password can be sent exactly if it is at least 12 characters of printable ASCII without blanks. */
  lemma SendableMeans(pw: string)
    ensures Sendable(pw) <==> |pw| >= 12 && forall i :: 0 <= i < |pw| ==> '!' <= pw[i] <= '~'
  {
    hide ByteLength;
    if forall i :: 0 <= i < |pw| ==> '!' <= pw[i] <= '~' {
      AsciiLength(pw);
    }
  }
}
