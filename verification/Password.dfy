/**
 * The dashboard password on first start. Several processes may start at once on the same directory; each one runs the
 * same sequence of file system operations, and only the operations themselves are atomic.
 */
module Password {
  import opened Text
  import opened Wrappers

  const MIN_LEN := 12

  datatype Source = Env | File(created: bool, migrated: bool)

  datatype Failure = BadEnv | BadFile | EmptyOrShort | CannotReplace | CannotWrite

  type Outcome = Result<(string, Source), Failure>

  /** Bytes of a character in UTF-8. */
  function Width(c: char): nat {
    if c < '\U{80}' then 1 else if c < '\U{800}' then 2 else if c < '\U{10000}' then 3 else 4
  }

  function ByteLength(s: string): (n: nat)
    ensures n >= |s|
  {
    if s == "" then 0 else Width(s[0]) + ByteLength(s[1..])
  }

  /** Printable ASCII without spaces, and long enough. */
  predicate Sendable(pw: string) {
    (forall i :: 0 <= i < |pw| ==> '!' <= pw[i] <= '~') && ByteLength(pw) >= MIN_LEN
  }

  predicate Short(text: string) {
    ByteLength(Trim(text)) < MIN_LEN
  }

  /** What reading gives: the trimmed text of a file that exists, and an error for a text of sufficient length that is not sendable. */
  function ReadText(content: Option<string>): Result<Option<string>, Failure> {
    match content
    case None => Ok(None)
    case Some(text) => if Short(text) || Sendable(Trim(text)) then Ok(Some(Trim(text))) else Err(BadFile)
  }

  // ----- the directory

  /**
   * `password` and `legacy` are the current and the former password file, `tmps` each process's temporary file. In a
   * directory that is not `writable` every change fails.
   */
  datatype Dir = Dir(writable: bool, password: Option<string>, legacy: Option<string>, tmps: map<nat, string>)

  class Directory {
    const writable: bool
    var password: Option<string>
    var legacy: Option<string>
    var tmps: map<nat, string>

    function Value(): Dir
      reads this
    {
      Dir(writable, password, legacy, tmps)
    }

    method PasswordExists() returns (b: bool)
      ensures b == password.Some?
    {
      b := password.Some?;
    }

    method LegacyExists() returns (b: bool)
      ensures b == legacy.Some?
    {
      b := legacy.Some?;
    }

    /** Renaming replaces the target; it fails when the old name is gone or the directory is read-only. */
    method RenameLegacy() returns (ok: bool)
      modifies this
      ensures ok == (old(legacy).Some? && writable)
      ensures Value() == if ok then old(Value()).(password := old(legacy), legacy := None) else old(Value())
    {
      ok := legacy.Some? && writable;
      if ok {
        password, legacy := legacy, None;
      }
    }

    method ReadPassword() returns (r: Result<Option<string>, Failure>)
      ensures r == ReadText(password)
    {
      r := ReadText(password);
    }

    method ReadLegacy() returns (r: Result<Option<string>, Failure>)
      ensures r == ReadText(legacy)
    {
      r := ReadText(legacy);
    }

    /** A missing file is as good as removed. */
    method RemovePassword() returns (ok: bool)
      modifies this
      ensures ok == (writable || old(password).None?)
      ensures Value() == if ok then old(Value()).(password := None) else old(Value())
    {
      ok := writable || password.None?;
      if ok {
        password := None;
      }
    }

    method WriteTmp(pid: nat, text: string) returns (ok: bool)
      modifies this
      ensures ok == writable
      ensures Value() == if ok then old(Value()).(tmps := old(tmps)[pid := text]) else old(Value())
    {
      ok := writable;
      if ok {
        tmps := tmps[pid := text];
      }
    }

    /** Linking never replaces: it fails when the target exists. */
    method LinkTmp(pid: nat) returns (ok: bool)
      requires pid in tmps
      modifies this
      ensures ok == old(password).None?
      ensures Value() == if ok then old(Value()).(password := Some(old(tmps)[pid])) else old(Value())
    {
      ok := password.None?;
      if ok {
        password := Some(tmps[pid]);
      }
    }

    method RemoveTmp(pid: nat)
      modifies this
      ensures Value() == old(Value()).(tmps := old(tmps) - {pid})
    {
      tmps := tmps - {pid};
    }
  }

  // ----- one process, one operation at a time

  datatype Phase =
    | Starting
    | SeekingPassword
    | SeekingLegacy
    | Renaming
    | ReadingLegacy
    | Reading(migrated: bool)
    | Removing(migrated: bool)
    | Writing(migrated: bool)
    | Linking(migrated: bool)
    | Unlinking(migrated: bool, won: bool)
    | ReadingWinner(migrated: bool)
    | Done(outcome: Outcome)

  /** `env` is the environment variable, `secret` the random password drawn if one is needed. */
  datatype Process = Process(env: Option<string>, secret: string, phase: Phase)

  predicate IsHex(s: string) {
    forall i :: 0 <= i < |s| ==> '0' <= s[i] <= '9' || 'a' <= s[i] <= 'f'
  }

  predicate Drawn(secret: string) {
    |secret| == 64 && IsHex(secret)
  }

  function Next(dir: Dir, pid: nat, p: Process): (Dir, Phase) {
    match p.phase
    case Starting =>
      if p.env.Some? && Trim(p.env.value) != "" then
        (dir, Done(if Sendable(Trim(p.env.value)) then Ok((Trim(p.env.value), Env)) else Err(BadEnv)))
      else (dir, SeekingPassword)
    case SeekingPassword => (dir, if dir.password.Some? then Reading(false) else SeekingLegacy)
    case SeekingLegacy => (dir, if dir.legacy.Some? then Renaming else Reading(false))
    case Renaming =>
      if dir.legacy.Some? && dir.writable then (dir.(password := dir.legacy, legacy := None), Reading(true))
      else (dir, ReadingLegacy)
    case ReadingLegacy =>
      (match ReadText(dir.legacy)
       case Err(e) => (dir, Done(Err(e)))
       case Ok(None) => (dir, Reading(false))
       case Ok(Some(pw)) => (dir, if ByteLength(pw) >= MIN_LEN then Done(Ok((pw, File(false, false)))) else Reading(false)))
    case Reading(migrated) =>
      (match ReadText(dir.password)
       case Err(e) => (dir, Done(Err(e)))
       case Ok(None) => (dir, Writing(migrated))
       case Ok(Some(pw)) =>
         (dir, if ByteLength(pw) >= MIN_LEN then Done(Ok((pw, File(false, migrated)))) else Removing(migrated)))
    case Removing(migrated) =>
      if dir.writable || dir.password.None? then (dir.(password := None), Writing(migrated))
      else (dir, Done(Err(CannotReplace)))
    case Writing(migrated) =>
      if dir.writable then (dir.(tmps := dir.tmps[pid := p.secret + "\n"]), Linking(migrated))
      else (dir, Done(Err(CannotWrite)))
    case Linking(migrated) =>
      if dir.password.None? && pid in dir.tmps then (dir.(password := Some(dir.tmps[pid])), Unlinking(migrated, true))
      else (dir, Unlinking(migrated, false))
    case Unlinking(migrated, won) =>
      (dir.(tmps := dir.tmps - {pid}), if won then Done(Ok((p.secret, File(true, migrated)))) else ReadingWinner(migrated))
    case ReadingWinner(migrated) =>
      (match ReadText(dir.password)
       case Err(e) => (dir, Done(Err(e)))
       case Ok(None) => (dir, Done(Err(EmptyOrShort)))
       case Ok(Some(pw)) =>
         (dir, Done(if ByteLength(pw) >= MIN_LEN then Ok((pw, File(false, migrated))) else Err(EmptyOrShort))))
    case Done(_) => (dir, p.phase)
  }

  /** Operations still ahead, at most. */
  function Rank(phase: Phase): nat {
    match phase
    case Starting => 11
    case SeekingPassword => 10
    case SeekingLegacy => 9
    case Renaming => 8
    case ReadingLegacy => 7
    case Reading(_) => 6
    case Removing(_) => 5
    case Writing(_) => 4
    case Linking(_) => 3
    case Unlinking(_, _) => 2
    case ReadingWinner(_) => 1
    case Done(_) => 0
  }

  /** Every operation brings a process closer to its end, whatever the others do: nobody waits or retries. */
  lemma NextAdvances(dir: Dir, pid: nat, p: Process)
    requires !p.phase.Done?
    ensures Rank(Next(dir, pid, p).1) < Rank(p.phase)
  {
    hide Trim, Sendable, ReadText, ByteLength;
  }

  /** A process that runs alone to its end. */
  function Alone(dir: Dir, pid: nat, p: Process): (Dir, Outcome)
    decreases Rank(p.phase)
  {
    if p.phase.Done? then (dir, p.phase.outcome)
    else
      NextAdvances(dir, pid, p);
      var (dir', phase) := Next(dir, pid, p);
      Alone(dir', pid, p.(phase := phase))
  }

  lemma AloneStep(dir: Dir, pid: nat, p: Process, phase: Phase, dir': Dir)
    requires !p.phase.Done? && Next(dir, pid, p) == (dir', phase)
    ensures Alone(dir, pid, p) == Alone(dir', pid, p.(phase := phase))
    ensures phase.Done? ==> Alone(dir, pid, p) == (dir', phase.outcome)
  {
    hide Next;
  }

  /**
   * Links a freshly written file into place and, where another process came first, takes over that one's password. The
   * flag says whose it is. `p` is the process it runs in.
   */
  method CreateIfAbsent(d: Directory, pid: nat, secret: string, ghost p: Process) returns (r: Result<(string, bool), Failure>)
    requires p.phase.Writing? && p.secret == secret
    modifies d
    ensures Alone(old(d.Value()), pid, p) ==
            (d.Value(), match r
                        case Ok((pw, created)) => Ok((pw, File(created, p.phase.migrated)))
                        case Err(e) => Err(e))
  {
    hide ReadText, ByteLength, Alone;
    ghost var (before, m) := (d.Value(), p.phase.migrated);
    var written := d.WriteTmp(pid, secret + "\n");
    AloneStep(before, pid, p, if written then Linking(m) else Done(Err(CannotWrite)), d.Value());
    if !written {
      return Err(CannotWrite);
    }
    before := d.Value();
    var linked := d.LinkTmp(pid);
    AloneStep(before, pid, p.(phase := Linking(m)), Unlinking(m, linked), d.Value());
    before := d.Value();
    d.RemoveTmp(pid);
    AloneStep(before, pid, p.(phase := Unlinking(m, linked)),
              if linked then Done(Ok((secret, File(true, m)))) else ReadingWinner(m), d.Value());
    if linked {
      return Ok((secret, true));
    }
    var existing := d.ReadPassword();
    match existing {
      case Err(e) => r := Err(e);
      case Ok(None) => r := Err(EmptyOrShort);
      case Ok(Some(pw)) => r := if ByteLength(pw) >= MIN_LEN then Ok((pw, false)) else Err(EmptyOrShort);
    }
    AloneStep(d.Value(), pid, p.(phase := ReadingWinner(m)),
              Done(match r
                   case Ok((pw, created)) => Ok((pw, File(created, m)))
                   case Err(e) => Err(e)), d.Value());
  }

  /** Moves a former password file into place, or reports its password where it cannot be moved. */
  method MigrateLegacy(d: Directory, pid: nat, ghost p: Process) returns (early: Option<Outcome>, migrated: bool)
    requires p.phase.SeekingPassword?
    modifies d
    ensures Alone(old(d.Value()), pid, p) ==
            if early.Some? then (d.Value(), early.value) else Alone(d.Value(), pid, p.(phase := Reading(migrated)))
  {
    hide Trim, Sendable, ReadText, ByteLength, Alone;
    ghost var before := d.Value();
    early, migrated := None, false;
    var present := d.PasswordExists();
    AloneStep(before, pid, p, if present then Reading(false) else SeekingLegacy, before);
    if !present {
      var legacy := d.LegacyExists();
      AloneStep(before, pid, p.(phase := SeekingLegacy), if legacy then Renaming else Reading(false), before);
      if legacy {
        migrated := d.RenameLegacy();
        AloneStep(before, pid, p.(phase := Renaming), if migrated then Reading(true) else ReadingLegacy, d.Value());
        if !migrated {
          var former := d.ReadLegacy();
          match former {
            case Err(e) => early := Some(Err(e));
            case Ok(None) =>
            case Ok(Some(pw)) =>
              if ByteLength(pw) >= MIN_LEN {
                early := Some(Ok((pw, File(false, false))));
              }
          }
          AloneStep(before, pid, p.(phase := ReadingLegacy), if early.Some? then Done(early.value) else Reading(false), before);
        }
      }
    }
  }

  method EnsureDashboardPassword(d: Directory, env: Option<string>, pid: nat, secret: string) returns (r: Outcome)
    modifies d
    ensures (d.Value(), r) == Alone(old(d.Value()), pid, Process(env, secret, Starting))
  {
    hide Trim, Sendable, ReadText, ByteLength, Alone;
    ghost var before, p := d.Value(), Process(env, secret, Starting);
    if env.Some? && Trim(env.value) != "" {
      var v := Trim(env.value);
      r := if Sendable(v) then Ok((v, Env)) else Err(BadEnv);
      AloneStep(before, pid, p, Done(r), before);
      return;
    }
    AloneStep(before, pid, p, SeekingPassword, before);
    var early, migrated := MigrateLegacy(d, pid, p.(phase := SeekingPassword));
    if early.Some? {
      return early.value;
    }
    before := d.Value();
    var current := d.ReadPassword();
    match current {
      case Err(e) =>
        AloneStep(before, pid, p.(phase := Reading(migrated)), Done(Err(e)), before);
        return Err(e);
      case Ok(None) =>
        AloneStep(before, pid, p.(phase := Reading(migrated)), Writing(migrated), before);
      case Ok(Some(pw)) =>
        if ByteLength(pw) >= MIN_LEN {
          r := Ok((pw, File(false, migrated)));
          AloneStep(before, pid, p.(phase := Reading(migrated)), Done(r), before);
          return;
        }
        AloneStep(before, pid, p.(phase := Reading(migrated)), Removing(migrated), before);
        var removed := d.RemovePassword();
        AloneStep(before, pid, p.(phase := Removing(migrated)),
                  if removed then Writing(migrated) else Done(Err(CannotReplace)), d.Value());
        if !removed {
          return Err(CannotReplace);
        }
    }
    var made := CreateIfAbsent(d, pid, secret, p.(phase := Writing(migrated)));
    match made {
      case Err(e) => return Err(e);
      case Ok((pw, created)) => return Ok((pw, File(created, migrated)));
    }
  }

  // ----- many processes

  datatype System = System(dir: Dir, processes: seq<Process>)

  function Stepping(s: System, pid: nat): System {
    if pid >= |s.processes| then s
    else
      var (dir, phase) := Next(s.dir, pid, s.processes[pid]);
      System(dir, s.processes[pid := s.processes[pid].(phase := phase)])
  }

  /** Any schedule: which process performs its next operation. */
  function Run(s: System, schedule: seq<nat>): System {
    if schedule == [] then s else Stepping(Run(s, schedule[..|schedule| - 1]), schedule[|schedule| - 1])
  }

  /** What the processes find at the start: the password file, or the former one if there is none. */
  function Found(dir: Dir): Option<string> {
    if dir.password.Some? then dir.password else dir.legacy
  }

  /** Start of a run: nobody has done anything, no temporary files. */
  predicate Initial(s: System) {
    && s.dir.tmps == map[]
    && forall i :: 0 <= i < |s.processes| ==> s.processes[i].phase == Starting && Drawn(s.processes[i].secret)
  }

  predicate NotShort(dir: Dir) {
    Found(dir).Some? ==> !Short(Found(dir).value)
  }

  // ----- the invariant

  /** The process has put the password in place, by creating or by renaming. */
  predicate Claims(phase: Phase) {
    match phase
    case Reading(migrated) => migrated
    case Unlinking(_, won) => won
    case Done(Ok((_, File(created, migrated)))) => created || migrated
    case _ => false
  }

  /** There is a password, and where it is will not change any more. */
  predicate Settled(dir: Dir) {
    if dir.writable then dir.password.Some? else Found(dir).Some?
  }

  /** What a phase says about the directory. */
  predicate PhaseFits(dir: Dir, p: Process) {
    && Drawn(p.secret)
    && (Claims(p.phase) ==> dir.password.Some?)
    && match p.phase
       case Starting => true
       case SeekingPassword => true
       case SeekingLegacy => dir.password.Some? ==> dir.legacy.None?
       case Renaming => (dir.password.Some? <==> dir.legacy.None?) && (dir.legacy.None? ==> dir.writable)
       case ReadingLegacy => if dir.writable then dir.password.Some? && dir.legacy.None? else dir.password.None? && dir.legacy.Some?
       case Reading(_) => dir.password.Some? || dir.legacy.None?
       case Removing(_) => false
       case Writing(migrated) => dir.legacy.None? && !migrated && (dir.password.Some? ==> dir.writable)
       case Linking(migrated) => dir.legacy.None? && !migrated && dir.writable
       case Unlinking(migrated, won) => dir.password.Some? && !migrated && (won ==> dir.password == Some(p.secret + "\n"))
       case ReadingWinner(migrated) => dir.password.Some? && !migrated
       case Done(Ok((pw, Env))) => p.env.Some? && pw == Trim(p.env.value) && Sendable(pw)
       case Done(Ok((pw, File(created, migrated)))) =>
         && Settled(dir) && pw == Trim(Found(dir).value) && Sendable(pw)
         && !(created && migrated) && (created ==> pw == p.secret && dir.password == Some(p.secret + "\n"))
       case Done(Err(BadEnv)) => p.env.Some? && !Sendable(Trim(p.env.value))
       case Done(Err(BadFile)) => Settled(dir) && !Sendable(Trim(Found(dir).value))
       case Done(Err(EmptyOrShort)) => false
       case Done(Err(CannotReplace)) => false
       case Done(Err(CannotWrite)) => !dir.writable && Found(dir).None?
  }

  /** Temporary files belong to processes that are about to link or unlink them. */
  predicate TmpFits(dir: Dir, pid: nat, p: Process) {
    if p.phase.Linking? || p.phase.Unlinking? then pid in dir.tmps && dir.tmps[pid] == p.secret + "\n"
    else pid !in dir.tmps
  }

  predicate Tidy(s: System) {
    && (forall i :: 0 <= i < |s.processes| ==> TmpFits(s.dir, i, s.processes[i]))
    && forall i :: i in s.dir.tmps ==> i < |s.processes|
  }

  predicate Agreeing(s: System) {
    && NotShort(s.dir)
    && Tidy(s)
    && (forall i :: 0 <= i < |s.processes| ==> PhaseFits(s.dir, s.processes[i]))
    && forall i, j :: 0 <= i < j < |s.processes| ==> !(Claims(s.processes[i].phase) && Claims(s.processes[j].phase))
  }

  /** How the files may change: a password in place stays, a former one only makes way for it, and neither appears beside the other. */
  predicate Moves(dir: Dir, dir': Dir) {
    && dir'.writable == dir.writable
    && (!dir.writable ==> dir'.password == dir.password && dir'.legacy == dir.legacy)
    && (dir.password.Some? ==> dir'.password == dir.password)
    && (dir.legacy.None? ==> dir'.legacy.None?)
    && (dir.legacy.Some? && dir'.legacy.None? ==> dir'.password.Some?)
    && (dir.password.None? && dir'.password.Some? ==> dir'.legacy.None?)
    && (Found(dir).Some? ==> Found(dir') == Found(dir))
    && (Found(dir).None? && Found(dir').Some? ==> Sendable(Trim(Found(dir').value)))
  }

  lemma DrawnIsSendable(secret: string)
    requires Drawn(secret)
    ensures Trim(secret + "\n") == secret && Sendable(secret) && !Short(secret + "\n")
  {
    assert !IsSpace(secret[0]) && !IsSpace(secret[63]);
    TrimNewline(secret);
  }

  /** One process's operation: it keeps to the rules, and claims the password only when none was in place. */
  lemma OwnStep(dir: Dir, pid: nat, p: Process)
    requires NotShort(dir) && PhaseFits(dir, p) && TmpFits(dir, pid, p)
    ensures var (dir', phase) := Next(dir, pid, p);
            && Moves(dir, dir') && NotShort(dir')
            && PhaseFits(dir', p.(phase := phase))
            && (Claims(phase) && !Claims(p.phase) ==> dir.password.None?)
  {
    hide Trim, Sendable, ByteLength, Drawn;
    ByteLengthOf(dir);
    DrawnIsSendable(p.secret);
  }

  /** Whatever it finds, an operation handles its own process's temporary file as the phase says, and no other's. */
  lemma OwnTmp(dir: Dir, pid: nat, p: Process)
    requires TmpFits(dir, pid, p)
    ensures var (dir', phase) := Next(dir, pid, p);
            && TmpFits(dir', pid, p.(phase := phase))
            && dir'.tmps - {pid} == dir.tmps - {pid}
  {
    hide Trim, Sendable, ByteLength, Drawn, ReadText;
  }

  lemma ByteLengthOf(dir: Dir)
    ensures forall text :: Short(text) <==> ByteLength(Trim(text)) < MIN_LEN
    ensures forall pw :: Sendable(pw) ==> ByteLength(pw) >= MIN_LEN
  {
  }

  lemma OthersStay(dir: Dir, dir': Dir, p: Process)
    requires PhaseFits(dir, p) && Moves(dir, dir')
    ensures PhaseFits(dir', p)
  {
    hide Trim, Sendable, Drawn;
  }

  lemma StepTidy(s: System, pid: nat)
    requires Tidy(s)
    ensures Tidy(Stepping(s, pid))
  {
    hide Next;
    if pid < |s.processes| {
      OwnTmp(s.dir, pid, s.processes[pid]);
      var s' := Stepping(s, pid);
      forall i | 0 <= i < |s.processes| && i != pid
        ensures TmpFits(s'.dir, i, s'.processes[i])
      {
        assert i in s'.dir.tmps <==> i in s.dir.tmps - {pid};
        assert i in s.dir.tmps ==> s'.dir.tmps[i] == (s'.dir.tmps - {pid})[i] == (s.dir.tmps - {pid})[i];
      }
      assert forall i :: i in s'.dir.tmps ==> i == pid || i in s.dir.tmps - {pid};
    }
  }

  lemma {:induction false} RunTidy(s: System, schedule: seq<nat>)
    requires Tidy(s)
    ensures Tidy(Run(s, schedule))
  {
    hide Tidy, Stepping;
    if schedule != [] {
      var front := schedule[..|schedule| - 1];
      RunTidy(s, front);
      StepTidy(Run(s, front), schedule[|schedule| - 1]);
    }
  }

  lemma StepAgreeing(s: System, pid: nat)
    requires Agreeing(s)
    ensures Agreeing(Stepping(s, pid)) && Moves(s.dir, Stepping(s, pid).dir)
  {
    hide Next, PhaseFits, NotShort;
    StepTidy(s, pid);
    if pid < |s.processes| {
      var p := s.processes[pid];
      OwnStep(s.dir, pid, p);
      var s' := Stepping(s, pid);
      forall i | 0 <= i < |s.processes| && i != pid
        ensures PhaseFits(s'.dir, s'.processes[i])
        ensures Claims(s.processes[i].phase) && Claims(s'.processes[pid].phase) ==> Claims(p.phase)
      {
        OthersStay(s.dir, s'.dir, s.processes[i]);
        ClaimNeedsPassword(s.dir, s.processes[i]);
      }
    }
  }

  lemma ClaimNeedsPassword(dir: Dir, p: Process)
    requires PhaseFits(dir, p)
    ensures Claims(p.phase) ==> dir.password.Some?
  {
  }

  lemma InitialAgrees(s: System)
    requires Initial(s) && NotShort(s.dir)
    ensures Agreeing(s)
  {
  }

  lemma {:induction false} RunAgrees(s: System, schedule: seq<nat>)
    requires Agreeing(s)
    ensures Agreeing(Run(s, schedule)) && Moves(s.dir, Run(s, schedule).dir)
  {
    hide Agreeing;
    if schedule != [] {
      var front := schedule[..|schedule| - 1];
      RunAgrees(s, front);
      StepAgreeing(Run(s, front), schedule[|schedule| - 1]);
    }
  }

  /** The password a process reports from the file, if it has finished with one. */
  predicate Reports(s: System, i: nat, pw: string, created: bool, migrated: bool) {
    i < |s.processes| && s.processes[i].phase == Done(Ok((pw, File(created, migrated))))
  }

  /** Every password reported from the file is the file's. */
  predicate Agree(s: System) {
    forall i: nat, j: nat :: i < |s.processes| && j < |s.processes| ==> AgreeTwo(s.processes[i].phase, s.processes[j].phase)
  }

  predicate AgreeTwo(a: Phase, b: Phase) {
    a.Done? && b.Done? && a.outcome.Ok? && b.outcome.Ok? && a.outcome.value.1.File? && b.outcome.value.1.File? ==>
      a.outcome.value.0 == b.outcome.value.0
  }

  /**
   * Agreement. Whatever the number of processes and the interleaving of their operations, if the password file found at
   * the start (or the former one in its place) is missing or long enough: every password reported is what the file holds
   * in the end, at most one process created or migrated it, and nobody is about to remove it.
   */
  lemma PasswordsAgree(s: System, schedule: seq<nat>)
    requires Initial(s) && NotShort(s.dir)
    ensures var end := Run(s, schedule);
            && Agree(end)
            && (forall i: nat, pw, created, migrated :: Reports(end, i, pw, created, migrated) ==>
                  Settled(end.dir) && pw == Trim(Found(end.dir).value) && Sendable(pw))
            && (forall i: nat, j: nat, pw, pw', c, c', m, m' ::
                  i != j && Reports(end, i, pw, c, m) && Reports(end, j, pw', c', m') ==> !((c || m) && (c' || m')))
            && (forall i :: 0 <= i < |end.processes| ==> !end.processes[i].phase.Removing?)
            && (Found(s.dir).Some? ==> Found(end.dir) == Found(s.dir))
  {
    hide Run, Trim, Sendable;
    var end := Run(s, schedule);
    InitialAgrees(s);
    RunAgrees(s, schedule);
    forall i: nat, pw, created, migrated | Reports(end, i, pw, created, migrated)
      ensures Settled(end.dir) && pw == Trim(Found(end.dir).value) && Sendable(pw)
    {
      assert PhaseFits(end.dir, end.processes[i]);
    }
    forall i: nat, j: nat, pw, pw', c, c', m, m' | i != j && Reports(end, i, pw, c, m) && Reports(end, j, pw', c', m')
      ensures !((c || m) && (c' || m'))
    {
      assert Claims(end.processes[i].phase) <==> c || m;
      assert Claims(end.processes[j].phase) <==> c' || m';
    }
    forall i: nat, j: nat | i < |end.processes| && j < |end.processes|
      ensures AgreeTwo(end.processes[i].phase, end.processes[j].phase)
    {
      assert PhaseFits(end.dir, end.processes[i]) && PhaseFits(end.dir, end.processes[j]);
    }
  }

  /** With a usable directory, a password that can be sent and no bad environment variable, no process ever fails. */
  lemma NobodyFails(s: System, schedule: seq<nat>, i: nat)
    requires Initial(s) && s.dir.writable
    requires Found(s.dir).Some? ==> Sendable(Trim(Found(s.dir).value))
    requires i < |s.processes|
    requires s.processes[i].env.Some? && Trim(s.processes[i].env.value) != "" ==> Sendable(Trim(s.processes[i].env.value))
    ensures |Run(s, schedule).processes| == |s.processes|
    ensures var phase := Run(s, schedule).processes[i].phase;
            phase.Done? ==> phase.outcome.Ok? && (phase.outcome.value.1.Env? <==> Overridden(s.processes[i].env))
  {
    hide Run, Trim, Sendable, ByteLength;
    ByteLengthOf(s.dir);
    InitialAgrees(s);
    RunAgrees(s, schedule);
    EnvDecides(s, schedule, i);
    assert PhaseFits(Run(s, schedule).dir, Run(s, schedule).processes[i]);
  }

  /** The environment variable is set to more than blanks. */
  predicate Overridden(env: Option<string>) {
    env.Some? && Trim(env.value) != ""
  }

  /** A process's own settings stay, and only an overridden one ends by its environment variable. */
  predicate EnvFits(p: Process, p0: Process) {
    && p.env == p0.env && p.secret == p0.secret
    && match p.phase
       case Starting => true
       case Done(Ok((_, source))) => source.Env? <==> Overridden(p.env)
       case Done(Err(e)) => e == BadEnv <==> Overridden(p.env)
       case _ => !Overridden(p.env)
  }

  lemma {:induction false} EnvDecides(s: System, schedule: seq<nat>, i: nat)
    requires Initial(s) && i < |s.processes|
    ensures |Run(s, schedule).processes| == |s.processes|
    ensures EnvFits(Run(s, schedule).processes[i], s.processes[i])
  {
    if schedule != [] {
      var front, pid := schedule[..|schedule| - 1], schedule[|schedule| - 1];
      EnvDecides(s, front, i);
      if pid == i {
        OwnEnv(Run(s, front).dir, i, Run(s, front).processes[i], s.processes[i]);
      }
    }
  }

  lemma OwnEnv(dir: Dir, pid: nat, p: Process, p0: Process)
    requires EnvFits(p, p0)
    ensures EnvFits(p.(phase := Next(dir, pid, p).1), p0)
  {
    hide Trim, Sendable, ByteLength;
  }

  /** Whatever the others do, a process has finished after at most 11 of its own operations. */
  lemma {:induction false} StepsLeft(s: System, schedule: seq<nat>, i: nat)
    requires i < |s.processes|
    ensures |Run(s, schedule).processes| == |s.processes|
    ensures var phase := Run(s, schedule).processes[i].phase;
            phase.Done? || Rank(phase) + multiset(schedule)[i] <= Rank(s.processes[i].phase)
  {
    hide Next;
    if schedule != [] {
      var front, pid := schedule[..|schedule| - 1], schedule[|schedule| - 1];
      StepsLeft(s, front, i);
      assert schedule == front + [pid];
      if pid == i {
        var before := Run(s, front).processes[i];
        if before.phase.Done? {
          DoneStays(Run(s, front).dir, i, before);
        } else {
          NextAdvances(Run(s, front).dir, i, before);
        }
      }
    }
  }

  lemma DoneStays(dir: Dir, pid: nat, p: Process)
    requires p.phase.Done?
    ensures Next(dir, pid, p) == (dir, p.phase)
  {
  }

  /**
   * Once every process has been scheduled often enough all have finished, and no temporary file is left. This holds from
   * every start, too short files that are removed and replaced included.
   */
  lemma EveryoneFinishes(s: System, schedule: seq<nat>)
    requires Initial(s)
    requires forall i :: 0 <= i < |s.processes| ==> multiset(schedule)[i] >= 11
    ensures var end := Run(s, schedule);
            && |end.processes| == |s.processes|
            && (forall i :: 0 <= i < |end.processes| ==> end.processes[i].phase.Done?)
            && end.dir.tmps == map[]
  {
    hide Run;
    var end := Run(s, schedule);
    RunTidy(s, schedule);
    if |s.processes| == 0 {
      NobodyThere(s, schedule);
    } else {
      StepsLeft(s, schedule, 0);
    }
    forall i: nat | i < |end.processes|
      ensures end.processes[i].phase.Done? && i !in end.dir.tmps
    {
      StepsLeft(s, schedule, i);
      assert TmpFits(end.dir, i, end.processes[i]);
    }
    assert forall k :: k in end.dir.tmps ==> k < |end.processes|;
    assert end.dir.tmps.Keys == {};
  }

  lemma {:induction false} NobodyThere(s: System, schedule: seq<nat>)
    requires |s.processes| == 0
    ensures Run(s, schedule) == s
  {
    if schedule != [] {
      NobodyThere(s, schedule[..|schedule| - 1]);
    }
  }

  // ----- exactly when they agree

  /** Two processes somewhere between start and end, the others as they were. */
  function Pair(s: System, i: nat, j: nat, dir: Dir, a: Phase, b: Phase): System
    requires i < |s.processes| && j < |s.processes|
  {
    System(dir, s.processes[i := s.processes[i].(phase := a)][j := s.processes[j].(phase := b)])
  }

  lemma FirstMoves(s: System, i: nat, j: nat, schedule: seq<nat>, dir: Dir, a: Phase, b: Phase, dir': Dir, a': Phase)
    requires i < |s.processes| && j < |s.processes| && i != j
    requires Run(s, schedule) == Pair(s, i, j, dir, a, b)
    requires Next(dir, i, s.processes[i].(phase := a)) == (dir', a')
    ensures Run(s, schedule + [i]) == Pair(s, i, j, dir', a', b)
  {
    hide Next;
    assert (schedule + [i])[..|schedule|] == schedule;
  }

  lemma SecondMoves(s: System, i: nat, j: nat, schedule: seq<nat>, dir: Dir, a: Phase, b: Phase, dir': Dir, b': Phase)
    requires i < |s.processes| && j < |s.processes| && i != j
    requires Run(s, schedule) == Pair(s, i, j, dir, a, b)
    requires Next(dir, j, s.processes[j].(phase := b)) == (dir', b')
    ensures Run(s, schedule + [j]) == Pair(s, i, j, dir', a, b')
  {
    hide Next;
    assert (schedule + [j])[..|schedule|] == schedule;
  }

  /** Both have read a too short file: the second removes what the first has just created. */
  lemma BothReplace(s: System, i: nat, j: nat, schedule: seq<nat>, dir: Dir, m: bool) returns (longer: seq<nat>)
    requires i < |s.processes| && j < |s.processes| && i != j && dir.writable
    requires s.processes[i].secret != s.processes[j].secret
    requires Run(s, schedule) == Pair(s, i, j, dir, Removing(m), Removing(false))
    ensures !Agree(Run(s, longer))
  {
    hide Run, Agree;
    var (p, q) := (s.processes[i].secret, s.processes[j].secret);
    var none := dir.(password := None);
    var written := none.(tmps := dir.tmps[i := p + "\n"]);
    var linked := written.(password := Some(p + "\n"));
    var cleaned := linked.(tmps := linked.tmps - {i});
    var won := Done(Ok((p, File(true, m))));
    longer := schedule;
    FirstMoves(s, i, j, longer, dir, Removing(m), Removing(false), none, Writing(m));
    longer := longer + [i];
    FirstMoves(s, i, j, longer, none, Writing(m), Removing(false), written, Linking(m));
    longer := longer + [i];
    FirstMoves(s, i, j, longer, written, Linking(m), Removing(false), linked, Unlinking(m, true));
    longer := longer + [i];
    FirstMoves(s, i, j, longer, linked, Unlinking(m, true), Removing(false), cleaned, won);
    longer := longer + [i];
    var gone := cleaned.(password := None);
    var written' := gone.(tmps := gone.tmps[j := q + "\n"]);
    var linked' := written'.(password := Some(q + "\n"));
    var cleaned' := linked'.(tmps := linked'.tmps - {j});
    SecondMoves(s, i, j, longer, cleaned, won, Removing(false), gone, Writing(false));
    longer := longer + [j];
    SecondMoves(s, i, j, longer, gone, won, Writing(false), written', Linking(false));
    longer := longer + [j];
    SecondMoves(s, i, j, longer, written', won, Linking(false), linked', Unlinking(false, true));
    longer := longer + [j];
    SecondMoves(s, i, j, longer, linked', won, Unlinking(false, true), cleaned', Done(Ok((q, File(true, false)))));
    longer := longer + [j];
    TwoPasswords(s, i, j, cleaned', p, q, m);
  }

  lemma TwoPasswords(s: System, i: nat, j: nat, dir: Dir, p: string, q: string, m: bool)
    requires i < |s.processes| && j < |s.processes| && i != j && p != q
    ensures !Agree(Pair(s, i, j, dir, Done(Ok((p, File(true, m)))), Done(Ok((q, File(true, false))))))
  {
    var end := Pair(s, i, j, dir, Done(Ok((p, File(true, m)))), Done(Ok((q, File(true, false)))));
    assert !AgreeTwo(end.processes[i].phase, end.processes[j].phase);
  }

  lemma ShortRead(text: string, m: bool, p: Process, dir: Dir, pid: nat)
    requires Short(text) && dir.password == Some(text) && p.phase == Reading(m)
    ensures Next(dir, pid, p) == (dir, Removing(m))
  {
  }

  /** A too short file, current or former, lets two processes end up with different passwords. */
  lemma ShortDisagrees(s: System, i: nat, j: nat) returns (schedule: seq<nat>)
    requires Initial(s) && !NotShort(s.dir) && s.dir.writable
    requires i < |s.processes| && j < |s.processes| && i != j
    requires !Overridden(s.processes[i].env) && !Overridden(s.processes[j].env)
    requires s.processes[i].secret != s.processes[j].secret
    ensures !Agree(Run(s, schedule))
  {
    hide Run, Agree, ReadText, Short, Trim;
    var text := Found(s.dir).value;
    var dir := s.dir.(password := Some(text), legacy := if s.dir.password.Some? then s.dir.legacy else None);
    var m := s.dir.password.None?;
    schedule := [];
    StartsAsPair(s, i, j);
    FirstMoves(s, i, j, schedule, s.dir, Starting, Starting, s.dir, SeekingPassword);
    schedule := schedule + [i];
    if m {
      FirstMoves(s, i, j, schedule, s.dir, SeekingPassword, Starting, s.dir, SeekingLegacy);
      schedule := schedule + [i];
      FirstMoves(s, i, j, schedule, s.dir, SeekingLegacy, Starting, s.dir, Renaming);
      schedule := schedule + [i];
      FirstMoves(s, i, j, schedule, s.dir, Renaming, Starting, dir, Reading(m));
    } else {
      FirstMoves(s, i, j, schedule, s.dir, SeekingPassword, Starting, dir, Reading(m));
    }
    schedule := schedule + [i];
    ShortRead(text, m, s.processes[i].(phase := Reading(m)), dir, i);
    FirstMoves(s, i, j, schedule, dir, Reading(m), Starting, dir, Removing(m));
    schedule := schedule + [i];
    SecondMoves(s, i, j, schedule, dir, Removing(m), Starting, dir, SeekingPassword);
    schedule := schedule + [j];
    SecondMoves(s, i, j, schedule, dir, Removing(m), SeekingPassword, dir, Reading(false));
    schedule := schedule + [j];
    ShortRead(text, false, s.processes[j].(phase := Reading(false)), dir, j);
    SecondMoves(s, i, j, schedule, dir, Removing(m), Reading(false), dir, Removing(false));
    schedule := BothReplace(s, i, j, schedule + [j], dir, m);
  }

  lemma StartsAsPair(s: System, i: nat, j: nat)
    requires Initial(s) && i < |s.processes| && j < |s.processes|
    ensures Run(s, []) == Pair(s, i, j, s.dir, Starting, Starting)
  {
    assert s.processes[i].phase == Starting && s.processes[j].phase == Starting;
    assert Pair(s, i, j, s.dir, Starting, Starting).processes == s.processes;
  }

  /**
   * Exactly when the protocol agrees: two processes without the variable that draw different passwords agree under every
   * schedule if and only if the password found at the start is not too short.
   */
  lemma AgreementExactly(s: System, i: nat, j: nat)
    requires Initial(s) && s.dir.writable
    requires i < |s.processes| && j < |s.processes| && i != j
    requires !Overridden(s.processes[i].env) && !Overridden(s.processes[j].env)
    requires s.processes[i].secret != s.processes[j].secret
    ensures (forall schedule :: Agree(Run(s, schedule))) <==> NotShort(s.dir)
  {
    hide Run, Agree, Trim, Sendable;
    if NotShort(s.dir) {
      forall schedule
        ensures Agree(Run(s, schedule))
      {
        PasswordsAgree(s, schedule);
      }
    } else {
      var schedule := ShortDisagrees(s, i, j);
    }
  }
}
