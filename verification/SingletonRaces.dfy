/** Losing and winning the lock, and runs in which exclusion, an interface or the content is lost. */
module SingletonRaces {
  import opened Wrappers
  import opened Posix
  import opened Singleton
  import opened SingletonEffects
  import opened SingletonInvariant
  import opened SingletonTheorems
  import opened Descriptors

  // ------------------------------------------------- runs, one event at a time

  lemma ExecNil(s: Sys)
    ensures Exec(s, []) == Some(s)
  {
  }

  lemma Extend(s: Sys, run: seq<Event>, t: Sys, e: Event)
    requires Exec(s, run) == Some(t) && Enabled(t, e)
    ensures Exec(s, run + [e]) == Some(Apply(t, e))
  {
    assert (run + [e])[..|run + [e]| - 1] == run;
  }

  // ------------------------------------------------- losing

  /** s without process p. */
  function Without(s: Sys, p: Pid): Sys {
    s.(procs := s.procs - {p})
  }

  /** A process that loses the race for the lock leaves names, contents and locks as they were. */
  lemma LoserLeavesNoTrace(s: Sys, p: Pid)
    requires Inv(s) && At(s, p, Opened)
    requires s.procs[p].ino in s.locks
    ensures Exec(s, [Lock(p), CloseAfterError(p), Exit(p)]) == Some(Without(s, p))
  {
    hide Exec, Apply, Inv;
    OwnsNothing(s, p);
    LockEffect(s, p);
    var a := Apply(s, Lock(p));
    CloseEffect(a, p);
    var b := Apply(a, CloseAfterError(p));
    assert b.locks == s.locks;
    ExitEffect(b, p);
    assert DropAll(s.locks, p) == s.locks;
    assert b.procs - {p} == s.procs - {p};
    assert [] + [Lock(p)] == [Lock(p)];
    assert [Lock(p)] + [CloseAfterError(p)] == [Lock(p), CloseAfterError(p)];
    assert [Lock(p), CloseAfterError(p)] + [Exit(p)] == [Lock(p), CloseAfterError(p), Exit(p)];
    ExecNil(s);
    Extend(s, [], s, Lock(p));
    Extend(s, [Lock(p)], a, CloseAfterError(p));
    Extend(s, [Lock(p), CloseAfterError(p)], b, Exit(p));
  }

  // ------------------------------------------------- winning

  /** Some live process holds a lock on the file the name denotes now. */
  ghost predicate Occupied(s: Sys, n: Path) {
    n in s.names && exists q | q in s.procs :: LockedBy(s, s.names[n], q)
  }

  lemma OccupiedIff(s: Sys, n: Path)
    requires Inv(s) && n in s.names
    ensures Occupied(s, n) <==> s.names[n] in s.locks
  {
    if s.names[n] in s.locks {
      assert OwnerOk(s, s.names[n]);
      assert LockedBy(s, s.names[n], s.locks[s.names[n]]);
    }
  }

  /** The events of a create_pid_file in which nothing fails. */
  function CreateRun(p: Pid, newIno: Ino): seq<Event> {
    [Open(p, newIno), Lock(p), Truncate(p), Write(p)]
  }

  /** What s becomes when p goes through create_pid_file on its own. */
  function Claimed(s: Sys, p: Pid, newIno: Ino): Sys
    requires At(s, p, Detached) && s.procs[p].cfg.pidFile.Some?
  {
    var P := s.procs[p];
    var n := P.cfg.pidFile.value;
    var fd := LowestFree(P.fds);
    var ino := if n in s.names then s.names[n] else newIno;
    Sys(s.procs[p := P.(pc := Created, fd := fd, ino := ino, fds := P.fds[fd := Regular(ino)])],
        s.names[n := ino], s.files[ino := PidText(p)], s.locks[ino := p])
  }

  /** p may enter create_pid_file, and newIno is a file that does not exist yet. */
  ghost predicate MayStart(s: Sys, p: Pid, newIno: Ino) {
    At(s, p, Detached) && s.procs[p].cfg.pidFile.Some? && newIno !in s.files
  }

  /** After open, the lock attempt succeeds exactly when no live process holds the named file. */
  lemma LockAttempt(s: Sys, p: Pid, newIno: Ino)
    requires Inv(s) && MayStart(s, p, newIno)
    ensures OpenedIno(s, s.procs[p], newIno) in s.locks <==> Occupied(s, s.procs[p].cfg.pidFile.value)
    ensures forall i | i in s.locks :: s.locks[i] != p
  {
    var n := s.procs[p].cfg.pidFile.value;
    OwnsNothing(s, p);
    if n in s.names {
      OccupiedIff(s, n);
    } else if newIno in s.locks {
      assert OwnerOk(s, newIno);
    }
  }

  lemma WriteEffect(s: Sys, p: Pid)
    requires p in s.procs && s.procs[p].ino in s.files && s.files[s.procs[p].ino] == ""
    ensures Apply(s, Write(p)) == Move(s, p, Created).(files := s.files[s.procs[p].ino := PidText(p)])
  {
    hide PidText;
  }

  /** The state after open, a granted lock and a finished write. */
  function Finished(a: Sys, p: Pid): Sys
    requires p in a.procs
  {
    var ino := a.procs[p].ino;
    Sys(a.procs[p := a.procs[p].(pc := Created)], a.names,
        a.files[ino := ""][ino := PidText(p)], a.locks[ino := p])
  }

  lemma ClaimSteps(a: Sys, p: Pid) returns (b: Sys, c: Sys)
    requires At(a, p, Opened) && a.procs[p].ino !in a.locks && a.procs[p].ino in a.files
    ensures Enabled(a, Lock(p)) && b == Apply(a, Lock(p))
    ensures Enabled(b, Truncate(p)) && c == Apply(b, Truncate(p))
    ensures Enabled(c, Write(p)) && Apply(c, Write(p)) == Finished(a, p)
  {
    hide Apply, PidText;
    LockEffect(a, p);
    b := Apply(a, Lock(p));
    TruncateEffect(b, p);
    c := Apply(b, Truncate(p));
    WriteEffect(c, p);
  }

  lemma ClaimResult(s: Sys, p: Pid, newIno: Ino, a: Sys)
    requires MayStart(s, p, newIno) && NamesOk(s)
    requires a == Apply(s, Open(p, newIno))
    ensures At(a, p, Opened) && a.procs[p].ino == OpenedIno(s, s.procs[p], newIno)
    ensures a.procs[p].ino in a.files && a.locks == s.locks
    ensures Finished(a, p) == Claimed(s, p, newIno)
  {
    hide Apply, PidText, LowestFree;
    OpenEffect(s, p, newIno);
    var ino := OpenedIno(s, s.procs[p], newIno);
    assert a.files[ino := ""][ino := PidText(p)] == s.files[ino := PidText(p)];
  }

  /** Exactly when no live process holds the file: a start succeeds, whatever stale content or
      name an earlier run left, and the content becomes the pid line. Otherwise lockf fails. */
  lemma StartOutcome(s: Sys, p: Pid, newIno: Ino)
    requires Inv(s) && MayStart(s, p, newIno)
    ensures var run := CreateRun(p, newIno);
            if Occupied(s, s.procs[p].cfg.pidFile.value)
            then Exec(s, run[..2]).Some? && At(Exec(s, run[..2]).value, p, Closing)
            else Exec(s, run) == Some(Claimed(s, p, newIno))
  {
    hide Exec, Apply, Claimed, Finished, Inv, Occupied;
    var run := CreateRun(p, newIno);
    LockAttempt(s, p, newIno);
    InvNames(s);
    var a := Apply(s, run[0]);
    ClaimResult(s, p, newIno, a);
    assert [] + [run[0]] == run[..1] && run[..1] + [run[1]] == run[..2];
    assert run[..2] + [run[2]] == run[..3] && run[..3] + [run[3]] == run;
    ExecNil(s);
    Extend(s, [], s, run[0]);
    if Occupied(s, s.procs[p].cfg.pidFile.value) {
      LockEffect(a, p);
      Extend(s, run[..1], a, run[1]);
    } else {
      var b, c := ClaimSteps(a, p);
      Extend(s, run[..1], a, run[1]);
      Extend(s, run[..2], b, run[2]);
      Extend(s, run[..3], c, run[3]);
    }
  }

  lemma InvNames(s: Sys)
    requires Inv(s)
    ensures NamesOk(s)
  {
  }

  // ------------------------------------------------- the exact condition for getting past

  lemma {:induction false} NoneAfter(s: Sys, run: seq<Event>, t: Sys, e: Event, rest: seq<Event>)
    requires Exec(s, run) == Some(t) && !Enabled(t, e)
    ensures Exec(s, run + [e] + rest) == None
  {
    hide Apply, Enabled;
    var all := run + [e] + rest;
    if rest == [] {
      assert all[..|all| - 1] == run;
    } else {
      NoneAfter(s, run, t, e, rest[..|rest| - 1]);
      assert all[..|all| - 1] == run + [e] + rest[..|rest| - 1];
    }
  }

  ghost predicate HeldByNobody(s: Sys, i: Ino) {
    forall p | p in s.procs :: !LockedBy(s, i, p)
  }

  lemma HeldByNobodyIff(s: Sys, i: Ino)
    requires Inv(s)
    ensures HeldByNobody(s, i) <==> i !in s.locks
  {
    if i in s.locks {
      assert OwnerOk(s, i);
      assert LockedBy(s, i, s.locks[i]);
    }
  }

  /** q has opened its PID file or is about to. */
  ghost predicate MayClaim(s: Sys, q: Pid, newIno: Ino) {
    (At(s, q, Opened) && s.procs[q].cfg.pidFile.Some?) || MayStart(s, q, newIno)
  }

  /** The file q has opened, or else would open now. */
  function ClaimedFile(s: Sys, q: Pid, newIno: Ino): Ino
    requires q in s.procs
  {
    if s.procs[q].pc.Opened? then s.procs[q].ino else OpenedIno(s, s.procs[q], newIno)
  }

  /** What is left of a create_pid_file in which nothing fails. */
  function RestOfCreate(s: Sys, q: Pid, newIno: Ino): seq<Event>
    requires q in s.procs
  {
    if s.procs[q].pc.Opened? then [Lock(q), Truncate(q), Write(q)] else CreateRun(q, newIno)
  }

  /** q is past create_pid_file on that file, with the lock and its pid line. */
  ghost predicate HasClaimed(s: Sys, q: Pid, i: Ino) {
    PastCreate(s, q) && s.procs[q].ino == i && Holds(s, q) && i in s.files && s.files[i] == PidText(q)
  }

  /** From open on the name does not matter any more: the rest succeeds exactly when nobody holds the
      file that was opened, even if the name has gone or denotes another file. */
  lemma LockOutcome(s: Sys, q: Pid)
    requires Inv(s) && At(s, q, Opened)
    ensures s.procs[q].ino !in s.locks ==> Exec(s, [Lock(q), Truncate(q), Write(q)]) == Some(Finished(s, q))
    ensures s.procs[q].ino in s.locks ==> Exec(s, [Lock(q), Truncate(q), Write(q)]) == None
  {
    hide Exec, Apply, Inv, PidText, Finished;
    var run := [Lock(q), Truncate(q), Write(q)];
    assert [] + [run[0]] == run[..1] && run[..1] + [run[1]] == run[..2] && run[..2] + [run[2]] == run;
    assert run[..1] + [run[1]] + [run[2]] == run;
    ExecNil(s);
    Extend(s, [], s, run[0]);
    OpenedFile(s, q);
    if s.procs[q].ino in s.locks {
      LockEffect(s, q);
      NoneAfter(s, run[..1], Apply(s, run[0]), run[1], [run[2]]);
    } else {
      var b, c := ClaimSteps(s, q);
      Extend(s, run[..1], b, run[1]);
      Extend(s, run[..2], c, run[2]);
    }
  }

  lemma OpenedFile(s: Sys, q: Pid)
    requires Inv(s) && At(s, q, Opened)
    ensures s.procs[q].cfg.pidFile.Some? && s.procs[q].ino in s.files
    ensures forall i | i in s.locks :: s.locks[i] != q
  {
    Known(s, q);
    hide Local;
    OwnsNothing(s, q);
  }

  /** A create_pid_file, wherever it stands, succeeds without interference exactly when nobody holds the
      file that it has opened or else would open. */
  lemma GetsPastIff(s: Sys, q: Pid, newIno: Ino)
    requires Inv(s) && MayClaim(s, q, newIno)
    ensures var i, run := ClaimedFile(s, q, newIno), RestOfCreate(s, q, newIno);
            && (Exec(s, run).Some? <==> HeldByNobody(s, i))
            && (Exec(s, run).Some? ==> HasClaimed(Exec(s, run).value, q, i))
            && (Exec(s, run).Some? ==> Exec(s, run).value.procs[q].cfg == s.procs[q].cfg)
  {
    hide Exec, Apply, Inv, PidText, Occupied, HeldByNobody, LowestFree;
    var i, run := ClaimedFile(s, q, newIno), RestOfCreate(s, q, newIno);
    HeldByNobodyIff(s, i);
    if s.procs[q].pc.Opened? {
      LockOutcome(s, q);
    } else {
      LockAttempt(s, q, newIno);
      StartOutcome(s, q, newIno);
      if i in s.locks {
        var t := Exec(s, run[..2]).value;
        assert run[..2] + [run[2]] + [run[3]] == run;
        NoneAfter(s, run[..2], t, run[2], [run[3]]);
      }
    }
  }

  /** Two live processes past create_pid_file under one name. */
  ghost predicate BothPast(s: Sys, p: Pid, q: Pid) {
    p != q && PastCreate(s, p) && PastCreate(s, q) && s.procs[p].cfg.pidFile == s.procs[q].cfg.pidFile
  }

  /** So exclusion per name fails next to a live process exactly when the file that the second one has
      opened, or else would open, is held by nobody: the name was unlinked before it opened, or the
      file it opened before the unlink was released later, or dup2 had dropped the lock. */
  lemma SecondGetsPastIff(s: Sys, p: Pid, q: Pid, newIno: Ino)
    requires Inv(s) && PastCreate(s, p) && MayClaim(s, q, newIno) && p != q
    requires s.procs[q].cfg.pidFile == s.procs[p].cfg.pidFile
    ensures var run := RestOfCreate(s, q, newIno);
            Exec(s, run).Some? && BothPast(Exec(s, run).value, p, q) <==> HeldByNobody(s, ClaimedFile(s, q, newIno))
  {
    hide Exec, Apply, Inv, PidText, HeldByNobody;
    var run := RestOfCreate(s, q, newIno);
    GetsPastIff(s, q, newIno);
    if Exec(s, run).Some? {
      StillServing(s, run, Exec(s, run).value, p);
    }
  }

  // ------------------------------------------------- exclusion per name is lost at unlink

  /** From every reachable state in which the exit handler of p is about to unlink, a second
      process on the same name gets past create_pid_file while p is still alive past it. */
  lemma UnlinkAdmitsSecond(s: Sys, p: Pid, q: Pid, newIno: Ino)
    requires Inv(s) && At(s, p, Unlinking) && PastCreate(s, p) && MayStart(s, q, newIno)
    requires s.procs[q].cfg.pidFile == s.procs[p].cfg.pidFile
    ensures Exec(s, [Unlink(p)] + CreateRun(q, newIno)).Some?
    ensures var t := Exec(s, [Unlink(p)] + CreateRun(q, newIno)).value;
            && PastCreate(t, p) && PastCreate(t, q) && t.procs[p].ino != t.procs[q].ino
            && SameHistory(s.procs[p], t.procs[p])
            && t.procs[q].cfg == s.procs[q].cfg && t.procs[q].boot == s.procs[q].boot
  {
    hide Exec, Apply, Occupied, Inv, PidText, LowestFree;
    var n := s.procs[p].cfg.pidFile.value;
    assert s.procs[p].ino in s.files by { InoExists(s, p); }
    AdvanceEffect(s, Unlink(p));
    UnlinkEffect(s, p);
    var m := Apply(s, Unlink(p));
    InvStep(s, Unlink(p));
    ExecNil(s);
    Extend(s, [], s, Unlink(p));
    assert [] + [Unlink(p)] == [Unlink(p)];
    assert !Occupied(m, n) by { NotOccupied(m, n); }
    StartOutcome(m, q, newIno);
    ExecAppend(s, [Unlink(p)], CreateRun(q, newIno));
  }

  lemma InoExists(s: Sys, p: Pid)
    requires Inv(s) && PastCreate(s, p)
    ensures s.procs[p].ino in s.files
  {
    assert ProcOk(s, p);
  }

  lemma NotOccupied(s: Sys, n: Path)
    requires n !in s.names
    ensures !Occupied(s, n)
  {
  }

  lemma UnlinkEffect(s: Sys, p: Pid)
    requires p in s.procs && s.procs[p].cfg.pidFile.Some?
    ensures Apply(s, Unlink(p)).names == s.names - {s.procs[p].cfg.pidFile.value}
    ensures Apply(s, Unlink(p)).files == s.files
  {
  }

  // ------------------------------------------------- exclusion is lost with closed descriptors

  /** A process that serves without the lock (by ServingHoldsIff: exactly one that was started
      with a descriptor of 0 to 2 closed or on the PID file, and redirection on) does not keep a
      second one out: from every such reachable state without another holder, q gets past
      create_pid_file on the very same file. */
  lemma UnsafeStdAdmitsSecond(s0: Sys, run: seq<Event>, s: Sys, p: Pid, q: Pid, newIno: Ino)
    requires Initial(s0) && Exec(s0, run) == Some(s)
    requires At(s, p, Serving) && PastCreate(s, p) && !SafeStd(s.procs[p]) && Attached(s, p)
    requires MayStart(s, q, newIno) && s.procs[q].cfg.pidFile == s.procs[p].cfg.pidFile
    requires forall r | r in s.procs && r != p :: !LockedBy(s, s.procs[p].ino, r)
    ensures Exec(s, CreateRun(q, newIno)).Some?
    ensures var t := Exec(s, CreateRun(q, newIno)).value;
            PastCreate(t, p) && PastCreate(t, q) && t.procs[p].ino == t.procs[q].ino
  {
    hide Exec, Apply, Inv, PidText, LowestFree;
    InvRun(s0, run);
    ServingHoldsIff(s0, run, s, p);
    assert !LockedBy(s, s.procs[p].ino, p);
    StartOutcome(s, q, newIno);
  }

  // ------------------------------------------------- complete runs, from execution to service

  const NAME: Path := "/run/onvif_srvd.pid"

  /** How a process is started: its configuration and the descriptors it is executed with. */
  datatype Start = Start(cfg: Config, exec: FdTable)

  /** A start without fork, on NAME, with terminals as descriptors. */
  ghost predicate Plain(how: Start) {
    how.cfg.noFork && how.cfg.pidFile == Some(NAME) && forall d | d in how.exec :: how.exec[d] == Other
  }

  /** p was started that way, with one --ifs, and is at the given program point. */
  ghost predicate Runs(s: Sys, p: Pid, pc: Pc, how: Start) {
    && At(s, p, pc) && s.procs[p].cfg == how.cfg && s.procs[p].exec == how.exec
    && s.procs[p].boot == WithSockets(how.exec, 1) && s.procs[p].made == 1
  }

  function EntryRun(p: Pid, how: Start): seq<Event> {
    [Launch(p, how.cfg, how.exec), OpenControl(p), SkipFork(p)]
  }

  lemma Enters(s: Sys, p: Pid, how: Start) returns (t: Sys)
    requires Inv(s) && p !in s.procs && Plain(how)
    ensures Exec(s, EntryRun(p, how)) == Some(t) && Inv(t)
    ensures Runs(t, p, Detached, how) && t == s.(procs := s.procs[p := t.procs[p]])
  {
    hide Exec, Apply, Inv, NextProc, WithSockets, LowestFree;
    var run := EntryRun(p, how);
    var b := Configured(s, p, how);
    AdvanceEffect(b, run[2]);
    t := Apply(b, run[2]);
    InvStep(b, run[2]);
    assert run[..2] == [Launch(p, how.cfg, how.exec), OpenControl(p)] && run[..2] + [run[2]] == run;
    Extend(s, run[..2], b, run[2]);
  }

  /** Executed, and with its one interface. */
  lemma Configured(s: Sys, p: Pid, how: Start) returns (t: Sys)
    requires Inv(s) && p !in s.procs && Plain(how)
    ensures Exec(s, [Launch(p, how.cfg, how.exec), OpenControl(p)]) == Some(t) && Inv(t)
    ensures Runs(t, p, Launched, how) && t == s.(procs := s.procs[p := t.procs[p]])
  {
    hide Exec, Apply, Inv, NextProc, WithSockets, LowestFree;
    var run := [Launch(p, how.cfg, how.exec), OpenControl(p)];
    LaunchEffect(s, p, how.cfg, how.exec);
    var a := Apply(s, run[0]);
    InvStep(s, run[0]);
    SocketEffect(a, run[1]);
    t := Apply(a, run[1]);
    InvStep(a, run[1]);
    FirstSocket(a, a.procs[p], run[1]);
    assert [] + [run[0]] == run[..1] && run[..1] + [run[1]] == run;
    ExecNil(s);
    Extend(s, [], s, run[0]);
    Extend(s, run[..1], a, run[1]);
  }

  lemma FirstSocket(s: Sys, P: Proc, e: Event)
    requires e.OpenControl? && P.fds == P.exec && P.made == 0
    ensures var t := WithSockets(P.exec, 1); NextProc(s, P, e) == P.(boot := t, fds := t, made := 1)
  {
    hide LowestFree;
  }

  /** From create_pid_file to service, with redirection or without. */
  function OnwardRun(p: Pid, noClose: bool): seq<Event> {
    [InstallSignals(p), BindSocket(p)]
    + if noClose then [SkipRedirect(p)] else [OpenNull(p), Dup(p), Dup(p), Dup(p), EndRedirect(p)]
  }

  /** The program point and the number of dup2 calls after k of these events. */
  function PcAfter(k: nat, noClose: bool): Pc {
    if k == 0 then Created
    else if k == 1 then Armed
    else if k == 2 then Ready
    else if k <= 6 && !noClose then Redirecting
    else Serving
  }

  function DupsAfter(k: nat, noClose: bool): nat {
    if k <= 3 || noClose then 0 else if k <= 6 then k - 3 else 3
  }

  ghost predicate Stage(s: Sys, p: Pid, how: Start, k: nat) {
    && Inv(s) && Runs(s, p, PcAfter(k, how.cfg.noCloseStdio), how)
    && s.procs[p].dups == DupsAfter(k, how.cfg.noCloseStdio)
  }

  /** Nothing but the record and the locks of p is different. */
  ghost predicate Beside(s: Sys, t: Sys, p: Pid) {
    && p in s.procs && p in t.procs && t.procs == s.procs[p := t.procs[p]] && t.procs[p].ino == s.procs[p].ino
    && t.names == s.names && t.files == s.files
  }

  lemma OnwardStep(s: Sys, p: Pid, how: Start, k: nat)
    requires k < |OnwardRun(p, how.cfg.noCloseStdio)| && Stage(s, p, how, k)
    ensures Enabled(s, OnwardRun(p, how.cfg.noCloseStdio)[k])
    ensures var t := Apply(s, OnwardRun(p, how.cfg.noCloseStdio)[k]); Stage(t, p, how, k + 1) && Beside(s, t, p)
  {
    hide Apply, Inv, NextProc, Enabled, WithSockets, OnwardRun;
    var e := OnwardRun(p, how.cfg.noCloseStdio)[k];
    OnwardEnabled(s, p, how, k);
    InvStep(s, e);
    OnwardKind(p, how.cfg.noCloseStdio, k);
    OwnProcEffect(s, e);
    NextProcKeeps(s, s.procs[p], e);
    OnwardMoves(s, s.procs[p], p, how.cfg.noCloseStdio, k);
    OnwardBeside(s, e);
  }

  lemma OnwardKind(p: Pid, noClose: bool, k: nat)
    requires k < |OnwardRun(p, noClose)|
    ensures var e := OnwardRun(p, noClose)[k];
            && e.p == p
            && (e.InstallSignals? || e.BindSocket? || e.SkipRedirect? || e.OpenNull? || e.Dup? || e.EndRedirect?)
  {
  }

  lemma OnwardEnabled(s: Sys, p: Pid, how: Start, k: nat)
    requires k < |OnwardRun(p, how.cfg.noCloseStdio)| && Stage(s, p, how, k)
    ensures Enabled(s, OnwardRun(p, how.cfg.noCloseStdio)[k])
  {
    hide Inv, WithSockets;
  }

  lemma OnwardMoves(s: Sys, P: Proc, p: Pid, noClose: bool, k: nat)
    requires k < |OnwardRun(p, noClose)| && P.pc == PcAfter(k, noClose) && P.dups == DupsAfter(k, noClose)
    ensures NextProc(s, P, OnwardRun(p, noClose)[k]).pc == PcAfter(k + 1, noClose)
    ensures NextProc(s, P, OnwardRun(p, noClose)[k]).dups == DupsAfter(k + 1, noClose)
  {
    hide LowestFree, DupFds;
  }

  lemma OnwardBeside(s: Sys, e: Event)
    requires e.p in s.procs
    requires e.InstallSignals? || e.BindSocket? || e.SkipRedirect? || e.OpenNull? || e.Dup? || e.EndRedirect?
    ensures e.p in Apply(s, e).procs && Beside(s, Apply(s, e), e.p)
  {
    hide NextProc, NextLocks;
    NextProcKeeps(s, s.procs[e.p], e);
  }

  lemma {:induction false} Onward(s: Sys, p: Pid, how: Start, k: nat) returns (t: Sys)
    requires k <= |OnwardRun(p, how.cfg.noCloseStdio)| && Stage(s, p, how, 0)
    ensures Exec(s, OnwardRun(p, how.cfg.noCloseStdio)[..k]) == Some(t) && Stage(t, p, how, k) && Beside(s, t, p)
  {
    hide Exec, Apply, Inv, Enabled, Stage, OnwardRun;
    var run := OnwardRun(p, how.cfg.noCloseStdio);
    if k == 0 {
      ExecNil(s);
      t := s;
      assert s.procs == s.procs[p := s.procs[p]] by { StagesLive(s, p, how); }
    } else {
      var u := Onward(s, p, how, k - 1);
      OnwardStep(u, p, how, k - 1);
      t := Apply(u, run[k - 1]);
      Extend(s, run[..k - 1], u, run[k - 1]);
      assert run[..k - 1] + [run[k - 1]] == run[..k];
    }
  }

  lemma StagesLive(s: Sys, p: Pid, how: Start)
    requires Stage(s, p, how, 0)
    ensures p in s.procs
  {
  }

  function ServeRun(p: Pid, how: Start, newIno: Ino): seq<Event> {
    EntryRun(p, how) + CreateRun(p, newIno) + OnwardRun(p, how.cfg.noCloseStdio)
  }

  /** A plain start of a process with one interface, when nobody holds the PID file, reaches service. */
  lemma Serves(s: Sys, p: Pid, how: Start, newIno: Ino) returns (t: Sys)
    requires Inv(s) && p !in s.procs && Plain(how) && !Occupied(s, NAME) && newIno !in s.files
    ensures Exec(s, ServeRun(p, how, newIno)) == Some(t) && NoUnlink(ServeRun(p, how, newIno))
    ensures Inv(t) && Runs(t, p, Serving, how) && t.procs == s.procs[p := t.procs[p]]
    ensures t.files.Keys <= s.files.Keys + {newIno}
  {
    hide Exec, Apply, Inv, Occupied, LowestFree, PidText, Enabled, WithSockets, Beside, Stage, Claimed, OnwardRun;
    var s1 := Enters(s, p, how);
    assert !Occupied(s1, NAME) by { StillFree(s, s1, p); }
    var s2 := Claims(s1, p, how, newIno);
    var onward := OnwardRun(p, how.cfg.noCloseStdio);
    t := Onward(s2, p, how, |onward|);
    assert onward[..|onward|] == onward;
    ServingAtEnd(t, p, how);
    ExecAppend(s, EntryRun(p, how), CreateRun(p, newIno));
    ExecAppend(s, EntryRun(p, how) + CreateRun(p, newIno), onward);
    BesideMeans(s2, t, p);
    assert t.procs == s.procs[p := t.procs[p]];
    assert NoUnlink(onward) by { NoUnlinkOnward(p, how.cfg.noCloseStdio); }
  }

  lemma NoUnlinkOnward(p: Pid, noClose: bool)
    ensures NoUnlink(OnwardRun(p, noClose))
  {
  }

  /** create_pid_file of such a process. */
  lemma Claims(s: Sys, p: Pid, how: Start, newIno: Ino) returns (t: Sys)
    requires Inv(s) && Runs(s, p, Detached, how) && Plain(how) && !Occupied(s, NAME) && newIno !in s.files
    ensures Exec(s, CreateRun(p, newIno)) == Some(t) && Stage(t, p, how, 0)
    ensures t.procs == s.procs[p := t.procs[p]] && t.files.Keys <= s.files.Keys + {newIno}
  {
    hide Exec, Apply, Inv, Occupied, LowestFree, PidText, Enabled, WithSockets;
    StartOutcome(s, p, newIno);
    t := Claimed(s, p, newIno);
    InvKept(s, CreateRun(p, newIno));
    NoDups(t, p);
    InvNames(s);
  }

  lemma BesideMeans(s: Sys, t: Sys, p: Pid)
    requires Beside(s, t, p)
    ensures p in t.procs && t.procs == s.procs[p := t.procs[p]] && t.files == s.files
  {
  }

  lemma ServingAtEnd(t: Sys, p: Pid, how: Start)
    requires Stage(t, p, how, |OnwardRun(p, how.cfg.noCloseStdio)|)
    ensures Inv(t) && Runs(t, p, Serving, how)
  {
    hide Inv;
  }

  lemma NoDups(s: Sys, p: Pid)
    requires Inv(s) && At(s, p, Created)
    ensures s.procs[p].dups == 0
  {
    assert ProcOk(s, p);
  }

  /** A newcomer holds nothing. */
  lemma StillFree(s: Sys, t: Sys, p: Pid)
    requires Inv(s) && !Occupied(s, NAME) && t == s.(procs := t.procs) && t.procs.Keys == s.procs.Keys + {p}
    requires p !in s.procs
    ensures !Occupied(t, NAME)
  {
    if NAME in t.names {
      forall q | q in t.procs ensures !LockedBy(t, t.names[NAME], q) {
        if q == p { OwnsNothing(s, p); } else { assert !LockedBy(s, s.names[NAME], q); }
      }
    }
  }

  lemma NobodyHome(s0: Sys)
    requires Initial(s0)
    ensures Inv(s0) && !Occupied(s0, NAME)
  {
  }

  lemma {:induction false} InvKept(s: Sys, run: seq<Event>)
    requires Inv(s) && Exec(s, run).Some?
    ensures Inv(Exec(s, run).value)
  {
    if run != [] {
      var front := run[..|run| - 1];
      InvKept(s, front);
      InvStep(Exec(s, front).value, run[|run| - 1]);
    }
  }

  // ------------------------------------------------- the race at unlink happens

  /** Without redirection, with terminals on descriptors 0 to 2. */
  const FOREGROUND := Start(Config(Some(NAME), true, true), map[0 := Other, 1 := Other, 2 := Other])

  /** Two processes with safe descriptors past create_pid_file for one name. */
  ghost predicate TwoPast(s: Sys, p: Pid, q: Pid) {
    && p != q && PastCreate(s, p) && PastCreate(s, q)
    && s.procs[p].cfg.pidFile == s.procs[q].cfg.pidFile
    && SafeStd(s.procs[p]) && SafeStd(s.procs[q])
  }

  /** So exclusion per name is false in general: from every start state a run exists in which a
      serving process is told to end, and which ends with two live processes past create_pid_file
      under one name, unlink being its only cause. */
  lemma UnlinkRaceHappens(s0: Sys, a: Ino, b: Ino)
    requires Initial(s0) && a !in s0.files && b !in s0.files && a != b
    ensures exists run :: Exec(s0, run).Some? && TwoPast(Exec(s0, run).value, 1, 2)
  {
    hide Exec, Apply, Inv, Runs, Enabled, MayStart, PastCreate;
    var s, before := SecondReady(s0, a, b);
    UnlinkAdmitsSecond(s, 1, 2, b);
    var last := [Unlink(1)] + CreateRun(2, b);
    ExecAppend(s0, before, last);
    var t := Exec(s0, before + last).value;
    assert TwoPast(t, 1, 2);
  }

  /** The first is about to unlink, the second to enter create_pid_file. */
  lemma SecondReady(s0: Sys, a: Ino, b: Ino) returns (s: Sys, run: seq<Event>)
    requires Initial(s0) && a !in s0.files && b !in s0.files && a != b
    ensures Exec(s0, run) == Some(s) && Inv(s)
    ensures At(s, 1, Unlinking) && PastCreate(s, 1) && SafeStd(s.procs[1]) && s.procs[1].cfg == FOREGROUND.cfg
    ensures MayStart(s, 2, b) && SafeStd(s.procs[2]) && s.procs[2].cfg == FOREGROUND.cfg
  {
    hide Exec, Apply, Inv, Occupied, WithSockets;
    NobodyHome(s0);
    var s1 := Serves(s0, 1, FOREGROUND, a);
    var run1 := ServeRun(1, FOREGROUND, a);
    AdvanceEffect(s1, Signal(1));
    InvStep(s1, Signal(1));
    Extend(s0, run1, s1, Signal(1));
    var s2 := Apply(s1, Signal(1));
    s := Enters(s2, 2, FOREGROUND);
    run := run1 + [Signal(1)] + EntryRun(2, FOREGROUND);
    ExecAppend(s0, run1 + [Signal(1)], EntryRun(2, FOREGROUND));
  }

  // ------------------------------------------------- and it may be lost for good

  /** Two processes serving under one name, each with safe descriptors and a lock. */
  ghost predicate TwoServe(s: Sys, p: Pid, q: Pid) {
    && p != q && At(s, p, Serving) && At(s, q, Serving)
    && s.procs[p].cfg.pidFile == s.procs[q].cfg.pidFile && s.procs[p].cfg.pidFile.Some?
    && SafeStd(s.procs[p]) && SafeStd(s.procs[q]) && Holds(s, p) && Holds(s, q)
  }

  function LowestNew(s: Sys): (i: Ino)
    ensures i !in s.files
  {
    LowestUnusedFrom(s.files.Keys, 0)
  }

  /** Not even at most one serving process per name holds: from every start state a run exists in which
      the second process opens the file before the first one unlinks it and exits, then locks it and
      serves; a third one creates a new file under the name and serves too. */
  lemma TwoServeHappens(s0: Sys)
    requires Initial(s0)
    ensures exists run :: Exec(s0, run).Some? && TwoServe(Exec(s0, run).value, 2, 3) && 1 !in Exec(s0, run).value.procs
  {
    hide Exec, Apply, Inv, Enabled, Occupied, WithSockets;
    var s, before := OpensBeforeUnlink(s0);
    var t, middle := ServesUnlinked(s);
    assert !Occupied(t, NAME) by { NotOccupied(t, NAME); }
    var u := Serves(t, 3, FOREGROUND, LowestNew(t));
    var last := ServeRun(3, FOREGROUND, LowestNew(t));
    ExecAppend(s0, before, middle);
    ExecAppend(s0, before + middle, last);
    var run := before + middle + last;
    ServingHoldsIff(s0, run, u, 2);
    ServingHoldsIff(s0, run, u, 3);
    assert TwoServe(u, 2, 3);
  }

  /** 2 stands behind its open; 1, which held the file, has unlinked it and is gone. */
  lemma OpensBeforeUnlink(s0: Sys) returns (s: Sys, run: seq<Event>)
    requires Initial(s0)
    ensures Exec(s0, run) == Some(s) && Inv(s) && s.procs.Keys == {2} && NAME !in s.names
    ensures Runs(s, 2, Opened, FOREGROUND)
  {
    hide Exec, Apply, Inv, Enabled, Occupied, WithSockets, LowestUnusedFrom, CreateRun, OnwardRun;
    NobodyHome(s0);
    var a := LowestNew(s0);
    var s1 := Serves(s0, 1, FOREGROUND, a);
    var run1 := ServeRun(1, FOREGROUND, a);
    var s2 := Enters(s1, 2, FOREGROUND);
    ExecAppend(s0, run1, EntryRun(2, FOREGROUND));
    var s3 := OpensNow(s2, 2, FOREGROUND);
    var tail3 := [Open(2, LowestNew(s2))];
    ExecAppend(s0, run1 + EntryRun(2, FOREGROUND), tail3);
    s := EndsService(s3, 1);
    var run3 := run1 + EntryRun(2, FOREGROUND) + tail3;
    ExecAppend(s0, run3, EndRun(1));
    run := run3 + EndRun(1);
  }

  lemma OpensNow(s: Sys, q: Pid, how: Start) returns (t: Sys)
    requires Inv(s) && Runs(s, q, Detached, how) && Plain(how)
    ensures Exec(s, [Open(q, LowestNew(s))]) == Some(t) && Inv(t) && Runs(t, q, Opened, how)
    ensures t.procs == s.procs[q := t.procs[q]]
  {
    hide Exec, Apply, Inv, WithSockets, LowestFree;
    var e := Open(q, LowestNew(s));
    OpenEffect(s, q, LowestNew(s));
    t := Apply(s, e);
    InvStep(s, e);
    ExecNil(s);
    Extend(s, [], s, e);
    assert [] + [e] == [e];
  }

  function EndRun(p: Pid): seq<Event> {
    [Signal(p), Unlink(p), Exit(p)]
  }

  /** A signal ends a serving process: the name and the process go. */
  lemma EndsService(s: Sys, p: Pid) returns (t: Sys)
    requires Inv(s) && At(s, p, Serving) && s.procs[p].cfg.pidFile == Some(NAME)
    ensures Exec(s, EndRun(p)) == Some(t) && Inv(t)
    ensures t.procs == s.procs - {p} && NAME !in t.names
  {
    hide Exec, Apply, Inv, WithSockets;
    var run := EndRun(p);
    var b := Unlinks(s, p);
    ExitEffect(b, p);
    t := Apply(b, run[2]);
    InvStep(b, run[2]);
    assert run[..2] == [Signal(p), Unlink(p)] && run[..2] + [run[2]] == run;
    Extend(s, run[..2], b, run[2]);
    assert b.procs - {p} == s.procs - {p};
  }

  lemma Unlinks(s: Sys, p: Pid) returns (t: Sys)
    requires Inv(s) && At(s, p, Serving) && s.procs[p].cfg.pidFile == Some(NAME)
    ensures Exec(s, [Signal(p), Unlink(p)]) == Some(t) && Inv(t)
    ensures p in t.procs && t.procs == s.procs[p := t.procs[p]] && NAME !in t.names
  {
    hide Exec, Apply, Inv;
    var run := [Signal(p), Unlink(p)];
    AdvanceEffect(s, run[0]);
    var a := Apply(s, run[0]);
    InvStep(s, run[0]);
    AdvanceEffect(a, run[1]);
    UnlinkEffect(a, p);
    t := Apply(a, run[1]);
    InvStep(a, run[1]);
    assert [] + [run[0]] == run[..1] && run[..1] + [run[1]] == run;
    ExecNil(s);
    Extend(s, [], s, run[0]);
    Extend(s, run[..1], a, run[1]);
  }

  /** 2, alone, locks the file that has no name any more, and serves. */
  lemma ServesUnlinked(s: Sys) returns (t: Sys, run: seq<Event>)
    requires Inv(s) && s.procs.Keys == {2} && NAME !in s.names && Runs(s, 2, Opened, FOREGROUND)
    ensures Exec(s, run) == Some(t) && Inv(t) && t.procs.Keys == {2} && NAME !in t.names
    ensures Runs(t, 2, Serving, FOREGROUND)
  {
    hide Exec, Apply, Inv, Enabled, WithSockets, OnwardRun, PidText, LockedBy;
    OpenedFile(s, 2);
    assert s.procs[2].ino !in s.locks by { OnlyTwo(s); }
    LockOutcome(s, 2);
    var claim := [Lock(2), Truncate(2), Write(2)];
    var u := Finished(s, 2);
    InvKept(s, claim);
    NoDups(u, 2);
    var onward := OnwardRun(2, true);
    t := Onward(u, 2, FOREGROUND, |onward|);
    assert onward[..|onward|] == onward;
    ServingAtEnd(t, 2, FOREGROUND);
    ExecAppend(s, claim, onward);
    run := claim + onward;
  }

  lemma OnlyTwo(s: Sys)
    requires Inv(s) && s.procs.Keys == {2} && At(s, 2, Opened)
    ensures s.locks == map[]
  {
    hide Inv;
    OpenedFile(s, 2);
    OwnersLive(s);
    assert s.locks.Keys == {};
  }

  lemma OwnersLive(s: Sys)
    requires Inv(s)
    ensures forall i | i in s.locks :: s.locks[i] in s.procs
  {
    forall i | i in s.locks ensures s.locks[i] in s.procs { assert OwnerOk(s, i); }
  }

  // ------------------------------------------------- so do the losses at dup2

  /** With redirection, and descriptors 0 and 1 closed: the socket gets 0, the PID file 1. */
  const TWO_CLOSED := Start(Config(Some(NAME), true, false), map[2 := Other])

  /** With redirection, and descriptor 0 closed: the socket gets 0, the PID file 3. */
  const ONE_CLOSED := Start(Config(Some(NAME), true, false), map[1 := Other, 2 := Other])

  /** Two processes past create_pid_file on one and the same file, the first of them serving. */
  ghost predicate SameFile(s: Sys, p: Pid, q: Pid) {
    p != q && At(s, p, Serving) && PastCreate(s, p) && PastCreate(s, q) && s.procs[p].ino == s.procs[q].ino
  }

  /** Exclusion per file is false without the condition on descriptors: from every start state a
      run without unlink exists that ends with two live processes past create_pid_file on the same
      file, the closed descriptors 0 and 1 of the first being its only cause. */
  lemma UnsafeStdHappens(s0: Sys, a: Ino)
    requires Initial(s0) && a !in s0.files
    ensures exists run :: Exec(s0, run).Some? && NoUnlink(run) && SameFile(Exec(s0, run).value, 1, 2)
  {
    hide Exec, Apply, Inv, Enabled, SafeStd, Attached, LockedBy, WithSockets, LowestUnusedFrom, NextProc;
    var s, before := SecondArrives(s0, a);
    var c := LowestUnusedFrom(s.files.Keys, 0);
    UnsafeStdAdmitsSecond(s0, before, s, 1, 2, c);
    var run := before + CreateRun(2, c);
    ExecAppend(s0, before, CreateRun(2, c));
    var t := Exec(s0, run).value;
    StillServing(s, CreateRun(2, c), t, 1);
    assert SameFile(t, 1, 2);
    assert NoUnlink(run);
  }

  /** A process serves without its lock, and a second one is about to enter create_pid_file. */
  lemma SecondArrives(s0: Sys, a: Ino) returns (s: Sys, run: seq<Event>)
    requires Initial(s0) && a !in s0.files
    ensures Exec(s0, run) == Some(s) && NoUnlink(run)
    ensures Runs(s, 1, Serving, TWO_CLOSED) && !SafeStd(s.procs[1]) && Attached(s, 1)
    ensures Runs(s, 2, Detached, FOREGROUND)
    ensures forall r | r in s.procs && r != 1 :: !LockedBy(s, s.procs[1].ino, r)
  {
    hide Exec, Apply, Inv, Enabled, LockedBy, WithSockets, SafeStd, Occupied;
    NobodyHome(s0);
    var s1 := Serves(s0, 1, TWO_CLOSED, a);
    var run1 := ServeRun(1, TWO_CLOSED, a);
    s := Enters(s1, 2, FOREGROUND);
    run := run1 + EntryRun(2, FOREGROUND);
    ExecAppend(s0, run1, EntryRun(2, FOREGROUND));
    assert NoUnlink(run);
    NamesStay(s0, run, s, 1);
    assert FreeStd(TWO_CLOSED.exec) == {0, 1};
    SafeStdIff(s.procs[1], 1);
    OnlyOwnLocks(s, 2);
  }

  lemma OnlyOwnLocks(s: Sys, q: Pid)
    requires Inv(s) && At(s, q, Detached)
    ensures forall i :: !LockedBy(s, i, q)
  {
    OwnsNothing(s, q);
  }

  /** Events of others do not touch p. */
  lemma {:induction false} StillServing(s: Sys, run: seq<Event>, t: Sys, p: Pid)
    requires p in s.procs && Exec(s, run) == Some(t) && forall e | e in run :: e.p != p
    ensures p in t.procs && t.procs[p] == s.procs[p]
  {
    hide Apply, Enabled;
    if run != [] {
      var front, last := run[..|run| - 1], run[|run| - 1];
      var m := Exec(s, front).value;
      StillServing(s, front, m, p);
      assert last in run;
      OthersUntouched(m, last, p);
    }
  }

  /** Serving with the lock, but with /dev/null where the socket of the interface was. */
  ghost predicate InterfaceLost(s: Sys, p: Pid, d: Fd) {
    && At(s, p, Serving) && Holds(s, p) && d in s.procs[p].boot && s.procs[p].boot[d].Control?
    && d in s.procs[p].fds && s.procs[p].fds[d] == Null
  }

  /** A process may keep its lock and lose its interface: from every start state a run exists in
      which one that was executed with descriptor 0 closed, and redirects, does. */
  lemma InterfaceLostHappens(s0: Sys, a: Ino)
    requires Initial(s0) && a !in s0.files
    ensures exists run :: Exec(s0, run).Some? && InterfaceLost(Exec(s0, run).value, 1, 0)
  {
    hide Exec, Apply, Inv, Enabled, LockedBy, WithSockets, SafeStd, Occupied;
    NobodyHome(s0);
    var s := Serves(s0, 1, ONE_CLOSED, a);
    var run := ServeRun(1, ONE_CLOSED, a);
    assert FreeStd(ONE_CLOSED.exec) == {0};
    SafeStdIff(s.procs[1], 1);
    ServingHoldsIff(s0, run, s, 1);
    SocketAt(ONE_CLOSED.exec, 1, 0);
    assert SocketFd(ONE_CLOSED.exec, 0) == 0 by { FirstOn(ONE_CLOSED.exec, 0); }
    ServingControlsIff(s0, run, s, 1, 0);
    assert InterfaceLost(s, 1, 0);
  }

  /** The first socket gets the lowest closed number. */
  lemma FirstOn(exec: FdTable, d: Fd)
    requires d !in exec && forall e | 0 <= e < d :: e in exec
    ensures SocketFd(exec, 0) == d
  {
    var f := SocketFd(exec, 0);
    assert WithSockets(exec, 0) == exec;
    assert f < d ==> f in exec;
  }

  /** With redirection, and all of 0 to 2 closed: the interface gets 0, the PID file 1, the service 2. */
  const ALL_CLOSED := Start(Config(Some(NAME), true, false), map[])

  /** Serving, with /dev/null where the service socket was. */
  ghost predicate ServiceLost(s: Sys, p: Pid) {
    At(s, p, Serving) && s.procs[p].srv in s.procs[p].fds && s.procs[p].fds[s.procs[p].srv] == Null
  }

  /** From every start state a run exists in which a process executed without descriptors 0 to 2
      redirects its own service socket. */
  lemma ServiceLostHappens(s0: Sys, a: Ino)
    requires Initial(s0) && a !in s0.files
    ensures exists run :: Exec(s0, run).Some? && ServiceLost(Exec(s0, run).value, 1)
  {
    hide Exec, Apply, Inv, Enabled, WithSockets, Occupied, EntryFds;
    NobodyHome(s0);
    var s := Serves(s0, 1, ALL_CLOSED, a);
    ServingServiceIff(s0, ServeRun(1, ALL_CLOSED, a), s, 1);
    assert FreeStd(ALL_CLOSED.exec) == {0, 1, 2};
    LowServiceIff(s.procs[1], 1);
    assert ServiceLost(s, 1);
  }

  // ------------------------------------------------- and prints into the PID file

  /** Without redirection, and descriptors 1 and 2 closed: the socket gets 1, the PID file 2. */
  const NO_OUTPUTS := Start(Config(Some(NAME), true, true), map[0 := Other])

  /** Past create_pid_file, with safe descriptors, and any content in the file. */
  ghost predicate Spoiled(s: Sys, p: Pid, content: string) {
    && PastCreate(s, p) && SafeStd(s.procs[p]) && Holds(s, p)
    && s.procs[p].ino in s.files && s.files[s.procs[p].ino] == content
  }

  /** The content of the PID file is not safe from the daemon's own error output: from every start
      state a run without unlink exists that ends with any given content in the file of a process
      that holds its lock, the closed descriptors 1 and 2 being its only cause. */
  lemma PrintSpoils(s0: Sys, a: Ino, content: string)
    requires Initial(s0) && a !in s0.files
    ensures exists run :: Exec(s0, run).Some? && NoUnlink(run) && Spoiled(Exec(s0, run).value, 1, content)
  {
    hide Exec, Apply, Inv, LockedBy, WithSockets, Occupied;
    NobodyHome(s0);
    var s := Serves(s0, 1, NO_OUTPUTS, a);
    var run, e := ServeRun(1, NO_OUTPUTS, a), PrintStd(1, 2, content);
    PidFileOnTwo(s);
    SafeKeeps(s, 1);
    PrintEffect(s, 1, 2, content);
    Extend(s0, run, s, e);
    assert NoUnlink(run + [e]);
    assert Spoiled(Exec(s0, run + [e]).value, 1, content);
  }

  lemma PidFileOnTwo(s: Sys)
    requires Inv(s) && Runs(s, 1, Serving, NO_OUTPUTS)
    ensures 2 in s.procs[1].fds && s.procs[1].fds[2] == Regular(s.procs[1].ino)
  {
    hide WithSockets, Inv;
    PidFileSlot(s, 1);
    FirstOn(NO_OUTPUTS.exec, 1);
    OneMore(NO_OUTPUTS.exec, 1);
    NoSockets(NO_OUTPUTS.exec);
    var P := s.procs[1];
    assert P.boot.Keys == {0, 1};
    assert P.fd != 0 && P.fd != 1 && 2 !in P.boot;
  }

  /** Without redirection the PID file stays on the number that was the lowest free one. */
  lemma PidFileSlot(s: Sys, p: Pid)
    requires Inv(s) && PastCreate(s, p) && s.procs[p].cfg.noCloseStdio
    ensures var P := s.procs[p];
            && P.fd !in P.boot && (forall e | 0 <= e < P.fd :: e in P.boot)
            && P.fd in P.fds && P.fds[P.fd] == Regular(P.ino)
  {
    assert ProcOk(s, p);
  }

  lemma NoSockets(exec: FdTable)
    ensures WithSockets(exec, 0) == exec
  {
  }
}
