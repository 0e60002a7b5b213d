/** What the PID-file protocol guarantees over whole runs, and exactly where it stops. */
module SingletonTheorems {
  import opened Wrappers
  import opened Posix
  import opened Text
  import opened Singleton
  import opened SingletonEffects
  import opened SingletonInvariant

  /** A live process that has a PID file configured and is past create_pid_file. */
  ghost predicate PastCreate(s: Sys, p: Pid) {
    p in s.procs && Past(s.procs[p].pc) && s.procs[p].cfg.pidFile.Some?
  }

  // ------------------------------------------------- the lock

  lemma SafeKeeps(s: Sys, p: Pid)
    requires Inv(s) && PastCreate(s, p) && SafeStd(s.procs[p])
    ensures Holds(s, p)
  {
    assert ProcOk(s, p);
  }

  /** Two live processes past create_pid_file hold different files, in every run. */
  lemma ExclusionPerFile(s0: Sys, run: seq<Event>, s: Sys, p: Pid, q: Pid)
    requires Initial(s0) && Exec(s0, run) == Some(s)
    requires PastCreate(s, p) && PastCreate(s, q) && p != q
    requires SafeStd(s.procs[p]) && SafeStd(s.procs[q])
    ensures s.procs[p].ino != s.procs[q].ino
    ensures Holds(s, p) && Holds(s, q)
  {
    InvRun(s0, run);
    SafeKeeps(s, p);
    SafeKeeps(s, q);
  }

  /** A process that has returned from daemonize2 holds its lock if and only if it entered with
      redirection off, or with descriptors 0 to 2 open on something other than the PID file. */
  lemma ServingHoldsIff(s0: Sys, run: seq<Event>, s: Sys, p: Pid)
    requires Initial(s0) && Exec(s0, run) == Some(s)
    requires At(s, p, Serving) && s.procs[p].cfg.pidFile.Some?
    ensures Holds(s, p) <==> SafeStd(s.procs[p])
  {
    InvRun(s0, run);
    assert ProcOk(s, p);
  }

  /** A process past create_pid_file still has the control socket that a descriptor had at entry of
      daemonize2 when redirection is off or the descriptor is above 2 ... */
  lemma ControlsStay(s0: Sys, run: seq<Event>, s: Sys, p: Pid, d: Fd)
    requires Initial(s0) && Exec(s0, run) == Some(s)
    requires p in s.procs && Past(s.procs[p].pc) && d in s.procs[p].boot && s.procs[p].boot[d].Control?
    requires s.procs[p].cfg.noCloseStdio || d > 2
    ensures d in s.procs[p].fds && s.procs[p].fds[d] == s.procs[p].boot[d]
  {
    InvRun(s0, run);
    assert ProcOk(s, p);
  }

  /** ... and once it serves, exactly then: otherwise the descriptor is /dev/null. */
  lemma ServingControlsIff(s0: Sys, run: seq<Event>, s: Sys, p: Pid, d: Fd)
    requires Initial(s0) && Exec(s0, run) == Some(s)
    requires At(s, p, Serving) && d in s.procs[p].boot && s.procs[p].boot[d].Control?
    ensures d in s.procs[p].fds
    ensures s.procs[p].fds[d] == s.procs[p].boot[d] <==> s.procs[p].cfg.noCloseStdio || d > 2
    ensures s.procs[p].fds[d] == s.procs[p].boot[d] || s.procs[p].fds[d] == Null
  {
    InvRun(s0, run);
    assert ProcOk(s, p);
  }

  /** The service socket took the lowest number that was free behind the PID file; a serving process
      has it there exactly when redirection is off or the number is above 2, else /dev/null. */
  lemma ServingServiceIff(s0: Sys, run: seq<Event>, s: Sys, p: Pid)
    requires Initial(s0) && Exec(s0, run) == Some(s) && At(s, p, Serving)
    ensures var P := s.procs[p];
            && P.srv !in EntryFds(P) && (forall e | 0 <= e < P.srv :: e in EntryFds(P))
            && (P.cfg.pidFile.Some? ==> LowestInBoot(P))
            && P.srv in P.fds && (P.fds[P.srv] == Service || P.fds[P.srv] == Null)
            && (P.fds[P.srv] == Service <==> P.cfg.noCloseStdio || P.srv > 2)
  {
    InvRun(s0, run);
    assert ProcOk(s, p);
  }

  ghost predicate SameHistory(P: Proc, Q: Proc) {
    Q.cfg == P.cfg && Q.ino == P.ino && Q.exec == P.exec && Q.boot == P.boot && Q.made == P.made
  }

  /** No event but the exit of p takes p out of the protected region or off its file. */
  lemma StaysPast(s: Sys, e: Event, p: Pid)
    requires Enabled(s, e) && PastCreate(s, p) && e != Exit(p)
    ensures PastCreate(Apply(s, e), p)
    ensures SameHistory(s.procs[p], Apply(s, e).procs[p])
  {
    hide Apply, NextProc, Enabled;
    if e.p != p {
      OthersUntouched(s, e, p);
    } else {
      PastCalls(s, e);
      OwnProcEffect(s, e);
      NextProcKeeps(s, s.procs[p], e);
    }
  }

  /** The calls of a process past create_pid_file leave it there and do not concern its start. */
  lemma PastCalls(s: Sys, e: Event)
    requires Enabled(s, e) && PastCreate(s, e.p)
    ensures Past(NextProc(s, s.procs[e.p], e).pc) && !e.Launch? && !e.Fork? && !e.Open?
    ensures !e.Configure? && !e.OpenControl? && !e.CloseControl?
  {
    hide NextProc, Enabled;
    EnabledPc(s, e);
    NextPc(s, s.procs[e.p], e);
  }

  lemma {:induction false} ExecAppend(s: Sys, a: seq<Event>, b: seq<Event>)
    requires Exec(s, a).Some?
    ensures Exec(s, a + b) == Exec(Exec(s, a).value, b)
  {
    if b == [] {
      assert a + b == a;
    } else {
      var front := b[..|b| - 1];
      assert (a + b)[..|a + b| - 1] == a + front;
      ExecAppend(s, a, front);
    }
  }

  /** Once past create_pid_file, the lock stays with p on the same file until p exits. */
  lemma {:induction false} HeldUntilExit(s0: Sys, before: seq<Event>, after: seq<Event>, s: Sys, t: Sys, p: Pid)
    requires Initial(s0) && Exec(s0, before) == Some(s) && Exec(s0, before + after) == Some(t)
    requires PastCreate(s, p) && SafeStd(s.procs[p])
    requires Exit(p) !in after
    ensures PastCreate(t, p) && SafeStd(t.procs[p]) && Holds(t, p)
    ensures t.procs[p].ino == s.procs[p].ino
  {
    hide Apply, Enabled, Inv;
    if after == [] {
      assert before + after == before;
      InvRun(s0, before);
      SafeKeeps(s, p);
    } else {
      var front, last := after[..|after| - 1], after[|after| - 1];
      assert (before + after)[..|before + after| - 1] == before + front;
      var m := Exec(s0, before + front).value;
      HeldUntilExit(s0, before, front, s, m, p);
      StaysPast(m, last, p);
      InvRun(s0, before + after);
      SafeKeeps(t, p);
    }
  }

  // ------------------------------------------------- who may change the file

  /** The lock on file i is with p. */
  ghost predicate LockedBy(s: Sys, i: Ino, p: Pid) {
    i in s.locks && s.locks[i] == p
  }

  /** An existing PID file changes content only by ftruncate or write of the process that has
      the lock on it, or by a print through a stdout or stderr that is the file itself. */
  lemma OnlyTheHolderWrites(s: Sys, e: Event, i: Ino)
    requires Inv(s) && Enabled(s, e) && i in s.files
    ensures i in Apply(s, e).files
    ensures Apply(s, e).files[i] != s.files[i] ==>
              || ((e.Truncate? || e.Write? || e.WriteShort?) && LockedBy(s, i, e.p))
              || (e.PrintStd? && e.std in s.procs[e.p].fds && s.procs[e.p].fds[e.std] == Regular(i))
  {
    hide Inv, Enabled, Apply;
    if e.Truncate? || e.Write? || e.WriteShort? { WritersHold(s, e); }
    FilesEffect(s, e, i);
  }

  lemma WritersHold(s: Sys, e: Event)
    requires Inv(s) && Enabled(s, e) && (e.Truncate? || e.Write? || e.WriteShort?)
    ensures e.p in s.procs && LockedBy(s, s.procs[e.p].ino, e.p)
  {
    hide Inv;
    Known(s, e.p);
  }

  lemma FilesEffect(s: Sys, e: Event, i: Ino)
    requires Enabled(s, e) && i in s.files
    ensures i in Apply(s, e).files
    ensures Apply(s, e).files[i] != s.files[i] ==>
              || (e.p in s.procs && (e.Truncate? || e.Write? || e.WriteShort?) && s.procs[e.p].ino == i)
              || (e.PrintStd? && e.std in s.procs[e.p].fds && s.procs[e.p].fds[e.std] == Regular(i))
  {
    hide NextProcs, NextNames, NextLocks, PidText, Overwrite, Prefix;
  }

  /** A name is only ever bound to a new file, and only the exit handler of a process past
      create_pid_file (which still holds its lock when its descriptors 0 to 2 were safe) removes one. */
  lemma OnlyPastUnlinks(s: Sys, e: Event, n: Path)
    requires Inv(s) && Enabled(s, e)
    requires n in s.names
    ensures n in Apply(s, e).names ==> Apply(s, e).names[n] == s.names[n]
    ensures n !in Apply(s, e).names ==>
              && e == Unlink(e.p) && PastCreate(s, e.p) && s.procs[e.p].cfg.pidFile == Some(n)
              && (SafeStd(s.procs[e.p]) ==> Holds(s, e.p))
  {
    if n !in Apply(s, e).names {
      UnlinkOnly(s, e, n);
      SafeOrNot(s, e.p);
    } else {
      hide NextProcs, NextFiles, NextLocks, Inv;
    }
  }

  lemma UnlinkOnly(s: Sys, e: Event, n: Path)
    requires Enabled(s, e) && n in s.names && n !in Apply(s, e).names
    ensures e == Unlink(e.p) && PastCreate(s, e.p) && s.procs[e.p].cfg.pidFile == Some(n)
  {
    hide NextProcs, NextFiles, NextLocks;
  }

  lemma SafeOrNot(s: Sys, p: Pid)
    requires Inv(s) && PastCreate(s, p)
    ensures SafeStd(s.procs[p]) ==> Holds(s, p)
  {
    if SafeStd(s.procs[p]) { SafeKeeps(s, p); }
  }

  /** The only way past create_pid_file is the write that follows a won lock. */
  lemma BecomesPast(s: Sys, e: Event, p: Pid)
    requires Inv(s) && Enabled(s, e) && PastCreate(Apply(s, e), p) && !PastCreate(s, p)
    ensures e == Write(p) && At(s, p, Truncated) && Holds(s, p)
  {
    EntersByWrite(s, e, p);
    assert ProcOk(s, p);
  }

  lemma EntersByWrite(s: Sys, e: Event, p: Pid)
    requires Enabled(s, e) && PastCreate(Apply(s, e), p) && !PastCreate(s, p)
    ensures e == Write(p) && At(s, p, Truncated)
  {
    hide Apply, NextProc, Enabled;
    if p !in s.procs {
      NewcomerEffect(s, e, p);
    } else if e.p != p {
      OthersUntouched(s, e, p);
    } else {
      OwnUnlessExit(s, e);
      NextProcKeeps(s, s.procs[p], e);
      ConfiguredEarly(s, e);
      EntryPc(s, e);
    }
  }

  lemma ConfiguredEarly(s: Sys, e: Event)
    requires Enabled(s, e)
    ensures e.Configure? ==> At(s, e.p, Launched)
  {
  }

  /** The two ways past create_pid_file. */
  lemma EntryPc(s: Sys, e: Event)
    requires Enabled(s, e) && e.p in s.procs && !Past(s.procs[e.p].pc) && Past(NextProc(s, s.procs[e.p], e).pc)
    ensures (e.Write? && s.procs[e.p].pc.Truncated?) || (e.SkipPidFile? && s.procs[e.p].cfg.pidFile.None?)
  {
    hide NextProc, Enabled;
    EnabledPc(s, e);
    NextPc(s, s.procs[e.p], e);
  }

  lemma NobodyPast(s0: Sys, p: Pid)
    requires Initial(s0)
    ensures !PastCreate(s0, p)
  {
  }

  /** Whoever is past create_pid_file held the lock at an earlier point of the run. */
  lemma {:induction false} PastHasWon(s0: Sys, run: seq<Event>, p: Pid) returns (k: nat)
    requires Initial(s0) && Exec(s0, run).Some? && PastCreate(Exec(s0, run).value, p)
    ensures k < |run| && run[k] == Write(p)
    ensures Exec(s0, run[..k]).Some?
    ensures At(Exec(s0, run[..k]).value, p, Truncated) && Holds(Exec(s0, run[..k]).value, p)
  {
    hide Apply, Enabled, Inv, PastCreate, Holds;
    assert run != [] by { NobodyPast(s0, p); }
    var front, last := run[..|run| - 1], run[|run| - 1];
    var s := Exec(s0, front).value;
    InvRun(s0, front);
    if PastCreate(s, p) {
      k := PastHasWon(s0, front, p);
      assert front[..k] == run[..k];
    } else {
      BecomesPast(s, last, p);
      k := |run| - 1;
    }
  }

  // ------------------------------------------------- the content of the PID file

  /** The event prints through a stdout or stderr that stands on file i. */
  ghost predicate PrintsInto(s: Sys, e: Event, i: Ino) {
    e.PrintStd? && e.p in s.procs && e.std in s.procs[e.p].fds && s.procs[e.p].fds[e.std] == Regular(i)
  }

  /** The state before event k of a run. */
  ghost function StateAt(s0: Sys, run: seq<Event>, k: nat): Option<Sys>
    requires k <= |run|
  {
    Exec(s0, run[..k])
  }

  /** No print of the run goes into file i. */
  ghost predicate NoPrintInto(s0: Sys, run: seq<Event>, i: Ino) {
    forall k | 0 <= k < |run| && StateAt(s0, run, k).Some? :: !PrintsInto(StateAt(s0, run, k).value, run[k], i)
  }

  /** No print into file i since p has last truncated its file. */
  ghost predicate NoPrintSince(s0: Sys, run: seq<Event>, p: Pid, i: Ino) {
    forall k | 0 <= k < |run| && StateAt(s0, run, k).Some? && Truncate(p) !in run[k..] ::
      !PrintsInto(StateAt(s0, run, k).value, run[k], i)
  }

  lemma NoPrintFront(s0: Sys, run: seq<Event>, p: Pid, i: Ino)
    requires run != [] && NoPrintSince(s0, run, p, i) && Exec(s0, run).Some?
    requires run[|run| - 1] != Truncate(p)
    ensures NoPrintSince(s0, run[..|run| - 1], p, i)
    ensures !PrintsInto(Exec(s0, run[..|run| - 1]).value, run[|run| - 1], i)
  {
    hide PrintsInto;
    var front := run[..|run| - 1];
    assert StateAt(s0, run, |run| - 1) == Exec(s0, front);
    assert run[|run| - 1..] == [run[|run| - 1]];
    forall k | 0 <= k < |front| && StateAt(s0, front, k).Some? && Truncate(p) !in front[k..]
      ensures !PrintsInto(StateAt(s0, front, k).value, front[k], i)
    {
      assert front[..k] == run[..k] && run[k..] == front[k..] + [run[|run| - 1]];
      assert StateAt(s0, run, k) == StateAt(s0, front, k);
    }
  }

  ghost predicate ContentOk(s: Sys, p: Pid)
    requires p in s.procs
  {
    var P := s.procs[p];
    && (P.pc.Truncated? ==> P.ino in s.files && s.files[P.ino] == "")
    && (PastCreate(s, p) && Holds(s, p) ==> P.ino in s.files && s.files[P.ino] == PidText(p))
  }

  /** Only p itself takes or drops a lock of p. */
  lemma OtherLocks(s: Sys, e: Event, p: Pid)
    requires Enabled(s, e) && p != e.p
    ensures forall i :: LockedBy(Apply(s, e), i, p) <==> LockedBy(s, i, p)
  {
    hide NextProcs, NextNames, NextFiles;
  }

  /** The content behind a lock is not changed by anybody but its holder. */
  lemma OthersLeaveContent(s: Sys, e: Event, p: Pid, i: Ino)
    requires Inv(s) && Enabled(s, e) && p != e.p && !PrintsInto(s, e, i)
    requires LockedBy(s, i, p) && i in s.files
    ensures i in Apply(s, e).files && Apply(s, e).files[i] == s.files[i]
  {
    hide Apply, Inv, Enabled;
    OnlyTheHolderWrites(s, e, i);
    PrinterLives(s, e);
  }

  lemma PrinterLives(s: Sys, e: Event)
    requires Enabled(s, e)
    ensures e.PrintStd? ==> e.p in s.procs && 1 <= e.std <= 2
  {
  }

  /** The acting process: its own ftruncate empties the file, its own write puts the pid line there. */
  lemma OwnContent(s: Sys, e: Event, p: Pid)
    requires Inv(s) && Enabled(s, e) && p in s.procs && p == e.p && !PrintsInto(s, e, s.procs[p].ino)
    requires p in Apply(s, e).procs && Inv(Apply(s, e))
    requires Apply(s, e).procs[p].ino == s.procs[p].ino ==> ContentOk(s, p)
    ensures ContentOk(Apply(s, e), p)
  {
    hide *;
    OwnFile(s, e, p);
    if e.Truncate? || e.Write? {
      SameFileInCreate(s, e, p);
      OwnWrite(s, e, p);
    } else {
      NoOtherPcChange(s, e, p);
      if Inside(Apply(s, e).procs[p]) {
        StillContent(s, Apply(s, e), p);
      } else {
        OutsideContent(Apply(s, e), p);
      }
    }
  }

  lemma OutsideContent(t: Sys, p: Pid)
    requires p in t.procs && !Inside(t.procs[p])
    ensures ContentOk(t, p)
  {
  }

  lemma OwnFile(s: Sys, e: Event, p: Pid)
    requires Inv(s) && Enabled(s, e) && p in s.procs && p == e.p
    ensures HasFile(s.procs[p]) ==> s.procs[p].ino in s.files
    ensures e.Truncate? || e.Write? ==> s.procs[p].ino in s.files
    ensures e.Truncate? || e.Write? ==> HasFile(s.procs[p])
  {
    hide Apply;
    assert ProcOk(s, p);
  }

  lemma SameFileInCreate(s: Sys, e: Event, p: Pid)
    requires Enabled(s, e) && p in s.procs && p == e.p && (e.Truncate? || e.Write?)
    requires p in Apply(s, e).procs
    ensures Apply(s, e).procs[p].ino == s.procs[p].ino
  {
    hide Apply;
    AdvanceEffect(s, e);
  }

  lemma OwnWrite(s: Sys, e: Event, p: Pid)
    requires Enabled(s, e) && p in s.procs && p == e.p && (e.Truncate? || e.Write?)
    requires s.procs[p].ino in s.files && ContentOk(s, p)
    ensures ContentOk(Apply(s, e), p)
  {
    hide PidText;
    AdvanceEffect(s, e);
  }

  lemma StillContent(s: Sys, t: Sys, p: Pid)
    requires p in s.procs && p in t.procs && ContentOk(s, p) && Inside(t.procs[p])
    requires Inside(s.procs[p]) && t.procs[p].ino == s.procs[p].ino
    requires s.procs[p].ino in s.files ==>
               s.procs[p].ino in t.files && t.files[s.procs[p].ino] == s.files[s.procs[p].ino]
    requires t.procs[p].pc.Truncated? <==> s.procs[p].pc.Truncated?
    requires Holds(t, p) ==> Holds(s, p)
    ensures ContentOk(t, p)
  {
    hide PidText;
  }

  ghost predicate Inside(P: Proc) {
    P.pc.Truncated? || (Past(P.pc) && P.cfg.pidFile.Some?)
  }

  lemma NoEntryOtherwise(s: Sys, e: Event, p: Pid)
    requires Enabled(s, e) && p in s.procs && p == e.p && p in Apply(s, e).procs
    requires !e.Truncate? && !e.Write?
    ensures var P, Q := s.procs[p], Apply(s, e).procs[p];
            Inside(Q) ==>
              !e.Open? && !e.WriteShort? && Inside(P) && Q.ino == P.ino && (Q.pc.Truncated? <==> P.pc.Truncated?)
  {
    hide Apply, NextProc, Enabled;
    OwnUnlessExit(s, e);
    NextProcKeeps(s, s.procs[p], e);
    ConfiguredEarly(s, e);
    InsidePc(s, e);
  }

  /** Without the own ftruncate and write a process is past or inside only if it was before, or has no
      PID file. */
  lemma InsidePc(s: Sys, e: Event)
    requires Enabled(s, e) && e.p in s.procs && !e.Truncate? && !e.Write?
    ensures var P, pc := s.procs[e.p], NextProc(s, s.procs[e.p], e).pc;
            && (pc.Truncated? ==> P.pc.Truncated? && !e.Open? && !e.WriteShort? && !e.Configure?)
            && (Past(pc) ==> !P.pc.Truncated? && !e.Open? && !e.WriteShort? && !e.Configure?)
            && (Past(pc) ==> Past(P.pc) || P.cfg.pidFile.None?)
  {
    hide NextProc, Enabled;
    EnabledPc(s, e);
    NextPc(s, s.procs[e.p], e);
  }

  lemma NoLockTaken(s: Sys, e: Event, p: Pid)
    requires Enabled(s, e) && !e.Lock?
    ensures forall i :: LockedBy(Apply(s, e), i, p) ==> LockedBy(s, i, p)
  {
    hide NextProcs, NextNames, NextFiles;
  }

  lemma NoOtherPcChange(s: Sys, e: Event, p: Pid)
    requires Enabled(s, e) && p in s.procs && p == e.p && p in Apply(s, e).procs
    requires !e.Truncate? && !e.Write? && !PrintsInto(s, e, s.procs[p].ino)
    ensures var t, i := Apply(s, e), s.procs[p].ino;
            Inside(t.procs[p]) ==>
              && Inside(s.procs[p]) && t.procs[p].ino == i
              && (i in s.files ==> i in t.files && t.files[i] == s.files[i])
              && (t.procs[p].pc.Truncated? <==> s.procs[p].pc.Truncated?)
              && (Holds(t, p) ==> Holds(s, p))
  {
    var t, i := Apply(s, e), s.procs[p].ino;
    assert e.Lock? ==> !Inside(t.procs[p]);
    hide Apply, Enabled;
    NoEntryOtherwise(s, e, p);
    if Inside(t.procs[p]) {
      if i in s.files { FilesEffect(s, e, i); }
      NoLockTaken(s, e, p);
      assert Holds(t, p) <==> LockedBy(t, t.procs[p].ino, p);
    }
  }

  lemma ContentStep(s: Sys, e: Event, p: Pid)
    requires Inv(s) && Enabled(s, e)
    requires p in Apply(s, e).procs && Inv(Apply(s, e))
    requires var i := Apply(s, e).procs[p].ino;
             !PrintsInto(s, e, i) && (p in s.procs && s.procs[p].ino == i ==> ContentOk(s, p))
    ensures ContentOk(Apply(s, e), p)
  {
    hide Apply, Enabled, Inv, PrintsInto, ContentOk;
    if p !in s.procs {
      NewcomerNotInside(s, e, p);
      OutsideContent(Apply(s, e), p);
    } else if p != e.p {
      OthersUntouched(s, e, p);
      OthersContent(s, e, p);
    } else if Apply(s, e).procs[p].ino == s.procs[p].ino {
      OwnContent(s, e, p);
    } else {
      OnlyOpenMoves(s, e);
      OutsideContent(Apply(s, e), p);
    }
  }

  lemma OnlyOpenMoves(s: Sys, e: Event)
    requires Enabled(s, e) && e.p in s.procs && e.p in Apply(s, e).procs
    requires Apply(s, e).procs[e.p].ino != s.procs[e.p].ino
    ensures !Inside(Apply(s, e).procs[e.p])
  {
    hide Apply, NextProc;
    OwnUnlessExit(s, e);
    NextProcKeeps(s, s.procs[e.p], e);
    NextPc(s, s.procs[e.p], e);
  }

  lemma OthersContent(s: Sys, e: Event, p: Pid)
    requires Inv(s) && Enabled(s, e) && p in s.procs && p != e.p
    requires p in Apply(s, e).procs && ContentOk(s, p) && !PrintsInto(s, e, s.procs[p].ino)
    ensures ContentOk(Apply(s, e), p)
  {
    var i := s.procs[p].ino;
    hide Apply, Enabled, PidText, PrintsInto;
    assert s.procs[p].pc.Truncated? ==> LockedBy(s, i, p) by { assert ProcOk(s, p); }
    if LockedBy(s, i, p) && i in s.files { OthersLeaveContent(s, e, p, i); }
    SameUnlessContent(s, e, p);
  }

  lemma SameUnlessContent(s: Sys, e: Event, p: Pid)
    requires Enabled(s, e) && p in s.procs && p != e.p && ContentOk(s, p)
    requires var i := s.procs[p].ino;
             LockedBy(s, i, p) && i in s.files ==>
               i in Apply(s, e).files && Apply(s, e).files[i] == s.files[i]
    requires s.procs[p].pc.Truncated? ==> LockedBy(s, s.procs[p].ino, p)
    ensures ContentOk(Apply(s, e), p)
  {
    hide Apply, PidText;
    var t := Apply(s, e);
    OthersUntouched(s, e, p);
    OtherLocks(s, e, p);
    assert Holds(t, p) ==> LockedBy(t, t.procs[p].ino, p);
  }

  lemma NewcomerNotInside(s: Sys, e: Event, p: Pid)
    requires Enabled(s, e) && p !in s.procs && p in Apply(s, e).procs
    ensures !Apply(s, e).procs[p].pc.Truncated? && !PastCreate(Apply(s, e), p)
    ensures !HasFile(Apply(s, e).procs[p]) && !Inside(Apply(s, e).procs[p])
  {
    hide Apply;
    NewcomerEffect(s, e, p);
  }

  /** Whatever was in the file, ftruncate makes it right. */
  lemma TruncateContent(s: Sys, p: Pid)
    requires Inv(s) && Enabled(s, Truncate(p))
    ensures p in Apply(s, Truncate(p)).procs && ContentOk(Apply(s, Truncate(p)), p)
  {
    hide Apply, Inv;
    TruncateEffect(s, p);
  }

  lemma TruncateEffect(s: Sys, p: Pid)
    requires p in s.procs
    ensures Apply(s, Truncate(p)) == Move(s, p, Truncated).(files := s.files[s.procs[p].ino := ""])
  {
  }

  lemma {:induction false} ContentRun(s0: Sys, run: seq<Event>, p: Pid, i: Ino)
    requires Initial(s0) && Exec(s0, run).Some? && NoPrintSince(s0, run, p, i)
    ensures var s := Exec(s0, run).value; p in s.procs && s.procs[p].ino == i ==> ContentOk(s, p)
  {
    hide Apply, Enabled, Inv, ContentOk, PrintsInto;
    if run != [] {
      var front, last := run[..|run| - 1], run[|run| - 1];
      var s := Exec(s0, front).value;
      InvRun(s0, front);
      InvRun(s0, run);
      if last == Truncate(p) {
        TruncateContent(s, p);
      } else {
        NoPrintFront(s0, run, p, i);
        ContentRun(s0, front, p, i);
        if p in Apply(s, last).procs && Apply(s, last).procs[p].ino == i { ContentStep(s, last, p); }
      }
    }
  }

  lemma PidTextFits(p: Pid)
    ensures PidText(p) == Decimal(p) + "\n"
    ensures ParseLine(PidText(p)) == Some(p)
  {
    SignedDecimalLine(p);
  }

  /** In every run, with unlinks or not, whose prints leave that file alone since p has truncated it, the
      file a lock holder past create_pid_file stands on holds exactly the decimal text of its own pid
      and a newline, and reads back as that pid. */
  lemma ContentIsOwnPid(s0: Sys, run: seq<Event>, s: Sys, p: Pid)
    requires Initial(s0) && Exec(s0, run) == Some(s)
    requires PastCreate(s, p) && Holds(s, p) && NoPrintSince(s0, run, p, s.procs[p].ino)
    ensures s.procs[p].ino in s.files
    ensures s.files[s.procs[p].ino] == Decimal(p) + "\n"
    ensures ParseLine(s.files[s.procs[p].ino]) == Some(p)
  {
    ContentRun(s0, run, p, s.procs[p].ino);
    assert ContentOk(s, p);
    PidTextFits(p);
  }

  // ------------------------------------------------- prints into the PID file

  /** Some live process has file i as its stdout or stderr. */
  ghost predicate StdOn(s: Sys, i: Ino) {
    exists q, k :: HasStdOn(s, q, k, i)
  }

  ghost predicate HasStdOn(s: Sys, q: Pid, k: Fd, i: Ino) {
    q in s.procs && 1 <= k <= 2 && k in s.procs[q].fds && s.procs[q].fds[k] == Regular(i)
  }

  /** A print can change file i exactly when some live process has it as its stdout or stderr. */
  lemma PrintCanSpoilIff(s: Sys, i: Ino)
    requires i in s.files
    ensures (exists e: Event :: e.PrintStd? && Enabled(s, e) && Content(Apply(s, e), i) != s.files[i]) <==> StdOn(s, i)
  {
    if q, k :| HasStdOn(s, q, k, i) {
      var e := PrintStd(q, k, s.files[i] + "!");
      PrintEffect(s, q, k, e.content);
      assert e.PrintStd? && Enabled(s, e) && Content(Apply(s, e), i) != s.files[i];
    }
    if e: Event :| e.PrintStd? && Enabled(s, e) && Content(Apply(s, e), i) != s.files[i] {
      hide Apply;
      PrintEffect(s, e.p, e.std, e.content);
      assert HasStdOn(s, e.p, e.std, i);
    }
  }

  /** While p is past create_pid_file with its lock, no next event but a print can change its file; so
      the content is safe from every next event exactly when no stdout or stderr stands on it. */
  lemma ContentSafeIff(s: Sys, p: Pid)
    requires Inv(s) && PastCreate(s, p) && Holds(s, p)
    ensures var i := s.procs[p].ino;
            i in s.files &&
            ((forall e | Enabled(s, e) :: Content(Apply(s, e), i) == s.files[i]) <==> !StdOn(s, i))
  {
    hide Apply, Enabled, Inv, StdOn, Content;
    var i := s.procs[p].ino;
    OwnsExisting(s, p);
    PrintCanSpoilIff(s, i);
    forall e | Enabled(s, e) && Content(Apply(s, e), i) != s.files[i] ensures e.PrintStd? {
      OnlyPrintsChange(s, e, p);
    }
  }

  lemma OwnsExisting(s: Sys, p: Pid)
    requires Inv(s) && PastCreate(s, p)
    ensures s.procs[p].ino in s.files
  {
    assert ProcOk(s, p);
  }

  lemma OnlyPrintsChange(s: Sys, e: Event, p: Pid)
    requires Inv(s) && Enabled(s, e) && PastCreate(s, p) && Holds(s, p) && s.procs[p].ino in s.files
    requires Content(Apply(s, e), s.procs[p].ino) != s.files[s.procs[p].ino]
    ensures e.PrintStd?
  {
    hide Apply, Enabled, Inv;
    OnlyTheHolderWrites(s, e, s.procs[p].ino);
    if e.p == p { PastDoesNotWrite(s, e, p); }
  }

  lemma PastDoesNotWrite(s: Sys, e: Event, p: Pid)
    requires Enabled(s, e) && PastCreate(s, p) && e.p == p
    ensures !e.Truncate? && !e.Write? && !e.WriteShort?
  {
  }

  /** As a caller can see to it: no process is executed with file i as stdout or stderr, and every
      process has both open when it enters daemonize2. */
  ghost predicate CleanEntry(s: Sys, e: Event, i: Ino) {
    && (e.Launch? ==> forall k | 1 <= k <= 2 && k in e.exec :: e.exec[k] != Regular(i))
    && ((e.Fork? || e.SkipFork?) && e.p in s.procs ==> 1 in s.procs[e.p].fds && 2 in s.procs[e.p].fds)
  }

  ghost predicate CleanEntries(s0: Sys, run: seq<Event>, i: Ino) {
    forall k | 0 <= k < |run| && StateAt(s0, run, k).Some? :: CleanEntry(StateAt(s0, run, k).value, run[k], i)
  }

  ghost predicate OutputsOk(P: Proc, i: Ino) {
    && (forall k | 1 <= k <= 2 && k in P.fds :: P.fds[k] != Regular(i))
    && (!P.pc.Launched? ==> forall k | 1 <= k <= 2 :: k in P.boot && P.boot[k] != Regular(i))
  }

  ghost predicate OutputsInv(s: Sys, i: Ino) {
    forall p | p in s.procs :: OutputsOk(s.procs[p], i)
  }

  /** The descriptors of the acting process after an event: nothing new but sockets, /dev/null,
      and the PID file on the lowest free number. */
  ghost predicate OnlyAdds(P: Proc, Q: Proc, e: Event) {
    forall k | k in Q.fds ::
      || (k in P.fds && Q.fds[k] == P.fds[k])
      || !Q.fds[k].Regular?
      || (e.Open? && k == LowestFree(P.fds))
  }

  lemma OwnTable(s: Sys, P: Proc, e: Event)
    requires e.Dup? ==> P.nul in P.fds && P.fds[P.nul] == Null
    ensures OnlyAdds(P, NextProc(s, P, e), e)
  {
    hide LowestFree, OpenedIno, LockedByOther;
  }

  lemma OutputsAfter(P: Proc, Q: Proc, e: Event, i: Ino)
    requires OutputsOk(P, i) && OnlyAdds(P, Q, e)
    requires e.Open? ==> P.fds == P.boot && !P.pc.Launched?
    requires !Q.pc.Launched? && P.pc.Launched? ==> 1 in P.fds && 2 in P.fds && Q.boot == P.fds
    requires !Q.pc.Launched? && !P.pc.Launched? ==> Q.boot == P.boot
    ensures OutputsOk(Q, i)
  {
  }

  lemma OutputsStep(s: Sys, e: Event, p: Pid, i: Ino)
    requires Inv(s) && OutputsInv(s, i) && Enabled(s, e) && CleanEntry(s, e, i) && p in Apply(s, e).procs
    ensures OutputsOk(Apply(s, e).procs[p], i)
  {
    hide Apply, Enabled, Inv;
    if p in s.procs && p != e.p {
      OthersUntouched(s, e, p);
    } else if p in s.procs {
      hide OutputsOk;
      OwnOutputs(s, e, i);
    } else {
      NewOutputs(s, e, p, i);
    }
  }

  lemma NewOutputs(s: Sys, e: Event, p: Pid, i: Ino)
    requires Inv(s) && OutputsInv(s, i) && Enabled(s, e) && CleanEntry(s, e, i)
    requires p !in s.procs && p in Apply(s, e).procs
    ensures OutputsOk(Apply(s, e).procs[p], i)
  {
    hide Apply, Inv, Enabled;
    NewcomerEffect(s, e, p);
  }

  lemma AtBoot(s: Sys, p: Pid)
    requires Inv(s) && p in s.procs
    ensures s.procs[p].pc.Launched? || s.procs[p].pc.Detached? ==> s.procs[p].fds == s.procs[p].boot
    ensures s.procs[p].pc.Redirecting? ==> s.procs[p].nul in s.procs[p].fds && s.procs[p].fds[s.procs[p].nul] == Null
  {
    assert ProcOk(s, p);
  }

  lemma OwnOutputs(s: Sys, e: Event, i: Ino)
    requires Inv(s) && Enabled(s, e) && CleanEntry(s, e, i)
    requires e.p in s.procs && e.p in Apply(s, e).procs && OutputsOk(s.procs[e.p], i)
    ensures OutputsOk(Apply(s, e).procs[e.p], i)
  {
    var P, Q := s.procs[e.p], Apply(s, e).procs[e.p];
    hide Apply, Inv, OutputsOk, NextProc, Enabled, OnlyAdds;
    AtBoot(s, e.p);
    CallsAt(s, e);
    LaunchedPc(s, e);
    OwnUnlessExit(s, e);
    if e.Fork? { ForkAdds(P); }
    LeavesLaunch(s, e);
    OwnTable(s, P, e);
    OutputsAfter(P, Q, e, i);
  }

  /** Only fork and its omission lead from the command line into daemonize2. */
  lemma LeavesLaunch(s: Sys, e: Event)
    requires Inv(s) && Enabled(s, e) && e.p in s.procs && e.p in Apply(s, e).procs
    ensures var P, Q := s.procs[e.p], Apply(s, e).procs[e.p];
            && (P.pc.Launched? && !Q.pc.Launched? ==> (e.Fork? || e.SkipFork?) && Q.boot == P.fds)
            && (!P.pc.Launched? && !Q.pc.Launched? ==> Q.boot == P.boot)
  {
    hide Apply, Inv, NextProc, Enabled;
    AtBoot(s, e.p);
    CallsAt(s, e);
    LaunchedPc(s, e);
    OwnUnlessExit(s, e);
    NextProcKeeps(s, s.procs[e.p], e);
  }

  lemma ForkAdds(P: Proc)
    ensures forall e: Event :: OnlyAdds(P, P.(pc := Parent), e)
  {
  }

  /** Where some calls are made. */
  lemma CallsAt(s: Sys, e: Event)
    requires Enabled(s, e) && e.p in s.procs
    ensures e.Dup? ==> s.procs[e.p].pc.Redirecting?
    ensures e.Open? ==> s.procs[e.p].pc.Detached?
    ensures e.Fork? || e.OpenControl? || e.CloseControl? || e.Configure? ==> s.procs[e.p].pc.Launched?
  {
    hide Enabled;
    EnabledPc(s, e);
  }

  lemma LaunchedPc(s: Sys, e: Event)
    requires Enabled(s, e) && e.p in s.procs
    ensures NextProc(s, s.procs[e.p], e).pc.Launched? ==> s.procs[e.p].pc.Launched?
    ensures s.procs[e.p].pc.Launched? && !NextProc(s, s.procs[e.p], e).pc.Launched? ==> e.SkipFork?
  {
    hide NextProc, Enabled;
    EnabledPc(s, e);
    NextPc(s, s.procs[e.p], e);
  }

  lemma CleanFront(s0: Sys, run: seq<Event>, i: Ino)
    requires run != [] && CleanEntries(s0, run, i) && Exec(s0, run).Some?
    ensures CleanEntries(s0, run[..|run| - 1], i)
    ensures CleanEntry(Exec(s0, run[..|run| - 1]).value, run[|run| - 1], i)
  {
    hide CleanEntry;
    var front := run[..|run| - 1];
    assert StateAt(s0, run, |run| - 1) == Exec(s0, front);
    forall k | 0 <= k < |front| && StateAt(s0, front, k).Some?
      ensures CleanEntry(StateAt(s0, front, k).value, front[k], i)
    {
      assert front[..k] == run[..k];
      assert StateAt(s0, run, k) == StateAt(s0, front, k);
    }
  }

  lemma {:induction false} OutputsRun(s0: Sys, run: seq<Event>, i: Ino)
    requires Initial(s0) && Exec(s0, run).Some? && CleanEntries(s0, run, i)
    ensures OutputsInv(Exec(s0, run).value, i) && !StdOn(Exec(s0, run).value, i)
  {
    if run != [] {
      var front, last := run[..|run| - 1], run[|run| - 1];
      CleanFront(s0, run, i);
      OutputsRun(s0, front, i);
      InvRun(s0, front);
      var s := Exec(s0, front).value;
      forall p | p in Apply(s, last).procs ensures OutputsOk(Apply(s, last).procs[p], i) {
        hide Apply, Enabled, Inv, OutputsOk, CleanEntry;
        OutputsStep(s, last, p, i);
      }
    }
  }

  lemma PrintsThroughStd(s: Sys, e: Event, i: Ino)
    requires Enabled(s, e)
    ensures PrintsInto(s, e, i) ==> StdOn(s, i)
  {
    if PrintsInto(s, e, i) { assert HasStdOn(s, e.p, e.std, i); }
  }

  /** With clean entries no print of any run goes into the file. */
  lemma {:induction false} CleanEntriesPrintElsewhere(s0: Sys, run: seq<Event>, i: Ino)
    requires Initial(s0) && Exec(s0, run).Some? && CleanEntries(s0, run, i)
    ensures NoPrintInto(s0, run, i) && forall p :: NoPrintSince(s0, run, p, i)
  {
    hide CleanEntry;
    if run != [] {
      var front, last := run[..|run| - 1], run[|run| - 1];
      CleanFront(s0, run, i);
      CleanEntriesPrintElsewhere(s0, front, i);
      OutputsRun(s0, front, i);
      var s := Exec(s0, front).value;
      hide Apply, OutputsInv, PrintsInto, StdOn;
      PrintsThroughStd(s, last, i);
      forall k | 0 <= k < |run| && StateAt(s0, run, k).Some?
        ensures !PrintsInto(StateAt(s0, run, k).value, run[k], i)
      {
        if k < |front| {
          assert front[..k] == run[..k];
          assert StateAt(s0, front, k) == StateAt(s0, run, k);
        }
      }
    }
  }

  // ------------------------------------------------- runs without unlink

  ghost predicate NoUnlink(run: seq<Event>) {
    forall e | e in run :: !e.Unlink?
  }

  /** The name still denotes the file that p opened. */
  ghost predicate Attached(s: Sys, p: Pid)
    requires p in s.procs && s.procs[p].cfg.pidFile.Some?
  {
    var n := s.procs[p].cfg.pidFile.value;
    n in s.names && s.names[n] == s.procs[p].ino
  }

  /** Only an unlink detaches a process from its name, and open attaches it. */
  lemma AttachedStep(s: Sys, e: Event, p: Pid)
    requires Inv(s) && Enabled(s, e) && !e.Unlink?
    requires p in Apply(s, e).procs && HasFile(Apply(s, e).procs[p])
    ensures Attached(Apply(s, e), p) || (p in s.procs && HasFile(s.procs[p]) && !Attached(s, p))
  {
    if p !in s.procs {
      NewcomerNotInside(s, e, p);
    } else if !HasFile(s.procs[p]) {
      hide Inv;
      BecomesAttached(s, e, p);
    } else {
      FileStays(s, e, p);
      hide Apply, Enabled;
      if Attached(s, p) { OnlyPastUnlinks(s, e, s.procs[p].cfg.pidFile.value); }
    }
  }

  lemma BecomesAttached(s: Sys, e: Event, p: Pid)
    requires Enabled(s, e) && p in s.procs && p in Apply(s, e).procs
    requires !HasFile(s.procs[p]) && HasFile(Apply(s, e).procs[p])
    ensures Attached(Apply(s, e), p)
  {
    if p != e.p {
      hide Apply;
      OthersUntouched(s, e, p);
    } else {
      OpensOnly(s, e);
      hide Apply;
      OpenEffect(s, p, e.newIno);
    }
  }

  lemma OpensOnly(s: Sys, e: Event)
    requires Enabled(s, e) && e.p in s.procs && e.p in Apply(s, e).procs
    requires !HasFile(s.procs[e.p]) && HasFile(Apply(s, e).procs[e.p])
    ensures e.Open? && s.procs[e.p].cfg.pidFile.Some? && s.procs[e.p].cfg == Apply(s, e).procs[e.p].cfg
  {
    hide Apply, NextProc, Enabled;
    OwnUnlessExit(s, e);
    NextProcKeeps(s, s.procs[e.p], e);
    FilePc(s, e);
  }

  /** A process comes to have a PID file, or to be past it without one, in three ways. */
  lemma FilePc(s: Sys, e: Event)
    requires Enabled(s, e) && e.p in s.procs
    requires var pc := NextProc(s, s.procs[e.p], e).pc; InCreate(pc) || Past(pc)
    ensures !e.Configure?
    ensures InCreate(s.procs[e.p].pc) || Past(s.procs[e.p].pc)
            || (e.Open? && s.procs[e.p].cfg.pidFile.Some?) || (e.SkipPidFile? && s.procs[e.p].cfg.pidFile.None?)
  {
    hide NextProc, Enabled;
    EnabledPc(s, e);
    NextPc(s, s.procs[e.p], e);
  }

  lemma FileStays(s: Sys, e: Event, p: Pid)
    requires Enabled(s, e) && p in s.procs && HasFile(s.procs[p]) && p in Apply(s, e).procs
    ensures SameHistory(s.procs[p], Apply(s, e).procs[p])
  {
    if e.p != p {
      hide Apply, NextProc;
      OthersUntouched(s, e, p);
    } else {
      assert !e.Open?;
      hide Apply, NextProc;
      OwnUnlessExit(s, e);
      NextProcKeeps(s, s.procs[p], e);
    }
  }

  lemma OwnUnlessExit(s: Sys, e: Event)
    requires Enabled(s, e) && e.p in s.procs && e.p in Apply(s, e).procs
    ensures !e.Launch? && !e.Exit?
    ensures if e.Fork? then Apply(s, e).procs[e.p] == s.procs[e.p].(pc := Parent)
            else Apply(s, e).procs[e.p] == NextProc(s, s.procs[e.p], e)
  {
    hide NextNames, NextFiles, NextLocks, NextProc;
  }

  lemma {:induction false} NamesStay(s0: Sys, run: seq<Event>, s: Sys, p: Pid)
    requires Initial(s0) && Exec(s0, run) == Some(s) && NoUnlink(run)
    requires p in s.procs && HasFile(s.procs[p])
    ensures Attached(s, p)
  {
    hide Apply, Enabled;
    var front, last := run[..|run| - 1], run[|run| - 1];
    var m := Exec(s0, front).value;
    assert last in run;
    InvRun(s0, front);
    AttachedStep(m, last, p);
    if p in m.procs && HasFile(m.procs[p]) {
      NamesStay(s0, front, m, p);
    }
  }

  /** In every run, at most one live process past create_pid_file is attached to a name;
      in runs without unlink all of them are, so at most one is past it at all. */
  lemma AtMostOnePerName(s0: Sys, run: seq<Event>, s: Sys, p: Pid, q: Pid)
    requires Initial(s0) && Exec(s0, run) == Some(s)
    requires PastCreate(s, p) && PastCreate(s, q)
    requires s.procs[p].cfg.pidFile == s.procs[q].cfg.pidFile
    requires SafeStd(s.procs[p]) && SafeStd(s.procs[q])
    ensures p == q <==> s.procs[p].ino == s.procs[q].ino
    ensures Attached(s, p) && Attached(s, q) ==> p == q
    ensures NoUnlink(run) ==> p == q
  {
    if p != q {
      ExclusionPerFile(s0, run, s, p, q);
      if NoUnlink(run) {
        NamesStay(s0, run, s, p);
        NamesStay(s0, run, s, q);
      }
    }
  }

  /** Without unlink, and without prints into its file, whoever is past create_pid_file finds its own
      pid under the name. */
  lemma NameShowsOwnPid(s0: Sys, run: seq<Event>, s: Sys, p: Pid)
    requires Initial(s0) && Exec(s0, run) == Some(s) && NoUnlink(run)
    requires PastCreate(s, p) && Holds(s, p) && NoPrintSince(s0, run, p, s.procs[p].ino)
    ensures var n := s.procs[p].cfg.pidFile.value;
            n in s.names && s.names[n] in s.files
            && ParseLine(s.files[s.names[n]]) == Some(p)
  {
    NamesStay(s0, run, s, p);
    ContentIsOwnPid(s0, run, s, p);
  }
}
