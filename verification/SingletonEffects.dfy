/** Each event of the PID-file protocol written out as the state it leads to. */
module SingletonEffects {
  import opened Wrappers
  import opened Posix
  import opened Singleton

  function Put(s: Sys, p: Pid, P: Proc): Sys {
    s.(procs := s.procs[p := P])
  }

  function Move(s: Sys, p: Pid, pc: Pc): Sys
    requires p in s.procs
  {
    Put(s, p, s.procs[p].(pc := pc))
  }

  // ------------------------------------------------- each event written out

  lemma LaunchEffect(s: Sys, p: Pid, cfg: Config, exec: FdTable)
    ensures Apply(s, Launch(p, cfg, exec)).procs == s.procs[p := Started(cfg, exec)]
    ensures p !in s.procs ==> Apply(s, Launch(p, cfg, exec)) == s.(procs := Apply(s, Launch(p, cfg, exec)).procs)
  {
  }

  lemma AdvanceEffect(s: Sys, e: Event)
    requires e.p in s.procs && Advance(e).Some?
    ensures Apply(s, e).procs == Move(s, e.p, Advance(e).value).procs
    ensures Apply(s, e).locks == s.locks
    ensures !e.Unlink? ==> Apply(s, e).names == s.names
    ensures !e.Truncate? && !e.Write? && !e.WriteShort? ==> Apply(s, e).files == s.files
  {
  }

  lemma ForkEffect(s: Sys, p: Pid, child: Pid)
    requires p in s.procs
    ensures Apply(s, Fork(p, child)) ==
            Put(Move(s, p, Parent), child, s.procs[p].(pc := Detached, boot := s.procs[p].fds))
  {
  }

  lemma OpenEffect(s: Sys, p: Pid, newIno: Ino)
    requires p in s.procs && s.procs[p].cfg.pidFile.Some?
    ensures var P, t := s.procs[p], Apply(s, Open(p, newIno));
            var ino, fd := OpenedIno(s, P, newIno), LowestFree(P.fds);
            && t.procs == s.procs[p := P.(pc := Opened, fd := fd, ino := ino, fds := P.fds[fd := Regular(ino)])]
            && t.names == s.names[P.cfg.pidFile.value := ino]
            && t.files == (if ino in s.files then s.files else s.files[newIno := ""])
            && t.locks == s.locks
  {
  }

  lemma LockEffect(s: Sys, p: Pid)
    requires p in s.procs
    ensures Apply(s, Lock(p)) ==
            if LockedByOther(s, p, s.procs[p].ino) then Move(s, p, Closing)
            else Move(s, p, Locked).(locks := s.locks[s.procs[p].ino := p])
  {
  }

  lemma CloseEffect(s: Sys, p: Pid)
    requires p in s.procs
    ensures var P := s.procs[p];
            Apply(s, CloseAfterError(p)) == Put(s, p, P.(pc := Failed, fds := P.fds - {P.fd}))
              .(locks := DropLock(s.locks, Regular(P.ino), p))
  {
  }

  lemma SocketEffect(s: Sys, e: Event)
    requires e.p in s.procs
    requires e.Configure? || e.OpenControl? || e.CloseControl? || e.BindSocket? || e.OpenNull? || e.Accept?
             || e.CloseSocket?
    ensures Apply(s, e) == Put(s, e.p, NextProc(s, s.procs[e.p], e))
  {
  }

  lemma DupEffect(s: Sys, p: Pid)
    requires p in s.procs
    ensures var P := s.procs[p];
            Apply(s, Dup(p)) == Put(s, p, P.(fds := DupFds(P), dups := P.dups + 1))
              .(locks := Dup2Locks(s.locks, P.fds, P.nul, P.dups, p))
  {
  }

  lemma EndRedirectEffect(s: Sys, p: Pid)
    requires p in s.procs && s.procs[p].nul in s.procs[p].fds && s.procs[p].fds[s.procs[p].nul] == Null
    ensures var P := s.procs[p];
            Apply(s, EndRedirect(p)) ==
            Put(s, p, P.(pc := Serving, fds := if P.nul > 2 then P.fds - {P.nul} else P.fds))
  {
  }

  lemma PrintEffect(s: Sys, p: Pid, std: Fd, content: string)
    requires p in s.procs
    ensures var fds := s.procs[p].fds;
            Apply(s, PrintStd(p, std, content)) ==
            if std in fds && fds[std].Regular? then s.(files := s.files[fds[std].ino := content]) else s
  {
    assert s.procs[p := s.procs[p]] == s.procs;
  }

  lemma RefusedEffect(s: Sys, p: Pid, call: Syscall)
    requires p in s.procs
    ensures Apply(s, Refused(p, call)) == s
  {
    assert s.procs[p := s.procs[p]] == s.procs;
  }

  lemma ExitEffect(s: Sys, p: Pid)
    requires p in s.procs
    ensures Apply(s, Exit(p)) == s.(procs := s.procs - {p}, locks := DropAll(s.locks, p))
  {
  }

  // ------------------------------------------------- one component at a time

  /** The record of the acting process after its event. */
  lemma OwnProcEffect(s: Sys, e: Event)
    requires e.p in s.procs && !e.Launch? && !e.Exit?
    ensures e.p in Apply(s, e).procs
    ensures e.Fork? && e.child != e.p ==> Apply(s, e).procs[e.p] == s.procs[e.p].(pc := Parent)
    ensures !e.Fork? ==> Apply(s, e).procs[e.p] == NextProc(s, s.procs[e.p], e)
  {
    hide NextNames, NextFiles, NextLocks, NextProc;
  }

  lemma OthersUntouched(s: Sys, e: Event, q: Pid)
    requires Enabled(s, e) && q in s.procs && q != e.p
    ensures q in Apply(s, e).procs && Apply(s, e).procs[q] == s.procs[q]
  {
    hide NextNames, NextFiles, NextLocks, NextProc;
  }

  /** A record that was not there before comes from Launch or Fork. */
  lemma NewcomerEffect(s: Sys, e: Event, q: Pid)
    requires Enabled(s, e) && q !in s.procs && q in Apply(s, e).procs
    ensures Apply(s, e).procs[q].pc.Launched? || Apply(s, e).procs[q].pc.Detached?
    ensures || (e.Launch? && Apply(s, e).procs[q] == Started(e.cfg, e.exec))
            || (e.Fork? && e.p in s.procs
                && Apply(s, e).procs[q] == s.procs[e.p].(pc := Detached, boot := s.procs[e.p].fds))
  {
    hide NextNames, NextFiles, NextLocks, NextProc;
  }

  lemma NextProcKeeps(s: Sys, P: Proc, e: Event)
    ensures NextProc(s, P, e).exec == P.exec
    ensures !e.Configure? ==> NextProc(s, P, e).cfg == P.cfg
    ensures !e.OpenControl? && !e.CloseControl? ==> NextProc(s, P, e).boot == P.boot
    ensures !e.OpenControl? ==> NextProc(s, P, e).made == P.made
    ensures !e.Open? ==> NextProc(s, P, e).ino == P.ino
  {
    hide LowestFree, DupFds, OpenedIno, LockedByOther;
  }

  /** The program point an event leads to. */
  lemma NextPc(s: Sys, P: Proc, e: Event)
    ensures var pc := NextProc(s, P, e).pc;
            || Advance(e) == Some(pc)
            || (e.Open? && pc == Opened) || (e.Lock? && (pc == Closing || pc == Locked))
            || (e.CloseAfterError? && pc == Failed) || (e.BindSocket? && pc == Ready)
            || (e.OpenNull? && pc == Redirecting) || (e.EndRedirect? && pc == Serving)
            || ((e.Dup? || e.Accept? || e.CloseSocket? || e.PrintStd? || e.Configure? || e.OpenControl?
                 || e.CloseControl? || e.Refused?
                 || e.Launch? || e.Fork? || e.Exit?) && pc == P.pc)
  {
    hide LowestFree, DupFds, OpenedIno, LockedByOther;
  }

  /** Where each call is made. */
  lemma EnabledPc(s: Sys, e: Event)
    requires Enabled(s, e) && e.p in s.procs
    ensures !e.Launch?
    ensures var pc := s.procs[e.p].pc;
            && (e.Fork? || e.SkipFork? || e.Configure? || e.OpenControl? || e.CloseControl? ==> pc.Launched?)
            && (e.SkipPidFile? || e.Open? ==> pc.Detached?)
            && (e.Lock? || e.LockError? ==> pc.Opened?)
            && (e.Truncate? || e.TruncateError? ==> pc.Locked?)
            && (e.Write? || e.WriteShort? ==> pc.Truncated?)
            && (e.CloseAfterError? ==> pc.Closing?)
            && (e.InstallSignals? ==> pc.Created?)
            && (e.BindSocket? ==> pc.Armed?)
            && (e.SkipRedirect? || e.OpenNull? ==> pc.Ready?)
            && (e.Dup? || e.EndRedirect? ==> pc.Redirecting?)
            && (e.Accept? || e.CloseSocket? ==> pc.Serving?)
            && (e.Signal? ==> Interruptible(pc))
            && (e.Unlink? || e.UnlinkError? ==> pc.Unlinking?)
    ensures e.SkipPidFile? ==> s.procs[e.p].cfg.pidFile.None?
    ensures e.Open? ==> s.procs[e.p].cfg.pidFile.Some?
  {
  }
}
