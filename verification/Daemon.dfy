/**
 src/daemon.c step by step: create_pid_file, redirect_stdio_to_devnull and daemonize2 of one
 process, and daemon_exit_handler of src/onvif_srvd.cpp, while any other processes run in between.
 */
module Daemon {
  import opened Wrappers
  import opened Posix
  import opened Singleton
  import opened SingletonEffects
  import opened SingletonInvariant
  import opened SingletonTheorems
  import opened SingletonRaces

  // ------------------------------------------------- why a start fails

  /** The event is in the run, from a place on. */
  ghost predicate Happened(trace: seq<Event>, from: nat, e: Event) {
    exists j :: from <= j < |trace| && trace[j] == e
  }

  /** At place j of the run p asks for the lock of its file while q has it. */
  ghost predicate LosesTo(start: Sys, trace: seq<Event>, j: nat, p: Pid, q: Pid) {
    && j < |trace| && trace[j] == Event.Lock(p) && p != q
    && var s := StateAt(start, trace, j);
       s.Some? && p in s.value.procs && LockedBy(s.value, s.value.procs[p].ino, q)
  }

  /** A call of create_pid_file has failed: open, ftruncate or write by itself, lockf by itself or
      because another process had the lock. */
  ghost predicate CreateCallFailed(start: Sys, trace: seq<Event>, from: nat, p: Pid) {
    || Happened(trace, from, Refused(p, OpenCall))
    || Happened(trace, from, LockError(p))
    || (exists j: nat, q :: from <= j && LosesTo(start, trace, j, p, q))
    || Happened(trace, from, TruncateError(p))
    || (exists count :: Happened(trace, from, WriteShort(p, count)))
  }

  /** A call behind the fork has failed, of those that the settings ask for. */
  ghost predicate CallFailed(start: Sys, trace: seq<Event>, from: nat, p: Pid, cfg: Config, noChdir: bool) {
    || (!cfg.noFork && Happened(trace, from, Refused(p, SetsidCall)))
    || (!noChdir && Happened(trace, from, Refused(p, ChdirCall)))
    || (cfg.pidFile.Some? && CreateCallFailed(start, trace, from, p))
    || Happened(trace, from, Refused(p, BindCall))
    || (!cfg.noCloseStdio && Happened(trace, from, Refused(p, NullCall)))
  }

  /** The process that goes on: the one that has entered, or its child. */
  ghost predicate GoesOn(trace: seq<Event>, from: nat, entering: Pid, self: Pid, noFork: bool) {
    if noFork then self == entering else Happened(trace, from, Fork(entering, self))
  }

  /** A call of daemonize2 has failed. */
  ghost predicate StartFailed(start: Sys, trace: seq<Event>, from: nat, entering: Pid, cfg: Config, noChdir: bool) {
    || (!cfg.noFork && Happened(trace, from, Refused(entering, ForkCall)))
    || (exists self ::
          GoesOn(trace, from, entering, self, cfg.noFork) && CallFailed(start, trace, from, self, cfg, noChdir))
  }

  /** What has happened stays so when the run goes on, also counted from an earlier place. */
  lemma Later(start: Sys, early: seq<Event>, a: nat, late: seq<Event>, b: nat)
    requires early <= late && b <= a
    ensures forall e | Happened(early, a, e) :: Happened(late, b, e)
    ensures forall p | CreateCallFailed(start, early, a, p) :: CreateCallFailed(start, late, b, p)
  {
    hide StateAt;
    forall e | Happened(early, a, e) ensures Happened(late, b, e) {
      var j :| a <= j < |early| && early[j] == e;
      assert late[j] == e;
    }
    hide Happened;
    forall p | CreateCallFailed(start, early, a, p) ensures CreateCallFailed(start, late, b, p) {
      if j: nat, q :| a <= j && LosesTo(start, early, j, p, q) {
        StillLoses(start, early, late, j, p, q);
      }
      if count :| Happened(early, a, WriteShort(p, count)) {
        assert Happened(late, b, WriteShort(p, count));
      }
    }
  }

  lemma StillLoses(start: Sys, early: seq<Event>, late: seq<Event>, j: nat, p: Pid, q: Pid)
    requires early <= late && LosesTo(start, early, j, p, q)
    ensures LosesTo(start, late, j, p, q)
  {
    assert early[..j] == late[..j];
    assert StateAt(start, early, j) == StateAt(start, late, j);
  }

  lemma CreateCauses(start: Sys, trace: seq<Event>, from: nat, p: Pid)
    ensures Happened(trace, from, Refused(p, OpenCall)) ==> CreateCallFailed(start, trace, from, p)
    ensures Happened(trace, from, TruncateError(p)) ==> CreateCallFailed(start, trace, from, p)
    ensures (exists count :: Happened(trace, from, WriteShort(p, count))) ==> CreateCallFailed(start, trace, from, p)
  {
    hide Happened;
  }

  lemma Causes(start: Sys, trace: seq<Event>, from: nat, p: Pid, cfg: Config, noChdir: bool)
    ensures cfg.pidFile.Some? && CreateCallFailed(start, trace, from, p) ==>
      CallFailed(start, trace, from, p, cfg, noChdir)
    ensures Happened(trace, from, Refused(p, BindCall)) ==> CallFailed(start, trace, from, p, cfg, noChdir)
    ensures !cfg.noCloseStdio && Happened(trace, from, Refused(p, NullCall)) ==>
      CallFailed(start, trace, from, p, cfg, noChdir)
  {
    hide Happened, CreateCallFailed;
  }

  lemma StillGoesOn(start: Sys, early: seq<Event>, a: nat, late: seq<Event>, b: nat,
                    entering: Pid, self: Pid, noFork: bool)
    requires early <= late && b <= a && GoesOn(early, a, entering, self, noFork)
    ensures GoesOn(late, b, entering, self, noFork)
  {
    hide Happened;
    Later(start, early, a, late, b);
  }

  /** So a failed call is a reason for the whole start. */
  lemma Reason(start: Sys, early: seq<Event>, a: nat, late: seq<Event>, b: nat,
               entering: Pid, self: Pid, cfg: Config, noChdir: bool)
    requires early <= late && b <= a
    requires GoesOn(late, b, entering, self, cfg.noFork) && CallFailed(start, early, a, self, cfg, noChdir)
    ensures StartFailed(start, late, b, entering, cfg, noChdir)
  {
    hide Happened, CreateCallFailed;
    Later(start, early, a, late, b);
    assert CallFailed(start, late, b, self, cfg, noChdir);
  }

  /** A failure behind the place where the process that goes on is known. */
  lemma EndsFor(start: Sys, forked: seq<Event>, a: nat, early: seq<Event>, c: nat, late: seq<Event>, b: nat,
                entering: Pid, self: Pid, cfg: Config, noChdir: bool)
    requires forked <= late && early <= late && b <= a && b <= c
    requires GoesOn(forked, a, entering, self, cfg.noFork)
    requires (cfg.pidFile.Some? && CreateCallFailed(start, early, c, self))
             || Happened(early, c, Refused(self, BindCall))
             || (!cfg.noCloseStdio && Happened(early, c, Refused(self, NullCall)))
    ensures StartFailed(start, late, b, entering, cfg, noChdir)
  {
    hide *;
    StillGoesOn(start, forked, a, late, b, entering, self, cfg.noFork);
    Causes(start, early, c, self, cfg, noChdir);
    Reason(start, early, c, late, b, entering, self, cfg, noChdir);
  }

  lemma SameReason(start: Sys, trace: seq<Event>, a: nat, b: nat, entering: Pid, cfg: Config, noChdir: bool)
    requires b <= a && StartFailed(start, trace, a, entering, cfg, noChdir)
    ensures StartFailed(start, trace, b, entering, cfg, noChdir)
  {
    hide Happened, CallFailed;
    Later(start, trace, a, trace, b);
    if self :| GoesOn(trace, a, entering, self, cfg.noFork) && CallFailed(start, trace, a, self, cfg, noChdir) {
      assert GoesOn(trace, b, entering, self, cfg.noFork);
      Reason(start, trace, a, trace, b, entering, self, cfg, noChdir);
    }
  }

  // ------------------------------------------------- the kernel

  /** The operating system shared by all processes; `trace` is the run that led to `sys`. */
  class Kernel {
    var sys: Sys
    ghost var start: Sys
    ghost var trace: seq<Event>

    ghost predicate Valid()
      reads this
    {
      Initial(start) && Exec(start, trace) == Some(sys)
    }

    constructor (names: map<Path, Ino>, files: map<Ino, string>)
      requires forall n | n in names :: names[n] in files
      ensures Valid() && trace == [] && sys == Sys(map[], names, files, map[])
    {
      sys := Sys(map[], names, files, map[]);
      start := Sys(map[], names, files, map[]);
      trace := [];
    }

    /** The run so far is a valid continuation of an earlier one. */
    ghost predicate Extends(before: seq<Event>, from: Sys)
      reads this
    {
      Valid() && start == from && before <= trace
    }

    /** One system call. */
    method Call(e: Event)
      requires Valid() && Enabled(sys, e)
      modifies this
      ensures Valid() && start == old(start)
      ensures sys == Apply(old(sys), e) && trace == old(trace) + [e]
    {
      hide Exec, Apply, Enabled;
      Extend(start, trace, sys, e);
      sys := Apply(sys, e);
      trace := trace + [e];
    }

    /** Any number of system calls of other processes. */
    method Others(p: Pid)
      requires Valid() && p in sys.procs
      modifies this
      ensures Extends(old(trace), old(start))
      ensures p in sys.procs && sys.procs[p] == old(sys.procs[p])
      ensures forall e | e in trace[|old(trace)|..] :: e.p != p
    {
      hide Exec, Apply;
      var rounds: nat := *;
      while rounds > 0
        invariant Valid() && start == old(start) && old(trace) <= trace
        invariant p in sys.procs && sys.procs[p] == old(sys.procs[p])
        invariant forall e | e in trace[|old(trace)|..] :: e.p != p
      {
        var e: Event := *;
        if e.p != p && Enabled(sys, e) {
          OthersUntouched(sys, e, p);
          Call(e);
        }
        rounds := rounds - 1;
      }
    }

    /** A call of p that only advances its program point, after any calls of the others. */
    method Advancing(p: Pid, e: Event)
      requires Valid() && p in sys.procs && Enabled(sys, e) && e.p == p && Advance(e).Some?
      modifies this
      ensures Extends(old(trace), old(start))
      ensures p in sys.procs && sys.procs[p] == old(sys.procs[p]).(pc := Advance(e).value)
      ensures |trace| > |old(trace)| && trace[|trace| - 1] == e
    {
      Others(p);
      EnabledAfterOthers(old(sys), sys, e);
      hide Apply;
      AdvanceEffect(sys, e);
      Call(e);
    }

    /** Does the call fail, without any effect? The kernel decides. */
    method Refuses(p: Pid, call: Syscall) returns (refused: bool)
      requires Valid() && p in sys.procs && Refusable(sys.procs[p], call)
      modifies this
      ensures Extends(old(trace), old(start))
      ensures p in sys.procs && sys.procs[p] == old(sys.procs[p])
      ensures refused ==> Happened(trace, |old(trace)|, Refused(p, call))
    {
      Others(p);
      refused := *;
      if refused {
        hide Apply;
        RefusedEffect(sys, p, call);
        Call(Refused(p, call));
        assert trace[|trace| - 1] == Refused(p, call);
      }
    }

    /** Calls without a failure path that matters here: no fork, no PID file, no redirection,
        and the installation of the signal handlers. */
    method Pass(p: Pid, e: Event)
      requires Valid() && p in sys.procs && e.p == p
      requires var P := sys.procs[p];
        || (e.SkipFork? && P.pc.Launched? && P.cfg.noFork)
        || (e.SkipPidFile? && P.pc.Detached? && P.cfg.pidFile.None?)
        || (e.InstallSignals? && P.pc.Created?)
        || (e.SkipRedirect? && P.pc.Ready? && P.cfg.noCloseStdio)
      modifies this
      ensures Extends(old(trace), old(start))
      ensures p in sys.procs && sys.procs[p] == old(sys.procs[p]).(pc := Advance(e).value)
    {
      Advancing(p, e);
    }

    /** The options have set daemon_info. */
    method Configure(p: Pid, cfg: Config)
      requires Valid() && At(sys, p, Launched)
      modifies this
      ensures Extends(old(trace), old(start))
      ensures p in sys.procs && sys.procs[p] == old(sys.procs[p]).(cfg := cfg)
    {
      Others(p);
      hide Apply;
      SocketEffect(sys, Event.Configure(p, cfg));
      Call(Event.Configure(p, cfg));
    }

    /** socket() for an interface, before daemonize2: the lowest free descriptor, or -1. */
    method Socket(p: Pid) returns (d: int)
      requires Valid() && At(sys, p, Launched)
      modifies this
      ensures Extends(old(trace), old(start))
      ensures p in sys.procs
      ensures d == -1 ==> sys.procs[p] == old(sys.procs[p])
      ensures d == -1 ==> Happened(trace, |old(trace)|, Refused(p, SocketCall))
      ensures d != -1 ==>
        var P := old(sys.procs[p]);
        var fds := OpenControlFds(P.fds, P.made);
        d == LowestFree(P.fds) && sys.procs[p] == P.(boot := fds, fds := fds, made := P.made + 1)
    {
      var refused := Refuses(p, SocketCall);
      if refused { return -1; }
      d := LowestFree(sys.procs[p].fds);
      hide Apply;
      SocketEffect(sys, OpenControl(p));
      Call(OpenControl(p));
    }

    /** close() of such a socket. */
    method CloseSocketOf(p: Pid, sd: Fd)
      requires Valid() && At(sys, p, Launched) && sd in sys.procs[p].fds && sys.procs[p].fds[sd].Control?
      modifies this
      ensures Extends(old(trace), old(start))
      ensures p in sys.procs
      ensures var P := old(sys.procs[p]); sys.procs[p] == P.(boot := P.fds - {sd}, fds := P.fds - {sd})
    {
      Others(p);
      hide Apply;
      SocketEffect(sys, CloseControl(p, sd));
      Call(CloseControl(p, sd));
    }

    /** open of the PID file: the descriptor, or -1. */
    method Open(p: Pid) returns (fd: int)
      requires Valid() && At(sys, p, Detached) && sys.procs[p].cfg.pidFile.Some?
      modifies this
      ensures Extends(old(trace), old(start))
      ensures p in sys.procs
      ensures fd == -1 ==> sys.procs[p] == old(sys.procs[p])
      ensures fd == -1 ==> Happened(trace, |old(trace)|, Refused(p, OpenCall))
      ensures fd != -1 ==> fd == LowestFree(old(sys.procs[p].fds))
      ensures fd != -1 ==>
        var P, ino := old(sys.procs[p]), sys.procs[p].ino;
        sys.procs[p] == P.(pc := Opened, fd := fd, ino := ino, fds := P.fds[fd := Regular(ino)])
    {
      var refused := Refuses(p, OpenCall);
      if refused { return -1; }
      var newIno := LowestUnusedFrom(sys.files.Keys, 0);
      hide Apply;
      OpenEffect(sys, p, newIno);
      Call(Event.Open(p, newIno));
      fd := sys.procs[p].fd;
    }

    /** lockf(fd, F_TLOCK, 0): 0 with the lock; -1 when another process has it, or after an error. */
    method Lockf(p: Pid) returns (r: int)
      requires Valid() && At(sys, p, Opened)
      modifies this
      ensures Extends(old(trace), old(start))
      ensures p in sys.procs && (r == 0 || r == -1)
      ensures sys.procs[p] == old(sys.procs[p]).(pc := if r == 0 then Locked else Closing)
      ensures r == -1 ==> CreateCallFailed(start, trace, |old(trace)|, p)
    {
      var fails: bool := *;
      if fails {
        Advancing(p, LockError(p));
        assert Happened(trace, |old(trace)|, LockError(p));
        return -1;
      }
      Others(p);
      hide Apply;
      LockEffect(sys, p);
      ghost var before, run := sys, trace;
      Call(Event.Lock(p));
      r := if sys.procs[p].pc == Locked then 0 else -1;
      if r == -1 {
        LockedOut(start, run, before, p);
        assert LosesTo(start, trace, |run|, p, before.locks[before.procs[p].ino]);
      }
    }

    method Ftruncate(p: Pid) returns (r: int)
      requires Valid() && At(sys, p, Locked)
      modifies this
      ensures Extends(old(trace), old(start))
      ensures p in sys.procs && (r == 0 || r == -1)
      ensures sys.procs[p] == old(sys.procs[p]).(pc := if r == 0 then Truncated else Closing)
      ensures r == -1 ==> Happened(trace, |old(trace)|, TruncateError(p))
    {
      var fails: bool := *;
      Advancing(p, if fails then TruncateError(p) else Truncate(p));
      assert fails ==> trace[|trace| - 1] == TruncateError(p);
      r := if fails then -1 else 0;
    }

    /** write of the pid line: the number of bytes written, or -1. */
    method Write(p: Pid) returns (r: int)
      requires Valid() && At(sys, p, Truncated)
      modifies this
      ensures Extends(old(trace), old(start))
      ensures p in sys.procs && -1 <= r <= |PidText(p)|
      ensures sys.procs[p] == old(sys.procs[p]).(pc := if r == |PidText(p)| then Created else Closing)
      ensures r != |PidText(p)| ==> exists count :: Happened(trace, |old(trace)|, WriteShort(p, count))
    {
      PidTextNotEmpty(p);
      hide PidText;
      r := *;
      if r < -1 || r >= |PidText(p)| {
        r := |PidText(p)|;
        Advancing(p, Event.Write(p));
      } else {
        Advancing(p, WriteShort(p, if r < 0 then 0 else r));
        assert Happened(trace, |old(trace)|, trace[|trace| - 1]);
      }
    }

    /** close of the PID file after an error. */
    method Close(p: Pid)
      requires Valid() && At(sys, p, Closing)
      modifies this
      ensures Extends(old(trace), old(start))
      ensures p in sys.procs
      ensures var P := old(sys.procs[p]); sys.procs[p] == P.(pc := Failed, fds := P.fds - {P.fd})
    {
      Others(p);
      hide Apply;
      CloseEffect(sys, p);
      Call(CloseAfterError(p));
    }

    /** The service socket, on the lowest free descriptor. */
    method Bind(p: Pid) returns (ok: bool)
      requires Valid() && At(sys, p, Armed) && sys.procs[p].made > 0
      modifies this
      ensures Extends(old(trace), old(start))
      ensures p in sys.procs
      ensures ok ==>
        var P := old(sys.procs[p]);
        sys.procs[p] == P.(pc := Ready, srv := LowestFree(P.fds), fds := OpenServiceFds(P.fds))
      ensures !ok ==> sys.procs[p] == old(sys.procs[p])
      ensures !ok ==> Happened(trace, |old(trace)|, Refused(p, BindCall))
    {
      var refused := Refuses(p, BindCall);
      if refused { return false; }
      hide Apply;
      SocketEffect(sys, BindSocket(p));
      Call(BindSocket(p));
      ok := true;
    }

    /** open("/dev/null", O_RDWR): the descriptor, or -1. */
    method OpenDevNull(p: Pid) returns (fd: int)
      requires Valid() && At(sys, p, Ready) && !sys.procs[p].cfg.noCloseStdio
      modifies this
      ensures Extends(old(trace), old(start))
      ensures p in sys.procs
      ensures fd == -1 ==> sys.procs[p] == old(sys.procs[p])
      ensures fd == -1 ==> Happened(trace, |old(trace)|, Refused(p, NullCall))
      ensures fd != -1 ==>
        var P := old(sys.procs[p]);
        fd == LowestFree(P.fds) && sys.procs[p] == P.(pc := Redirecting, nul := fd, fds := OpenNullFds(P.fds))
    {
      var refused := Refuses(p, NullCall);
      if refused { return -1; }
      hide Apply;
      SocketEffect(sys, OpenNull(p));
      Call(OpenNull(p));
      fd := sys.procs[p].nul;
    }

    /** dup2(fd, k), k being the number of the call. */
    method Dup2(p: Pid)
      requires Valid() && At(sys, p, Redirecting) && sys.procs[p].dups < 3
      modifies this
      ensures Extends(old(trace), old(start))
      ensures p in sys.procs
      ensures var P := old(sys.procs[p]); sys.procs[p] == P.(fds := DupFds(P), dups := P.dups + 1)
    {
      Others(p);
      hide Apply;
      DupEffect(sys, p);
      Call(Dup(p));
    }

    /** if(fd > 2) close(fd) */
    method CloseDevNull(p: Pid)
      requires Valid() && At(sys, p, Redirecting) && sys.procs[p].dups == 3
      modifies this
      ensures Extends(old(trace), old(start))
      ensures p in sys.procs
      ensures var P := old(sys.procs[p]);
              sys.procs[p] == P.(pc := Serving, fds := if P.nul > 2 then P.fds - {P.nul} else P.fds)
    {
      Others(p);
      hide Apply, Inv, Exec;
      NullClosed(start, trace, sys, p);
      Call(EndRedirect(p));
    }

    /** fork as the child sees it: a new process with the same descriptors, or None when fork
        fails. The parent is from then on one of the others; all it can do is exit. */
    method ForkAway(p: Pid) returns (child: Option<Pid>)
      requires Valid() && At(sys, p, Launched) && !sys.procs[p].cfg.noFork
      modifies this
      ensures Extends(old(trace), old(start))
      ensures child == None ==> p in sys.procs && sys.procs[p] == old(sys.procs[p])
      ensures child == None ==> Happened(trace, |old(trace)|, Refused(p, ForkCall))
      ensures child.Some? ==> Happened(trace, |old(trace)|, Fork(p, child.value))
      ensures child.Some? ==> child.value != p && child.value in sys.procs
      ensures child.Some? ==>
        sys.procs[child.value] == old(sys.procs[p]).(pc := Detached, boot := old(sys.procs[p]).fds)
    {
      Others(p);
      var pid: Pid := *;
      hide Apply;
      if pid in sys.procs {
        RefusedEffect(sys, p, ForkCall);
        Call(Refused(p, ForkCall));
        assert trace[|trace| - 1] == Refused(p, ForkCall);
        return None;
      }
      ForkEffect(sys, p, pid);
      Call(Fork(p, pid));
      assert trace[|trace| - 1] == Fork(p, pid);
      child := Some(pid);
    }

    /** unlink of the PID-file name; the exit handler ignores whether it works. */
    method Unlink(p: Pid)
      requires Valid() && At(sys, p, Unlinking)
      modifies this
      ensures Extends(old(trace), old(start))
      ensures p in sys.procs && sys.procs[p] == old(sys.procs[p]).(pc := Unlinked)
      ensures Happened(trace, |old(trace)|, Event.Unlink(p)) || Happened(trace, |old(trace)|, UnlinkError(p))
    {
      var fails: bool := *;
      Advancing(p, if fails then UnlinkError(p) else Event.Unlink(p));
      assert Happened(trace, |old(trace)|, trace[|trace| - 1]);
    }

    /** _exit, exit or a signal that kills: the process is gone, and with it every lock it had. */
    method Exit(p: Pid)
      requires Valid() && p in sys.procs
      modifies this
      ensures Extends(old(trace), old(start))
      ensures p !in sys.procs && forall i | i in sys.locks :: sys.locks[i] != p
    {
      Others(p);
      hide Apply;
      ExitEffect(sys, p);
      Call(Event.Exit(p));
    }
  }

  /** A lockf that did not get the lock met another process that has it. */
  lemma LockedOut(start: Sys, run: seq<Event>, s: Sys, p: Pid)
    requires Exec(start, run) == Some(s) && p in s.procs && LockedByOther(s, p, s.procs[p].ino)
    ensures LosesTo(start, run + [Event.Lock(p)], |run|, p, s.locks[s.procs[p].ino])
  {
    hide Exec;
    var all := run + [Event.Lock(p)];
    assert all[..|run|] == run && all[|run|] == Event.Lock(p);
  }

  lemma NullClosed(start: Sys, trace: seq<Event>, s: Sys, p: Pid)
    requires Initial(start) && Exec(start, trace) == Some(s) && At(s, p, Redirecting)
    ensures var P := s.procs[p];
            Apply(s, EndRedirect(p)) ==
            Put(s, p, P.(pc := Serving, fds := if P.nul > 2 then P.fds - {P.nul} else P.fds))
  {
    hide Apply, Inv, Exec;
    InvRun(start, trace);
    AtBoot(s, p);
    EndRedirectEffect(s, p);
  }

  lemma PidTextNotEmpty(p: Pid)
    ensures PidText(p) != []
  {
    PidTextFits(p);
  }

  /** One more descriptor, the lowest free one, on the PID file. */
  ghost predicate HasOpened(P: Proc, Q: Proc, pc: Pc) {
    && Q == P.(pc := pc, fd := Q.fd, ino := Q.ino, fds := P.fds[Q.fd := Regular(Q.ino)])
    && Q.fd == LowestFree(P.fds)
  }

  /** create_pid_file has failed: no descriptor is left behind. */
  ghost predicate HasFailed(P: Proc, Q: Proc) {
    && (Q.pc.Detached? || Q.pc.Failed?)
    && Q.fds == P.fds && Q.boot == P.boot && Q.exec == P.exec && Q.cfg == P.cfg
  }

  lemma NothingOpened(P: Proc)
    requires P.pc.Detached?
    ensures HasFailed(P, P)
  {
  }

  /** The same descriptors at execution and at entry of daemonize2. */
  ghost predicate SameStart(P: Proc, Q: Proc) {
    Q.exec == P.exec && Q.boot == P.boot && Q.made == P.made
  }

  /** The descriptors that decide about the lock, as a caller of daemonize2 can see them. */
  ghost predicate StdSafeAtEntry(cfg: Config, fds: FdTable, i: Ino) {
    cfg.noCloseStdio || forall j | 0 <= j < 3 :: j in fds && fds[j] != Regular(i)
  }

  /** The service socket took the lowest number free behind the PID file, and is still there exactly
      when redirection is off or the number is above 2. */
  ghost predicate ServiceWhere(P: Proc) {
    && P.srv !in EntryFds(P) && (forall e | 0 <= e < P.srv :: e in EntryFds(P))
    && (P.cfg.pidFile.Some? ==> LowestInBoot(P))
    && P.srv in P.fds && (P.fds[P.srv] == Service <==> P.cfg.noCloseStdio || P.srv > 2)
  }

  /** daemon_info, and the functions that work on it for the process that runs them. */
  class DaemonInfo {
    var daemonized: bool
    var noChdir: bool
    var noFork: bool
    var noCloseStdio: bool
    var pidFile: Option<Path>
    var logFile: Option<Path>

    /** The defaults are macros of the build. */
    constructor (noChdir: bool, noFork: bool, noCloseStdio: bool, pidFile: Option<Path>, logFile: Option<Path>)
      ensures !daemonized && this.noChdir == noChdir && this.noFork == noFork && this.noCloseStdio == noCloseStdio
      ensures this.pidFile == pidFile && this.logFile == logFile
    {
      daemonized := false;
      this.noChdir, this.noFork, this.noCloseStdio := noChdir, noFork, noCloseStdio;
      this.pidFile, this.logFile := pidFile, logFile;
    }

    function Cfg(): Config
      reads this
    {
      Config(pidFile, noFork, noCloseStdio)
    }

    /** Does the process exit? */
    method ExitIfNotDaemonized() returns (exits: bool)
      ensures exits <==> !daemonized
    {
      exits := !daemonized;
    }

    /** The lock of the PID file is won and its file written (a descriptor is returned), or the
        process is left without a lock (-1). */
    static method CreatePidFile(k: Kernel, self: Pid, pidFileName: Option<Path>) returns (fd: int)
      requires k.Valid() && At(k.sys, self, Detached) && k.sys.procs[self].cfg.pidFile == pidFileName
      modifies k
      ensures k.Extends(old(k.trace), old(k.start))
      ensures self in k.sys.procs
      ensures fd == -1 || fd >= 0
      ensures pidFileName == None ==> fd == -1
      ensures fd >= 0 ==> Holds(k.sys, self)
      ensures fd >= 0 ==> fd == k.sys.procs[self].fd && HasOpened(old(k.sys.procs[self]), k.sys.procs[self], Created)
      ensures fd == -1 ==> forall i | i in k.sys.locks :: k.sys.locks[i] != self
      ensures fd == -1 ==> HasFailed(old(k.sys.procs[self]), k.sys.procs[self])
      ensures fd == -1 && pidFileName.Some? ==> CreateCallFailed(k.start, k.trace, |old(k.trace)|, self)
    {
      hide Exec, Apply, Enabled, Inv, PidText, Kernel.Valid, Holds, LowestFree, CreateCallFailed, Happened, HasFailed;
      if pidFileName == None {
        NothingOpened(k.sys.procs[self]);
        OwnsNoLock(k, self);
        return -1;
      }
      ghost var P := k.sys.procs[self];
      BootIsFds(k, self);

      fd := k.Open(self);
      if fd == -1 {
        NothingOpened(P);
        CreateCauses(k.start, k.trace, |old(k.trace)|, self);
        OwnsNoLock(k, self);
        return -1;
      }

      ghost var from := |k.trace|;
      var r := k.Lockf(self);
      if r == -1 {
        CloseUnlocked(k, self, from, P);
        return -1;
      }

      from := |k.trace|;
      r := k.Ftruncate(self);
      if r != 0 {
        CreateCauses(k.start, k.trace, from, self);
        CloseUnlocked(k, self, from, P);
        return -1;
      }

      from := |k.trace|;
      r := k.Write(self);
      if r != |PidText(self)| {
        CreateCauses(k.start, k.trace, from, self);
        CloseUnlocked(k, self, from, P);
        return -1;
      }
      HoldsWhenCreated(k, self);
    }

    /** close(fd) after an error of the calls from a place on. */
    static method CloseUnlocked(k: Kernel, self: Pid, ghost from: nat, ghost P: Proc)
      requires k.Valid() && At(k.sys, self, Closing) && HasOpened(P, k.sys.procs[self], Closing)
      requires CreateCallFailed(k.start, k.trace, from, self)
      modifies k
      ensures k.Extends(old(k.trace), old(k.start))
      ensures self in k.sys.procs
      ensures HasFailed(P, k.sys.procs[self])
      ensures forall i | i in k.sys.locks :: k.sys.locks[i] != self
      ensures forall b: nat | b <= from :: CreateCallFailed(k.start, k.trace, b, self)
    {
      hide Exec, Apply, Inv, CreateCallFailed, LowestFree;
      k.Close(self);
      assert k.sys.procs[self].fds == P.fds;
      OwnsNoLock(k, self);
      forall b: nat | b <= from ensures CreateCallFailed(k.start, k.trace, b, self) {
        Later(k.start, old(k.trace), from, k.trace, b);
      }
    }

    static lemma OwnsNoLock(k: Kernel, self: Pid)
      requires k.Valid() && (At(k.sys, self, Detached) || At(k.sys, self, Failed))
      ensures forall i | i in k.sys.locks :: k.sys.locks[i] != self
    {
      hide Inv, Exec, Apply;
      InvRun(k.start, k.trace);
      OwnsNothing(k.sys, self);
    }

    static lemma BootIsFds(k: Kernel, self: Pid)
      requires k.Valid() && At(k.sys, self, Detached)
      ensures k.sys.procs[self].boot == k.sys.procs[self].fds
    {
      InvRun(k.start, k.trace);
      assert ProcOk(k.sys, self);
    }

    /** Descriptors 0 to 2 go to /dev/null (0), or nothing has changed (-1). */
    static method RedirectStdioToDevnull(k: Kernel, self: Pid) returns (r: int)
      requires k.Valid() && At(k.sys, self, Ready) && !k.sys.procs[self].cfg.noCloseStdio
      modifies k
      ensures k.Extends(old(k.trace), old(k.start))
      ensures self in k.sys.procs && (r == 0 || r == -1)
      ensures r == -1 ==> k.sys.procs[self] == old(k.sys.procs[self])
      ensures r == -1 ==> Happened(k.trace, |old(k.trace)|, Refused(self, NullCall))
      ensures r == 0 ==> At(k.sys, self, Serving)
      ensures r == 0 ==> forall j | 0 <= j < 3 :: j in k.sys.procs[self].fds && k.sys.procs[self].fds[j] == Null
      ensures r == 0 ==> forall j | j >= 3 ::
        (j in k.sys.procs[self].fds <==> j in old(k.sys.procs[self].fds))
        && (j in k.sys.procs[self].fds ==> k.sys.procs[self].fds[j] == old(k.sys.procs[self].fds)[j])
      ensures SameHistory(old(k.sys.procs[self]), k.sys.procs[self])
    {
      hide Exec, Apply, Enabled, Inv;
      NoDupsYet(k, self);
      var fd := k.OpenDevNull(self);
      if fd == -1 { return -1; }
      k.Dup2(self);
      k.Dup2(self);
      k.Dup2(self);
      k.CloseDevNull(self);
      r := 0;
    }

    static lemma NoDupsYet(k: Kernel, self: Pid)
      requires k.Valid() && At(k.sys, self, Ready)
      ensures k.sys.procs[self].dups == 0
    {
      InvRun(k.start, k.trace);
      assert ProcOk(k.sys, self);
    }

    static lemma HoldsWhenCreated(k: Kernel, self: Pid)
      requires k.Valid() && At(k.sys, self, Created) && k.sys.procs[self].cfg.pidFile.Some?
      ensures Holds(k.sys, self)
    {
      InvRun(k.start, k.trace);
      assert ProcOk(k.sys, self);
    }

    /** init of src/onvif_srvd.cpp as optional_init: install the signal handlers, check the
        service context, bind the service socket. False: one of the last two exits. */
    static method Init(k: Kernel, self: Pid, contextOk: bool) returns (ok: bool)
      requires k.Valid() && At(k.sys, self, Created) && (contextOk ==> k.sys.procs[self].made > 0)
      modifies k
      ensures k.Extends(old(k.trace), old(k.start))
      ensures self in k.sys.procs
      ensures SameHistory(old(k.sys.procs[self]), k.sys.procs[self])
      ensures ok ==> contextOk && k.sys.procs[self].pc.Ready?
      ensures !ok && contextOk ==> Happened(k.trace, |old(k.trace)|, Refused(self, BindCall))
    {
      hide Exec, Apply, Enabled, Inv, Happened;
      k.Pass(self, InstallSignals(self));
      if !contextOk { return false; }
      ghost var early := k.trace;
      ok := k.Bind(self);
      Later(k.start, k.trace, |early|, k.trace, |old(k.trace)|);
    }

    /** do_fork, umask, setsid and chdir: the process that continues, or None after an exit. */
    static method Detach(k: Kernel, entering: Pid, noChdir: bool) returns (self: Option<Pid>)
      requires k.Valid() && At(k.sys, entering, Launched)
      modifies k
      ensures k.Extends(old(k.trace), old(k.start))
      ensures self.Some? ==> self.value in k.sys.procs
      ensures self.Some? ==> k.sys.procs[self.value] == old(k.sys.procs[entering]).(pc := Detached)
      ensures self.Some? && old(k.sys.procs[entering].cfg.noFork) ==> self.value == entering
      ensures var from, cfg := |old(k.trace)|, old(k.sys.procs[entering].cfg);
              if self.Some? then GoesOn(k.trace, from, entering, self.value, cfg.noFork)
              else StartFailed(k.start, k.trace, from, entering, cfg, noChdir)
    {
      hide Exec, Apply, Enabled, Inv, Kernel.Valid, Happened, CreateCallFailed, CallFailed;
      SameAtLaunch(k, entering);
      ghost var from, cfg := |k.trace|, k.sys.procs[entering].cfg;
      if !k.sys.procs[entering].cfg.noFork {
        self := k.ForkAway(entering);
        if self == None {
          ghost var early := k.trace;
          k.Exit(entering);
          Later(k.start, early, from, k.trace, from);
          return None;
        }
      } else {
        k.Pass(entering, SkipFork(entering));
        self := Some(entering);
      }

      ghost var forked := k.trace;
      var child := self.value;
      var ends := LeaveSession(k, child, noChdir);
      Later(k.start, forked, from, k.trace, from);
      if ends {
        Reason(k.start, k.trace, |forked|, k.trace, from, entering, child, cfg, noChdir);
        return None;
      }
    }

    /** umask, setsid behind a fork, and chdir; true after an exit. */
    static method LeaveSession(k: Kernel, self: Pid, noChdir: bool) returns (ends: bool)
      requires k.Valid() && At(k.sys, self, Detached)
      modifies k
      ensures k.Extends(old(k.trace), old(k.start))
      ensures !ends ==> self in k.sys.procs && k.sys.procs[self] == old(k.sys.procs[self])
      ensures ends ==> CallFailed(k.start, k.trace, |old(k.trace)|, self, old(k.sys.procs[self].cfg), noChdir)
    {
      hide Exec, Apply, Enabled, Inv, Kernel.Valid, Happened, CreateCallFailed;
      if !k.sys.procs[self].cfg.noFork {
        ends := k.Refuses(self, SetsidCall);
        if ends {
          ghost var early := k.trace;
          k.Exit(self);
          Later(k.start, early, |old(k.trace)|, k.trace, |old(k.trace)|);
          return;
        }
      }
      ends := false;
      if !noChdir {
        ghost var from := |k.trace|;
        ends := k.Refuses(self, ChdirCall);
        if ends {
          ghost var early := k.trace;
          k.Exit(self);
          Later(k.start, early, from, k.trace, |old(k.trace)|);
        }
      }
    }

    /** create_pid_file, when there is a name for it; false after an exit. */
    static method ClaimPidFile(k: Kernel, self: Pid) returns (ok: bool)
      requires k.Valid() && At(k.sys, self, Detached)
      modifies k
      ensures k.Extends(old(k.trace), old(k.start))
      ensures ok ==> At(k.sys, self, Created)
      ensures ok ==> k.sys.procs[self].cfg == old(k.sys.procs[self].cfg)
      ensures ok ==> SameStart(old(k.sys.procs[self]), k.sys.procs[self])
      ensures !ok ==> old(k.sys.procs[self].cfg.pidFile.Some?)
      ensures !ok ==> CreateCallFailed(k.start, k.trace, |old(k.trace)|, self)
    {
      hide Exec, Apply, Enabled, Inv, LowestFree, CreateCallFailed, Happened;
      ok := true;
      if k.sys.procs[self].cfg.pidFile.Some? {
        var fd := CreatePidFile(k, self, k.sys.procs[self].cfg.pidFile);
        if fd == -1 {
          ghost var early := k.trace;
          k.Exit(self);
          Later(k.start, early, |old(k.trace)|, k.trace, |old(k.trace)|);
          ok := false;
        }
      } else {
        k.Pass(self, SkipPidFile(self));
      }
    }

    /** What comes behind create_pid_file: init, then the redirection unless it is off; false after an
        exit. */
    static method Settle(k: Kernel, self: Pid, contextOk: bool) returns (ok: bool)
      requires k.Valid() && At(k.sys, self, Created) && (contextOk ==> k.sys.procs[self].made > 0)
      modifies k
      ensures k.Extends(old(k.trace), old(k.start))
      ensures ok ==> contextOk && At(k.sys, self, Serving)
      ensures ok ==> SameHistory(old(k.sys.procs[self]), k.sys.procs[self])
      ensures !ok && contextOk ==>
        || Happened(k.trace, |old(k.trace)|, Refused(self, BindCall))
        || (!old(k.sys.procs[self].cfg.noCloseStdio) && Happened(k.trace, |old(k.trace)|, Refused(self, NullCall)))
    {
      hide Exec, Apply, Enabled, Inv, Kernel.Valid, Happened;
      ok := Init(k, self, contextOk);
      if ok {
        if k.sys.procs[self].cfg.noCloseStdio {
          k.Pass(self, SkipRedirect(self));
          return;
        }
        ghost var ready := |k.trace|;
        var r := RedirectStdioToDevnull(k, self);
        Later(k.start, k.trace, ready, k.trace, |old(k.trace)|);
        ok := r == 0;
      }
      if !ok {
        ghost var early := k.trace;
        k.Exit(self);
        Later(k.start, early, |old(k.trace)|, k.trace, |old(k.trace)|);
      }
    }

    /** Returns the process that goes on serving, or None when the process has exited: because the service
        context is not complete, or because one of the calls made for it has failed. A process
        that goes on holds its PID file exactly when redirection is off or descriptors 0 to 2 were
        open, on something else, when daemonize2 was entered; and it still has the control socket on
        a descriptor, and the service socket, exactly when redirection is off or the descriptor is
        above 2. */
    method Daemonize2(k: Kernel, entering: Pid, contextOk: bool) returns (served: Option<Pid>)
      requires k.Valid() && At(k.sys, entering, Launched)
      requires contextOk ==> k.sys.procs[entering].made > 0
      modifies k, this`daemonized
      ensures k.Extends(old(k.trace), old(k.start))
      ensures served.Some? ==> daemonized && contextOk && At(k.sys, served.value, Serving)
      ensures served.Some? && noFork ==> served.value == entering
      ensures served.Some? && pidFile.Some? ==>
        (Holds(k.sys, served.value) <==>
         StdSafeAtEntry(Cfg(), old(k.sys.procs[entering].fds), k.sys.procs[served.value].ino))
      ensures served.Some? ==> k.sys.procs[served.value].cfg == Cfg()
      ensures served.Some? ==> SameStart(old(k.sys.procs[entering]), k.sys.procs[served.value])
      ensures served.Some? ==>
        forall d | d in old(k.sys.procs[entering].fds) && old(k.sys.procs[entering].fds)[d].Control? ::
          d in k.sys.procs[served.value].fds
          && (k.sys.procs[served.value].fds[d] == old(k.sys.procs[entering].fds)[d] <==> noCloseStdio || d > 2)
      ensures served.Some? ==> ServiceWhere(k.sys.procs[served.value])
      ensures served == None ==> daemonized == old(daemonized)
      ensures served == None && contextOk ==>
        StartFailed(k.start, k.trace, |old(k.trace)|, entering, Cfg(), noChdir)
    {
      hide Exec, Apply, Enabled, Inv, ServiceWhere, StdSafeAtEntry, Holds, Kernel.Valid;
      hide CallFailed, CreateCallFailed, Happened, StartFailed, GoesOn;
      ghost var from, cfg := |k.trace|, Cfg();
      k.Configure(entering, Cfg());
      SameAtLaunch(k, entering);
      ghost var early := k.trace;
      served := Detach(k, entering, noChdir);
      if served == None {
        SameReason(k.start, k.trace, |early|, from, entering, cfg, noChdir);
        return;
      }
      var self := served.value;
      ghost var detached := k.trace;

      var claimed := ClaimPidFile(k, self);
      if !claimed {
        EndsFor(k.start, detached, |early|, k.trace, |detached|, k.trace, from, entering, self, cfg, noChdir);
        return None;
      }

      ghost var created := k.trace;
      var settled := Settle(k, self, contextOk);
      if !settled {
        if contextOk {
          EndsFor(k.start, detached, |early|, k.trace, |created|, k.trace, from, entering, self, cfg, noChdir);
        }
        return None;
      }
      daemonized := true;
      ServingHolds(k, self);
      ServingControls(k, self);
      ServingService(k, self);
    }

    /** daemon_exit_handler, run by the signal: the name goes (if unlink works), then the process
        and its locks. */
    static method DaemonExitHandler(k: Kernel, self: Pid)
      requires k.Valid() && self in k.sys.procs && Interruptible(k.sys.procs[self].pc)
      modifies k
      ensures k.Extends(old(k.trace), old(k.start))
      ensures self !in k.sys.procs && forall i | i in k.sys.locks :: k.sys.locks[i] != self
      ensures Happened(k.trace, |old(k.trace)|, Unlink(self)) || Happened(k.trace, |old(k.trace)|, UnlinkError(self))
    {
      hide Exec, Apply, Inv, Happened;
      k.Advancing(self, Signal(self));
      ghost var from := |k.trace|;
      k.Unlink(self);
      ghost var early := k.trace;
      k.Exit(self);
      Later(k.start, early, from, k.trace, |old(k.trace)|);
    }

    static lemma SameAtLaunch(k: Kernel, self: Pid)
      requires k.Valid() && At(k.sys, self, Launched)
      ensures k.sys.procs[self].boot == k.sys.procs[self].fds
    {
      InvRun(k.start, k.trace);
      assert ProcOk(k.sys, self);
    }

    static lemma ServingControls(k: Kernel, self: Pid)
      requires k.Valid() && At(k.sys, self, Serving)
      ensures var P := k.sys.procs[self];
              forall d | d in P.boot && P.boot[d].Control? ::
                d in P.fds && (P.fds[d] == P.boot[d] <==> P.cfg.noCloseStdio || d > 2)
    {
      var P := k.sys.procs[self];
      forall d | d in P.boot && P.boot[d].Control?
        ensures d in P.fds && (P.fds[d] == P.boot[d] <==> P.cfg.noCloseStdio || d > 2)
      {
        ServingControlsIff(k.start, k.trace, k.sys, self, d);
      }
    }

    static lemma ServingService(k: Kernel, self: Pid)
      requires k.Valid() && At(k.sys, self, Serving)
      ensures ServiceWhere(k.sys.procs[self])
    {
      hide Exec, EntryFds;
      ServingServiceIff(k.start, k.trace, k.sys, self);
    }

    static lemma ServingHolds(k: Kernel, self: Pid)
      requires k.Valid() && At(k.sys, self, Serving)
      ensures k.sys.procs[self].cfg.pidFile.Some? ==>
        (Holds(k.sys, self) <==>
         StdSafeAtEntry(k.sys.procs[self].cfg, k.sys.procs[self].boot, k.sys.procs[self].ino))
    {
      hide Exec, Holds;
      if k.sys.procs[self].cfg.pidFile.Some? { ServingHoldsIff(k.start, k.trace, k.sys, self); }
    }
  }

  /** Whether a process can make a call depends on its own record only (open, fork and launch aside). */
  lemma EnabledAfterOthers(s: Sys, t: Sys, e: Event)
    requires Enabled(s, e) && !e.Launch? && !e.Fork? && !e.Open?
    requires e.p in s.procs && e.p in t.procs && t.procs[e.p] == s.procs[e.p]
    ensures Enabled(t, e)
  {
  }
}
