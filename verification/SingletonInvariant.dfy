/** The inductive invariant of the PID-file protocol, kept by every event of every process. */
module SingletonInvariant {
  import opened Posix
  import opened Singleton
  import opened SingletonEffects

  /** No dup2 call so far has closed a descriptor of the PID file: each replaced slot was
      already open, on something else, when daemonize2 was entered. */
  ghost predicate Keeps(P: Proc) {
    forall j | 0 <= j < P.dups :: j in P.boot && P.boot[j] != Regular(P.ino)
  }

  /** The caller-side condition: redirection is off, or descriptors 0 to 2 are all open at entry
      and none of them is the PID file. */
  ghost predicate SafeStd(P: Proc) {
    P.cfg.noCloseStdio || forall j | 0 <= j < 3 :: j in P.boot && P.boot[j] != Regular(P.ino)
  }

  ghost predicate InCreate(pc: Pc) { pc.Opened? || pc.Locked? || pc.Truncated? || pc.Closing? }

  /** `fd` and `ino` are meaningful. */
  ghost predicate HasFile(P: Proc) {
    P.cfg.pidFile.Some? && (InCreate(P.pc) || Past(P.pc))
  }

  ghost predicate MayOwn(P: Proc) {
    HasFile(P) && P.pc != Opened
  }

  ghost predicate Holds(s: Sys, p: Pid)
    requires p in s.procs
  {
    s.procs[p].ino in s.locks && s.locks[s.procs[p].ino] == p
  }

  // ------------------------------------------------- what is known of one process

  ghost predicate TargetsExist(t: FdTable, files: set<Ino>) {
    forall d | d in t :: t[d].Regular? ==> t[d].ino in files
  }

  ghost predicate DupsOk(P: Proc) {
    && P.dups <= 3
    && (P.cfg.noCloseStdio ==> P.dups == 0 && !P.pc.Redirecting?)
    && ((!P.pc.Redirecting? && !P.pc.Serving? && !P.pc.Unlinking? && !P.pc.Unlinked?) ==> P.dups == 0)
    && (P.pc == Serving && !P.cfg.noCloseStdio ==> P.dups == 3)
  }

  ghost predicate LowestInBoot(P: Proc) {
    P.fd !in P.boot && forall e | 0 <= e < P.fd :: e in P.boot
  }

  ghost predicate FdsOk(P: Proc) {
    && ((P.pc.Launched? || P.pc.Detached?) ==> P.fds == P.boot)
    && (InCreate(P.pc) ==> P.cfg.pidFile.Some? && P.fds == P.boot[P.fd := Regular(P.ino)])
    && ((P.pc.Created? || P.pc.Armed? || P.pc.Ready? || P.pc.Redirecting?) ==>
          forall j | j in P.boot && P.dups <= j :: j in P.fds && P.fds[j] == P.boot[j])
    && (HasFile(P) && P.dups <= P.fd ==> P.fd in P.fds && P.fds[P.fd] == Regular(P.ino))
    && (P.pc == Redirecting ==> P.nul in P.fds && P.fds[P.nul] == Null && P.nul !in P.boot)
    && (P.pc == Redirecting && HasFile(P) ==> P.nul != P.fd)
  }

  /** What dup2 has replaced is /dev/null, and a control socket it has not replaced is where it was
      when daemonize2 was entered. */
  ghost predicate ControlsOk(P: Proc) {
    && (forall d | d in P.exec :: !P.exec[d].Control?)
    && (forall j | 0 <= j < P.dups :: j in P.fds && P.fds[j] == Null)
    && (Past(P.pc) ==>
          forall j | j in P.boot && P.dups <= j && P.boot[j].Control? :: j in P.fds && P.fds[j] == P.boot[j])
  }

  /** The descriptors that create_pid_file leaves behind. */
  function EntryFds(P: Proc): FdTable {
    if P.cfg.pidFile.Some? then P.boot[P.fd := Regular(P.ino)] else P.boot
  }

  /** The service socket took the lowest free number, and stays there until dup2 replaces it. */
  ghost predicate ServiceOk(P: Proc) {
    && (P.pc.Created? || P.pc.Armed? ==> P.fds == EntryFds(P))
    && (P.pc.Ready? || P.pc.Redirecting? || P.pc.Serving? ==>
          P.srv !in EntryFds(P) && forall e | 0 <= e < P.srv :: e in EntryFds(P))
    && ((P.pc.Ready? || P.pc.Redirecting? || P.pc.Serving?) && P.dups <= P.srv ==>
          P.srv in P.fds && P.fds[P.srv] == Service)
    && (P.pc.Redirecting? ==> P.nul != P.srv)
  }

  ghost predicate LockOk(P: Proc, holds: bool) {
    && ((P.pc.Locked? || P.pc.Truncated?) ==> holds)
    && (Past(P.pc) && P.cfg.pidFile.Some? ==> (holds <==> Keeps(P)))
  }

  ghost predicate Local(P: Proc, files: set<Ino>, holds: bool) {
    && TargetsExist(P.fds, files) && TargetsExist(P.boot, files)
    && DupsOk(P)
    && (HasFile(P) ==> P.ino in files && LowestInBoot(P))
    && FdsOk(P)
    && ControlsOk(P)
    && ServiceOk(P)
    && LockOk(P, holds)
  }

  ghost predicate ProcOk(s: Sys, p: Pid)
    requires p in s.procs
  {
    Local(s.procs[p], s.files.Keys, Holds(s, p))
  }

  ghost predicate NamesOk(s: Sys) {
    forall n | n in s.names :: s.names[n] in s.files
  }

  /** Every lock belongs to a live process, on the file that process opened as PID file. */
  ghost predicate OwnerOk(s: Sys, i: Ino)
    requires i in s.locks
  {
    s.locks[i] in s.procs && s.procs[s.locks[i]].ino == i && MayOwn(s.procs[s.locks[i]])
  }

  ghost predicate Inv(s: Sys) {
    && NamesOk(s)
    && (forall i | i in s.locks :: OwnerOk(s, i))
    && (forall p | p in s.procs :: ProcOk(s, p))
  }

  // ------------------------------------------------- framing

  /** t differs from s only in process p, in files that appear or change content, and in locks of p. */
  ghost predicate OnlyTouches(s: Sys, t: Sys, p: Pid) {
    && (forall q | q != p :: q in s.procs <==> q in t.procs)
    && (forall q | q != p && q in s.procs :: t.procs[q] == s.procs[q])
    && s.files.Keys <= t.files.Keys
    && (forall i | i in s.locks && s.locks[i] != p :: i in t.locks && t.locks[i] == s.locks[i])
    && (forall i | i in t.locks && t.locks[i] != p :: i in s.locks && t.locks[i] == s.locks[i])
  }

  ghost predicate OwnLocksOk(t: Sys, p: Pid) {
    forall i | i in t.locks && t.locks[i] == p :: OwnerOk(t, i)
  }

  lemma Frame(s: Sys, t: Sys, p: Pid)
    requires Inv(s) && OnlyTouches(s, t, p)
    requires NamesOk(t)
    requires p in t.procs ==> ProcOk(t, p)
    requires OwnLocksOk(t, p)
    ensures Inv(t)
  {
    forall q | q in t.procs
      ensures ProcOk(t, q)
    {
      if q != p {
        assert ProcOk(s, q);
        assert Holds(t, q) <==> Holds(s, q);
      }
    }
    forall i | i in t.locks
      ensures OwnerOk(t, i)
    {
      if t.locks[i] != p {
        assert OwnerOk(s, i);
      }
    }
  }

  // ------------------------------------------------- one lemma per kind of event

  /** A process that cannot own a lock owns none. */
  lemma OwnsNothing(s: Sys, p: Pid)
    requires Inv(s)
    requires p in s.procs ==> !MayOwn(s.procs[p])
    ensures forall i | i in s.locks :: s.locks[i] != p
  {
    forall i | i in s.locks ensures s.locks[i] != p { assert OwnerOk(s, i); }
  }

  lemma Known(s: Sys, p: Pid)
    requires Inv(s) && p in s.procs
    ensures Local(s.procs[p], s.files.Keys, Holds(s, p))
    ensures OwnLocksOk(s, p)
  {
    assert ProcOk(s, p);
  }

  /** p gets a new record and keeps the same locks; nothing else changes. */
  lemma KeptByPut(s: Sys, p: Pid, P: Proc)
    requires Inv(s) && p in s.procs
    requires MayOwn(s.procs[p]) ==> MayOwn(P) && P.ino == s.procs[p].ino
    requires Local(P, s.files.Keys, P.ino in s.locks && s.locks[P.ino] == p)
    ensures Inv(Put(s, p, P))
  {
    var t := Put(s, p, P);
    forall i | i in t.locks && t.locks[i] == p ensures OwnerOk(t, i) { assert OwnerOk(s, i); }
    Frame(s, t, p);
  }

  lemma KeptByLaunch(s: Sys, p: Pid, cfg: Config, exec: FdTable)
    requires Inv(s) && p !in s.procs && Executable(exec, s.files.Keys)
    ensures Inv(Apply(s, Launch(p, cfg, exec)))
  {
    hide Apply;
    LaunchEffect(s, p, cfg, exec);
    OwnsNothing(s, p);
    Frame(s, Apply(s, Launch(p, cfg, exec)), p);
  }

  lemma LocalAfterControl(P: Proc, Q: Proc, files: set<Ino>, holds: bool)
    requires Local(P, files, holds) && P.pc.Launched?
    requires Q == P.(cfg := Q.cfg, boot := Q.fds, fds := Q.fds, made := Q.made)
    requires Q.fds == OpenControlFds(P.fds, P.made) || Q.fds.Items <= P.fds.Items
    ensures Local(Q, files, holds)
  {
    forall d | d in Q.fds && Q.fds[d].Regular? ensures Q.fds[d].ino in files {
      if Q.fds.Items <= P.fds.Items {
        assert (d, Q.fds[d]) in Q.fds.Items;
      }
    }
  }

  /** What processing_cmd does: it sets daemon_info, and opens the control sockets, which it closes
      when an interface cannot be used. */
  lemma KeptByControl(s: Sys, e: Event)
    requires Inv(s) && Enabled(s, e) && (e.Configure? || e.OpenControl? || e.CloseControl?)
    ensures Inv(Apply(s, e))
  {
    hide Inv, Apply, NextProc, Local, Enabled;
    LaunchedCall(s, e);
    var p := e.p;
    var P, Q := s.procs[p], NextProc(s, s.procs[p], e);
    Known(s, p);
    AtEntry(P, s.files.Keys, Holds(s, p));
    ControlProcs(s, P, e);
    SocketEffect(s, e);
    LocalAfterControl(P, Q, s.files.Keys, Holds(s, p));
    KeptByPut(s, p, Q);
  }

  lemma AtEntry(P: Proc, files: set<Ino>, holds: bool)
    requires Local(P, files, holds)
    ensures P.pc.Launched? || P.pc.Detached? ==> P.fds == P.boot
    ensures P.pc.Launched? ==> !MayOwn(P)
  {
  }

  lemma LaunchedCall(s: Sys, e: Event)
    requires Enabled(s, e) && (e.Configure? || e.OpenControl? || e.CloseControl?)
    ensures At(s, e.p, Launched)
  {
  }

  lemma ControlProcs(s: Sys, P: Proc, e: Event)
    requires (e.Configure? || e.OpenControl? || e.CloseControl?) && P.fds == P.boot
    ensures var Q := NextProc(s, P, e);
            && Q == P.(cfg := Q.cfg, boot := Q.fds, fds := Q.fds, made := Q.made)
            && (Q.fds == OpenControlFds(P.fds, P.made) || Q.fds.Items <= P.fds.Items)
  {
    hide OpenControlFds;
  }

  lemma LocalAfterFork(P: Proc, files: set<Ino>, holds: bool)
    requires Local(P, files, holds) && P.pc.Launched?
    ensures Local(P.(pc := Parent), files, holds)
    ensures Local(P.(pc := Detached, boot := P.fds), files, false)
  {
  }

  lemma NamesKnown(s: Sys)
    requires Inv(s)
    ensures NamesOk(s)
  {
  }

  lemma KeptByFork(s: Sys, p: Pid, child: Pid)
    requires Inv(s) && At(s, p, Launched) && child !in s.procs
    ensures Inv(Apply(s, Fork(p, child)))
  {
    hide Apply, Inv, Local;
    ForkEffect(s, p, child);
    Known(s, p);
    var m := Move(s, p, Parent);
    LocalAfterFork(s.procs[p], s.files.Keys, Holds(s, p));
    KeptByPut(s, p, s.procs[p].(pc := Parent));
    OwnsNothing(m, child);
    NamesKnown(m);
    Frame(m, Apply(s, Fork(p, child)), child);
  }

  lemma LocalAfterOpen(P: Proc, files: set<Ino>, ino: Ino, fd: Fd)
    requires Local(P, files, false) && P.pc.Detached? && P.cfg.pidFile.Some? && ino in files
    requires fd == LowestFree(P.fds)
    ensures Local(P.(pc := Opened, fd := fd, ino := ino, fds := P.fds[fd := Regular(ino)]), files, false)
  {
  }

  lemma KeptByOpen(s: Sys, p: Pid, newIno: Ino)
    requires Inv(s) && At(s, p, Detached) && s.procs[p].cfg.pidFile.Some? && newIno !in s.files
    ensures Inv(Apply(s, Open(p, newIno)))
  {
    hide Apply;
    OpenEffect(s, p, newIno);
    var t := Apply(s, Open(p, newIno));
    assert ProcOk(s, p);
    OwnsNothing(s, p);
    LocalAfterOpen(s.procs[p], t.files.Keys, t.procs[p].ino, t.procs[p].fd);
    Frame(s, t, p);
  }

  lemma LocalAfterLock(P: Proc, files: set<Ino>)
    requires Local(P, files, false) && P.pc.Opened?
    ensures Local(P.(pc := Locked), files, true) && MayOwn(P.(pc := Locked))
    ensures Local(P.(pc := Closing), files, false)
  {
  }

  lemma KeptByLock(s: Sys, p: Pid)
    requires Inv(s) && At(s, p, Opened)
    ensures Inv(Apply(s, Lock(p)))
  {
    hide Apply, Inv, Local;
    LockEffect(s, p);
    Known(s, p);
    NamesKnown(s);
    LocalAfterLock(s.procs[p], s.files.Keys);
    OwnsNothing(s, p);
    var ino := s.procs[p].ino;
    if ino in s.locks {
      KeptByPut(s, p, s.procs[p].(pc := Closing));
    } else {
      Frame(s, Apply(s, Lock(p)), p);
    }
  }

  /** Contents do not matter to the invariant. */
  lemma KeptByContent(s: Sys, ino: Ino, content: string)
    requires Inv(s) && ino in s.files
    ensures Inv(s.(files := s.files[ino := content]))
  {
    var t := s.(files := s.files[ino := content]);
    assert t.files.Keys == s.files.Keys;
    forall q | q in t.procs ensures ProcOk(t, q) { assert ProcOk(s, q); }
    forall i | i in t.locks ensures OwnerOk(t, i) { assert OwnerOk(s, i); }
  }

  lemma LocalAfterClose(P: Proc, files: set<Ino>, holds: bool)
    requires Local(P, files, holds) && P.pc.Closing?
    ensures Local(P.(pc := Failed, fds := P.fds - {P.fd}), files, false)
  {
  }

  lemma KeptByClose(s: Sys, p: Pid)
    requires Inv(s) && At(s, p, Closing)
    ensures Inv(Apply(s, CloseAfterError(p)))
  {
    hide Apply, Local;
    CloseEffect(s, p);
    var t := Apply(s, CloseAfterError(p));
    assert ProcOk(s, p);
    LocalAfterClose(s.procs[p], s.files.Keys, Holds(s, p));
    forall i | i in t.locks ensures t.locks[i] != p { assert OwnerOk(s, i); }
    Frame(s, t, p);
  }

  /** A new descriptor on the lowest free number leaves every open one alone. */
  lemma LocalAfterAccept(P: Proc, files: set<Ino>, holds: bool)
    requires Local(P, files, holds) && P.pc.Serving?
    ensures Local(P.(fds := OpenOther(P.fds)), files, holds)
  {
    var Q := P.(fds := OpenOther(P.fds));
    assert Keeps(Q) <==> Keeps(P);
  }

  lemma LocalAfterBind(P: Proc, files: set<Ino>, holds: bool)
    requires Local(P, files, holds) && P.pc.Armed?
    ensures Local(P.(pc := Ready, srv := LowestFree(P.fds), fds := OpenServiceFds(P.fds)), files, holds)
  {
    var Q := P.(pc := Ready, srv := LowestFree(P.fds), fds := OpenServiceFds(P.fds));
    assert Keeps(Q) <==> Keeps(P);
  }

  lemma LocalAfterOpenNull(P: Proc, files: set<Ino>, holds: bool)
    requires Local(P, files, holds) && P.pc.Ready? && !P.cfg.noCloseStdio
    ensures Local(P.(pc := Redirecting, nul := LowestFree(P.fds), fds := OpenNullFds(P.fds)), files, holds)
  {
    var Q := P.(pc := Redirecting, nul := LowestFree(P.fds), fds := OpenNullFds(P.fds));
    assert Keeps(Q) <==> Keeps(P);
  }

  lemma LocalAfterCloseOther(P: Proc, files: set<Ino>, holds: bool, d: Fd)
    requires Local(P, files, holds)
    requires (P.pc.Serving? && d in P.fds && P.fds[d] == Other)
             || (P.pc.Redirecting? && P.dups == 3 && d == P.nul && d > 2)
    ensures Local(P.(pc := Serving, fds := P.fds - {d}), files, holds)
  {
    var Q := P.(pc := Serving, fds := P.fds - {d});
    assert Keeps(Q) <==> Keeps(P);
  }

  /** The heart of the protocol. While the lock is held, the slot that dup2 closes next is the
      PID file exactly when it was closed at entry (the lock descriptor was then put there)
      or when it was the PID file already. */
  lemma SlotIsLockIff(P: Proc, files: set<Ino>, holds: bool)
    requires Local(P, files, holds) && P.pc.Redirecting? && HasFile(P) && P.dups < 3 && Keeps(P)
    ensures P.dups in P.fds && P.fds[P.dups] == Regular(P.ino) && P.nul != P.dups
            <==> !(P.dups in P.boot && P.boot[P.dups] != Regular(P.ino))
  {
    var k := P.dups;
    if k !in P.boot {
      assert P.fd >= k;
    }
  }

  lemma LocalAfterDup(P: Proc, files: set<Ino>, holds: bool)
    requires Local(P, files, holds) && P.pc.Redirecting? && P.dups < 3
    ensures var lost := P.nul != P.dups && P.dups in P.fds && P.fds[P.dups] == Regular(P.ino);
            Local(P.(fds := DupFds(P), dups := P.dups + 1), files, holds && !lost)
  {
    var Q := P.(fds := DupFds(P), dups := P.dups + 1);
    assert Keeps(Q) <==> Keeps(P) && P.dups in P.boot && P.boot[P.dups] != Regular(P.ino);
    if HasFile(P) && Keeps(P) {
      SlotIsLockIff(P, files, holds);
    }
  }

  lemma KeptByDup(s: Sys, p: Pid)
    requires Inv(s) && At(s, p, Redirecting) && s.procs[p].dups < 3
    ensures Inv(Apply(s, Dup(p)))
  {
    hide Apply, Local, Inv;
    DupEffect(s, p);
    var t := Apply(s, Dup(p));
    Known(s, p);
    NamesKnown(s);
    LocalAfterDup(s.procs[p], s.files.Keys, Holds(s, p));
    forall i | i in t.locks && t.locks[i] == p ensures OwnerOk(t, i) { assert OwnerOk(s, i); }
    Frame(s, t, p);
  }

  lemma KeptByEndRedirect(s: Sys, p: Pid)
    requires Inv(s) && At(s, p, Redirecting) && s.procs[p].dups == 3
    ensures Inv(Apply(s, EndRedirect(p)))
  {
    hide Apply, Inv;
    var P := s.procs[p];
    Known(s, p);
    EndRedirectEffect(s, p);
    if P.nul <= 2 {
      assert Keeps(P.(pc := Serving)) <==> Keeps(P);
      KeptByPut(s, p, P.(pc := Serving));
    } else {
      LocalAfterCloseOther(P, s.files.Keys, Holds(s, p), P.nul);
      KeptByPut(s, p, P.(pc := Serving, fds := P.fds - {P.nul}));
    }
  }

  lemma KeptByPrint(s: Sys, p: Pid, std: Fd, content: string)
    requires Inv(s) && p in s.procs
    ensures Inv(Apply(s, PrintStd(p, std, content)))
  {
    hide Apply;
    PrintEffect(s, p, std, content);
    var P := s.procs[p];
    assert ProcOk(s, p);
    if std in P.fds && P.fds[std].Regular? {
      KeptByContent(s, P.fds[std].ino, content);
    }
  }

  lemma KeptByUnlink(s: Sys, p: Pid)
    requires Inv(s) && At(s, p, Unlinking)
    ensures Inv(Apply(s, Unlink(p)))
  {
    KeptByMove(s, p, Unlinked);
    var m := Move(s, p, Unlinked);
    hide Apply;
    AdvanceEffect(s, Unlink(p));
    UnlinkNames(s, p);
    KeptByNames(m, Apply(s, Unlink(p)));
  }

  lemma UnlinkNames(s: Sys, p: Pid)
    requires p in s.procs
    ensures forall n | n in Apply(s, Unlink(p)).names :: n in s.names && Apply(s, Unlink(p)).names[n] == s.names[n]
  {
  }

  lemma KeptByNames(m: Sys, t: Sys)
    requires Inv(m) && t == m.(names := t.names) && NamesOk(t)
    ensures Inv(t)
  {
    forall q | q in t.procs ensures ProcOk(t, q) { assert ProcOk(m, q); }
    forall i | i in t.locks ensures OwnerOk(t, i) { assert OwnerOk(m, i); }
  }

  lemma KeptByExit(s: Sys, p: Pid)
    requires Inv(s) && p in s.procs
    ensures Inv(Apply(s, Exit(p)))
  {
    hide Apply;
    ExitEffect(s, p);
    Frame(s, Apply(s, Exit(p)), p);
  }

  /** Events that only advance the program point. */
  ghost predicate Advances(from: Pc, to: Pc, cfg: Config) {
    || (from.Launched? && to.Detached?)
    || (from.Detached? && to.Created? && cfg.pidFile.None?)
    || (from.Opened? && to.Closing?)
    || (from.Locked? && (to.Truncated? || to.Closing?))
    || (from.Truncated? && (to.Created? || to.Closing?))
    || (from.Created? && to.Armed?)
    || (from.Ready? && to.Serving? && cfg.noCloseStdio)
    || (Interruptible(from) && to.Unlinking?)
    || (from.Unlinking? && to.Unlinked?)
  }

  lemma LocalAfterMove(P: Proc, files: set<Ino>, holds: bool, pc: Pc)
    requires Local(P, files, holds) && Advances(P.pc, pc, P.cfg)
    ensures Local(P.(pc := pc), files, holds)
  {
    assert Keeps(P.(pc := pc)) <==> Keeps(P);
  }

  lemma KeptByMove(s: Sys, p: Pid, pc: Pc)
    requires Inv(s) && p in s.procs && Advances(s.procs[p].pc, pc, s.procs[p].cfg)
    ensures Inv(Move(s, p, pc))
  {
    assert ProcOk(s, p);
    LocalAfterMove(s.procs[p], s.files.Keys, Holds(s, p), pc);
    KeptByPut(s, p, s.procs[p].(pc := pc));
  }

  /** What the calls on sockets and on /dev/null do to the record of the process. */
  lemma SocketProcs(s: Sys, P: Proc, e: Event)
    ensures e.BindSocket? ==>
      NextProc(s, P, e) == P.(pc := Ready, srv := LowestFree(P.fds), fds := OpenServiceFds(P.fds))
    ensures e.Accept? ==> NextProc(s, P, e) == P.(fds := OpenOther(P.fds))
    ensures e.CloseSocket? ==> NextProc(s, P, e) == P.(fds := P.fds - {e.sock})
    ensures e.OpenNull? ==>
      NextProc(s, P, e) == P.(pc := Redirecting, nul := LowestFree(P.fds), fds := OpenNullFds(P.fds))
  {
    hide LowestFree, OpenOther, OpenServiceFds, OpenNullFds;
  }

  lemma KeptBySocket(s: Sys, e: Event)
    requires Inv(s) && ((e.BindSocket? && At(s, e.p, Armed)) || (e.Accept? && At(s, e.p, Serving)))
    ensures Inv(Apply(s, e))
  {
    hide Inv, Local, Apply, NextProc, OpenOther, OpenServiceFds, LowestFree;
    var P := s.procs[e.p];
    Known(s, e.p);
    SocketEffect(s, e);
    SocketProcs(s, P, e);
    if e.BindSocket? {
      LocalAfterBind(P, s.files.Keys, Holds(s, e.p));
    } else {
      LocalAfterAccept(P, s.files.Keys, Holds(s, e.p));
    }
    KeptByPut(s, e.p, NextProc(s, P, e));
  }

  lemma KeptByOpenNull(s: Sys, p: Pid)
    requires Inv(s) && At(s, p, Ready) && !s.procs[p].cfg.noCloseStdio
    ensures Inv(Apply(s, OpenNull(p)))
  {
    hide Apply, Inv, Local, NextProc;
    var P := s.procs[p];
    Known(s, p);
    SocketEffect(s, OpenNull(p));
    SocketProcs(s, P, OpenNull(p));
    LocalAfterOpenNull(P, s.files.Keys, Holds(s, p));
    KeptByPut(s, p, P.(pc := Redirecting, nul := LowestFree(P.fds), fds := OpenNullFds(P.fds)));
  }

  lemma KeptByCloseSocket(s: Sys, p: Pid, sock: Fd)
    requires Inv(s) && At(s, p, Serving) && sock in s.procs[p].fds && s.procs[p].fds[sock] == Other
    ensures Inv(Apply(s, CloseSocket(p, sock)))
  {
    hide Apply, Inv, Local, NextProc;
    var P := s.procs[p];
    Known(s, p);
    SocketEffect(s, CloseSocket(p, sock));
    SocketProcs(s, P, CloseSocket(p, sock));
    LocalAfterCloseOther(P, s.files.Keys, Holds(s, p), sock);
    KeptByPut(s, p, P.(pc := Serving, fds := P.fds - {sock}));
  }

  /** Calls that only advance the program point, and perhaps the content of the own file. */
  lemma KeptByAdvance(s: Sys, e: Event)
    requires Inv(s) && e.p in s.procs && Advance(e).Some? && !e.Unlink?
    requires Advances(s.procs[e.p].pc, Advance(e).value, s.procs[e.p].cfg)
    requires e.Truncate? || e.Write? || e.WriteShort? ==> HasFile(s.procs[e.p])
    ensures Inv(Apply(s, e))
  {
    var t, m := Apply(s, e), Move(s, e.p, Advance(e).value);
    assert ProcOk(s, e.p);
    var ino := s.procs[e.p].ino;
    if e.Truncate? || e.Write? || e.WriteShort? { FileWriteEffect(s, e); }
    hide Apply;
    AdvanceEffect(s, e);
    KeptByMove(s, e.p, Advance(e).value);
    if e.Truncate? || e.Write? || e.WriteShort? {
      KeptByContent(m, ino, t.files[ino]);
    }
  }

  lemma FileWriteEffect(s: Sys, e: Event)
    requires e.p in s.procs && (e.Truncate? || e.Write? || e.WriteShort?)
    ensures var ino := s.procs[e.p].ino;
            ino in Apply(s, e).files && Apply(s, e).files == s.files[ino := Apply(s, e).files[ino]]
  {
  }

  /** The calls on sockets and on /dev/null. */
  lemma KeptByDescriptor(s: Sys, e: Event)
    requires Inv(s) && Enabled(s, e)
    requires e.BindSocket? || e.OpenNull? || e.Accept? || e.CloseSocket?
    ensures Inv(Apply(s, e))
  {
    hide Inv, Apply;
    var p := e.p;
    if e.BindSocket? || e.Accept? {
      KeptBySocket(s, e);
    } else if e.OpenNull? {
      KeptByOpenNull(s, p);
    } else {
      KeptByCloseSocket(s, p, e.sock);
    }
  }

  lemma AdvanceAllowed(s: Sys, e: Event)
    requires Inv(s) && Enabled(s, e) && Advance(e).Some?
    ensures Advances(s.procs[e.p].pc, Advance(e).value, s.procs[e.p].cfg)
    ensures e.Truncate? || e.Write? || e.WriteShort? ==> HasFile(s.procs[e.p])
  {
    hide Inv;
    if e.Truncate? || e.Write? || e.WriteShort? { WritersHaveFile(s, e); }
  }

  lemma WritersHaveFile(s: Sys, e: Event)
    requires Inv(s) && Enabled(s, e) && (e.Truncate? || e.Write? || e.WriteShort?)
    ensures HasFile(s.procs[e.p])
  {
    assert ProcOk(s, e.p);
  }

  /** Every event of every process keeps the invariant. */
  lemma InvStep(s: Sys, e: Event)
    requires Inv(s) && Enabled(s, e)
    ensures Inv(Apply(s, e))
  {
    hide Apply, Inv;
    if Advance(e).Some? && !e.Unlink? {
      AdvanceAllowed(s, e);
      KeptByAdvance(s, e);
    } else if e.Configure? || e.OpenControl? || e.CloseControl? {
      KeptByControl(s, e);
    } else if e.BindSocket? || e.OpenNull? || e.Accept? || e.CloseSocket? {
      KeptByDescriptor(s, e);
    } else {
      match e
      case Launch(p, cfg, exec) => KeptByLaunch(s, p, cfg, exec);
      case Fork(p, child) => KeptByFork(s, p, child);
      case Open(p, newIno) => KeptByOpen(s, p, newIno);
      case Lock(p) => KeptByLock(s, p);
      case CloseAfterError(p) => KeptByClose(s, p);
      case Dup(p) => KeptByDup(s, p);
      case EndRedirect(p) => KeptByEndRedirect(s, p);
      case PrintStd(p, std, content) => KeptByPrint(s, p, std, content);
      case Unlink(p) => KeptByUnlink(s, p);
      case Refused(p, call) => RefusedEffect(s, p, call);
      case Exit(p) => KeptByExit(s, p);
    }
  }

  /** Every state of every run satisfies the invariant. */
  lemma {:induction false} InvRun(s: Sys, run: seq<Event>)
    requires Initial(s) && Exec(s, run).Some?
    ensures Inv(Exec(s, run).value)
  {
    if run != [] {
      var front := run[..|run| - 1];
      InvRun(s, front);
      InvStep(Exec(s, front).value, run[|run| - 1]);
    }
  }
}
