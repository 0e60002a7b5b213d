/**
 The PID-file protocol of src/daemon.c and src/onvif_srvd.cpp as a transition system:
 any number of processes, one system call per event, every interleaving, exit possible anywhere.
 */
module Singleton {
  import opened Wrappers
  import opened Posix
  import opened Text

  /** The part of daemon_info and of the command line that steers daemonize2. */
  datatype Config = Config(pidFile: Option<Path>, noFork: bool, noCloseStdio: bool)

  /** Program points between the call of daemonize2 and exit. */
  datatype Pc =
    | Launched    // executed: processing_cmd, up to the fork of daemonize2
    | Parent      // the forking parent, about to _exit
    | Detached    // fork, umask, setsid and chdir are done
    | Opened      // create_pid_file: open has returned
    | Locked      // lockf has succeeded
    | Truncated   // ftruncate has succeeded
    | Closing     // a step of create_pid_file failed, close(fd) is next
    | Failed      // create_pid_file has returned -1
    | Created     // create_pid_file is past (or there is no PID file)
    | Armed       // init: signal handlers are installed
    | Ready       // init: the service socket is bound
    | Redirecting // redirect_stdio_to_devnull: /dev/null is open
    | Serving     // daemonize2 has returned
    | Unlinking   // daemon_exit_handler entered
    | Unlinked    // its unlink has been tried, exit is next

  /** One process. `exec` (the descriptors it was executed with), `boot` (those at entry of
      daemonize2), `ino` (the file that was opened as PID file), `dups` (dup2 calls made), `made`
      (control sockets created) and `srv` (where the service socket was put) are remembered only to
      state properties. */
  datatype Proc = Proc(pc: Pc, cfg: Config, exec: FdTable, boot: FdTable, fds: FdTable,
                       fd: Fd, ino: Ino, nul: Fd, dups: nat, made: nat, srv: Fd)

  datatype Sys = Sys(procs: map<Pid, Proc>, names: map<Path, Ino>,
                     files: map<Ino, string>, locks: map<Ino, Pid>)

  /** The calls that can fail without any effect. */
  datatype Syscall = SocketCall | ForkCall | SetsidCall | ChdirCall | OpenCall | BindCall | NullCall

  datatype Event =
    | Launch(p: Pid, cfg: Config, exec: FdTable)
    | Configure(p: Pid, cfg: Config)
    | OpenControl(p: Pid)
    | CloseControl(p: Pid, sd: Fd)
    | Fork(p: Pid, child: Pid)
    | SkipFork(p: Pid)
    | SkipPidFile(p: Pid)
    | Open(p: Pid, newIno: Ino)
    | Lock(p: Pid)
    | LockError(p: Pid)
    | Truncate(p: Pid)
    | TruncateError(p: Pid)
    | Write(p: Pid)
    | WriteShort(p: Pid, count: nat)
    | CloseAfterError(p: Pid)
    | InstallSignals(p: Pid)
    | BindSocket(p: Pid)
    | SkipRedirect(p: Pid)
    | OpenNull(p: Pid)
    | Dup(p: Pid)
    | EndRedirect(p: Pid)
    | Accept(p: Pid)
    | CloseSocket(p: Pid, sock: Fd)
    | PrintStd(p: Pid, std: Fd, content: string)
    | Signal(p: Pid)
    | Unlink(p: Pid)
    | UnlinkError(p: Pid)
    | Refused(p: Pid, call: Syscall)
    | Exit(p: Pid)

  const BUF_SIZE := 32

  /** snprintf into a buffer of `size` bytes keeps at most size - 1 characters. */
  function Clip(text: string, size: nat): string
    requires size > 0
  {
    if |text| < size then text else text[..size - 1]
  }

  function PidText(p: Pid): string {
    Clip(SignedDecimal(p) + "\n", BUF_SIZE)
  }

  /** create_pid_file lies behind this process. */
  predicate Past(pc: Pc) {
    pc.Created? || pc.Armed? || pc.Ready? || pc.Redirecting? || pc.Serving? || pc.Unlinking? || pc.Unlinked?
  }

  /** daemon_exit_handler can run: its handlers are installed and it has not run yet. */
  predicate Interruptible(pc: Pc) {
    pc.Armed? || pc.Ready? || pc.Redirecting? || pc.Serving?
  }

  // ---------------------------------------------------------------- transitions

  predicate At(s: Sys, p: Pid, pc: Pc) {
    p in s.procs && s.procs[p].pc == pc
  }

  /** The descriptors a process may be executed with: any, on files that exist, but no socket of the daemon. */
  predicate Executable(exec: FdTable, files: set<Ino>) {
    forall d | d in exec :: !exec[d].Control? && !exec[d].Service? && (exec[d].Regular? ==> exec[d].ino in files)
  }

  /** Where such a call is made: socket by processing_cmd, setsid and chdir behind the fork, the opens of
      the PID file and of /dev/null when they are asked for, bind by init. */
  predicate Refusable(P: Proc, call: Syscall) {
    match call
    case SocketCall => P.pc.Launched?
    case ForkCall => P.pc.Launched? && !P.cfg.noFork
    case SetsidCall => P.pc.Detached? && !P.cfg.noFork
    case ChdirCall => P.pc.Detached?
    case OpenCall => P.pc.Detached? && P.cfg.pidFile.Some?
    case BindCall => P.pc.Armed? && P.made > 0
    case NullCall => P.pc.Ready? && !P.cfg.noCloseStdio
  }

  // BindSocket is init after check_service_ctx, which ends a process without interface.
  predicate Enabled(s: Sys, e: Event) {
    match e
    case Launch(p, cfg, exec) => p !in s.procs && Executable(exec, s.files.Keys)
    case Configure(p, cfg) => At(s, p, Launched)
    case OpenControl(p) => At(s, p, Launched)
    case CloseControl(p, sd) => At(s, p, Launched) && sd in s.procs[p].fds && s.procs[p].fds[sd].Control?
    case Fork(p, child) => At(s, p, Launched) && !s.procs[p].cfg.noFork && child !in s.procs
    case SkipFork(p) => At(s, p, Launched) && s.procs[p].cfg.noFork
    case SkipPidFile(p) => At(s, p, Detached) && s.procs[p].cfg.pidFile.None?
    case Open(p, newIno) => At(s, p, Detached) && s.procs[p].cfg.pidFile.Some? && newIno !in s.files
    case Lock(p) => At(s, p, Opened)
    case LockError(p) => At(s, p, Opened)
    case Truncate(p) => At(s, p, Locked)
    case TruncateError(p) => At(s, p, Locked)
    case Write(p) => At(s, p, Truncated)
    case WriteShort(p, count) => At(s, p, Truncated) && count < |PidText(p)|
    case CloseAfterError(p) => At(s, p, Closing)
    case InstallSignals(p) => At(s, p, Created)
    case BindSocket(p) => At(s, p, Armed) && s.procs[p].made > 0
    case SkipRedirect(p) => At(s, p, Ready) && s.procs[p].cfg.noCloseStdio
    case OpenNull(p) => At(s, p, Ready) && !s.procs[p].cfg.noCloseStdio
    case Dup(p) => At(s, p, Redirecting) && s.procs[p].dups < 3
    case EndRedirect(p) => At(s, p, Redirecting) && s.procs[p].dups == 3
    case Accept(p) => At(s, p, Serving)
    case CloseSocket(p, sock) =>
      At(s, p, Serving) && sock in s.procs[p].fds && s.procs[p].fds[sock] == Other
    case PrintStd(p, std, content) => p in s.procs && 1 <= std <= 2
    case Signal(p) => p in s.procs && Interruptible(s.procs[p].pc)
    case Unlink(p) => At(s, p, Unlinking)
    case UnlinkError(p) => At(s, p, Unlinking)
    case Refused(p, call) => p in s.procs && Refusable(s.procs[p], call)
    case Exit(p) => p in s.procs
  }

  /** open(name, O_RDWR | O_CREAT): the file the name denotes, else the new one. */
  function OpenedIno(s: Sys, P: Proc, newIno: Ino): Ino {
    if P.cfg.pidFile.Some? && P.cfg.pidFile.value in s.names then s.names[P.cfg.pidFile.value] else newIno
  }

  /** lockf(fd, F_TLOCK, 0) fails at once when another process has a lock on the file. */
  predicate LockedByOther(s: Sys, p: Pid, i: Ino) {
    i in s.locks && s.locks[i] != p
  }

  /** A descriptor of kind Other on the lowest free number. */
  function OpenOther(t: FdTable): FdTable {
    t[LowestFree(t) := Other]
  }

  /** The service socket on the lowest free number. */
  function OpenServiceFds(t: FdTable): FdTable {
    t[LowestFree(t) := Service]
  }

  /** open("/dev/null") on the lowest free number. */
  function OpenNullFds(t: FdTable): FdTable {
    t[LowestFree(t) := Null]
  }

  /** dup2(fd, k) for k = 0, 1, 2 in turn. */
  function DupFds(P: Proc): FdTable {
    if P.nul in P.fds then Dup2Fds(P.fds, P.nul, P.dups) else P.fds
  }

  /** The program point after a call that only advances it, None for the other events. */
  function Advance(e: Event): Option<Pc> {
    if e.SkipFork? then Some(Detached)
    else if e.SkipPidFile? || e.Write? then Some(Created)
    else if e.LockError? || e.TruncateError? || e.WriteShort? then Some(Closing)
    else if e.Truncate? then Some(Truncated)
    else if e.InstallSignals? then Some(Armed)
    else if e.SkipRedirect? then Some(Serving)
    else if e.Signal? then Some(Unlinking)
    else if e.Unlink? || e.UnlinkError? then Some(Unlinked)
    else None
  }

  /** What the event does to the process that makes the call (fork and exit aside). */
  function NextProc(s: Sys, P: Proc, e: Event): Proc {
    if Advance(e).Some? then P.(pc := Advance(e).value)
    else if e.Configure? then P.(cfg := e.cfg)
    else if e.OpenControl? then
      P.(boot := OpenControlFds(P.fds, P.made), fds := OpenControlFds(P.fds, P.made), made := P.made + 1)
    else if e.CloseControl? then P.(boot := P.fds - {e.sd}, fds := P.fds - {e.sd})
    else if e.Open? then
      var ino, fd := OpenedIno(s, P, e.newIno), LowestFree(P.fds);
      P.(pc := Opened, fd := fd, ino := ino, fds := P.fds[fd := Regular(ino)])
    else if e.Lock? then P.(pc := if LockedByOther(s, e.p, P.ino) then Closing else Locked)
    else if e.CloseAfterError? then P.(pc := Failed, fds := P.fds - {P.fd})
    else if e.BindSocket? then P.(pc := Ready, srv := LowestFree(P.fds), fds := OpenServiceFds(P.fds))
    else if e.OpenNull? then P.(pc := Redirecting, nul := LowestFree(P.fds), fds := OpenNullFds(P.fds))
    else if e.Dup? then P.(fds := DupFds(P), dups := P.dups + 1)
    else if e.EndRedirect? then P.(pc := Serving, fds := if P.nul > 2 then P.fds - {P.nul} else P.fds)
    else if e.Accept? then P.(fds := OpenOther(P.fds))
    else if e.CloseSocket? then P.(fds := P.fds - {e.sock})
    else P
  }

  /** A process that has just been executed. */
  function Started(cfg: Config, exec: FdTable): Proc {
    Proc(Launched, cfg, exec, exec, exec, 0, 0, 0, 0, 0, 0)
  }

  /** fork copies the descriptors and none of the locks. */
  function NextProcs(s: Sys, e: Event): map<Pid, Proc> {
    if e.Launch? then s.procs[e.p := Started(e.cfg, e.exec)]
    else if e.p !in s.procs then s.procs
    else
      var P := s.procs[e.p];
      if e.Exit? then s.procs - {e.p}
      else if e.Fork? then s.procs[e.p := P.(pc := Parent)][e.child := P.(pc := Detached, boot := P.fds)]
      else s.procs[e.p := NextProc(s, P, e)]
  }

  /** open may create the name; the exit handler unlinks it (and fails on a NULL name). */
  function NextNames(s: Sys, e: Event): map<Path, Ino> {
    if e.p !in s.procs || s.procs[e.p].cfg.pidFile.None? then s.names
    else
      var name := s.procs[e.p].cfg.pidFile.value;
      if e.Open? then s.names[name := OpenedIno(s, s.procs[e.p], e.newIno)]
      else if e.Unlink? then s.names - {name}
      else s.names
  }

  function Content(s: Sys, i: Ino): string {
    if i in s.files then s.files[i] else ""
  }

  /** write at offset 0 replaces the bytes it covers and keeps the rest. */
  function Overwrite(content: string, text: string): string {
    if |content| <= |text| then text else text + content[|text|..]
  }

  function Prefix(text: string, count: nat): string {
    if count <= |text| then text[..count] else text
  }

  /** A print through stdout or stderr may leave any content in the file behind it, if there is one. */
  function NextFiles(s: Sys, e: Event): map<Ino, string> {
    if e.p !in s.procs then s.files
    else
      var P := s.procs[e.p];
      if e.Open? then
        if OpenedIno(s, P, e.newIno) in s.files then s.files else s.files[e.newIno := ""]
      else if e.Truncate? then s.files[P.ino := ""]
      else if e.Write? then s.files[P.ino := Overwrite(Content(s, P.ino), PidText(e.p))]
      else if e.WriteShort? then s.files[P.ino := Overwrite(Content(s, P.ino), Prefix(PidText(e.p), e.count))]
      else if e.PrintStd? && e.std in P.fds && P.fds[e.std].Regular? then
        s.files[P.fds[e.std].ino := e.content]
      else s.files
  }

  function NextLocks(s: Sys, e: Event): map<Ino, Pid> {
    if e.p !in s.procs then s.locks
    else
      var P := s.procs[e.p];
      if e.Lock? then if LockedByOther(s, e.p, P.ino) then s.locks else s.locks[P.ino := e.p]
      else if e.CloseAfterError? then DropLock(s.locks, Regular(P.ino), e.p)
      else if e.Dup? then Dup2Locks(s.locks, P.fds, P.nul, P.dups, e.p)
      else if e.EndRedirect? && P.nul > 2 && P.nul in P.fds then DropLock(s.locks, P.fds[P.nul], e.p)
      else if e.Exit? then DropAll(s.locks, e.p)
      else s.locks
  }

  function Apply(s: Sys, e: Event): Sys {
    Sys(NextProcs(s, e), NextNames(s, e), NextFiles(s, e), NextLocks(s, e))
  }

  /** No process and no lock, but any names and any (stale) file contents. */
  ghost predicate Initial(s: Sys) {
    && s.procs == map[] && s.locks == map[]
    && forall n | n in s.names :: s.names[n] in s.files
  }

  /** The state after a run, None when some event was not possible. */
  function Exec(s: Sys, run: seq<Event>): Option<Sys> {
    if run == [] then Some(s)
    else
      match Exec(s, run[..|run| - 1])
      case None => None
      case Some(t) => if Enabled(t, run[|run| - 1]) then Some(Apply(t, run[|run| - 1])) else None
  }
}
