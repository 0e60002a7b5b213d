/**
 The few operating-system objects the daemon touches: descriptor tables, regular
 files (by identity, not by name), names, and whole-file record locks.

 Rules taken from POSIX.1-2017, System Interfaces volume: descriptor allocation
 (section 2.14), and lockf, close, dup2, fork, unlink and _exit (chapter 3).
 */
module Posix {
  const LONG_MAX: int := 0x7FFF_FFFF_FFFF_FFFF

  type Pid = p: int | 0 < p <= LONG_MAX witness 1
  type Ino = nat
  type Fd = nat
  type Path = string

  /** Identity of a control socket of a process; a descriptor number can be used again, a socket cannot. */
  type Sock = nat

  /** What a descriptor refers to. `Control` is the socket of a network interface, `Service` the one the
      service listens on, `Null` is /dev/null, and `Other` stands for terminals, pipes, accepted
      connections and every regular file that no PID-file name ever denotes. */
  datatype Target = Regular(ino: Ino) | Control(sock: Sock) | Service | Null | Other

  type FdTable = map<Fd, Target>

  /** Numbers at or above `n` that are in use. */
  function UsedFrom(used: set<nat>, n: nat): set<nat> {
    set d | d in used && n <= d
  }

  function LowestUnusedFrom(used: set<nat>, n: nat): (d: nat)
    ensures n <= d && d !in used
    ensures forall e :: n <= e < d ==> e in used
    decreases |UsedFrom(used, n)|
  {
    if n !in used then
      n
    else
      assert UsedFrom(used, n) == {n} + UsedFrom(used, n + 1);
      LowestUnusedFrom(used, n + 1)
  }

  /** The descriptor that open and socket return. */
  function LowestFree(t: FdTable): (d: Fd)
    ensures d !in t
    ensures forall e :: 0 <= e < d ==> e in t
  {
    LowestUnusedFrom(t.Keys, 0)
  }

  /** A new control socket, on the lowest free number. */
  function OpenControlFds(t: FdTable, sock: Sock): FdTable {
    t[LowestFree(t) := Control(sock)]
  }

  /** Closing any descriptor of a file drops the lock the process has on that file. */
  function DropLock(locks: map<Ino, Pid>, target: Target, p: Pid): map<Ino, Pid> {
    if target.Regular? && target.ino in locks && locks[target.ino] == p
    then locks - {target.ino}
    else locks
  }

  /** Process exit drops every lock of the process. */
  function DropAll(locks: map<Ino, Pid>, p: Pid): map<Ino, Pid> {
    map i | i in locks && locks[i] != p :: locks[i]
  }

  /** dup2(from, to): nothing when both are the same descriptor, else `to` is closed and re-pointed. */
  function Dup2Fds(fds: FdTable, from: Fd, to: Fd): FdTable
    requires from in fds
  {
    fds[to := fds[from]]
  }

  function Dup2Locks(locks: map<Ino, Pid>, fds: FdTable, from: Fd, to: Fd, p: Pid): map<Ino, Pid> {
    if from != to && to in fds then DropLock(locks, fds[to], p) else locks
  }
}
