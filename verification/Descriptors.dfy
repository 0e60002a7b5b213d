/** Where the control sockets of the command line land, counted from the descriptors a process was
    executed with. */
module Descriptors {
  import opened Posix
  import opened Singleton
  import opened SingletonInvariant

  /** The descriptors after n successful --ifs options. */
  function WithSockets(exec: FdTable, n: nat): FdTable {
    if n == 0 then exec else OpenControlFds(WithSockets(exec, n - 1), n - 1)
  }

  /** The descriptor of socket k. */
  function SocketFd(exec: FdTable, k: nat): Fd {
    LowestFree(WithSockets(exec, k))
  }

  /** The descriptors among 0 to 2 that are closed. */
  function FreeStd(t: FdTable): set<Fd> {
    set d | 0 <= d < 3 && d !in t
  }

  lemma OneMore(exec: FdTable, n: nat)
    requires n > 0
    ensures WithSockets(exec, n) == WithSockets(exec, n - 1)[SocketFd(exec, n - 1) := Control(n - 1)]
  {
  }

  /** Socket k sits on its own number ... */
  lemma {:induction false} SocketAt(exec: FdTable, n: nat, k: nat)
    requires k < n
    ensures SocketFd(exec, k) in WithSockets(exec, n) && WithSockets(exec, n)[SocketFd(exec, k)] == Control(k)
  {
    OneMore(exec, n);
    if k < n - 1 {
      SocketAt(exec, n - 1, k);
      assert SocketFd(exec, n - 1) !in WithSockets(exec, n - 1);
    }
  }

  /** ... what was open stays as it was, and there is nothing else. */
  lemma {:induction false} ExecAt(exec: FdTable, n: nat, d: Fd)
    ensures d in exec ==> d in WithSockets(exec, n) && WithSockets(exec, n)[d] == exec[d]
    ensures d !in exec && d in WithSockets(exec, n) ==> WithSockets(exec, n)[d].Control?
  {
    if n > 0 {
      OneMore(exec, n);
      ExecAt(exec, n - 1, d);
      assert SocketFd(exec, n - 1) !in WithSockets(exec, n - 1);
    }
  }

  /** Each socket fills one of the closed numbers 0 to 2, as long as there is one. */
  lemma {:induction false} SocketsFill(exec: FdTable, n: nat)
    ensures |FreeStd(WithSockets(exec, n))| ==
            if n <= |FreeStd(exec)| then |FreeStd(exec)| - n else 0
  {
    if n > 0 {
      SocketsFill(exec, n - 1);
      var t, d := WithSockets(exec, n - 1), SocketFd(exec, n - 1);
      OneMore(exec, n);
      hide WithSockets;
      LowestFills(t, d, Control(n - 1));
    }
  }

  /** d is the lowest free number of t. */
  predicate IsLowest(t: FdTable, d: Fd) {
    d !in t && forall e | 0 <= e < d :: e in t
  }

  /** Taking the lowest free number fills one of the closed numbers 0 to 2, if there is one. */
  lemma LowestFills(t: FdTable, d: Fd, target: Target)
    requires IsLowest(t, d)
    ensures FreeStd(t) == {} ==> d > 2 && FreeStd(t[d := target]) == {}
    ensures FreeStd(t) != {} ==> d <= 2 && |FreeStd(t[d := target])| == |FreeStd(t)| - 1
  {
    if FreeStd(t) == {} {
      assert d <= 2 ==> d in FreeStd(t);
    } else {
      var e :| e in FreeStd(t);
      assert d <= e;
      assert FreeStd(t[d := target]) == FreeStd(t) - {d};
    }
  }

  /** Interface k gets a number up to 2 exactly when there were more than k closed ones. */
  lemma LowSocketIff(exec: FdTable, k: nat)
    ensures SocketFd(exec, k) <= 2 <==> k < |FreeStd(exec)|
  {
    SocketsFill(exec, k);
    LowestFills(WithSockets(exec, k), SocketFd(exec, k), Null);
  }

  /** The service socket gets a number up to 2 exactly when more of these were closed than the
      interfaces and the PID file, if there is one, have filled. */
  lemma LowServiceIff(P: Proc, n: nat)
    requires P.boot == WithSockets(P.exec, n) && IsLowest(EntryFds(P), P.srv)
    requires P.cfg.pidFile.Some? ==> IsLowest(P.boot, P.fd)
    ensures P.srv <= 2 <==> |FreeStd(P.exec)| > n + if P.cfg.pidFile.Some? then 1 else 0
  {
    hide WithSockets;
    SocketsFill(P.exec, n);
    if P.cfg.pidFile.Some? { LowestFills(P.boot, P.fd, Regular(P.ino)); }
    LowestFills(EntryFds(P), P.srv, Service);
  }

  /** A process that entered daemonize2 with n interfaces keeps its lock exactly when redirection is
      off, or the sockets have filled every closed number up to 2 and none of these numbers had been
      executed with the PID file on it. */
  lemma SafeStdIff(P: Proc, n: nat)
    requires P.boot == WithSockets(P.exec, n)
    ensures SafeStd(P) <==>
            P.cfg.noCloseStdio
            || (|FreeStd(P.exec)| <= n && forall j | 0 <= j < 3 && j in P.exec :: P.exec[j] != Regular(P.ino))
  {
    hide WithSockets;
    forall j | 0 <= j < 3
      ensures j in P.exec ==> j in P.boot && P.boot[j] == P.exec[j]
      ensures j !in P.exec && j in P.boot ==> P.boot[j].Control?
    {
      ExecAt(P.exec, n, j);
    }
    SocketsFill(P.exec, n);
    AllOpenIff(P.boot);
  }

  lemma AllOpenIff(t: FdTable)
    ensures |FreeStd(t)| == 0 <==> forall j | 0 <= j < 3 :: j in t
  {
    assert |FreeStd(t)| == 0 <==> FreeStd(t) == {};
    if FreeStd(t) == {} {
      forall j | 0 <= j < 3 ensures j in t { assert j !in FreeStd(t); }
    }
  }
}
