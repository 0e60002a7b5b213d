/** src/eth_dev_param.cpp: ownership of the control sockets, which are descriptors of the process,
    through the copies a vector makes. */
module Eth {
  import opened Posix
  import opened Singleton
  import opened SingletonInvariant
  import opened Daemon

  const IFNAMSIZ := 16

  /** P with another table before daemonize2, after a number of created sockets. */
  function Retabled(P: Proc, fds: FdTable, made: nat): Proc {
    P.(boot := fds, fds := fds, made := made)
  }

  /** Each control socket the process ever created is on exactly one descriptor and never closed, or
      on none and closed exactly once. */
  ghost predicate SocketsOk(fds: FdTable, made: nat, closes: map<Sock, nat>) {
    && (forall x :: x in closes <==> 0 <= x < made)
    && (forall d | d in fds && fds[d].Control? :: fds[d].sock < made && closes[fds[d].sock] == 0)
    && (forall d, e | d in fds && e in fds && fds[d].Control? && fds[d] == fds[e] :: d == e)
    && (forall x | 0 <= x < made :: closes[x] <= 1)
    && (forall x | 0 <= x < made && closes[x] == 0 :: exists d :: d in fds && fds[d] == Control(x))
  }

  lemma SocketsOkOpen(fds: FdTable, made: nat, closes: map<Sock, nat>)
    requires SocketsOk(fds, made, closes)
    ensures SocketsOk(OpenControlFds(fds, made), made + 1, closes[made := 0])
  {
    hide LowestFree;
    var after := OpenControlFds(fds, made);
    forall x | 0 <= x < made + 1 && closes[made := 0][x] == 0 ensures exists d :: d in after && after[d] == Control(x) {
      if x < made {
        var d :| d in fds && fds[d] == Control(x);
        assert after[d] == Control(x);
      } else {
        assert after[LowestFree(fds)] == Control(x);
      }
    }
  }

  lemma SocketsOkClose(fds: FdTable, made: nat, closes: map<Sock, nat>, d: Fd)
    requires SocketsOk(fds, made, closes) && d in fds && fds[d].Control?
    ensures SocketsOk(fds - {d}, made, closes[fds[d].sock := 1])
  {
    var after, counted := fds - {d}, closes[fds[d].sock := 1];
    forall x | 0 <= x < made && counted[x] == 0 ensures exists e :: e in after && after[e] == Control(x) {
      var e :| e in fds && fds[e] == Control(x);
      assert after[e] == Control(x);
    }
  }

  /** The sockets of the process `self`, while it reads its command line. `closes` counts how often each
      control socket it created was closed. */
  class Net {
    const kernel: Kernel
    const self: Pid
    const devices: set<string>
    ghost const birth: Proc
    ghost var closes: map<Sock, nat>

    function Record(): Proc
      requires self in kernel.sys.procs
      reads kernel
    {
      kernel.sys.procs[self]
    }

    function Fds(): FdTable
      requires self in kernel.sys.procs
      reads kernel
    {
      kernel.sys.procs[self].fds
    }

    ghost predicate Valid()
      reads this, kernel
    {
      && kernel.Valid() && At(kernel.sys, self, Launched)
      && birth == Started(birth.cfg, birth.exec)
      && Record() == Retabled(birth, Fds(), Record().made)
      && SocketsOk(Fds(), Record().made, closes)
    }

    lemma Alive()
      requires Valid()
      ensures self in kernel.sys.procs
    {
    }

    /** A process that has just been executed. */
    constructor (kernel: Kernel, self: Pid, devices: set<string>)
      requires kernel.Valid() && self in kernel.sys.procs
      requires var P := kernel.sys.procs[self]; P == Started(P.cfg, P.exec)
      ensures Valid() && this.kernel == kernel && this.self == self && this.devices == devices
      ensures birth == kernel.sys.procs[self]
    {
      this.kernel, this.self, this.devices := kernel, self, devices;
      birth := kernel.sys.procs[self];
      closes := map[];
      InvRun(kernel.start, kernel.trace);
      Known(kernel.sys, self);
    }

    /** socket(): the lowest free descriptor, or -1. */
    method Socket() returns (d: int)
      requires Valid()
      modifies this, kernel
      ensures Valid() && kernel.Extends(old(kernel.trace), old(kernel.start))
      ensures d == -1 ==> Record() == old(Record()) && closes == old(closes)
      ensures d == -1 ==> Happened(kernel.trace, |old(kernel.trace)|, Refused(self, SocketCall))
      ensures d != -1 ==> d == LowestFree(old(Fds())) && closes == old(closes)[old(Record().made) := 0]
      ensures d != -1 ==>
        Record() == Retabled(old(Record()), OpenControlFds(old(Fds()), old(Record().made)), old(Record().made) + 1)
    {
      hide SocketsOk, Exec, LowestFree;
      d := kernel.Socket(self);
      if d == -1 { return; }
      SocketsOkOpen(old(Fds()), old(Record().made), closes);
      closes := closes[old(Record().made) := 0];
    }

    /** close(d) of a control socket. */
    method Close(d: Fd)
      requires Valid() && d in Fds() && Fds()[d].Control?
      modifies this, kernel
      ensures Valid() && kernel.Extends(old(kernel.trace), old(kernel.start))
      ensures Record() == Retabled(old(Record()), old(Fds()) - {d}, old(Record().made))
      ensures closes == old(closes)[old(Fds()[d].sock) := 1]
    {
      hide SocketsOk, Exec;
      kernel.CloseSocketOf(self, d);
      SocketsOkClose(old(Fds()), old(Record().made), closes, d);
      closes := closes[old(Fds()[d].sock) := 1];
    }
  }

  /** Why an interface cannot be opened: its name has no room in an ifreq, there is no such device, or
      socket has failed in the run from a place on. */
  ghost predicate CannotOpen(name: string, devices: set<string>, self: Pid, trace: seq<Event>, from: nat) {
    |name| >= 16 || name !in devices || Happened(trace, from, Refused(self, SocketCall))
  }

  /** What a bitwise copy of an Eth_Dev_Param carries over. */
  datatype EthValue = EthValue(sd: int, isOpen: bool, name: string)

  class EthDevParam {
    var sd: int
    var isOpen: bool
    var name: string

    constructor ()
      ensures Value() == EthValue(-1, false, "")
    {
      sd, isOpen, name := -1, false, "";
    }

    /** The implicit copy constructor: the descriptor number is copied, not the socket. */
    constructor Copy(other: EthDevParam)
      ensures Value() == other.Value()
    {
      sd, isOpen, name := other.sd, other.isOpen, other.name;
    }

    function Value(): EthValue
      reads this
    {
      EthValue(sd, isOpen, name)
    }

    /** Between calls: opened exactly when there is a descriptor, and then it is a control socket. */
    ghost predicate Valid(net: Net)
      requires net.self in net.kernel.sys.procs
      reads this, net.kernel
    {
      (isOpen <==> sd != -1) && OnSocket(net)
    }

    ghost predicate OnSocket(net: Net)
      requires net.self in net.kernel.sys.procs
      reads this, net.kernel
    {
      sd != -1 ==> sd >= 0 && sd in net.Fds() && net.Fds()[sd].Control?
    }

    /** The descriptors of the process without the one of this object. */
    ghost function Rest(net: Net): FdTable
      requires net.self in net.kernel.sys.procs
      reads this, net.kernel
    {
      if sd < 0 then net.Fds() else net.Fds() - {sd}
    }

    /** The destructor: its close is commented out in the source, so it does nothing. */
    method Destroy()
      ensures Value() == old(Value())
    {
    }

    method Close(net: Net)
      requires net.Valid() && OnSocket(net)
      modifies this, net, net.kernel
      ensures net.Valid() && net.kernel.Extends(old(net.kernel.trace), old(net.kernel.start))
      ensures Valid(net) && Value() == EthValue(-1, false, "")
      ensures net.Record() == Retabled(old(net.Record()), old(Rest(net)), old(net.Record().made))
    {
      hide SocketsOk, Exec;
      if sd != -1 {
        net.Close(sd);
      }
      name := "";
      isOpen := false;
      sd := -1;
    }

    /** 0 with a socket nobody had before, on the lowest free number and an existing interface, or -1
        without a socket, because the name is too long, there is no such device or socket has failed.
        Either way a socket the object had before is closed, and no other descriptor
        of the process is touched. */
    method Open(net: Net, devName: string) returns (r: int)
      requires net.Valid() && Valid(net)
      modifies this, net, net.kernel
      ensures net.Valid() && net.kernel.Extends(old(net.kernel.trace), old(net.kernel.start))
      ensures Valid(net) && (r == 0 || r == -1)
      ensures r == 0 <==> isOpen
      ensures r == 0 ==> |devName| < 16 && devName in net.devices && name == devName
      ensures r == -1 ==> CannotOpen(devName, net.devices, net.self, net.kernel.trace, |old(net.kernel.trace)|)
      ensures r == 0 ==> sd == LowestFree(old(Rest(net)))
      ensures r == 0 ==>
        net.Record() == Retabled(old(net.Record()),
                                 OpenControlFds(old(Rest(net)), old(net.Record().made)), old(net.Record().made) + 1)
      ensures r == -1 ==> net.Record() == Retabled(old(net.Record()), old(Rest(net)), net.Record().made)
      ensures net.Record().made >= old(net.Record().made)
      ensures |devName| >= 16 ==> net.Record().made == old(net.Record().made)
    {
      hide SocketsOk, Exec, LowestFree, Net.Valid, Happened;
      Close(net);
      if |devName| >= IFNAMSIZ { return -1; }
      net.Alive();
      ghost var rest, from := net.Fds(), |net.kernel.trace|;
      sd := net.Socket();
      if sd == -1 {
        Later(net.kernel.start, net.kernel.trace, from, net.kernel.trace, |old(net.kernel.trace)|);
        return -1;
      }
      name := devName;
      if devName !in net.devices {
        Close(net);
        net.Alive();
        assert net.Fds() == rest;
        return -1;
      }
      isOpen := true;
      r := 0;
    }
  }

  /** One call of a session with a single object. */
  datatype EthCall = CallOpen(name: string) | CallClose

  /** Over every sequence of open and close calls: opened exactly when there is a descriptor, and
      every socket the object created is its current one or has been closed exactly once. */
  method Session(net: Net, dev: EthDevParam, calls: seq<EthCall>)
    requires net.Valid() && dev.Valid(net) && !dev.isOpen
    modifies net, net.kernel, dev
    ensures net.Valid() && dev.Valid(net)
    ensures net.Record().made >= old(net.Record().made)
    ensures forall x | old(net.Record().made) <= x < net.Record().made ::
              net.closes[x] == if dev.isOpen && net.Fds()[dev.sd] == Control(x) then 0 else 1
    ensures dev.Rest(net) == old(net.Fds())
  {
    hide SocketsOk, Exec, LowestFree;
    ghost var before := net.Fds();
    SocketsBelow(net);
    for i := 0 to |calls|
      invariant net.Valid() && dev.Valid(net)
      invariant net.Record().made >= old(net.Record().made)
      invariant dev.Rest(net) == before
    {
      if calls[i].CallOpen? {
        var r := dev.Open(net, calls[i].name);
        if r == 0 { assert OpenControlFds(before, 0) - {dev.sd} == before; }
      } else {
        dev.Close(net);
      }
    }
    SessionCounts(net, dev, before, old(net.Record().made));
  }

  lemma SocketsBelow(net: Net)
    requires net.Valid()
    ensures forall d | d in net.Fds() && net.Fds()[d].Control? :: net.Fds()[d].sock < net.Record().made
  {
  }

  lemma SessionCounts(net: Net, dev: EthDevParam, before: FdTable, made: nat)
    requires net.Valid() && dev.Valid(net) && dev.Rest(net) == before && made <= net.Record().made
    requires forall d | d in before && before[d].Control? :: before[d].sock < made
    ensures forall x | made <= x < net.Record().made ::
              net.closes[x] == if dev.isOpen && net.Fds()[dev.sd] == Control(x) then 0 else 1
  {
    forall x | made <= x < net.Record().made
      ensures net.closes[x] == if dev.isOpen && net.Fds()[dev.sd] == Control(x) then 0 else 1
    {
      if net.closes[x] == 0 {
        var d :| d in net.Fds() && net.Fds()[d] == Control(x);
        assert d == dev.sd || d in before;
      }
    }
  }

  // ------------------------------------------------- std::vector<Eth_Dev_Param>

  ghost function Values(s: seq<EthDevParam>): seq<EthValue>
    reads s
  {
    seq(|s|, i requires 0 <= i < |s| reads s => s[i].Value())
  }

  /** Every element is open, on a control socket of its own. */
  ghost predicate OwnDescriptors(s: seq<EthValue>, fds: FdTable) {
    && (forall i | 0 <= i < |s| :: s[i].isOpen && s[i].sd >= 0 && s[i].sd in fds && fds[s[i].sd].Control?)
    && (forall i, j | 0 <= i < j < |s| :: s[i].sd != s[j].sd)
  }

  lemma OwnDescriptorsGrow(s: seq<EthValue>, fds: FdTable, v: EthValue, sock: Sock)
    requires OwnDescriptors(s, fds) && v.isOpen && v.sd == LowestFree(fds)
    ensures OwnDescriptors(s + [v], OpenControlFds(fds, sock))
  {
    hide LowestFree;
    var t, after := s + [v], OpenControlFds(fds, sock);
    forall i | 0 <= i < |t| ensures t[i].isOpen && t[i].sd >= 0 && t[i].sd in after && after[t[i].sd].Control? {
      if i < |s| { assert t[i] == s[i]; }
    }
  }

  class EthVector {
    var elems: seq<EthDevParam>
    var capacity: nat

    ghost predicate Valid()
      reads this
    {
      && |elems| <= capacity
      && forall i, j | 0 <= i < j < |elems| :: elems[i] != elems[j]
    }

    constructor ()
      ensures Valid() && elems == []
    {
      elems, capacity := [], 0;
    }

    /** Growth copies every element into new storage and destroys the old ones. */
    method Reallocate()
      requires Valid()
      modifies this
      ensures Valid() && capacity > old(capacity) && |elems| == old(|elems|)
      ensures fresh(elems)
      ensures Values(elems) == old(Values(elems))
    {
      var copies: seq<EthDevParam> := [];
      var i := 0;
      while i < |elems|
        invariant 0 <= i <= |elems| && |copies| == i && elems == old(elems) && capacity == old(capacity)
        invariant fresh(copies)
        invariant forall j, k | 0 <= j < k < i :: copies[j] != copies[k]
        invariant forall j | 0 <= j < i :: copies[j].Value() == old(elems[j].Value())
      {
        var c := new EthDevParam.Copy(elems[i]);
        elems[i].Destroy();
        copies := copies + [c];
        i := i + 1;
      }
      elems := copies;
      capacity := if capacity == 0 then 1 else 2 * capacity;
    }

    method PushBack(v: EthDevParam)
      requires Valid()
      modifies this
      ensures Valid() && |elems| == old(|elems|) + 1
      ensures fresh(set x | x in elems && x !in old(elems))
      ensures elems[|elems| - 1] !in old(elems) && elems[|elems| - 1] != v && fresh(elems[|elems| - 1])
      ensures Values(elems) == old(Values(elems)) + [old(v.Value())]
    {
      if |elems| == capacity {
        Reallocate();
      }
      var c := new EthDevParam.Copy(v);
      elems := elems + [c];
    }

    /** eth_ifs.back().open(name), on an element that is not open yet. */
    method OpenLast(net: Net, name: string) returns (r: int)
      requires Valid() && net.Valid() && elems != []
      requires elems[|elems| - 1].Value() == EthValue(-1, false, "")
      modifies elems[|elems| - 1], net, net.kernel
      ensures net.Valid() && (r == 0 || r == -1)
      ensures net.kernel.Extends(old(net.kernel.trace), old(net.kernel.start))
      ensures Values(elems)[..|elems| - 1] == old(Values(elems))[..|elems| - 1]
      ensures r == 0 ==> |name| < 16 && name in net.devices
      ensures r == -1 ==> CannotOpen(name, net.devices, net.self, net.kernel.trace, |old(net.kernel.trace)|)
      ensures r == 0 ==> elems[|elems| - 1].Value() == EthValue(LowestFree(old(net.Fds())), true, name)
      ensures r == 0 ==>
        net.Record() == Retabled(old(net.Record()),
                                 OpenControlFds(old(net.Fds()), old(net.Record().made)), old(net.Record().made) + 1)
      ensures r == -1 ==> net.Record() == Retabled(old(net.Record()), old(net.Fds()), net.Record().made)
    {
      hide Net.Valid, LowestFree, CannotOpen;
      net.Alive();
      var back := elems[|elems| - 1];
      r := back.Open(net, name);
      assert forall i | 0 <= i < |elems| - 1 :: elems[i].Value() == old(elems[i].Value());
    }

    /** eth_ifs.push_back(Eth_Dev_Param()); eth_ifs.back().open(name). After success every
        interface still is on a control socket of its own, whatever growth has copied. */
    method AddInterface(net: Net, name: string) returns (r: int)
      requires Valid() && net.Valid() && OwnDescriptors(Values(elems), net.Fds())
      modifies this, net, net.kernel
      ensures Valid() && net.Valid() && (r == 0 || r == -1)
      ensures net.kernel.Extends(old(net.kernel.trace), old(net.kernel.start))
      ensures fresh(set x | x in elems && x !in old(elems))
      ensures r == 0 ==> |name| < 16 && name in net.devices
      ensures r == -1 ==> CannotOpen(name, net.devices, net.self, net.kernel.trace, |old(net.kernel.trace)|)
      ensures r == 0 ==> Values(elems) == old(Values(elems)) + [EthValue(LowestFree(old(net.Fds())), true, name)]
      ensures r == 0 ==> OwnDescriptors(Values(elems), net.Fds())
      ensures r == 0 ==>
        net.Record() == Retabled(old(net.Record()),
                                 OpenControlFds(old(net.Fds()), old(net.Record().made)), old(net.Record().made) + 1)
      ensures r == -1 ==> net.Record() == Retabled(old(net.Record()), old(net.Fds()), net.Record().made)
    {
      hide Net.Valid, Kernel.Valid, OwnDescriptors, LowestFree, OpenControlFds, CannotOpen;
      net.Alive();
      ghost var before, fds, made := Values(elems), net.Fds(), net.Record().made;
      var empty := new EthDevParam();
      PushBack(empty);
      assert elems[|elems| - 1].Value() == Values(elems)[|elems| - 1];
      r := OpenLast(net, name);
      if r == 0 {
        ghost var v := EthValue(LowestFree(fds), true, name);
        assert Values(elems) == before + [v] by {
          assert Values(elems)[..|elems| - 1] == before;
          assert Values(elems)[|elems| - 1] == v;
        }
        OwnDescriptorsGrow(before, fds, v, made);
      }
    }
  }
}
