/** The descriptors of the two host-port state files: opened and registered on bind,
    unregistered and released on unbind.  Descriptors are identified by the order in which
    they were opened, so that a number the kernel reuses is not taken for the old file. */
module EpollFiles {
  import opened Uevents

  datatype HostPort = Host1 | Host2

  datatype Op = Bind(port: HostPort) | Unbind(port: HostPort) | Ignore

  // Whether open() and epoll_ctl(ADD) succeed.
  datatype Outcome = Outcome(opens: bool, adds: bool)

  function OpFor(matches: (HostPort, string) -> bool, port: HostPort, s: string): Op {
    if !matches(port, s) then Ignore
    else if StartsWith(s, "bind@") then Bind(port)
    else if StartsWith(s, "unbind@") then Unbind(port)
    else Ignore
  }

  predicate Binds(matches: (HostPort, string) -> bool, port: HostPort, s: string) {
    matches(port, s) && "bind@" <= s
  }

  predicate Unbinds(matches: (HostPort, string) -> bool, port: HostPort, s: string) {
    matches(port, s) && "unbind@" <= s
  }

  // Each string stands for at most one operation on a port it matches.
  lemma OpIsExact(matches: (HostPort, string) -> bool, port: HostPort, s: string)
    ensures OpFor(matches, port, s) == Bind(port) <==> Binds(matches, port, s)
    ensures OpFor(matches, port, s) == Unbind(port) <==> Unbinds(matches, port, s)
    ensures OpFor(matches, port, s) == Ignore <==> !Binds(matches, port, s) && !Unbinds(matches, port, s)
  {
    if "bind@" <= s {
      assert s[0] == 'b';
    }
    if "unbind@" <= s {
      assert s[0] == 'u';
    }
  }

  // Whatever follows the "@".
  lemma OpOfAnEvent(matches: (HostPort, string) -> bool, port: HostPort, rest: string)
    ensures matches(port, "bind@" + rest) ==> OpFor(matches, port, "bind@" + rest) == Bind(port)
    ensures matches(port, "unbind@" + rest) ==> OpFor(matches, port, "unbind@" + rest) == Unbind(port)
  {
    OpIsExact(matches, port, "bind@" + rest);
    OpIsExact(matches, port, "unbind@" + rest);
  }

  function OpAt(matches: (HostPort, string) -> bool, strings: seq<string>, k: nat): Op
    requires k < 2 * |strings|
  {
    OpFor(matches, if k % 2 == 0 then Host1 else Host2, strings[k / 2])
  }

  // The operations of one message, in the order in which the loop performs them.
  function Ops(matches: (HostPort, string) -> bool, strings: seq<string>): (ops: seq<Op>)
    ensures |ops| == 2 * |strings|
  {
    seq(2 * |strings|, k requires 0 <= k < 2 * |strings| => OpAt(matches, strings, k))
  }

  // Which ports hold a registered file after the first k operations.
  function Registered(before: set<HostPort>, ops: seq<Op>, world: nat -> Outcome, k: nat): set<HostPort>
    requires k <= |ops|
  {
    if k == 0 then before
    else PortsAfter(Registered(before, ops, world, k - 1), ops[k - 1], world(k - 1))
  }

  function PortsAfter(r: set<HostPort>, op: Op, o: Outcome): set<HostPort> {
    match op
    case Bind(p) => if o == Outcome(true, true) then r + {p} else r
    case Unbind(p) => r - {p}
    case Ignore => r
  }

  ghost predicate BoundAndKept(port: HostPort, ops: seq<Op>, world: nat -> Outcome, j: nat, k: nat)
    requires k <= |ops|
  {
    && j < k && ops[j] == Bind(port) && world(j) == Outcome(true, true)
    && forall i :: j < i < k ==> ops[i] != Unbind(port)
  }

  // A port is registered exactly if its last successful bind came after its last unbind.
  lemma {:induction false} RegisteredExactly(
      before: set<HostPort>, ops: seq<Op>, world: nat -> Outcome, k: nat, port: HostPort)
    requires k <= |ops|
    ensures port in Registered(before, ops, world, k) <==>
              || (exists j: nat :: BoundAndKept(port, ops, world, j, k))
              || (port in before && forall i :: 0 <= i < k ==> ops[i] != Unbind(port))
  {
    if k == 0 {
    } else {
      var m: nat := k - 1;
      RegisteredExactly(before, ops, world, m, port);
      if ops[m] == Bind(port) && world(m) == Outcome(true, true) {
        assert BoundAndKept(port, ops, world, m, k);
      } else if ops[m] != Unbind(port) {
        if j: nat :| BoundAndKept(port, ops, world, j, m) {
          assert BoundAndKept(port, ops, world, j, k);
        }
        if j: nat :| BoundAndKept(port, ops, world, j, k) {
          assert BoundAndKept(port, ops, world, j, m);
        }
      }
    }
  }

  // What became of a descriptor: exactly one of these.
  datatype Fate = Held | Closed | LetGo

  const NO_FD: int := -1

  // A descriptor that cannot be registered is closed on the spot; one that can
  // replaces the port's previous one, which is closed.
  function AfterAdd(fate: seq<Fate>, o: Outcome, previous: int): seq<Fate> {
    if !o.opens then fate
    else if !o.adds then fate + [Closed]
    else (if 0 <= previous < |fate| then fate[previous := Closed] else fate) + [Held]
  }

  function LetGoCount(fate: seq<Fate>): nat {
    if fate == [] then 0
    else LetGoCount(fate[..|fate| - 1]) + if fate[|fate| - 1] == LetGo then 1 else 0
  }

  lemma {:induction false} CountAfterUpdate(fate: seq<Fate>, d: nat, f: Fate)
    requires d < |fate| && fate[d] != LetGo
    ensures LetGoCount(fate[d := f]) == LetGoCount(fate) + if f == LetGo then 1 else 0
  {
    var last := |fate| - 1;
    if d < last {
      CountAfterUpdate(fate[..last], d, f);
      assert fate[d := f][..last] == fate[..last][d := f];
    } else {
      assert fate[d := f][..last] == fate[..last];
    }
  }

  lemma AddLetsNothingGo(fate: seq<Fate>, o: Outcome, previous: int)
    requires 0 <= previous < |fate| ==> fate[previous] != LetGo
    ensures LetGoCount(AfterAdd(fate, o, previous)) == LetGoCount(fate)
  {
    var kept := if o == Outcome(true, true) && 0 <= previous < |fate| then fate[previous := Closed] else fate;
    if o == Outcome(true, true) && 0 <= previous < |fate| {
      CountAfterUpdate(fate, previous, Closed);
    }
    if o.opens {
      assert AfterAdd(fate, o, previous)[..|fate|] == kept;
    }
  }

  /** The two descriptor fields, and the fate of every descriptor in the order of opening. */
  datatype Ledger = Ledger(fd1: int, fd2: int, fate: seq<Fate>) {

    function Fd(port: HostPort): int {
      if port == Host1 then fd1 else fd2
    }

    function With(port: HostPort, fd: int): Ledger {
      if port == Host1 then this.(fd1 := fd) else this.(fd2 := fd)
    }

    function Ports(): set<HostPort> {
      (if fd1 != NO_FD then {Host1} else {}) + (if fd2 != NO_FD then {Host2} else {})
    }

    function On(op: Op, o: Outcome): Ledger {
      match op
      case Bind(p) =>
        (if o == Outcome(true, true) then With(p, |fate|) else this).(fate := AfterAdd(fate, o, Fd(p)))
      case Unbind(p) =>
        With(p, NO_FD).(fate := if 0 <= Fd(p) < |fate| then fate[Fd(p) := LetGo] else fate)
      case Ignore => this
    }

    // At most one descriptor per port, and held means in one of the two fields.
    ghost predicate Ok() {
      && -1 <= fd1 < |fate|
      && -1 <= fd2 < |fate|
      && (fd1 == fd2 ==> fd1 == NO_FD)
      && (forall d :: 0 <= d < |fate| ==> (fate[d] == Held <==> d == fd1 || d == fd2))
    }
  }

  function AfterOps(l: Ledger, ops: seq<Op>, world: nat -> Outcome, k: nat): Ledger
    requires k <= |ops|
  {
    if k == 0 then l else AfterOps(l, ops, world, k - 1).On(ops[k - 1], world(k - 1))
  }

  // One string is looked at for either port.
  lemma BothPorts(
      l: Ledger, matches: (HostPort, string) -> bool, strings: seq<string>, world: nat -> Outcome, i: nat)
    requires i < |strings|
    ensures var ops, s := Ops(matches, strings), strings[i];
            AfterOps(l, ops, world, 2 * i + 2) ==
              AfterOps(l, ops, world, 2 * i)
              .On(OpFor(matches, Host1, s), world(2 * i)).On(OpFor(matches, Host2, s), world(2 * i + 1))
  {
    var ops := Ops(matches, strings);
    assert ops[2 * i] == OpFor(matches, Host1, strings[i]);
    assert ops[2 * i + 1] == OpFor(matches, Host2, strings[i]);
    assert AfterOps(l, ops, world, 2 * i + 1) == AfterOps(l, ops, world, 2 * i).On(ops[2 * i], world(2 * i));
  }

  // Unbinds, among the first k operations, of a port that was registered.
  function UnbindsThatHeld(before: set<HostPort>, ops: seq<Op>, world: nat -> Outcome, k: nat): nat
    requires k <= |ops|
  {
    if k == 0 then 0
    else
      UnbindsThatHeld(before, ops, world, k - 1)
      + if ops[k - 1].Unbind? && ops[k - 1].port in Registered(before, ops, world, k - 1) then 1 else 0
  }

  lemma OnKeepsOk(l: Ledger, op: Op, o: Outcome)
    requires l.Ok()
    ensures l.On(op, o).Ok() && l.On(op, o).Ports() == PortsAfter(l.Ports(), op, o)
  {
  }

  lemma OnLetsGo(l: Ledger, op: Op, o: Outcome)
    requires l.Ok()
    ensures LetGoCount(l.On(op, o).fate) ==
              LetGoCount(l.fate) + if op.Unbind? && op.port in l.Ports() then 1 else 0
  {
    match op
    case Bind(p) => AddLetsNothingGo(l.fate, o, l.Fd(p));
    case Unbind(p) => if l.Fd(p) != NO_FD { CountAfterUpdate(l.fate, l.Fd(p), LetGo); }
    case Ignore =>
  }

  /** After any operations, with any failures: the registered ports are the specified ones,
      descriptors held are those in the fields, and one has been let go, unclosed, for every
      unbind that found its port registered. */
  lemma {:induction false} LedgerAddsUp(l: Ledger, ops: seq<Op>, world: nat -> Outcome, k: nat)
    requires l.Ok() && k <= |ops|
    ensures var r := AfterOps(l, ops, world, k);
            && r.Ok()
            && r.Ports() == Registered(l.Ports(), ops, world, k)
            && LetGoCount(r.fate) == LetGoCount(l.fate) + UnbindsThatHeld(l.Ports(), ops, world, k)
  {
    if k == 0 {
    } else {
      LedgerAddsUp(l, ops, world, k - 1);
      var before := AfterOps(l, ops, world, k - 1);
      OnKeepsOk(before, ops[k - 1], world(k - 1));
      OnLetsGo(before, ops[k - 1], world(k - 1));
    }
  }

  // One bind and one unbind are enough to lose a descriptor.
  lemma UnbindLosesADescriptor()
    ensures var ops := [Bind(Host1), Unbind(Host1)];
            var l := AfterOps(Ledger(NO_FD, NO_FD, []), ops, _ => Outcome(true, true), 2);
            l.Ports() == {} && l.fate == [LetGo] && LetGoCount(l.fate) == 1
  {
    var ops, world := [Bind(Host1), Unbind(Host1)], _ => Outcome(true, true);
    assert AfterOps(Ledger(NO_FD, NO_FD, []), ops, world, 1) == Ledger(0, NO_FD, [Held]);
    assert AfterOps(Ledger(NO_FD, NO_FD, []), ops, world, 2) == Ledger(NO_FD, NO_FD, [LetGo]);
  }

  // How opening and registering goes for a port at string i.
  function OutcomeAt(world: nat -> Outcome, port: HostPort, i: nat): Outcome {
    world(2 * i + if port == Host1 then 0 else 1)
  }

  // String i binds the port for good, as far as the first n strings go.
  ghost predicate BindsForGood(
      matches: (HostPort, string) -> bool, strings: seq<string>, world: nat -> Outcome, port: HostPort, i: nat, n: nat)
    requires n <= |strings|
  {
    && i < n && Binds(matches, port, strings[i]) && OutcomeAt(world, port, i) == Outcome(true, true)
    && forall m :: i < m < n ==> !Unbinds(matches, port, strings[m])
  }

  // The port has a file: its last successful bind came after its last unbind, or it had one
  // before and there was no unbind.
  ghost predicate HasFile(
      before: bool, matches: (HostPort, string) -> bool, strings: seq<string>, world: nat -> Outcome,
      port: HostPort, n: nat)
    requires n <= |strings|
  {
    || (exists i: nat :: BindsForGood(matches, strings, world, port, i, n))
    || (before && forall m :: 0 <= m < n ==> !Unbinds(matches, port, strings[m]))
  }

  lemma OneMoreString(
      before: bool, matches: (HostPort, string) -> bool, strings: seq<string>, world: nat -> Outcome,
      port: HostPort, n: nat)
    requires n < |strings|
    ensures HasFile(before, matches, strings, world, port, n + 1) <==>
              || (Binds(matches, port, strings[n]) && OutcomeAt(world, port, n) == Outcome(true, true))
              || (HasFile(before, matches, strings, world, port, n) && !Unbinds(matches, port, strings[n]))
  {
    var next := n + 1;
    OpIsExact(matches, port, strings[n]);
    if Binds(matches, port, strings[n]) && OutcomeAt(world, port, n) == Outcome(true, true) {
      assert BindsForGood(matches, strings, world, port, n, next);
    } else {
      if i: nat :| BindsForGood(matches, strings, world, port, i, n) {
        assert !Unbinds(matches, port, strings[n]) ==> BindsForGood(matches, strings, world, port, i, next);
      }
      if i: nat :| BindsForGood(matches, strings, world, port, i, next) {
        assert BindsForGood(matches, strings, world, port, i, n);
      }
    }
  }

  // What one string does to one port.
  lemma StringOnPort(
      r: set<HostPort>, matches: (HostPort, string) -> bool, s: string, o1: Outcome, o2: Outcome, port: HostPort)
    ensures port in PortsAfter(PortsAfter(r, OpFor(matches, Host1, s), o1), OpFor(matches, Host2, s), o2) <==>
              || (Binds(matches, port, s) && (if port == Host1 then o1 else o2) == Outcome(true, true))
              || (port in r && !Unbinds(matches, port, s))
  {
    OpIsExact(matches, Host1, s);
    OpIsExact(matches, Host2, s);
  }

  lemma BothPortsRegistered(
      before: set<HostPort>, matches: (HostPort, string) -> bool, strings: seq<string>, world: nat -> Outcome, i: nat)
    requires i < |strings|
    ensures var ops, s := Ops(matches, strings), strings[i];
            Registered(before, ops, world, 2 * i + 2) ==
              PortsAfter(PortsAfter(Registered(before, ops, world, 2 * i), OpFor(matches, Host1, s), world(2 * i)),
                         OpFor(matches, Host2, s), world(2 * i + 1))
  {
    var ops := Ops(matches, strings);
    assert ops[2 * i] == OpFor(matches, Host1, strings[i]);
    assert ops[2 * i + 1] == OpFor(matches, Host2, strings[i]);
    assert Registered(before, ops, world, 2 * i + 1) ==
           PortsAfter(Registered(before, ops, world, 2 * i), ops[2 * i], world(2 * i));
  }

  // The strings decide which ports are registered in the end.
  lemma {:induction false} StringsDecide(
      before: set<HostPort>, matches: (HostPort, string) -> bool, strings: seq<string>, world: nat -> Outcome,
      port: HostPort, n: nat)
    requires n <= |strings|
    ensures port in Registered(before, Ops(matches, strings), world, 2 * n) <==>
              HasFile(port in before, matches, strings, world, port, n)
  {
    if n == 0 {
    } else {
      var m := n - 1;
      StringsDecide(before, matches, strings, world, port, m);
      BothPortsRegistered(before, matches, strings, world, m);
      OneMoreString(port in before, matches, strings, world, port, m);
      StringOnPort(Registered(before, Ops(matches, strings), world, 2 * m), matches, strings[m],
                   world(2 * m), world(2 * m + 1), port);
    }
  }

  lemma StringsDecideLedger(
      l: Ledger, matches: (HostPort, string) -> bool, strings: seq<string>, world: nat -> Outcome)
    requires l.Ok()
    ensures forall port: HostPort :: port in AfterOps(l, Ops(matches, strings), world, 2 * |strings|).Ports() <==>
              HasFile(port in l.Ports(), matches, strings, world, port, |strings|)
  {
    LedgerAddsUp(l, Ops(matches, strings), world, 2 * |strings|);
    StringsDecide(l.Ports(), matches, strings, world, Host1, |strings|);
    StringsDecide(l.Ports(), matches, strings, world, Host2, |strings|);
  }

  class EpollFiles {
    var host1Fd: int
    var host2Fd: int
    var next: nat
    // What epoll has registered.
    var interest: set<int>
    ghost var fate: seq<Fate>

    function Fd(port: HostPort): int
      reads this
    {
      if port == Host1 then host1Fd else host2Fd
    }

    ghost function Now(): Ledger
      reads this
    {
      Ledger(host1Fd, host2Fd, fate)
    }

    ghost predicate Valid()
      reads this
    {
      && next == |fate|
      && Now().Ok()
      && interest == {host1Fd, host2Fd} - {NO_FD}
    }

    constructor ()
      ensures Valid() && Now() == Ledger(NO_FD, NO_FD, [])
    {
      host1Fd, host2Fd, next, interest := NO_FD, NO_FD, 0, {};
      fate := [];
    }

    method SetFd(port: HostPort, fd: int)
      modifies `host1Fd, `host2Fd
      ensures Now() == old(Now()).With(port, fd)
    {
      if port == Host1 { host1Fd := fd; } else { host2Fd := fd; }
    }

    method AddEpollFile(port: HostPort, o: Outcome) returns (status: int)
      requires Valid()
      modifies this
      ensures Valid() && Now() == old(Now()).On(Bind(port), o)
      ensures status == if o == Outcome(true, true) then 0 else -1
    {
      OnKeepsOk(Now(), Bind(port), o);
      if !o.opens { return -1; }
      var fd, previous := next, Fd(port);
      next := next + 1;
      fate := AfterAdd(fate, o, previous);
      // fd goes out of scope, and is closed
      if !o.adds { return -1; }
      interest := interest + {fd};
      MoveIn(port, fd);
      return 0;
    }

    // fileFd = std::move(fd): closing the previous descriptor takes it off the list.
    method MoveIn(port: HostPort, fd: nat)
      modifies `host1Fd, `host2Fd, `interest
      ensures interest == old(interest) - if old(Fd(port)) == NO_FD then {} else {old(Fd(port))}
      ensures Now() == old(Now()).With(port, fd)
    {
      if Fd(port) != NO_FD {
        interest := interest - {Fd(port)};
      }
      SetFd(port, fd);
    }

    // EPOLL_CTL_DEL, and then release(), which forgets the descriptor without closing it.
    method RemoveEpollFile(port: HostPort)
      requires Valid()
      modifies this
      ensures Valid()
      ensures forall o :: Now() == old(Now()).On(Unbind(port), o)
    {
      OnKeepsOk(Now(), Unbind(port), Outcome(false, false));
      var fd := Fd(port);
      if fd != NO_FD {
        interest := interest - {fd};
        fate := fate[fd := LetGo];
      }
      SetFd(port, NO_FD);
    }

    // The host-port part of handleUevent, on the strings the walk visits.
    method HandleUevent(strings: seq<string>, matches: (HostPort, string) -> bool, world: nat -> Outcome)
      requires Valid()
      modifies this
      ensures Valid()
      ensures Now() == AfterOps(old(Now()), Ops(matches, strings), world, 2 * |strings|)
      ensures forall port: HostPort :: port in Now().Ports() <==>
                HasFile(port in old(Now().Ports()), matches, strings, world, port, |strings|)
    {
      ghost var ops, before := Ops(matches, strings), Now();
      for i := 0 to |strings|
        invariant Valid()
        invariant Now() == AfterOps(before, ops, world, 2 * i)
      {
        BothPorts(before, matches, strings, world, i);
        HandleString(strings[i], matches, world(2 * i), world(2 * i + 1));
      }
      StringsDecideLedger(before, matches, strings, world);
    }

    // Both ports, for one string.
    method HandleString(s: string, matches: (HostPort, string) -> bool, o1: Outcome, o2: Outcome)
      requires Valid()
      modifies this
      ensures Valid()
      ensures Now() == old(Now()).On(OpFor(matches, Host1, s), o1).On(OpFor(matches, Host2, s), o2)
    {
      Perform(OpFor(matches, Host1, s), o1);
      Perform(OpFor(matches, Host2, s), o2);
    }

    // A whole message, as received into the buffer: n is what the socket returned.
    method ReceiveUevent(buffer: UeventBuffer, n: int, matches: (HostPort, string) -> bool, world: nat -> Outcome)
      requires Valid()
      requires buffer.msg.Length == UEVENT_MSG_LEN + 2 && buffer.furthest == -1
      modifies this, buffer, buffer.msg
      ensures Valid()
      ensures buffer.furthest <= (if 0 < n < UEVENT_MSG_LEN then n + 1 else -1)
      ensures var strings := if 0 < n < UEVENT_MSG_LEN then Visited(old(buffer.msg[..n])) else [];
              && Now() == AfterOps(old(Now()), Ops(matches, strings), world, 2 * |strings|)
              && forall port: HostPort :: port in Now().Ports() <==>
                   HasFile(port in old(Now().Ports()), matches, strings, world, port, |strings|)
    {
      var strings := buffer.Walk(n);
      HandleUevent(strings, matches, world);
    }

    method Perform(op: Op, o: Outcome)
      requires Valid()
      modifies this
      ensures Valid() && Now() == old(Now()).On(op, o)
    {
      match op {
        case Bind(port) =>
          var status := AddEpollFile(port, o);
        case Unbind(port) =>
          RemoveEpollFile(port);
        case Ignore =>
      }
    }
  }
}
