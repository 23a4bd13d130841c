/** The node and the processes of the actor runtime.  Timers always start and pids are fresh;
    what the callbacks of timers do is what the methods that carry their names do, in
    whatever order they are called. */
module ActorNode {
  import opened ActorState
  import opened ActorSpread

  class Process {
    const pid: Pid
    var links: set<Pid>
    var trapExit: bool
    var inbox: seq<Message>
    var exitReason: string

    constructor (pid: Pid)
      ensures this.pid == pid && Value() == FRESH
    {
      this.pid := pid;
      links, trapExit, inbox, exitReason := {}, false, [], "";
    }

    function Value(): Proc
      reads this
    {
      Proc(links, trapExit, inbox, exitReason)
    }
  }

  class Node {
    var registry: map<Pid, Process>
    var timedSignals: map<nat, SignalDelivery>
    var timedMessages: map<nat, MessageDelivery>
    var names: map<string, Pid>
    var nextSignalRef: nat
    var nextTRef: nat

    constructor ()
      ensures Valid() && State() == ActorState.State(map[], map[], map[], map[], 1, 1)
    {
      registry, timedSignals, timedMessages, names := map[], map[], map[], map[];
      nextSignalRef, nextTRef := 1, 1;
    }

    /** Every process is registered under its own pid. */
    ghost predicate Distinct()
      reads this`registry
    {
      forall p: Pid :: p in registry ==> registry[p].pid == p
    }

    ghost function Procs(): (m: map<Pid, Proc>)
      reads this`registry, registry.Values
    {
      map p | p in registry :: registry[p].Value()
    }

    ghost function State(): State
      reads this, registry.Values
    {
      ActorState.State(Procs(), timedSignals, timedMessages, names, nextSignalRef, nextTRef)
    }

    ghost predicate Valid()
      reads this, registry.Values
    {
      Distinct() && Inv(State())
    }

    // ----- Signals --------------------------------------------------------------------------------

    /** signal */
    method Signal(pid: Pid, signal: Signal)
      modifies this`timedSignals, this`nextSignalRef
      ensures State() == Signalled(old(State()), pid, signal)
      ensures timedSignals == old(timedSignals)[old(nextSignalRef) := SignalDelivery(pid, signal)]
      ensures nextSignalRef == old(nextSignalRef) + 1
    {
      timedSignals := timedSignals[nextSignalRef := SignalDelivery(pid, signal)];
      nextSignalRef := nextSignalRef + 1;
    }

    /** exit: tells `pid2` that `pid` has ended. */
    method Exit(pid: Pid, pid2: Pid, reason: string)
      requires Valid()
      modifies this`timedSignals, this`nextSignalRef
      ensures Valid() && State() == Signalled(old(State()), pid2, ActorState.Signal(pid, reason))
    {
      SignalledKeeps(State(), pid2, ActorState.Signal(pid, reason));
      Signal(pid2, ActorState.Signal(pid, reason));
    }

    /** The destructor of a process: exit signals for its links, in some order. */
    method SignalLinks(pid: Pid, links: set<Pid>, reason: string)
      requires forall r: nat :: r in timedSignals ==> r < nextSignalRef
      modifies this`timedSignals, this`nextSignalRef
      ensures nextSignalRef == old(nextSignalRef) + |links|
      ensures SignalsAdded(old(timedSignals), timedSignals, old(nextSignalRef), pid, links, reason)
    {
      hide *;
      var rest := links;
      ghost var done: set<Pid> := {};
      NoSignals(timedSignals, nextSignalRef, pid, reason);
      while rest != {}
        invariant done + rest == links && done !! rest
        invariant nextSignalRef == old(nextSignalRef) + |done|
        invariant forall r: nat :: r in timedSignals ==> r < nextSignalRef
        invariant SignalsAdded(old(timedSignals), timedSignals, old(nextSignalRef), pid, done, reason)
        decreases rest
      {
        var pid2: Pid :| pid2 in rest;
        OneSignal(old(timedSignals), timedSignals, old(nextSignalRef), nextSignalRef, pid, done, reason, pid2);
        Signal(pid2, ActorState.Signal(pid, reason));
        assert |done + {pid2}| == |done| + 1;
        rest := rest - {pid2};
        done := done + {pid2};
      }
      assert done == links;
    }

    // ----- Links -----------------------------------------------------------------------------------

    /** `links.emplace`, in the process `p`. */
    method AddLink(p: Pid, q: Pid)
      requires Distinct() && p in registry
      modifies registry[p]
      ensures Procs() == old(Procs())[p := old(Procs())[p].(links := old(Procs())[p].links + {q})]
    {
      registry[p].links := registry[p].links + {q};
    }

    /** `links.erase`, in the process `p` if there is one. */
    method EraseLink(p: Pid, q: Pid) returns (erased: bool)
      requires Distinct()
      modifies if p in registry then {registry[p]} else {}
      ensures Procs() == Cut(old(Procs()), p, q)
      ensures erased <==> p in registry && q in old(Procs())[p].links
    {
      erased := false;
      if p in registry {
        erased := q in registry[p].links;
        registry[p].links := registry[p].links - {q};
      }
    }

    /** Process::link, of the live process `p`. */
    method Link(p: Pid, pid2: Pid) returns (ok: bool)
      requires Valid() && p in registry
      modifies registry.Values
      ensures Valid() && ok == (pid2 in registry)
      ensures State() == if ok then Linked(old(State()), p, pid2) else old(State())
    {
      hide Inv, Node.Procs;
      ProcsKeys(this);
      ok := false;
      if pid2 in registry {
        LinkedKeeps(State(), p, pid2);
        AddLink(p, pid2);
        AddLink(pid2, p);
        ok := true;
      }
    }

    /** Process::unlink: true if the link was there in both directions. */
    method Unlink(p: Pid, pid2: Pid) returns (ok: bool)
      requires Valid() && p in registry
      modifies registry.Values
      ensures Valid() && State() == Unlinked(old(State()), p, pid2)
      ensures ok <==> p != pid2 && pid2 in registry && pid2 in old(registry[p].links)
    {
      hide Inv, Node.Procs;
      ProcsKeys(this);
      BothWays(State(), p, pid2);
      UnlinkedKeeps(State(), p, pid2);
      var erasedOurs := EraseLink(p, pid2);
      ok := EraseLink(pid2, p);
      ok := ok && erasedOurs;
    }

    // ----- Births and messages -----------------------------------------------------------------------

    /** The constructor of a process, and its place in the registry. */
    method Register(p: Pid)
      requires p !in registry && Distinct()
      modifies this`registry
      ensures p in registry && fresh(registry[p]) && registry == old(registry)[p := registry[p]]
      ensures Distinct() && Procs() == old(Procs())[p := FRESH]
    {
      var process := new Process(p);
      registry := registry[p := process];
      OneProcMore(old(Procs()), Procs(), p);
    }

    /** _spawn: a new process, linked to `initial` if that is a live one. */
    method Spawn(p: Pid, initial: MaybePid)
      requires Valid() && Unknown(State(), p)
      modifies this`registry, registry.Values
      ensures Valid() && State() == Spawned(old(State()), p, initial)
      ensures p in registry && fresh(registry[p]) && registry == old(registry)[p := registry[p]]
    {
      hide Inv, Unknown, Node.Procs;
      NotRegistered(this, p);
      SpawnedKeeps(State(), p, initial);
      ProcsKeys(this);
      Register(p);
      ProcsKeys(this);
      if initial.APid? && initial.pid in registry && initial.pid != p {
        AddLink(p, initial.pid);
        AddLink(initial.pid, p);
      }
    }

    /** process_flag, for the one flag there is. */
    method TrapExit(p: Pid, setting: bool) returns (ok: bool)
      requires Valid()
      modifies if p in registry then {registry[p]} else {}
      ensures Valid() && ok == (p in registry)
      ensures State() == if ok then
                           old(State()).(procs := old(Procs())[p := old(Procs())[p].(trapExit := setting)])
                         else old(State())
    {
      hide Inv;
      ok := p in registry;
      if ok {
        FlagKeeps(State(), p, setting);
        registry[p].trapExit := setting;
        assert Procs() == old(Procs())[p := old(Procs())[p].(trapExit := setting)];
      }
    }

    /** send */
    method Send(p: Pid, m: Message) returns (ok: bool)
      requires Valid()
      modifies if p in registry then {registry[p]} else {}
      ensures Valid() && ok == (p in registry)
      ensures State() == if ok then Received(old(State()), p, m) else old(State())
    {
      hide Inv;
      ok := p in registry;
      if ok {
        ReceivedKeeps(State(), p, m);
        registry[p].inbox := registry[p].inbox + [m];
        assert Procs() == Received(old(State()), p, m).procs;
      }
    }

    /** send_after and send_interval: only messages to live processes are kept.  Returns 0 if
        there is none. */
    method SendAfter(p: Pid, m: Message, recurring: bool) returns (tref: nat)
      requires Valid()
      modifies this`timedMessages, this`nextTRef
      ensures Valid() && (tref > 0 <==> p in registry)
      ensures tref == 0 ==> State() == old(State())
      ensures tref > 0 ==>
                tref == old(nextTRef) && nextTRef == tref + 1
                && timedMessages == old(timedMessages)[tref := MessageDelivery(p, m, recurring)]
    {
      hide Inv;
      InvMeans(State());
      tref := 0;
      if p in registry {
        MessageKeeps(State(), p, m, recurring);
        tref := nextTRef;
        timedMessages := timedMessages[tref := MessageDelivery(p, m, recurring)];
        nextTRef := nextTRef + 1;
      }
    }

    /** cancel */
    method Cancel(tref: nat) returns (ok: bool)
      requires Valid()
      modifies this`timedMessages
      ensures Valid() && ok == (tref in old(timedMessages)) && timedMessages == Without(old(timedMessages), tref)
    {
      hide Inv;
      FewerMessages(State(), Without(timedMessages, tref));
      ok := tref in timedMessages;
      timedMessages := Without(timedMessages, tref);
    }

    /** timer_callback: the message is sent, and comes again if it is a recurring one.  Its
        process is always there. */
    method TimerCallback(tref: nat) returns (sent: bool)
      requires Valid()
      modifies this`timedMessages, registry.Values
      ensures Valid() && sent == (tref in old(timedMessages))
      ensures sent ==>
                var d := old(timedMessages)[tref];
                && d.pid in registry && Procs() == Received(old(State()), d.pid, d.message).procs
                && timedMessages == (if d.recurring then old(timedMessages) else Without(old(timedMessages), tref))
    {
      hide *;
      StateIs(this);
      sent := false;
      if tref in timedMessages {
        var d := timedMessages[tref];
        TimerTarget(this, tref);
        sent := Send(d.pid, d.message);
        StateIs(this);
        if !d.recurring {
          var _ := Cancel(tref);
        }
      }
    }

    // ----- Names ----------------------------------------------------------------------------------------

    method RegisterName(name: string, p: Pid)
      requires Valid()
      modifies this`names
      ensures Valid() && names == old(names)[name := p]
    {
      OtherNames(State(), names[name := p]);
      hide Inv;
      names := names[name := p];
    }

    method Unregister(name: string) returns (ok: bool)
      requires Valid()
      modifies this`names
      ensures Valid() && ok == (name in old(names)) && names == Without(old(names), name)
    {
      OtherNames(State(), Without(names, name));
      hide Inv;
      ok := name in names;
      names := Without(names, name);
    }

    method WhereIs(name: string) returns (p: MaybePid)
      ensures p == if name in names then APid(names[name]) else NoPid
    {
      p := if name in names then APid(names[name]) else NoPid;
    }

    // ----- Deaths ---------------------------------------------------------------------------------------

    /** terminate: everything meant for the process goes, its names go, and the process goes,
        if there is one, and tells its links why.  True if there was one. */
    method Terminate(p: Pid) returns (erased: bool)
      requires Distinct() && AlmostInv(State(), p)
      modifies this`registry, this`timedMessages, this`timedSignals, this`names, this`nextSignalRef
      ensures Valid() && IsTerminated(old(State()), State(), p)
      ensures registry == Without(old(registry), p) && erased == (p in old(registry))
      ensures forall name: string :: name in names ==> names[name] != p
    {
      hide *;
      ghost var s, was := State(), registry;
      StateIs(this);
      AlmostMeans(s, p);
      timedMessages := MessagesNotTo(timedMessages, p);
      timedSignals := SignalsNotTo(timedSignals, p);
      names := NamesNotOf(names, p);
      erased := p in registry;
      var links, reason := {}, "";
      if erased {
        links, reason := registry[p].links, registry[p].exitReason;
        registry := Without(registry, p);
      }
      Unregistered(this, was, s.procs, p);
      StillBelow(s.signals, p, nextSignalRef);
      SignalLinks(p, links, reason);
      Unregistered(this, was, s.procs, p);
      StateIs(this);
      NowTerminated(s, State(), p, links, reason);
      TerminatedKeeps(s, State(), p);
      MakeValid(this);
      NoNames(s.names, p);
    }

    /** Process::exit: a process ends for the reason it gives. */
    method ExitProcess(p: Pid, reason: string)
      requires Valid() && p in registry
      modifies this`registry, this`timedMessages, this`timedSignals, this`names, this`nextSignalRef, registry[p]
      ensures Valid() && registry == Without(old(registry), p)
      ensures IsTerminated(WithReason(old(State()), p, reason), State(), p)
    {
      hide IsTerminated, Inv;
      ReasonKeeps(State(), p, reason);
      registry[p].exitReason := reason;
      assert Procs() == WithReason(old(State()), p, reason).procs;
      var _ := Terminate(p);
    }

    /** process_signal */
    method ProcessSignal(p: Pid, signal: Signal) returns (ok: bool)
      requires Valid()
      modifies this`registry, this`timedMessages, this`timedSignals, this`names, this`nextSignalRef, registry.Values
      ensures Valid() && IsProcessed(old(State()), State(), p, signal)
      ensures registry == old(registry) || (p in old(registry) && registry == Without(old(registry), p))
      ensures ok == (p in old(registry))
    {
      hide IsProcessed, IsTerminated, Inv, Links;
      ok := false;
      ghost var s := State();
      if p !in registry {
        ToDead(s, p, signal);
      } else {
        var _ := Unlink(p, signal.from);
        ghost var u := State();
        ToLive(s, p, signal);
        if registry[p].trapExit && signal.reason != "kill" {
          ok := Send(p, Message("kill", APid(signal.from), signal.reason));
        } else if signal.reason == "normal" {
          ok := true;
        } else {
          AlmostOf(u, p);
          var _ := Terminate(p);
          Dies(s, State(), p, signal);
          ok := true;
        }
      }
    }

    /** signal_timer_callback: signal `ref` is processed, and forgotten. */
    method SignalTimerCallback(ref: nat) returns (ok: bool)
      requires Valid()
      modifies this`registry, this`timedMessages, this`timedSignals, this`names, this`nextSignalRef, registry.Values
      ensures Valid()
      ensures ref in old(timedSignals) ==> IsDelivered(old(State()), State(), ref)
      ensures ref !in old(timedSignals) ==> State() == old(State()) && registry == old(registry)
      ensures ref in old(timedSignals) ==>
                |registry| < |old(registry)|
                || (registry == old(registry) && |timedSignals| < |old(timedSignals)|)
      ensures registry.Keys <= old(registry.Keys) && registry.Values <= old(registry.Values)
    {
      hide IsProcessed, Inv;
      ok := false;
      if ref in timedSignals {
        ghost var s := State();
        var d := timedSignals[ref];
        ok := ProcessSignal(d.pid, d.signal);
        ghost var t := State();
        timedSignals := Without(timedSignals, ref);
        DeliveredBy(s, t, State(), ref);
        DeliveredKeeps(s, State(), ref);
        Fewer(s, t, ref, old(registry), registry, timedSignals);
        NoneNew(old(registry), registry, d.pid);
      }
    }

    /** cancel_signal: anybody may cancel a signal by its number.  The links stay right exactly
        if nobody needed it. */
    method CancelSignal(ref: nat) returns (ok: bool)
      requires Valid()
      modifies this`timedSignals
      ensures ok == (ref in old(timedSignals)) && timedSignals == Without(old(timedSignals), ref)
      ensures State() == old(State()).(signals := Without(old(timedSignals), ref))
      ensures Valid() <==> !(ref in old(timedSignals) && Needed(old(State()), ref))
    {
      hide *;
      StateIs(this);
      ValidMeans(this);
      ghost var s := State();
      ok := ref in timedSignals;
      if ok {
        ActorState.CancelSignal(s, ref);
      } else {
        NothingLess(timedSignals, ref);
      }
      timedSignals := Without(timedSignals, ref);
      StateIs(this);
      ValidIs(this);
    }

    /** The timers of all signals fire, in any order, those of signals sent meanwhile
        included.  This comes to an end: every delivery kills a process, or there is one
        signal fewer. */
    method DeliverAll()
      requires Valid()
      modifies this`registry, this`timedMessages, this`timedSignals, this`names, this`nextSignalRef, registry.Values
      ensures Valid() && timedSignals == map[]
      ensures registry.Keys <= old(registry.Keys)
    {
      hide Inv, IsDelivered, Node.State;
      while timedSignals != map[]
        invariant Valid() && registry.Keys <= old(registry.Keys) && registry.Values <= old(registry.Values)
        decreases |registry|, |timedSignals|
      {
        var ref: nat :| ref in timedSignals;
        var _ := SignalTimerCallback(ref);
      }
    }

    /** The death of `p` in `s0` spreads until no signal is left. */
    method SpreadAll(ghost s0: State, ghost p: Pid, ghost reason: string)
      requires Valid() && Inv(s0) && Spreading(s0, State(), p, reason)
      modifies this`registry, this`timedMessages, this`timedSignals, this`names, this`nextSignalRef, registry.Values
      ensures Valid() && Spreading(s0, State(), p, reason) && timedSignals == map[]
      ensures registry.Values <= old(registry.Values)
    {
      hide *;
      while timedSignals != map[]
        invariant Valid() && Spreading(s0, State(), p, reason) && registry.Values <= old(registry.Values)
        decreases |registry|, |timedSignals|
      {
        var ref: nat :| ref in timedSignals;
        ghost var s := State();
        ValidMeans(this);
        var _ := SignalTimerCallback(ref);
        SpreadsOn(s0, s, State(), p, reason, ref);
      }
    }

    /** When no signal is on its way and a process ends, exactly those die that are reached from
        it through processes its signals kill, whatever the order in which they are delivered;
        the others only lose their links to the dead, and hear of them if they trap exits. */
    method ExitAndSpread(p: Pid, reason: string)
      requires Valid() && p in registry && timedSignals == map[]
      modifies this`registry, this`timedMessages, this`timedSignals, this`names, this`nextSignalRef, registry.Values
      ensures Valid() && timedSignals == map[]
      ensures Aftermath(old(State()), State(), p, reason)
    {
      hide *;
      ghost var s0 := State();
      ValidMeans(this);
      ExitProcess(p, reason);
      ReasonIs(s0, p, reason);
      SpreadStart(s0, State(), p, reason);
      NoneNew(old(registry), registry, p);
      SpreadAll(s0, p, reason);
      ValidMeans(this);
      SpreadOut(s0, State(), p, reason);
    }
  }

  // ----- A signal cancelled too soon -----------------------------------------------------------------

  const LINKED_PAIR: State :=
    ActorState.State(map[1 := Proc({2}, false, [], ""), 2 := Proc({1}, false, [], "")], map[], map[], map[], 1, 1)

  /** `2` is born with a link to `1`. */
  method LinkedPair() returns (node: Node)
    ensures fresh(node) && fresh(node.registry.Values) && node.Valid() && node.State() == LINKED_PAIR
  {
    hide *;
    node := new Node();
    StateIs(node);
    NobodyYet();
    ghost var r0 := node.registry;
    node.Spawn(1, NoPid);
    ghost var s1, r1 := node.State(), node.registry;
    OneMoreValue(r0, r1, 1);
    OnlyOne(s1);
    node.Spawn(2, APid(1));
    OneMoreValue(r1, node.registry, 2);
    TwoLinked(s1, node.State());
  }

  /** ... `1` crashes, and the signal about it is cancelled: `2` lives on with a link to a dead
      process that it is never going to hear of. */
  method CancelledTooSoon() returns (node: Node)
    ensures fresh(node) && node.registry.Keys == {2} && node.registry[2].links == {1} && node.timedSignals == map[]
    ensures !Links(node.State())
  {
    node := LinkedPair();
    hide *;
    StateIs(node);
    PairMeans();
    assert 1 in node.registry && node.registry[1] in node.registry.Values;
    node.ExitProcess(1, "crash");
    ghost var s := node.State();
    StateIs(node);
    OneSignalLeft(s);
    var _ := node.CancelSignal(1);
    StateIs(node);
    LinksGone(s, node.State());
  }

  lemma BothWays(s: State, p: Pid, q: Pid)
    requires Inv(s) && p in s.procs
    ensures q in s.procs[p].links && q in s.procs ==> p in s.procs[q].links
  {
    if q in s.procs[p].links {
      assert LinkOk(s, p, q);
    }
  }

  lemma ProcsKeys(node: Node)
    ensures node.Procs().Keys == node.registry.Keys
    ensures forall p: Pid :: p in node.registry ==> node.Procs()[p] == node.registry[p].Value()
  {
  }

  lemma NoSignals(signals: map<nat, SignalDelivery>, next: nat, p: Pid, reason: string)
    ensures SignalsAdded(signals, signals, next, p, {}, reason)
  {
  }

  /** One more signal. */
  lemma OneSignal(before: map<nat, SignalDelivery>, after: map<nat, SignalDelivery>, next: nat, ref: nat, p: Pid,
                  done: set<Pid>, reason: string, q: Pid)
    requires SignalsAdded(before, after, next, p, done, reason) && q !in done && ref == next + |done|
    requires forall r: nat :: r in after ==> r < ref
    ensures SignalsAdded(before, after[ref := SignalDelivery(q, ActorState.Signal(p, reason))], next, p,
                done + {q}, reason)
  {
    hide NewFrom, OnceEach, Told;
    var later := after[ref := SignalDelivery(q, ActorState.Signal(p, reason))];
    assert ref !in after && ref !in before;
    assert |done + {q}| == |done| + 1;
    OneMoreFrom(before, after, next, |done|, p, done, reason, ref, q);
    OneMoreOnce(before, after, next, |done|, p, done, reason, ref, q);
    forall x: Pid | x in done + {q}
      ensures Told(before, later, x)
    {
      OneMoreTold(before, after, ref, SignalDelivery(q, ActorState.Signal(p, reason)), x);
    }
  }

  lemma OneMoreFrom(before: map<nat, SignalDelivery>, after: map<nat, SignalDelivery>, next: nat, n: nat, p: Pid,
                    done: set<Pid>, reason: string, ref: nat, q: Pid)
    requires NewFrom(before, after, next, n, p, done, reason) && ref == next + n
    ensures NewFrom(before, after[ref := SignalDelivery(q, ActorState.Signal(p, reason))], next, n + 1, p,
                done + {q}, reason)
  {
  }

  lemma OneMoreOnce(before: map<nat, SignalDelivery>, after: map<nat, SignalDelivery>, next: nat, n: nat, p: Pid,
                    done: set<Pid>, reason: string, ref: nat, q: Pid)
    requires NewFrom(before, after, next, n, p, done, reason) && OnceEach(before, after)
    requires q !in done && ref !in after
    ensures OnceEach(before, after[ref := SignalDelivery(q, ActorState.Signal(p, reason))])
  {
  }

  lemma OneMoreTold(before: map<nat, SignalDelivery>, after: map<nat, SignalDelivery>, ref: nat,
                    d: SignalDelivery, x: Pid)
    requires ref !in after && ref !in before && (x == d.pid || Told(before, after, x))
    ensures Told(before, after[ref := d], x)
  {
    var later := after[ref := d];
    if x == d.pid {
      assert ref in later && ref !in before && later[ref].pid == x;
    } else {
      var r: nat :| r in after && r !in before && after[r].pid == x;
      assert r in later && r !in before && later[r].pid == x;
    }
  }

  lemma NotRegistered(node: Node, p: Pid)
    requires Unknown(node.State(), p)
    ensures p !in node.registry
  {
  }

  lemma OneProcMore(before: map<Pid, Proc>, after: map<Pid, Proc>, p: Pid)
    requires after.Keys == before.Keys + {p} && p !in before && after[p] == FRESH
    requires forall q: Pid :: q in before ==> after[q] == before[q]
    ensures after == before[p := FRESH]
  {
  }

  lemma StateIs(node: Node)
    ensures node.State() == ActorState.State(node.Procs(), node.timedSignals, node.timedMessages, node.names,
                                             node.nextSignalRef, node.nextTRef)
    ensures node.Procs().Keys == node.registry.Keys
    ensures forall q: Pid :: q in node.registry ==> node.Procs()[q] == node.registry[q].Value()
    ensures forall q: Pid :: q in node.registry ==>
              node.registry[q].Value().links == node.registry[q].links
              && node.registry[q].Value().exitReason == node.registry[q].exitReason
    ensures node.Distinct() <==> forall q: Pid :: q in node.registry ==> node.registry[q].pid == q
  {
  }

  lemma MakeValid(node: Node)
    requires node.Distinct() && Inv(node.State())
    ensures node.Valid()
  {
    hide Inv;
  }

  /** A registry without `p`. */
  lemma Unregistered(node: Node, was: map<Pid, Process>, procs: map<Pid, Proc>, p: Pid)
    requires procs.Keys == was.Keys && forall q: Pid :: q in was ==> procs[q] == was[q].Value()
    requires node.registry == if p in was then Without(was, p) else was
    requires forall q: Pid :: q in was ==> was[q].pid == q
    ensures node.Procs() == Without(procs, p) && node.Distinct() && node.registry == Without(was, p)
  {
  }

  lemma StillBelow(signals: map<nat, SignalDelivery>, p: Pid, n: nat)
    requires forall r: nat :: r in signals ==> r < n
    ensures forall r: nat :: r in SignalsNotTo(signals, p) ==> r < n
  {
  }

  lemma NoNames(names: map<string, Pid>, p: Pid)
    ensures forall name: string :: name in NamesNotOf(names, p) ==> NamesNotOf(names, p)[name] != p
  {
  }

  lemma FlagKeeps(s: State, p: Pid, setting: bool)
    requires Inv(s) && p in s.procs
    ensures Inv(s.(procs := s.procs[p := s.procs[p].(trapExit := setting)]))
  {
    var t := s.(procs := s.procs[p := s.procs[p].(trapExit := setting)]);
    forall a: Pid, b: Pid | a in t.procs && b in t.procs[a].links
      ensures LinkOk(t, a, b)
    {
      assert LinkOk(s, a, b);
      PendingStays(s, t, a, b);
    }
  }

  lemma MessageKeeps(s: State, p: Pid, m: Message, recurring: bool)
    requires Inv(s) && p in s.procs
    ensures Inv(s.(messages := s.messages[s.nextMessage := MessageDelivery(p, m, recurring)],
                   nextMessage := s.nextMessage + 1))
  {
    var t := s.(messages := s.messages[s.nextMessage := MessageDelivery(p, m, recurring)],
                nextMessage := s.nextMessage + 1);
    forall a: Pid, b: Pid | a in t.procs && b in t.procs[a].links
      ensures LinkOk(t, a, b)
    {
      assert LinkOk(s, a, b);
      PendingStays(s, t, a, b);
    }
  }

  lemma FewerMessages(s: State, messages: map<nat, MessageDelivery>)
    requires Inv(s) && forall r: nat :: r in messages ==> r in s.messages && messages[r] == s.messages[r]
    ensures Inv(s.(messages := messages))
  {
    var t := s.(messages := messages);
    forall a: Pid, b: Pid | a in t.procs && b in t.procs[a].links
      ensures LinkOk(t, a, b)
    {
      assert LinkOk(s, a, b);
      PendingStays(s, t, a, b);
    }
  }

  lemma OtherNames(s: State, names: map<string, Pid>)
    requires Inv(s)
    ensures Inv(s.(names := names))
  {
    var t := s.(names := names);
    forall a: Pid, b: Pid | a in t.procs && b in t.procs[a].links
      ensures LinkOk(t, a, b)
    {
      assert LinkOk(s, a, b);
      PendingStays(s, t, a, b);
    }
  }

  lemma TimerTarget(node: Node, tref: nat)
    requires node.Valid() && tref in node.timedMessages
    ensures node.timedMessages[tref].pid in node.registry
  {
    assert tref in node.State().messages;
  }

  /** The invariant, but for the reason `p` ends for. */
  ghost predicate AlmostInv(s: State, p: Pid) {
    && Links(s)
    && (forall r: nat :: r in s.messages ==> s.messages[r].pid in s.procs && r < s.nextMessage)
    && (forall r: nat :: r in s.signals ==> r < s.nextSignal)
    && s.nextMessage > 0
    && forall q: Pid :: q in s.procs && q != p ==> s.procs[q].exitReason == ""
  }

  lemma AlmostMeans(s: State, p: Pid)
    requires AlmostInv(s, p)
    ensures Links(s)
    ensures forall r: nat :: r in s.messages ==> s.messages[r].pid in s.procs && r < s.nextMessage
    ensures forall r: nat :: r in s.signals ==> r < s.nextSignal
    ensures s.nextMessage > 0
    ensures forall q: Pid :: q in s.procs && q != p ==> s.procs[q].exitReason == ""
  {
  }

  lemma AlmostOf(s: State, p: Pid)
    requires Inv(s)
    ensures AlmostInv(s, p)
  {
  }

  lemma NowTerminated(s: State, s': State, p: Pid, links: set<Pid>, reason: string)
    requires links == (if p in s.procs then s.procs[p].links else {})
    requires reason == (if p in s.procs then s.procs[p].exitReason else "")
    requires s'.procs == Without(s.procs, p)
    requires s'.messages == MessagesNotTo(s.messages, p) && s'.nextMessage == s.nextMessage
    requires s'.names == NamesNotOf(s.names, p)
    requires s'.nextSignal == s.nextSignal + |links|
    requires SignalsAdded(SignalsNotTo(s.signals, p), s'.signals, s.nextSignal, p, links, reason)
    ensures IsTerminated(s, s', p)
  {
    hide SignalsAdded, SignalsNotTo, MessagesNotTo, NamesNotOf;
  }

  ghost function WithReason(s: State, p: Pid, reason: string): State
    requires p in s.procs
  {
    s.(procs := s.procs[p := s.procs[p].(exitReason := reason)])
  }

  lemma ReasonKeeps(s: State, p: Pid, reason: string)
    requires Inv(s) && p in s.procs
    ensures AlmostInv(WithReason(s, p, reason), p)
  {
    var t := WithReason(s, p, reason);
    forall a: Pid, b: Pid | a in t.procs && b in t.procs[a].links
      ensures LinkOk(t, a, b)
    {
      assert LinkOk(s, a, b);
      PendingStays(s, t, a, b);
    }
  }

  lemma ToDead(s: State, p: Pid, signal: Signal)
    requires p !in s.procs
    ensures IsProcessed(s, s, p, signal)
  {
  }

  /** What becomes of a live process, once it is unlinked. */
  lemma ToLive(s: State, p: Pid, signal: Signal)
    requires p in s.procs
    ensures var u := Unlinked(s, p, signal.from);
            && p in u.procs
            && (u.procs[p].trapExit && signal.reason != "kill" ==>
                IsProcessed(s, Received(u, p, Message("kill", APid(signal.from), signal.reason)), p, signal))
            && (!(u.procs[p].trapExit && signal.reason != "kill") && signal.reason == "normal" ==>
                IsProcessed(s, u, p, signal))
  {
  }

  lemma Dies(s: State, t: State, p: Pid, signal: Signal)
    requires p in s.procs
    requires var u := Unlinked(s, p, signal.from);
             && !(u.procs[p].trapExit && signal.reason != "kill") && signal.reason != "normal"
             && IsTerminated(u, t, p)
    ensures IsProcessed(s, t, p, signal)
  {
  }

  lemma DeliveredBy(s: State, t: State, s': State, r: nat)
    requires r in s.signals && IsProcessed(s, t, s.signals[r].pid, s.signals[r].signal)
    requires s' == t.(signals := Without(t.signals, r))
    ensures IsDelivered(s, s', r)
  {
  }

  lemma NoneNew(before: map<Pid, Process>, after: map<Pid, Process>, p: Pid)
    requires after == before || after == Without(before, p)
    ensures after.Keys <= before.Keys && after.Values <= before.Values
  {
    forall x: Process | x in after.Values
      ensures x in before.Values
    {
      var q: Pid :| q in after && after[q] == x;
      assert q in before && before[q] == x;
    }
  }

  /** Signals only go when their process does. */
  lemma OnlyDeathsRemove(s: State, t: State, p: Pid, signal: Signal)
    requires IsProcessed(s, t, p, signal)
    ensures (p in s.procs && p !in t.procs) || (t.signals == s.signals && (p in s.procs <==> p in t.procs))
  {
    hide SignalsAdded, SignalsNotTo;
  }

  /** Every delivery makes the processes fewer, or the signals. */
  lemma Fewer(s: State, t: State, r: nat, before: map<Pid, Process>, after: map<Pid, Process>,
              signals: map<nat, SignalDelivery>)
    requires r in s.signals && IsProcessed(s, t, s.signals[r].pid, s.signals[r].signal)
    requires s.procs.Keys == before.Keys && t.procs.Keys == after.Keys && signals == Without(t.signals, r)
    requires after == before || (s.signals[r].pid in before && after == Without(before, s.signals[r].pid))
    ensures |after| < |before| || (after == before && |signals| < |s.signals|)
  {
    hide IsTerminated, Unlinked, Received;
    var p := s.signals[r].pid;
    OnlyDeathsRemove(s, t, p, s.signals[r].signal);
    if after == before {
      assert signals.Keys == s.signals.Keys - {r};
      assert |signals.Keys| < |s.signals.Keys|;
    } else {
      assert after.Keys == before.Keys - {p};
      assert |after.Keys| < |before.Keys|;
    }
  }

  lemma ValidMeans(node: Node)
    requires node.Valid()
    ensures Inv(node.State()) && node.Distinct() && node.State().signals == node.timedSignals
    ensures node.State().procs.Keys == node.registry.Keys
  {
    hide Inv;
  }

  lemma ReasonIs(s: State, p: Pid, reason: string)
    requires p in s.procs
    ensures WithReason(s, p, reason) == s.(procs := s.procs[p := s.procs[p].(exitReason := reason)])
  {
  }

  lemma NothingLess(signals: map<nat, SignalDelivery>, r: nat)
    requires r !in signals
    ensures Without(signals, r) == signals
  {
  }

  lemma ValidIs(node: Node)
    ensures node.Valid() <==> node.Distinct() && Inv(node.State())
  {
    hide Inv;
  }

  lemma OneMoreValue(before: map<Pid, Process>, after: map<Pid, Process>, p: Pid)
    requires p in after && after == before[p := after[p]]
    ensures after.Values <= before.Values + {after[p]}
    ensures before.Keys == {} ==> before.Values == {}
  {
  }

  lemma NobodyYet()
    ensures Unknown(ActorState.State(map[], map[], map[], map[], 1, 1), 1)
  {
  }

  lemma OnlyOne(s: State)
    requires s == Spawned(ActorState.State(map[], map[], map[], map[], 1, 1), 1, NoPid)
    ensures s == ActorState.State(map[1 := FRESH], map[], map[], map[], 1, 1) && Unknown(s, 2)
  {
  }

  lemma TwoLinked(s: State, t: State)
    requires s == ActorState.State(map[1 := FRESH], map[], map[], map[], 1, 1) && t == Spawned(s, 2, APid(1))
    ensures t == LINKED_PAIR
  {
    assert FRESH.links + {1} == {1} && FRESH.links + {2} == {2};
  }

  lemma PairMeans()
    ensures LINKED_PAIR.procs.Keys == {1, 2}
  {
  }

  lemma OneSignalLeft(t: State)
    requires IsTerminated(WithReason(LINKED_PAIR, 1, "crash"), t, 1)
    ensures t.procs == map[2 := Proc({1}, false, [], "")]
    ensures t.signals == map[1 := SignalDelivery(2, ActorState.Signal(1, "crash"))]
    ensures Needed(t, 1)
  {
    assert SignalsNotTo(map[], 1) == map[];
    assert Told(map[], t.signals, 2);
  }

  lemma LinksGone(s: State, t: State)
    requires s.procs == map[2 := Proc({1}, false, [], "")]
    requires s.signals == map[1 := SignalDelivery(2, ActorState.Signal(1, "crash"))]
    requires t == s.(signals := Without(s.signals, 1))
    ensures t.signals == map[] && !Links(t)
  {
    assert !LinkOk(t, 2, 1);
  }
}
