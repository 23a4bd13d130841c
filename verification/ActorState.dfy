/** Links and exit signals of the actor runtime: the state of a node as a value, what the
    operations make of it, and what holds in every state they lead to. */
module ActorState {

  type Pid = nat

  datatype MaybePid = NoPid | APid(pid: Pid)

  datatype Signal = Signal(from: Pid, reason: string)

  datatype Message = Message(kind: string, from: MaybePid, payload: string)

  /** A signal, or a message, that a timer is going to deliver to `pid`. */
  datatype SignalDelivery = SignalDelivery(pid: Pid, signal: Signal)
  datatype MessageDelivery = MessageDelivery(pid: Pid, message: Message, recurring: bool)

  datatype Proc = Proc(links: set<Pid>, trapExit: bool, inbox: seq<Message>, exitReason: string)

  datatype State = State(
    procs: map<Pid, Proc>,
    signals: map<nat, SignalDelivery>,
    messages: map<nat, MessageDelivery>,
    names: map<string, Pid>,
    nextSignal: nat,
    nextMessage: nat)

  // ----- What the operations do -------------------------------------------------------------------

  function Linked(s: State, p: Pid, q: Pid): State
    requires p in s.procs && q in s.procs
  {
    var procs := s.procs[p := s.procs[p].(links := s.procs[p].links + {q})];
    s.(procs := procs[q := procs[q].(links := procs[q].links + {p})])
  }

  /** One direction of a link is taken away, if the process is there. */
  function Cut(procs: map<Pid, Proc>, p: Pid, q: Pid): (r: map<Pid, Proc>)
    ensures r.Keys == procs.Keys
  {
    if p in procs then procs[p := procs[p].(links := procs[p].links - {q})] else procs
  }

  function Unlinked(s: State, p: Pid, q: Pid): State {
    s.(procs := Cut(Cut(s.procs, p, q), q, p))
  }

  const FRESH: Proc := Proc({}, false, [], "")

  /** A process that is linked to `initial` if that is a live process. */
  function Spawned(s: State, p: Pid, initial: MaybePid): State
    requires p !in s.procs
  {
    var t := s.(procs := s.procs[p := FRESH]);
    if initial.APid? && initial.pid in s.procs then Linked(t, p, initial.pid) else t
  }

  function Signalled(s: State, target: Pid, signal: Signal): State {
    s.(signals := s.signals[s.nextSignal := SignalDelivery(target, signal)], nextSignal := s.nextSignal + 1)
  }

  function Received(s: State, p: Pid, m: Message): State
    requires p in s.procs
  {
    s.(procs := s.procs[p := s.procs[p].(inbox := s.procs[p].inbox + [m])])
  }

  function Without<K, V>(m: map<K, V>, k: K): map<K, V> {
    map j | j in m && j != k :: m[j]
  }

  /** What is not going to `p`. */
  function SignalsNotTo(signals: map<nat, SignalDelivery>, p: Pid): map<nat, SignalDelivery> {
    map r | r in signals && signals[r].pid != p :: signals[r]
  }

  function MessagesNotTo(messages: map<nat, MessageDelivery>, p: Pid): map<nat, MessageDelivery> {
    map r | r in messages && messages[r].pid != p :: messages[r]
  }

  function NamesNotOf(names: map<string, Pid>, p: Pid): map<string, Pid> {
    map n | n in names && names[n] != p :: names[n]
  }

  ghost predicate Kept(before: map<nat, SignalDelivery>, after: map<nat, SignalDelivery>) {
    forall r: nat :: r in before ==> r in after && after[r] == before[r]
  }

  ghost predicate NewFrom(before: map<nat, SignalDelivery>, after: map<nat, SignalDelivery>, next: nat, n: nat,
                          p: Pid, links: set<Pid>, reason: string) {
    forall r: nat :: r in after && r !in before ==>
      next <= r < next + n && after[r].pid in links && after[r].signal == Signal(p, reason)
  }

  ghost predicate OnceEach(before: map<nat, SignalDelivery>, after: map<nat, SignalDelivery>) {
    forall r: nat, t: nat ::
      (r in after && t in after && r !in before && t !in before && after[r].pid == after[t].pid) ==> r == t
  }

  ghost predicate Told(before: map<nat, SignalDelivery>, after: map<nat, SignalDelivery>, q: Pid) {
    exists r: nat :: r in after && r !in before && after[r].pid == q
  }

  ghost predicate AllTold(before: map<nat, SignalDelivery>, after: map<nat, SignalDelivery>, links: set<Pid>) {
    forall q: Pid :: q in links ==> Told(before, after, q)
  }

  /** `after` is `before` and one new signal from `p` for each of `links`, in whatever
      order. */
  ghost predicate SignalsAdded(before: map<nat, SignalDelivery>, after: map<nat, SignalDelivery>, next: nat,
                               p: Pid, links: set<Pid>, reason: string) {
    && Kept(before, after) && NewFrom(before, after, next, |links|, p, links, reason)
    && OnceEach(before, after) && AllTold(before, after, links)
  }

  /** A process as it was when it ended; nothing if there was none. */
  function LastOf(s: State, p: Pid): Proc {
    if p in s.procs then s.procs[p] else FRESH
  }

  /** Process `p` is gone: what was meant for it is cancelled, and its links are told. */
  ghost predicate IsTerminated(s: State, s': State, p: Pid) {
    && s'.procs == Without(s.procs, p)
    && s'.messages == MessagesNotTo(s.messages, p) && s'.nextMessage == s.nextMessage
    && s'.names == NamesNotOf(s.names, p)
    && s'.nextSignal == s.nextSignal + |LastOf(s, p).links|
    && SignalsAdded(SignalsNotTo(s.signals, p), s'.signals, s.nextSignal, p, LastOf(s, p).links,
                    LastOf(s, p).exitReason)
  }

  /** What a signal does to the process it is for: first the link goes; then the process gets
      a message if it traps exits, does nothing if the exit was a normal one, and dies
      otherwise. */
  ghost predicate IsProcessed(s: State, s': State, q: Pid, signal: Signal) {
    if q !in s.procs then s' == s
    else
      var u := Unlinked(s, q, signal.from);
      if u.procs[q].trapExit && signal.reason != "kill" then
        s' == Received(u, q, Message("kill", APid(signal.from), signal.reason))
      else if signal.reason == "normal" then s' == u
      else IsTerminated(u, s', q)
  }

  /** The timer of signal `r` fires. */
  ghost predicate IsDelivered(s: State, s': State, r: nat) {
    r in s.signals &&
    exists t: State {:trigger IsProcessed(s, t, s.signals[r].pid, s.signals[r].signal)} ::
      IsProcessed(s, t, s.signals[r].pid, s.signals[r].signal) && s' == t.(signals := Without(t.signals, r))
  }

  // ----- ... in terms of each process ---------------------------------------------------------------

  /** Just the two know of a new link. */
  lemma LinkedMeans(s: State, p: Pid, q: Pid, r: Pid)
    requires p in s.procs && q in s.procs && r in s.procs
    ensures var t := Linked(s, p, q);
            && t == s.(procs := t.procs) && t.procs.Keys == s.procs.Keys
            && t.procs[r] == s.procs[r].(links := s.procs[r].links + (if r == p then {q} else {})
                                                  + (if r == q then {p} else {}))
  {
  }

  lemma UnlinkedMeans(s: State, p: Pid, q: Pid, r: Pid)
    requires r in s.procs
    ensures var t := Unlinked(s, p, q);
            && t == s.(procs := t.procs) && t.procs.Keys == s.procs.Keys
            && t.procs[r] == s.procs[r].(links := s.procs[r].links - (if r == p then {q} else {})
                                                  - (if r == q then {p} else {}))
  {
  }

  /** A new process traps no exits, has no messages and no reason to end, and knows the one it is
      linked to, which knows it. */
  lemma SpawnedMeans(s: State, p: Pid, initial: MaybePid, r: Pid)
    requires p !in s.procs && r in s.procs
    ensures var (t, live) := (Spawned(s, p, initial), initial.APid? && initial.pid in s.procs);
            && t == s.(procs := t.procs) && t.procs.Keys == s.procs.Keys + {p}
            && t.procs[p] == Proc(if live then {initial.pid} else {}, false, [], "")
            && t.procs[r] == s.procs[r].(links := s.procs[r].links + if live && r == initial.pid then {p} else {})
  {
  }

  /** A message is the last one in the mailbox. */
  lemma ReceivedMeans(s: State, p: Pid, m: Message, r: Pid)
    requires p in s.procs && r in s.procs
    ensures var t := Received(s, p, m);
            && t == s.(procs := t.procs) && t.procs.Keys == s.procs.Keys
            && t.procs[r] == s.procs[r].(inbox := s.procs[r].inbox + if r == p then [m] else [])
  {
  }

  /** What a signal does to the process it is for. */
  lemma ProcessedMeans(s: State, s': State, q: Pid, signal: Signal)
    requires IsProcessed(s, s', q, signal) && q in s.procs
    ensures var (b, trapped) := (s.procs[q], s.procs[q].trapExit && signal.reason != "kill");
            if !trapped && signal.reason != "normal" then q !in s'.procs
            else
              && q in s'.procs && s'.procs.Keys == s.procs.Keys
              && s'.procs[q] == b.(links := b.links - {signal.from},
                                   inbox := b.inbox + if trapped
                                                      then [Message("kill", APid(signal.from), signal.reason)] else [])
  {
    UnlinkedMeans(s, q, signal.from, q);
  }

  /** Who is left when a process ends, and what for. */
  lemma TerminatedMeans(s: State, s': State, p: Pid)
    requires IsTerminated(s, s', p)
    ensures p !in s'.procs
    ensures forall q: Pid :: q != p ==>
              (q in s'.procs <==> q in s.procs) && (q in s.procs ==> s'.procs[q] == s.procs[q])
    ensures forall r: nat :: r in s'.messages <==> r in s.messages && s.messages[r].pid != p
    ensures forall r: nat :: r in s'.messages ==> s'.messages[r] == s.messages[r]
    ensures forall n: string :: n in s'.names <==> n in s.names && s.names[n] != p
    ensures forall n: string :: n in s'.names ==> s'.names[n] == s.names[n]
  {
  }

  // ----- What holds in every state -----------------------------------------------------------------------

  /** A signal from `q` to `p` is on its way. */
  ghost predicate Pending(s: State, p: Pid, q: Pid) {
    exists r: nat :: r in s.signals && s.signals[r].pid == p && s.signals[r].signal.from == q
  }

  /** Links between live processes go both ways, and a link to a process that is no more is
      about to be signalled. */
  ghost predicate LinkOk(s: State, p: Pid, q: Pid)
    requires p in s.procs && q in s.procs[p].links
  {
    if q in s.procs then p in s.procs[q].links else Pending(s, p, q)
  }

  ghost predicate Links(s: State) {
    forall p: Pid, q: Pid :: p in s.procs && q in s.procs[p].links ==> LinkOk(s, p, q)
  }

  ghost predicate Inv(s: State) {
    && Links(s)
    && (forall r: nat :: r in s.messages ==> s.messages[r].pid in s.procs && r < s.nextMessage)
    && (forall r: nat :: r in s.signals ==> r < s.nextSignal)
    && s.nextMessage > 0
    && forall p: Pid :: p in s.procs ==> s.procs[p].exitReason == ""
  }

  /** No process has a link to `p`. */
  ghost predicate Unknown(s: State, p: Pid) {
    p !in s.procs && forall q: Pid :: q in s.procs ==> p !in s.procs[q].links
  }

  lemma LinkedKeeps(s: State, p: Pid, q: Pid)
    requires Inv(s) && p in s.procs && q in s.procs
    ensures Inv(Linked(s, p, q))
  {
    var t := Linked(s, p, q);
    forall a: Pid, b: Pid | a in t.procs && b in t.procs[a].links
      ensures LinkOk(t, a, b)
    {
      if b in s.procs[a].links {
        assert LinkOk(s, a, b);
        PendingStays(s, t, a, b);
      }
    }
  }

  lemma PendingStays(s: State, t: State, p: Pid, q: Pid)
    requires forall r: nat :: r in s.signals && s.signals[r].pid == p ==> r in t.signals && t.signals[r] == s.signals[r]
    ensures Pending(s, p, q) ==> Pending(t, p, q)
  {
  }

  lemma UnlinkedKeeps(s: State, p: Pid, q: Pid)
    requires Inv(s) && p in s.procs
    ensures Inv(Unlinked(s, p, q))
    ensures q !in Unlinked(s, p, q).procs[p].links
  {
    var t := Unlinked(s, p, q);
    forall a: Pid, b: Pid | a in t.procs && b in t.procs[a].links
      ensures LinkOk(t, a, b)
    {
      assert LinkOk(s, a, b);
      PendingStays(s, t, a, b);
    }
  }

  lemma SpawnedKeeps(s: State, p: Pid, initial: MaybePid)
    requires Inv(s) && Unknown(s, p)
    ensures Inv(Spawned(s, p, initial))
  {
    var t := s.(procs := s.procs[p := FRESH]);
    forall a: Pid, b: Pid | a in t.procs && b in t.procs[a].links
      ensures LinkOk(t, a, b)
    {
      assert LinkOk(s, a, b);
      PendingStays(s, t, a, b);
    }
    if initial.APid? && initial.pid in s.procs {
      LinkedKeeps(t, p, initial.pid);
    }
  }

  lemma SignalledKeeps(s: State, target: Pid, signal: Signal)
    requires Inv(s)
    ensures Inv(Signalled(s, target, signal))
  {
    var t := Signalled(s, target, signal);
    forall a: Pid, b: Pid | a in t.procs && b in t.procs[a].links
      ensures LinkOk(t, a, b)
    {
      assert LinkOk(s, a, b);
      PendingStays(s, t, a, b);
    }
  }

  lemma ReceivedKeeps(s: State, p: Pid, m: Message)
    requires Inv(s) && p in s.procs
    ensures Inv(Received(s, p, m))
  {
    var t := Received(s, p, m);
    forall a: Pid, b: Pid | a in t.procs && b in t.procs[a].links
      ensures LinkOk(t, a, b)
    {
      assert LinkOk(s, a, b);
      PendingStays(s, t, a, b);
    }
  }

  /** A death tells everybody who is linked. */
  lemma TerminatedLinks(s: State, t: State, p: Pid, a: Pid, b: Pid)
    requires Links(s) && IsTerminated(s, t, p)
    requires a in t.procs && b in t.procs[a].links
    ensures LinkOk(t, a, b)
  {
    assert LinkOk(s, a, b);
    var kept := SignalsNotTo(s.signals, p);
    if b == p && p in s.procs {
      assert Told(kept, t.signals, a);
      var r: nat :| r in t.signals && r !in kept && t.signals[r].pid == a;
    } else if b !in s.procs {
      var r: nat :| r in s.signals && s.signals[r].pid == a && s.signals[r].signal.from == b;
      assert r in kept;
    }
  }

  lemma TerminatedKeeps(s: State, t: State, p: Pid)
    requires Links(s) && IsTerminated(s, t, p)
    requires forall r: nat :: r in s.messages ==> s.messages[r].pid in s.procs && r < s.nextMessage
    requires forall r: nat :: r in s.signals ==> r < s.nextSignal
    requires s.nextMessage > 0
    requires forall q: Pid :: q in s.procs && q != p ==> s.procs[q].exitReason == ""
    ensures Inv(t)
  {
    forall a: Pid, b: Pid | a in t.procs && b in t.procs[a].links
      ensures LinkOk(t, a, b)
    {
      TerminatedLinks(s, t, p, a, b);
    }
    hide LinkOk;
    var kept := SignalsNotTo(s.signals, p);
    forall r: nat | r in t.signals
      ensures r < t.nextSignal
    {
      if r in kept {
        assert r in s.signals;
      }
    }
  }

  /** When a signal has been processed there is no link left for it to be needed. */
  lemma ProcessedKeeps(s: State, t: State, q: Pid, signal: Signal)
    requires Inv(s) && IsProcessed(s, t, q, signal)
    ensures Inv(t)
    ensures q in t.procs ==> signal.from !in t.procs[q].links
  {
    if q in s.procs {
      var u := Unlinked(s, q, signal.from);
      UnlinkedKeeps(s, q, signal.from);
      hide Inv, Unlinked;
      if u.procs[q].trapExit && signal.reason != "kill" {
        ReceivedKeeps(u, q, Message("kill", APid(signal.from), signal.reason));
      } else if signal.reason != "normal" {
        InvMeans(u);
        TerminatedKeeps(u, t, q);
      }
    }
  }

  lemma InvMeans(s: State)
    requires Inv(s)
    ensures Links(s)
    ensures forall r: nat :: r in s.messages ==> s.messages[r].pid in s.procs && r < s.nextMessage
    ensures forall r: nat :: r in s.signals ==> r < s.nextSignal
    ensures s.nextMessage > 0
    ensures forall p: Pid :: p in s.procs ==> s.procs[p].exitReason == ""
  {
  }

  lemma DeliveredKeeps(s: State, s': State, r: nat)
    requires Inv(s) && IsDelivered(s, s', r)
    ensures Inv(s')
  {
    hide IsProcessed, Inv, LinkOk, Links;
    var q, signal := s.signals[r].pid, s.signals[r].signal;
    var t: State :| IsProcessed(s, t, q, signal) && s' == t.(signals := Without(t.signals, r));
    ProcessedKeeps(s, t, q, signal);
    InvMeans(s);
    SignalOnce(s, t, r);
    OneLess(t, r, q, signal.from);
  }

  /** Signal `r` is gone, and nobody needed it. */
  lemma OneLess(t: State, r: nat, q: Pid, from: Pid)
    requires Inv(t)
    requires r in t.signals ==> t.signals[r].pid == q && t.signals[r].signal.from == from
    requires q in t.procs ==> from !in t.procs[q].links
    ensures Inv(t.(signals := Without(t.signals, r)))
  {
    var s := t.(signals := Without(t.signals, r));
    forall a: Pid, b: Pid | a in s.procs && b in s.procs[a].links
      ensures LinkOk(s, a, b)
    {
      assert LinkOk(t, a, b);
      if b !in t.procs {
        var x: nat :| x in t.signals && t.signals[x].pid == a && t.signals[x].signal.from == b;
        assert x != r;
        assert x in s.signals;
      }
    }
  }

  /** Processing a signal does not give its number to another one. */
  lemma SignalOnce(s: State, t: State, r: nat)
    requires r in s.signals && r < s.nextSignal
    requires IsProcessed(s, t, s.signals[r].pid, s.signals[r].signal)
    ensures r in t.signals ==> t.signals[r] == s.signals[r]
  {
  }

  /** Signal `r` is all that a live process is ever going to hear of the death of one it is
      linked to. */
  ghost predicate Needed(s: State, r: nat)
    requires r in s.signals
  {
    var p, from := s.signals[r].pid, s.signals[r].signal.from;
    && p in s.procs && from in s.procs[p].links && from !in s.procs
    && forall x: nat :: x in s.signals && s.signals[x].pid == p && s.signals[x].signal.from == from ==> x == r
  }

  /** Cancelling a signal by its number is safe for exactly the signals nobody needs. */
  lemma CancelSignal(s: State, r: nat)
    requires Inv(s) && r in s.signals
    ensures Inv(s.(signals := Without(s.signals, r))) <==> !Needed(s, r)
  {
    var t := s.(signals := Without(s.signals, r));
    var p, from := s.signals[r].pid, s.signals[r].signal.from;
    if Needed(s, r) {
      assert !Pending(t, p, from);
      assert !LinkOk(t, p, from);
    } else {
      forall a: Pid, b: Pid | a in t.procs && b in t.procs[a].links
        ensures LinkOk(t, a, b)
      {
        assert LinkOk(s, a, b);
        if b !in s.procs {
          var x: nat :| x in s.signals && s.signals[x].pid == a && s.signals[x].signal.from == b
                        && (a == p && b == from ==> x != r);
          assert x in t.signals;
        }
      }
    }
  }
}
