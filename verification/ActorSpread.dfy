/** What the death of one process does to the others: who dies of it, and what those who do
    not are told. */
module ActorSpread {
  import opened ActorState

  /** The reason `f` gives when it dies after `p` has ended for `reason`: a process killed by a
      signal has none of its own. */
  function ReasonOf(p: Pid, reason: string, f: Pid): string {
    if f == p then reason else ""
  }

  /** `q` dies of the signal it gets from `f`: of a kill always, of other reasons but the normal
      one unless it traps exits. */
  predicate Fatal(s0: State, p: Pid, reason: string, f: Pid, q: Pid)
    requires q in s0.procs
  {
    var why := ReasonOf(p, reason, f);
    why == "kill" || (!s0.procs[q].trapExit && why != "normal")
  }

  /** Each process on the path is linked to the one before, and dies of its signal. */
  ghost predicate FatalPath(s0: State, p: Pid, reason: string, path: seq<Pid>) {
    && |path| > 0 && path[0] == p
    && (forall i: nat :: i < |path| ==> path[i] in s0.procs)
    && forall i: nat, j: nat :: j == i + 1 < |path| ==>
         path[j] in s0.procs[path[i]].links && Fatal(s0, p, reason, path[i], path[j])
  }

  /** The death of `p` is going to be the death of `q`. */
  ghost predicate Doomed(s0: State, p: Pid, reason: string, q: Pid) {
    exists path: seq<Pid> :: FatalPath(s0, p, reason, path) && path[|path| - 1] == q
  }

  /** What a process that traps exits finds in its mailbox. */
  function ExitMessage(p: Pid, reason: string, f: Pid): Message {
    Message("kill", APid(f), ReasonOf(p, reason, f))
  }

  /** One message from each of `gone`, in some order. */
  ghost predicate OneEach(ms: seq<Message>, gone: set<Pid>, p: Pid, reason: string) {
    && (forall i: nat :: i < |ms| ==>
          ms[i].from.APid? && ms[i].from.pid in gone && ms[i] == ExitMessage(p, reason, ms[i].from.pid))
    && (forall i: nat, j: nat :: i < j < |ms| ==> ms[i].from != ms[j].from)
    && forall f: Pid :: f in gone ==> ExitMessage(p, reason, f) in ms
  }

  /** A process has lost its links to `gone`; if it traps exits it was told about each. */
  ghost predicate Lost(before: Proc, after: Proc, gone: set<Pid>, p: Pid, reason: string) {
    && gone <= before.links && after.links == before.links - gone
    && after.trapExit == before.trapExit && after.exitReason == before.exitReason
    && before.inbox <= after.inbox
    && if before.trapExit then OneEach(after.inbox[|before.inbox|..], gone, p, reason)
       else after.inbox == before.inbox
  }

  function NamesExcept(names: map<string, Pid>, dead: set<Pid>): map<string, Pid> {
    map n | n in names && names[n] !in dead :: names[n]
  }

  function MessagesExcept(messages: map<nat, MessageDelivery>, dead: set<Pid>): map<nat, MessageDelivery> {
    map r | r in messages && messages[r].pid !in dead :: messages[r]
  }

  function Dead(s0: State, s: State): set<Pid> {
    s0.procs.Keys - s.procs.Keys
  }

  /** The names and timed messages of the others are untouched. */
  ghost predicate OthersKept(s0: State, s: State) {
    && s.names == NamesExcept(s0.names, Dead(s0, s))
    && s.messages == MessagesExcept(s0.messages, Dead(s0, s)) && s.nextMessage == s0.nextMessage
  }

  /** `p` of `s0` ended for `reason`, and all signals were delivered: exactly the doomed are
      dead; each of the others has lost its links to them, has been told once about each if it
      traps exits, and is as it was otherwise; so are its names and timed messages. */
  ghost predicate Aftermath(s0: State, s: State, p: Pid, reason: string) {
    && s.procs.Keys <= s0.procs.Keys
    && (forall q: Pid :: q in s0.procs ==> (q in s.procs <==> !Doomed(s0, p, reason, q)))
    && (forall q: Pid :: q in s.procs ==>
          q in s0.procs && Lost(s0.procs[q], s.procs[q], s0.procs[q].links - s.procs.Keys, p, reason))
    && OthersKept(s0, s)
  }

  // ----- On the way there ---------------------------------------------------------------------------

  /** What has become of `q` so far: it has lost links to the dead only, and to none whose
      signal would have killed it. */
  ghost predicate Surviving(s0: State, s: State, p: Pid, reason: string, q: Pid)
    requires q in s.procs
  {
    && q in s0.procs
    && var gone := s0.procs[q].links - s.procs[q].links;
       && Lost(s0.procs[q], s.procs[q], gone, p, reason)
       && forall f: Pid :: f in gone ==> f in s0.procs && f !in s.procs && !Fatal(s0, p, reason, f, q)
  }

  /** A signal from a dead process to one that was linked to it, and still is if it lives. */
  ghost predicate Owed(s0: State, s: State, p: Pid, reason: string, d: SignalDelivery) {
    && d.signal.from in s0.procs && d.signal.from !in s.procs
    && d.pid in s0.procs[d.signal.from].links && d.signal.reason == ReasonOf(p, reason, d.signal.from)
    && (d.pid in s.procs ==> d.signal.from in s.procs[d.pid].links)
  }

  ghost predicate NoTwo(signals: map<nat, SignalDelivery>) {
    forall r: nat, t: nat ::
      (r in signals && t in signals && signals[r].pid == signals[t].pid
       && signals[r].signal.from == signals[t].signal.from) ==> r == t
  }

  ghost predicate AllOwed(s0: State, s: State, p: Pid, reason: string) {
    forall r: nat :: r in s.signals ==> Owed(s0, s, p, reason, s.signals[r])
  }

  ghost predicate OnlyDoomed(s0: State, s: State, p: Pid, reason: string) {
    && s.procs.Keys <= s0.procs.Keys
    && forall q: Pid :: q in s0.procs && q !in s.procs ==> Doomed(s0, p, reason, q)
  }

  ghost predicate AllSurvive(s0: State, s: State, p: Pid, reason: string) {
    forall q: Pid :: q in s.procs ==> Surviving(s0, s, p, reason, q)
  }

  /** The death of `p` in `s0` has spread as far as `s`. */
  ghost predicate Spreading(s0: State, s: State, p: Pid, reason: string) {
    && p in s0.procs && p !in s.procs
    && OnlyDoomed(s0, s, p, reason) && AllSurvive(s0, s, p, reason)
    && AllOwed(s0, s, p, reason) && NoTwo(s.signals) && OthersKept(s0, s)
  }

  // ----- The first death ------------------------------------------------------------------------------

  lemma DoomedSelf(s0: State, p: Pid, reason: string)
    requires p in s0.procs
    ensures Doomed(s0, p, reason, p)
  {
    var path := [p];
    assert FatalPath(s0, p, reason, path) && path[|path| - 1] == p;
  }

  lemma DoomedOn(s0: State, p: Pid, reason: string, f: Pid, q: Pid)
    requires Doomed(s0, p, reason, f) && f in s0.procs && q in s0.procs && q in s0.procs[f].links
    requires Fatal(s0, p, reason, f, q)
    ensures Doomed(s0, p, reason, q)
  {
    hide Fatal;
    var path: seq<Pid> :| FatalPath(s0, p, reason, path) && path[|path| - 1] == f;
    var longer := path + [q];
    assert FatalPath(s0, p, reason, longer) && longer[|longer| - 1] == q;
  }

  lemma SpreadStart(s0: State, s: State, p: Pid, reason: string)
    requires Inv(s0) && p in s0.procs && s0.signals == map[]
    requires IsTerminated(s0.(procs := s0.procs[p := s0.procs[p].(exitReason := reason)]), s, p)
    ensures Spreading(s0, s, p, reason)
  {
    hide *;
    FirstProcs(s0, s, p, reason);
    DoomedSelf(s0, p, reason);
    FirstDoomed(s0, s, p, reason);
    FirstSurvive(s0, s, p, reason);
    FirstOwed(s0, s, p, reason);
    FirstKept(s0, s, p, reason);
    MakeSpreading(s0, s, p, reason);
  }

  lemma MakeSpreading(s0: State, s: State, p: Pid, reason: string)
    requires p in s0.procs && p !in s.procs
    requires OnlyDoomed(s0, s, p, reason) && AllSurvive(s0, s, p, reason)
    requires AllOwed(s0, s, p, reason) && NoTwo(s.signals) && OthersKept(s0, s)
    ensures Spreading(s0, s, p, reason)
  {
    hide OnlyDoomed, AllSurvive, AllOwed, NoTwo, OthersKept;
  }

  lemma SpreadingMeans(s0: State, s: State, p: Pid, reason: string)
    requires Spreading(s0, s, p, reason)
    ensures p in s0.procs && p !in s.procs
    ensures OnlyDoomed(s0, s, p, reason) && AllSurvive(s0, s, p, reason)
    ensures AllOwed(s0, s, p, reason) && NoTwo(s.signals) && OthersKept(s0, s)
  {
    hide OnlyDoomed, AllSurvive, AllOwed, NoTwo, OthersKept;
  }

  lemma FirstProcs(s0: State, s: State, p: Pid, reason: string)
    requires p in s0.procs
    requires IsTerminated(s0.(procs := s0.procs[p := s0.procs[p].(exitReason := reason)]), s, p)
    ensures s.procs == Without(s0.procs, p) && p !in s.procs
    ensures s.procs.Keys == s0.procs.Keys - {p}
  {
    hide SignalsAdded, NamesNotOf, MessagesNotTo, SignalsNotTo;
  }

  lemma FirstDoomed(s0: State, s: State, p: Pid, reason: string)
    requires s.procs.Keys == s0.procs.Keys - {p} && Doomed(s0, p, reason, p)
    ensures OnlyDoomed(s0, s, p, reason)
  {
    hide Doomed;
  }

  lemma FirstSurvive(s0: State, s: State, p: Pid, reason: string)
    requires s.procs == Without(s0.procs, p)
    ensures AllSurvive(s0, s, p, reason)
  {
    forall q: Pid | q in s.procs
      ensures Surviving(s0, s, p, reason, q)
    {
      assert s.procs[q] == s0.procs[q];
      Untouched(s0.procs[q], p, reason);
    }
  }

  lemma Untouched(a: Proc, p: Pid, reason: string)
    ensures Lost(a, a, a.links - a.links, p, reason)
  {
    assert a.links - a.links == {};
    assert a.inbox[|a.inbox|..] == [];
  }

  lemma FirstOwed(s0: State, s: State, p: Pid, reason: string)
    requires Inv(s0) && p in s0.procs && s0.signals == map[] && s.procs == Without(s0.procs, p)
    requires IsTerminated(s0.(procs := s0.procs[p := s0.procs[p].(exitReason := reason)]), s, p)
    ensures AllOwed(s0, s, p, reason) && NoTwo(s.signals)
  {
    var kept := SignalsNotTo(s0.signals, p);
    assert kept == map[];
    forall r: nat | r in s.signals
      ensures Owed(s0, s, p, reason, s.signals[r])
    {
      assert r !in kept;
      assert LinkOk(s0, p, s.signals[r].pid);
    }
  }

  lemma FirstKept(s0: State, s: State, p: Pid, reason: string)
    requires p in s0.procs && s.procs.Keys == s0.procs.Keys - {p}
    requires IsTerminated(s0.(procs := s0.procs[p := s0.procs[p].(exitReason := reason)]), s, p)
    ensures OthersKept(s0, s)
  {
    hide SignalsAdded, SignalsNotTo;
    assert Dead(s0, s) == {p};
  }

  // ----- One more signal ----------------------------------------------------------------------------------

  lemma SpreadsOn(s0: State, s: State, s': State, p: Pid, reason: string, r: nat)
    requires Inv(s0) && Spreading(s0, s, p, reason) && Inv(s) && IsDelivered(s, s', r)
    ensures Spreading(s0, s', p, reason)
  {
    hide *;
    var t := DeliveredState(s, s', r);
    var q, signal := s.signals[r].pid, s.signals[r].signal;
    SpreadingMeans(s0, s, p, reason);
    OwedMeans(s0, s, p, reason, r);
    if q !in s.procs {
      ToNobody(s, t, q, signal);
      OneFewer(s0, s, p, reason, r);
    } else {
      SurvivingMeans(s0, s, p, reason, q);
      WhatItDoes(s0, s, t, p, reason, q, signal);
      if Fatal(s0, p, reason, signal.from, q) {
        DoomedOn(s0, p, reason, signal.from, q);
        Killed(s0, s, t, p, reason, q, signal.from);
        OneFewer(s0, t, p, reason, r);
      } else {
        Spared(s0, s, s', p, reason, r);
      }
    }
  }

  lemma DeliveredState(s: State, s': State, r: nat) returns (t: State)
    requires IsDelivered(s, s', r)
    ensures r in s.signals && IsProcessed(s, t, s.signals[r].pid, s.signals[r].signal)
    ensures s' == t.(signals := Without(t.signals, r))
  {
    hide IsProcessed;
    t :| IsProcessed(s, t, s.signals[r].pid, s.signals[r].signal) && s' == t.(signals := Without(t.signals, r));
  }

  lemma ToNobody(s: State, t: State, q: Pid, signal: Signal)
    requires IsProcessed(s, t, q, signal) && q !in s.procs
    ensures t == s
  {
    hide IsTerminated;
  }

  lemma OwedMeans(s0: State, s: State, p: Pid, reason: string, r: nat)
    requires AllOwed(s0, s, p, reason) && OnlyDoomed(s0, s, p, reason) && r in s.signals
    ensures var d := s.signals[r];
            var f := d.signal.from;
            && f in s0.procs && f !in s.procs && d.pid in s0.procs[f].links
            && d.signal.reason == ReasonOf(p, reason, f) && Doomed(s0, p, reason, f)
            && (d.pid in s.procs ==> f in s.procs[d.pid].links)
  {
    hide Doomed, ReasonOf;
    assert Owed(s0, s, p, reason, s.signals[r]);
  }

  lemma SurvivingMeans(s0: State, s: State, p: Pid, reason: string, q: Pid)
    requires AllSurvive(s0, s, p, reason) && q in s.procs
    ensures Surviving(s0, s, p, reason, q)
    ensures q in s0.procs && s.procs[q].trapExit == s0.procs[q].trapExit
    ensures s.procs[q].exitReason == s0.procs[q].exitReason && s.procs[q].links <= s0.procs[q].links
  {
    hide OneEach, Fatal;
    assert Surviving(s0, s, p, reason, q);
  }

  /** A process whose signal has been taken note of. */
  function Informed(b: Proc, f: Pid, m: Message): Proc {
    b.(links := b.links - {f}, inbox := if b.trapExit then b.inbox + [m] else b.inbox)
  }

  /** What the signal of the dead `f` does to the living `q`. */
  lemma WhatItDoes(s0: State, s: State, t: State, p: Pid, reason: string, q: Pid, signal: Signal)
    requires IsProcessed(s, t, q, signal) && q in s.procs && q in s0.procs && signal.from !in s.procs
    requires s.procs[q].trapExit == s0.procs[q].trapExit && signal.reason == ReasonOf(p, reason, signal.from)
    ensures Unlinked(s, q, signal.from)
         == s.(procs := s.procs[q := s.procs[q].(links := s.procs[q].links - {signal.from})])
    ensures Fatal(s0, p, reason, signal.from, q) ==> IsTerminated(Unlinked(s, q, signal.from), t, q)
    ensures !Fatal(s0, p, reason, signal.from, q) ==>
              t == s.(procs := s.procs[q := Informed(s.procs[q], signal.from, ExitMessage(p, reason, signal.from))])
  {
    hide IsTerminated, ReasonOf;
  }

  /** One signal fewer. */
  lemma OneFewer(s0: State, s: State, p: Pid, reason: string, r: nat)
    requires Spreading(s0, s, p, reason)
    ensures Spreading(s0, s.(signals := Without(s.signals, r)), p, reason)
  {
    hide *;
    var s' := s.(signals := Without(s.signals, r));
    SpreadingMeans(s0, s, p, reason);
    FewerOwed(s0, s, p, reason, r);
    SameProcs(s0, s, s', p, reason);
    MakeSpreading(s0, s', p, reason);
  }

  lemma FewerOwed(s0: State, s: State, p: Pid, reason: string, r: nat)
    requires AllOwed(s0, s, p, reason) && NoTwo(s.signals)
    ensures var s' := s.(signals := Without(s.signals, r));
            AllOwed(s0, s', p, reason) && NoTwo(s'.signals)
  {
    var s' := s.(signals := Without(s.signals, r));
    forall x: nat | x in s'.signals
      ensures Owed(s0, s', p, reason, s'.signals[x])
    {
      assert Owed(s0, s, p, reason, s.signals[x]);
    }
  }

  lemma SameProcs(s0: State, s: State, s': State, p: Pid, reason: string)
    requires s' == s.(signals := s'.signals)
    ensures OnlyDoomed(s0, s, p, reason) ==> OnlyDoomed(s0, s', p, reason)
    ensures AllSurvive(s0, s, p, reason) ==> AllSurvive(s0, s', p, reason)
    ensures OthersKept(s0, s) ==> OthersKept(s0, s')
  {
    hide Doomed, Lost, Fatal;
    if AllSurvive(s0, s, p, reason) {
      forall q: Pid | q in s'.procs
        ensures Surviving(s0, s', p, reason, q)
      {
        assert Surviving(s0, s, p, reason, q);
      }
    }
  }

  // ----- A signal that kills ---------------------------------------------------------------------------------

  lemma Killed(s0: State, s: State, t: State, p: Pid, reason: string, q: Pid, f: Pid)
    requires Inv(s0) && Spreading(s0, s, p, reason) && Inv(s) && q in s.procs && q in s0.procs && f !in s.procs
    requires Doomed(s0, p, reason, q)
    requires var u := s.(procs := s.procs[q := s.procs[q].(links := s.procs[q].links - {f})]);
             Unlinked(s, q, f) == u && IsTerminated(Unlinked(s, q, f), t, q)
    ensures Spreading(s0, t, p, reason)
  {
    hide *;
    SpreadingMeans(s0, s, p, reason);
    KilledProcs(s, t, q, f);
    KilledDoomed(s0, s, t, p, reason, q);
    KilledOthers(s0, s, t, p, reason, q);
    KilledOwed(s0, s, t, p, reason, q, f);
    KilledKept(s0, s, t, p, reason, q, f);
    MakeSpreading(s0, t, p, reason);
  }

  lemma KilledProcs(s: State, t: State, q: Pid, f: Pid)
    requires q in s.procs
    requires IsTerminated(s.(procs := s.procs[q := s.procs[q].(links := s.procs[q].links - {f})]), t, q)
    ensures t.procs == Without(s.procs, q) && t.procs.Keys == s.procs.Keys - {q} && q !in t.procs
  {
    hide SignalsAdded, NamesNotOf, MessagesNotTo, SignalsNotTo;
  }

  lemma KilledDoomed(s0: State, s: State, t: State, p: Pid, reason: string, q: Pid)
    requires OnlyDoomed(s0, s, p, reason) && t.procs.Keys == s.procs.Keys - {q} && Doomed(s0, p, reason, q)
    ensures OnlyDoomed(s0, t, p, reason)
  {
    hide Doomed;
  }

  lemma KilledOthers(s0: State, s: State, t: State, p: Pid, reason: string, q: Pid)
    requires AllSurvive(s0, s, p, reason) && t.procs == Without(s.procs, q)
    ensures AllSurvive(s0, t, p, reason)
  {
    hide Lost, Fatal;
    forall x: Pid | x in t.procs
      ensures Surviving(s0, t, p, reason, x)
    {
      assert Surviving(s0, s, p, reason, x);
    }
  }

  lemma KilledOwed(s0: State, s: State, t: State, p: Pid, reason: string, q: Pid, f: Pid)
    requires Inv(s0) && Inv(s) && AllOwed(s0, s, p, reason) && AllSurvive(s0, s, p, reason) && NoTwo(s.signals)
    requires q in s.procs && p !in s.procs && t.procs == Without(s.procs, q) && q !in t.procs
    requires IsTerminated(s.(procs := s.procs[q := s.procs[q].(links := s.procs[q].links - {f})]), t, q)
    ensures AllOwed(s0, t, p, reason) && NoTwo(t.signals)
  {
    hide *;
    var kept := SignalsNotTo(s.signals, q);
    SurvivingMeans(s0, s, p, reason, q);
    ReasonNone(s, q);
    AddedMeans(s, t, q, f);
    StillOwed(s0, s, t, p, reason, q, kept);
    forall r: nat | r in t.signals && r !in kept
      ensures Owed(s0, t, p, reason, t.signals[r])
    {
      NewlyOwed(s0, s, t, p, reason, q, t.signals[r]);
    }
    OwedAll(s0, t, p, reason, kept);
    NoTwoAdded(s0, s, t, p, reason, q, kept);
  }

  lemma ReasonNone(s: State, q: Pid)
    requires Inv(s) && q in s.procs
    ensures s.procs[q].exitReason == ""
  {
    hide Links;
  }

  /** The signals there are after the death of `q`. */
  lemma AddedMeans(s: State, t: State, q: Pid, f: Pid)
    requires q in s.procs && s.procs[q].exitReason == ""
    requires IsTerminated(s.(procs := s.procs[q := s.procs[q].(links := s.procs[q].links - {f})]), t, q)
    ensures var kept := SignalsNotTo(s.signals, q);
            && (forall r: nat :: r in kept ==> r in t.signals && t.signals[r] == kept[r])
            && (forall r: nat :: r in t.signals && r !in kept ==>
                  t.signals[r].pid in s.procs[q].links && t.signals[r].signal == Signal(q, ""))
            && OnceEach(kept, t.signals)
  {
    hide SignalsNotTo, OnceEach, NamesNotOf, MessagesNotTo;
  }

  lemma StillOwed(s0: State, s: State, t: State, p: Pid, reason: string, q: Pid, kept: map<nat, SignalDelivery>)
    requires AllOwed(s0, s, p, reason) && t.procs == Without(s.procs, q) && kept == SignalsNotTo(s.signals, q)
    ensures forall r: nat :: r in kept ==> Owed(s0, t, p, reason, kept[r])
  {
    forall r: nat | r in kept
      ensures Owed(s0, t, p, reason, kept[r])
    {
      assert Owed(s0, s, p, reason, s.signals[r]);
    }
  }

  lemma NewlyOwed(s0: State, s: State, t: State, p: Pid, reason: string, q: Pid, d: SignalDelivery)
    requires Inv(s) && q in s.procs && p !in s.procs && t.procs == Without(s.procs, q)
    requires q in s0.procs && s.procs[q].links <= s0.procs[q].links
    requires d.pid in s.procs[q].links && d.signal == Signal(q, "")
    ensures Owed(s0, t, p, reason, d)
  {
    assert LinkOk(s, q, d.pid);
  }

  lemma OwedAll(s0: State, t: State, p: Pid, reason: string, kept: map<nat, SignalDelivery>)
    requires forall r: nat :: r in kept ==> r in t.signals && t.signals[r] == kept[r]
    requires forall r: nat :: r in kept ==> Owed(s0, t, p, reason, kept[r])
    requires forall r: nat :: r in t.signals && r !in kept ==> Owed(s0, t, p, reason, t.signals[r])
    ensures AllOwed(s0, t, p, reason)
  {
    hide Owed;
  }

  lemma NoTwoAdded(s0: State, s: State, t: State, p: Pid, reason: string, q: Pid, kept: map<nat, SignalDelivery>)
    requires AllOwed(s0, s, p, reason) && NoTwo(s.signals) && q in s.procs && kept == SignalsNotTo(s.signals, q)
    requires forall r: nat :: r in kept ==> r in t.signals && t.signals[r] == kept[r]
    requires forall r: nat :: r in t.signals && r !in kept ==> t.signals[r].signal == Signal(q, "")
    requires OnceEach(kept, t.signals)
    ensures NoTwo(t.signals)
  {
    forall r: nat, x: nat | r in t.signals && x in t.signals && t.signals[r].pid == t.signals[x].pid
                            && t.signals[r].signal.from == t.signals[x].signal.from
      ensures r == x
    {
      if r in kept {
        assert Owed(s0, s, p, reason, s.signals[r]);
      }
      if x in kept {
        assert Owed(s0, s, p, reason, s.signals[x]);
      }
    }
  }

  lemma KilledKept(s0: State, s: State, t: State, p: Pid, reason: string, q: Pid, f: Pid)
    requires OthersKept(s0, s) && q in s.procs && q in s0.procs && t.procs.Keys == s.procs.Keys - {q}
    requires IsTerminated(s.(procs := s.procs[q := s.procs[q].(links := s.procs[q].links - {f})]), t, q)
    ensures OthersKept(s0, t)
  {
    hide SignalsAdded, SignalsNotTo;
    assert Dead(s0, t) == Dead(s0, s) + {q};
  }

  // ----- A signal that does not --------------------------------------------------------------------------------

  lemma Spared(s0: State, s: State, s': State, p: Pid, reason: string, r: nat)
    requires Spreading(s0, s, p, reason) && r in s.signals
    requires var q, f := s.signals[r].pid, s.signals[r].signal.from;
             && q in s.procs && q in s0.procs && f in s0.procs && f !in s.procs && f in s.procs[q].links
             && !Fatal(s0, p, reason, f, q)
             && s' == s.(procs := s.procs[q := Informed(s.procs[q], f, ExitMessage(p, reason, f))],
                         signals := Without(s.signals, r))
    ensures Spreading(s0, s', p, reason)
  {
    hide *;
    SpreadingMeans(s0, s, p, reason);
    var q, f := s.signals[r].pid, s.signals[r].signal.from;
    SparedSurvive(s0, s, s', p, reason, q, f);
    SparedOwed(s0, s, s', p, reason, r);
    SparedKept(s0, s, s', p, reason);
    MakeSpreading(s0, s', p, reason);
  }

  lemma SparedKept(s0: State, s: State, s': State, p: Pid, reason: string)
    requires OnlyDoomed(s0, s, p, reason) && OthersKept(s0, s) && s'.procs.Keys == s.procs.Keys
    requires s'.names == s.names && s'.messages == s.messages && s'.nextMessage == s.nextMessage
    ensures OnlyDoomed(s0, s', p, reason) && OthersKept(s0, s')
  {
    hide Doomed;
    assert Dead(s0, s') == Dead(s0, s);
  }

  lemma SparedSurvive(s0: State, s: State, s': State, p: Pid, reason: string, q: Pid, f: Pid)
    requires AllSurvive(s0, s, p, reason) && q in s.procs && q in s0.procs && f in s0.procs && f !in s.procs
    requires f in s.procs[q].links && !Fatal(s0, p, reason, f, q)
    requires s'.procs == s.procs[q := Informed(s.procs[q], f, ExitMessage(p, reason, f))]
    ensures AllSurvive(s0, s', p, reason)
  {
    hide Fatal, Lost, Informed;
    forall x: Pid | x in s'.procs
      ensures Surviving(s0, s', p, reason, x)
    {
      assert Surviving(s0, s, p, reason, x);
      if x == q {
        LostOneMore(s0.procs[q], s.procs[q], f, p, reason);
      }
    }
  }

  lemma LostOneMore(b: Proc, a: Proc, f: Pid, p: Pid, reason: string)
    requires Lost(b, a, b.links - a.links, p, reason) && f in a.links
    ensures var a' := Informed(a, f, ExitMessage(p, reason, f));
            b.links - a'.links == b.links - a.links + {f} && Lost(b, a', b.links - a'.links, p, reason)
  {
    hide OneEach, ExitMessage;
    var m := ExitMessage(p, reason, f);
    var a' := Informed(a, f, m);
    assert b.links - a'.links == b.links - a.links + {f};
    if b.trapExit {
      assert a'.inbox[|b.inbox|..] == a.inbox[|b.inbox|..] + [m];
      EachAndOne(a.inbox[|b.inbox|..], b.links - a.links, p, reason, f);
    }
  }

  lemma EachAndOne(ms: seq<Message>, gone: set<Pid>, p: Pid, reason: string, f: Pid)
    requires OneEach(ms, gone, p, reason) && f !in gone
    ensures OneEach(ms + [ExitMessage(p, reason, f)], gone + {f}, p, reason)
  {
    hide ReasonOf;
    var longer := ms + [ExitMessage(p, reason, f)];
    forall g: Pid | g in gone + {f}
      ensures ExitMessage(p, reason, g) in longer
    {
      if g == f {
        assert longer[|ms|] == ExitMessage(p, reason, g);
      }
    }
  }

  lemma SparedOwed(s0: State, s: State, s': State, p: Pid, reason: string, r: nat)
    requires AllOwed(s0, s, p, reason) && NoTwo(s.signals) && r in s.signals && s.signals[r].pid in s.procs
    requires var q, f := s.signals[r].pid, s.signals[r].signal.from;
             s'.procs == s.procs[q := Informed(s.procs[q], f, ExitMessage(p, reason, f))]
    requires s'.signals == Without(s.signals, r)
    ensures AllOwed(s0, s', p, reason) && NoTwo(s'.signals)
  {
    forall x: nat | x in s'.signals
      ensures Owed(s0, s', p, reason, s'.signals[x])
    {
      assert Owed(s0, s, p, reason, s.signals[x]);
    }
  }

  // ----- When no signal is left -----------------------------------------------------------------------------------

  /** With no signal on its way, nobody is linked to the dead. */
  lemma NoDeadLinks(s: State, q: Pid)
    requires Inv(s) && s.signals == map[] && q in s.procs
    ensures s.procs[q].links <= s.procs.Keys
  {
    forall f: Pid | f in s.procs[q].links
      ensures f in s.procs
    {
      assert LinkOk(s, q, f);
    }
  }

  /** A process with a link to a dead one whose signal is fatal did not survive. */
  lemma SignalCame(s0: State, s: State, p: Pid, reason: string, f: Pid, q: Pid)
    requires Inv(s0) && s0.signals == map[] && AllSurvive(s0, s, p, reason) && Inv(s) && s.signals == map[]
    requires f in s0.procs && f !in s.procs && q in s0.procs && q in s0.procs[f].links && Fatal(s0, p, reason, f, q)
    ensures q !in s.procs
  {
    hide Fatal, Lost;
    assert LinkOk(s0, f, q);
    if q in s.procs {
      assert Surviving(s0, s, p, reason, q);
      NoDeadLinks(s, q);
    }
  }

  lemma {:induction false} AllDead(s0: State, s: State, p: Pid, reason: string, path: seq<Pid>, i: nat)
    requires Inv(s0) && s0.signals == map[] && Spreading(s0, s, p, reason) && Inv(s) && s.signals == map[]
    requires FatalPath(s0, p, reason, path) && i < |path|
    ensures path[i] !in s.procs
  {
    hide Inv, Fatal, OnlyDoomed, AllSurvive, AllOwed, NoTwo, OthersKept;
    if i > 0 {
      AllDead(s0, s, p, reason, path, i - 1);
      SignalCame(s0, s, p, reason, path[i - 1], path[i]);
    }
  }

  lemma SpreadOut(s0: State, s: State, p: Pid, reason: string)
    requires Inv(s0) && s0.signals == map[] && Spreading(s0, s, p, reason) && Inv(s) && s.signals == map[]
    ensures Aftermath(s0, s, p, reason)
  {
    hide *;
    SpreadingMeans(s0, s, p, reason);
    forall q: Pid | q in s0.procs && Doomed(s0, p, reason, q)
      ensures q !in s.procs
    {
      var path := PathTo(s0, p, reason, q);
      AllDead(s0, s, p, reason, path, |path| - 1);
    }
    forall q: Pid | q in s.procs
      ensures q in s0.procs && Lost(s0.procs[q], s.procs[q], s0.procs[q].links - s.procs.Keys, p, reason)
    {
      NoDeadLinks(s, q);
      LostAll(s0, s, p, reason, q);
    }
    MakeAftermath(s0, s, p, reason);
  }

  lemma PathTo(s0: State, p: Pid, reason: string, q: Pid) returns (path: seq<Pid>)
    requires Doomed(s0, p, reason, q)
    ensures FatalPath(s0, p, reason, path) && |path| > 0 && path[|path| - 1] == q
  {
    hide Fatal;
    path :| FatalPath(s0, p, reason, path) && path[|path| - 1] == q;
  }

  lemma LostAll(s0: State, s: State, p: Pid, reason: string, q: Pid)
    requires AllSurvive(s0, s, p, reason) && q in s.procs && s.procs[q].links <= s.procs.Keys
    ensures q in s0.procs && Lost(s0.procs[q], s.procs[q], s0.procs[q].links - s.procs.Keys, p, reason)
  {
    hide Fatal, OneEach;
    assert Surviving(s0, s, p, reason, q);
    assert s0.procs[q].links - s.procs[q].links == s0.procs[q].links - s.procs.Keys;
  }

  lemma MakeAftermath(s0: State, s: State, p: Pid, reason: string)
    requires OnlyDoomed(s0, s, p, reason) && OthersKept(s0, s)
    requires forall q: Pid :: q in s0.procs && Doomed(s0, p, reason, q) ==> q !in s.procs
    requires forall q: Pid :: q in s.procs ==>
               q in s0.procs && Lost(s0.procs[q], s.procs[q], s0.procs[q].links - s.procs.Keys, p, reason)
    ensures Aftermath(s0, s, p, reason)
  {
    hide Doomed, Lost, OthersKept;
  }

  // ----- Two special cases -----------------------------------------------------------------------------------------

  ghost predicate Path(s: State, path: seq<Pid>) {
    && |path| > 0
    && (forall i: nat :: i < |path| ==> path[i] in s.procs)
    && forall i: nat, j: nat :: j == i + 1 < |path| ==> path[j] in s.procs[path[i]].links
  }

  /** `p` and `q` are in the same connected component of the link graph. */
  ghost predicate Connected(s: State, p: Pid, q: Pid) {
    exists path: seq<Pid> :: Path(s, path) && path[0] == p && path[|path| - 1] == q
  }

  ghost predicate NoTraps(s: State) {
    forall q: Pid :: q in s.procs ==> !s.procs[q].trapExit
  }

  /** When nobody traps exits, an end that is not normal is the death of exactly the connected
      component, and the others do not notice. */
  lemma WholeComponent(s0: State, s: State, p: Pid, reason: string)
    requires Inv(s0) && s0.signals == map[] && Aftermath(s0, s, p, reason) && NoTraps(s0) && reason != "normal"
    ensures forall q: Pid :: q in s0.procs ==> (q in s.procs <==> !Connected(s0, p, q))
    ensures forall q: Pid :: q in s.procs ==> q in s0.procs && s.procs[q] == s0.procs[q]
  {
    forall q: Pid | q in s0.procs
      ensures Doomed(s0, p, reason, q) <==> Connected(s0, p, q)
    {
      DoomedIsConnected(s0, p, reason, q);
    }
    hide Doomed, Connected;
    forall q: Pid | q in s.procs
      ensures q in s0.procs && s.procs[q] == s0.procs[q]
    {
      Unconcerned(s0, s, p, reason, q);
    }
  }

  lemma DoomedIsConnected(s0: State, p: Pid, reason: string, q: Pid)
    requires NoTraps(s0) && reason != "normal"
    ensures Doomed(s0, p, reason, q) <==> Connected(s0, p, q)
  {
    if Connected(s0, p, q) {
      var path: seq<Pid> :| Path(s0, path) && path[0] == p && path[|path| - 1] == q;
      assert FatalPath(s0, p, reason, path);
    }
    if Doomed(s0, p, reason, q) {
      var path := PathTo(s0, p, reason, q);
      assert Path(s0, path);
    }
  }

  lemma Unconcerned(s0: State, s: State, p: Pid, reason: string, q: Pid)
    requires Inv(s0) && s0.signals == map[] && Aftermath(s0, s, p, reason) && NoTraps(s0) && reason != "normal"
    requires q in s.procs
    ensures q in s0.procs && s.procs[q] == s0.procs[q]
  {
    hide Doomed, OneEach, OthersKept;
    NoDeadLinks(s0, q);
    forall f: Pid | f in s0.procs[q].links
      ensures f in s.procs
    {
      assert LinkOk(s0, q, f);
      if f !in s.procs {
        DoomedOn(s0, p, reason, f, q);
      }
    }
    assert s0.procs[q].links - s.procs.Keys == {};
  }

  /** A normal end is the death of nobody else, whoever traps exits. */
  lemma NobodyElse(s0: State, s: State, p: Pid)
    requires Aftermath(s0, s, p, "normal") && p in s0.procs
    ensures s.procs.Keys == s0.procs.Keys - {p}
  {
    hide Lost, OthersKept, Doomed;
    DoomedSelf(s0, p, "normal");
    forall q: Pid | q in s0.procs && q != p
      ensures !Doomed(s0, p, "normal", q)
    {
      if Doomed(s0, p, "normal", q) {
        NotDoomed(s0, p, q);
      }
    }
  }

  lemma NotDoomed(s0: State, p: Pid, q: Pid)
    requires Doomed(s0, p, "normal", q)
    ensures q == p
  {
    var path := PathTo(s0, p, "normal", q);
    if |path| > 1 {
      FirstStep(s0, p, "normal", path);
    }
  }

  lemma FirstStep(s0: State, p: Pid, reason: string, path: seq<Pid>)
    requires FatalPath(s0, p, reason, path) && |path| > 1
    ensures path[1] in s0.procs && Fatal(s0, p, reason, p, path[1])
  {
    hide Fatal;
    assert 1 == 0 + 1;
  }
}
