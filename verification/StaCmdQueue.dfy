/**
 The add/delete-station queue of an access point (core/rtw_ap.c) as a state
 machine. Each step is one critical section under ap_add_del_sta_lock or one
 unlocked stretch between two of them; the dispatcher's callbacks are
 serialised, enqueueing may come between any two steps.
 */
module StaCmdQueue {
  import opened Options

  datatype CmdState = Idle | Requesting | Acquired

  datatype Evt = ConnectStart | DisconnectPrepare | ConnectEnd | Disconnect | Other

  /** Where the message handler stands: between calls, past its first critical section with the object it
      read from the head, or on its way to give the token back. */
  datatype Pc = Ready | Working(obj: nat, evt: Evt) | Freeing(drop: Option<nat>)

  datatype Fate = Done | Dropped

  /** `queue` holds the objects, numbered in the order of their allocation, `next` being the next number;
      `cnt` is the 8-bit counter; `held` the tokens requested from the dispatcher and not given back; `out`
      the objects freed so far, in order. */
  datatype Sys = Sys(queue: seq<nat>, cnt: nat, st: CmdState, token: bool, held: nat, pc: Pc, out: seq<(nat, Fate)>, next: nat)

  /** What happens; the flags are answers of the dispatcher. */
  datatype Step = Enqueue(granted: bool) | Acquire | Message(evt: Evt) | Work(ok: bool) | Finish | Abort

  const INIT: Sys := Sys([], 0, Idle, false, 0, Ready, [], 0)

  /** rtw_list_delete through a pointer to the object. */
  function Delete(q: seq<nat>, obj: nat): seq<nat> {
    if q == [] then [] else if q[0] == obj then q[1..] else [q[0]] + Delete(q[1..], obj)
  }

  function Retire(s: Sys, obj: nat, fate: Fate): Sys {
    s.(queue := Delete(s.queue, obj), cnt := (s.cnt + 255) % 256, out := s.out + [(obj, fate)])
  }

  /** _ap_add_del_sta_cmd_done */
  function GiveBack(s: Sys): Sys {
    if !s.token then s.(st := Idle)
    else s.(st := Idle, token := false, held := if s.held > 0 then s.held - 1 else 0)
  }

  /** rtw_add_del_sta_cmd_check */
  function Enqueued(s: Sys, granted: bool): Sys {
    var t := s.(queue := s.queue + [s.next], cnt := (s.cnt + 1) % 256, next := s.next + 1);
    if s.st == Idle && granted then t.(st := Requesting, token := true, held := s.held + 1) else t
  }

  /** The second critical section of the handler, for the last event of an object. */
  function Ended(s: Sys, obj: nat, ok: bool): Sys {
    var t := Retire(s, obj, Done);
    if t.cnt > 0 then
      if t.queue == [] then t.(pc := Freeing(None))
      else if ok then t.(pc := Ready) else t.(pc := Freeing(Some(t.queue[0])))
    else t.(pc := Freeing(None))
  }

  function Drained(q: seq<nat>): seq<(nat, Fate)> { seq(|q|, i requires 0 <= i < |q| => (q[i], Dropped)) }

  predicate Enabled(s: Sys, e: Step) {
    match e
    case Enqueue(_) => true
    case Acquire => s.pc == Ready && s.held > 0
    case Message(_) => s.pc == Ready && s.held > 0
    case Work(_) => s.pc.Working?
    case Finish => s.pc.Freeing?
    case Abort => s.pc == Ready && s.held > 0
  }

  function Next(s: Sys, e: Step): Sys
    requires Enabled(s, e)
  {
    match e
    case Enqueue(granted) => Enqueued(s, granted)
    case Acquire => s.(st := Acquired)
    case Message(evt) => s.(pc := if s.queue == [] then Freeing(None) else Working(s.queue[0], evt))
    case Work(ok) =>
      if s.pc.evt == ConnectEnd || s.pc.evt == Disconnect then Ended(s, s.pc.obj, ok)
      else if s.pc.evt == Other || ok then s.(pc := Ready)
      else s.(pc := Freeing(Some(s.pc.obj)))
    case Finish =>
      var t := if s.pc.drop.Some? then Retire(s, s.pc.drop.value, Dropped) else s;
      GiveBack(t).(pc := Ready)
    case Abort =>
      s.(queue := [], cnt := 0, st := Idle, token := false, held := s.held - 1, out := s.out + Drained(s.queue))
  }

  // ---- what every step keeps

  /** Objects leave in the order they came: the i-th freed is the i-th allocated, the rest are queued in
      order. */
  ghost predicate InOrder(s: Sys) {
    && s.next == |s.out| + |s.queue|
    && (forall i :: 0 <= i < |s.out| ==> s.out[i].0 == i)
    && forall i :: 0 <= i < |s.queue| ==> s.queue[i] == |s.out| + i
  }

  ghost predicate AtHead(s: Sys, obj: nat) { s.queue != [] && s.queue[0] == obj }

  ghost predicate Inv(s: Sys) {
    && s.cnt == |s.queue| % 256
    && InOrder(s)
    && s.held == (if s.st == Idle then 0 else 1) && s.token == (s.held == 1)
    && (s.pc.Working? ==> s.held == 1 && AtHead(s, s.pc.obj))
    && (s.pc.Freeing? ==> s.held == 1 && (s.pc.drop.Some? ==> AtHead(s, s.pc.drop.value)))
  }

  lemma RetireHead(s: Sys, obj: nat, fate: Fate)
    requires InOrder(s) && AtHead(s, obj) && s.cnt == |s.queue| % 256
    ensures var t := Retire(s, obj, fate); InOrder(t) && t.cnt == |t.queue| % 256 && t.queue == s.queue[1..]
  {
    var t := Retire(s, obj, fate);
    assert t.queue == s.queue[1..];
    assert forall i :: 0 <= i < |t.queue| ==> t.queue[i] == s.queue[i + 1];
    assert forall i :: 0 <= i < |s.out| ==> t.out[i] == s.out[i];
  }

  lemma EnqueueOrder(s: Sys)
    requires InOrder(s)
    ensures InOrder(s.(queue := s.queue + [s.next], next := s.next + 1))
  {
  }

  lemma DrainOrder(s: Sys)
    requires InOrder(s)
    ensures InOrder(s.(queue := [], out := s.out + Drained(s.queue)))
  {
  }

  lemma WorkInv(s: Sys, ok: bool)
    requires Inv(s) && s.pc.Working?
    ensures Inv(Next(s, Work(ok)))
  {
    RetireHead(s, s.pc.obj, Done);
  }

  lemma FinishInv(s: Sys)
    requires Inv(s) && s.pc.Freeing?
    ensures Inv(Next(s, Finish))
  {
    if s.pc.drop.Some? { RetireHead(s, s.pc.drop.value, Dropped); }
  }

  lemma NextInv(s: Sys, e: Step)
    requires Inv(s) && Enabled(s, e)
    ensures Inv(Next(s, e))
  {
    match e
    case Enqueue(_) =>
      EnqueueOrder(s);
    case Work(_) =>
      WorkInv(s, e.ok);
    case Finish =>
      FinishInv(s);
    case Abort =>
      DrainOrder(s);
    case Acquire =>
    case Message(_) =>
  }

  // ---- every interleaving

  ghost predicate IsRun(s: Sys, run: seq<Step>)
    decreases |run|
  {
    run == [] || (Enabled(s, run[0]) && IsRun(Next(s, run[0]), run[1..]))
  }

  ghost function After(s: Sys, run: seq<Step>): Sys
    requires IsRun(s, run)
    decreases |run|
  {
    if run == [] then s else After(Next(s, run[0]), run[1..])
  }

  lemma {:induction false} RunInv(s: Sys, run: seq<Step>)
    requires Inv(s) && IsRun(s, run)
    ensures Inv(After(s, run))
    decreases |run|
  {
    if run != [] {
      NextInv(s, run[0]);
      RunInv(Next(s, run[0]), run[1..]);
    }
  }

  function Num(out: seq<(nat, Fate)>, f: Fate): nat {
    if out == [] then 0 else Num(out[1..], f) + (if out[0].1 == f then 1 else 0)
  }

  lemma {:induction false} Fates(out: seq<(nat, Fate)>)
    ensures Num(out, Done) + Num(out, Dropped) == |out|
  {
    if out != [] { Fates(out[1..]); }
  }

  /** In every interleaving: enqueued = completed + dropped + pending; objects are freed in the order they
      were enqueued, each once; at most one token is outstanding, and the handler never holds a freed object. */
  lemma EveryRun(run: seq<Step>)
    requires IsRun(INIT, run)
    ensures var s := After(INIT, run);
            && s.next == Num(s.out, Done) + Num(s.out, Dropped) + |s.queue|
            && (forall i, j :: 0 <= i < j < |s.out| ==> s.out[i].0 < s.out[j].0)
            && (forall i, j :: 0 <= i < |s.out| && 0 <= j < |s.queue| ==> s.out[i].0 < s.queue[j])
            && s.held <= 1
            && (s.pc.Working? ==> forall i :: 0 <= i < |s.out| ==> s.out[i].0 != s.pc.obj)
  {
    RunInv(INIT, run);
    Fates(After(INIT, run).out);
  }

  /** The 8-bit counter is the length of the queue exactly as long as that fits. */
  lemma CounterExact(run: seq<Step>)
    requires IsRun(INIT, run)
    ensures var s := After(INIT, run); s.cnt == |s.queue| <==> |s.queue| < 256
  {
    RunInv(INIT, run);
  }

  function Enqueues(n: nat): seq<Step> {
    if n == 0 then [] else [Enqueue(true)] + Enqueues(n - 1)
  }

  lemma {:induction false} EnqueueMany(s: Sys, n: nat)
    ensures IsRun(s, Enqueues(n)) && |After(s, Enqueues(n)).queue| == |s.queue| + n
    decreases n
  {
    if n > 0 {
      EnqueueMany(Next(s, Enqueue(true)), n - 1);
      assert Enqueues(n)[1..] == Enqueues(n - 1);
    }
  }

  /** 256 objects enqueued before the dispatcher answers: the counter is back at zero. */
  lemma CounterWraps()
    ensures IsRun(INIT, Enqueues(256))
    ensures var s := After(INIT, Enqueues(256)); |s.queue| == 256 && s.cnt == 0
  {
    EnqueueMany(INIT, 256);
    RunInv(INIT, Enqueues(256));
  }

  // ---- entries without a token

  /** Objects are queued and nobody is going to serve them. */
  predicate Stranded(s: Sys) { s.queue != [] && s.st == Idle }

  /** An object is left without a token in exactly these ways: the request for one is refused, the handler
      gives the token back while something is still queued behind what it drops, or it was so before and no
      arrival has been granted one. */
  lemma StrandedIff(s: Sys, e: Step)
    requires Inv(s) && Enabled(s, e)
    ensures Stranded(Next(s, e)) <==>
              || (Stranded(s) && !(e.Enqueue? && e.granted))
              || (e.Enqueue? && s.st == Idle && !e.granted)
              || (e.Finish? && |s.queue| > if s.pc.drop.Some? then 1 else 0)
  {
    if e.Finish? && s.pc.drop.Some? { RetireHead(s, s.pc.drop.value, Dropped); }
  }

  /** The lock is dropped between finding the queue empty and giving the token back: an object enqueued in
      between reuses a token that is then freed. */
  lemma StrandedByRace()
    ensures var run := [Enqueue(true), Acquire, Message(ConnectEnd), Work(true), Enqueue(true), Finish];
            IsRun(INIT, run) && Stranded(After(INIT, run)) && After(INIT, run).queue == [1]
  {
    var s0 := INIT;
    var s1 := Next(s0, Enqueue(true));
    assert s1.queue == [0];
    var s2 := Next(s1, Acquire);
    var s3 := Next(s2, Message(ConnectEnd));
    var s4 := Next(s3, Work(true));
    assert s4.queue == [] && s4.pc == Freeing(None);
    var s5 := Next(s4, Enqueue(true));
    assert s5.queue == [1];
    var s6 := Next(s5, Finish);
    var run := [Enqueue(true), Acquire, Message(ConnectEnd), Work(true), Enqueue(true), Finish];
    Unroll(run, [s0, s1, s2, s3, s4, s5, s6]);
  }

  lemma {:induction false} Unroll(run: seq<Step>, states: seq<Sys>)
    requires |states| == |run| + 1
    requires forall i :: 0 <= i < |run| ==> Enabled(states[i], run[i]) && states[i + 1] == Next(states[i], run[i])
    ensures IsRun(states[0], run) && After(states[0], run) == states[|run|]
    decreases |run|
  {
    if run != [] {
      var t := states[1..];
      assert Enabled(states[0], run[0]) && t[0] == Next(states[0], run[0]);
      forall i | 0 <= i < |run| - 1 ensures Enabled(t[i], run[1..][i]) && t[i + 1] == Next(t[i], run[1..][i]) {
        assert run[1..][i] == run[i + 1] && t[i] == states[i + 1] && t[i + 1] == states[i + 2];
      }
      Unroll(run[1..], t);
    }
  }

  /** A stranded object is next in line once another arrives and a token is granted for it: the dispatcher's
      next completion is its own. */
  lemma NextArrivalHeals(s: Sys)
    requires Inv(s) && Stranded(s)
    ensures var run := [Enqueue(true), Acquire, Message(ConnectEnd), Work(true)];
            IsRun(s, run) && After(s, run).out == s.out + [(s.queue[0], Done)] && !Stranded(Next(s, Enqueue(true)))
  {
    var s1 := Next(s, Enqueue(true));
    var s2 := Next(s1, Acquire);
    assert s2.queue[0] == s.queue[0];
    var s3 := Next(s2, Message(ConnectEnd));
    var s4 := Next(s3, Work(true));
    Unroll([Enqueue(true), Acquire, Message(ConnectEnd), Work(true)], [s, s1, s2, s3, s4]);
  }

  // ---- what each step means

  /** The last event of an object completes it; then the token goes back if the counter is zero, and otherwise the next
      object is prepared, or dropped where that fails. An earlier event that fails drops its object, one that succeeds
      or is unknown changes nothing. */
  lemma WorkMeans(s: Sys, ok: bool)
    requires Inv(s) && s.pc.Working?
    ensures var t, last := Next(s, Work(ok)), s.pc.evt == ConnectEnd || s.pc.evt == Disconnect;
            && (last ==>
                  && t.out == s.out + [(s.pc.obj, Done)] && t.queue == s.queue[1..]
                  && (t.pc == Freeing(None) <==> (|s.queue| - 1) % 256 == 0)
                  && ((|s.queue| - 1) % 256 != 0 ==> t.pc == if ok then Ready else Freeing(Some(s.queue[1]))))
            && (!last ==>
                  t == s.(pc := if s.pc.evt == Other || ok then Ready else Freeing(Some(s.pc.obj))))
            && t.st == s.st && t.held == s.held && t.next == s.next
  {
    RetireHead(s, s.pc.obj, Done);
  }

  /** Giving back: what is to be dropped is freed, the token is returned and the state is idle. */
  lemma FinishMeans(s: Sys)
    requires Inv(s) && s.pc.Freeing?
    ensures var t := Next(s, Finish);
            && t.st == Idle && !t.token && t.held == 0 && t.pc == Ready && t.next == s.next
            && t.out == s.out + (if s.pc.drop.Some? then [(s.pc.drop.value, Dropped)] else [])
            && t.queue == if s.pc.drop.Some? then s.queue[1..] else s.queue
  {
    if s.pc.drop.Some? { RetireHead(s, s.pc.drop.value, Dropped); }
  }

  /** A message finds the head of the queue, or goes on to give the token back; an abort drops everything in order. */
  lemma CallbacksMean(s: Sys, evt: Evt)
    requires Inv(s) && s.pc == Ready && s.held > 0
    ensures Next(s, Message(evt)) == s.(pc := if s.queue == [] then Freeing(None) else Working(s.queue[0], evt))
    ensures var t := Next(s, Abort);
            && t.queue == [] && t.cnt == 0 && t.st == Idle && t.held == 0 && |t.out| == |s.out| + |s.queue|
            && t.out[..|s.out|] == s.out && forall i :: 0 <= i < |s.queue| ==> t.out[|s.out| + i] == (s.queue[i], Dropped)
  {
  }
}
