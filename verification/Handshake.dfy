/**
 The completion handshake of a queued command (core/rtw_cmd.c): a submitter
 whose context lives on its stack waits with a timeout, a worker runs the
 command, completes the context and frees the command. Each action below is one
 statement that touches shared memory; any interleaving of them is a run.
 */
module Handshake {

  /** Where the submitter is (rtw_get_chplan_cmd, _rtw_run_in_thread_cmd). */
  datatype Submitter = Submitting | Waiting | Locking | Checking | Unlocking | Reading | Returned

  /** Where the worker is (rtw_run_cmd, and the drop branch of phl_run_core_cmd). */
  datatype Worker = NotQueued | Queued | Handling | Entering | Branching | HandingOver | Marking | Completing
                  | Detaching | FreeingRsp | Leaving | FreeingCmd | Finished

  datatype Status = Submitted | DoneSuccess | DoneCmdError | DoneCmdDrop

  datatype Holder = Nobody | BySubmitter | ByWorker

  /** Who has the response buffer. */
  datatype Buffer = NoBuffer | InCommand | InContext | AtSubmitter | Freed | Leaked

  datatype State = State(
    sub: Submitter, wrk: Worker, mutex: Holder,
    cmdAlive: bool,       // the command object is allocated
    attached: bool,       // cmd->sctx != NULL
    status: Status,       // sctx.status
    completed: bool,      // sctx.done
    dropped: bool, ok: bool, rsp: bool, // what became of the command: dropped, handler succeeded, handler left a response
    found: bool,          // the worker found the context attached
    buffer: Buffer, frees: nat,
    success: bool,        // what the submitter reports
    fault: bool)          // some step touched freed memory

  /** The context is on the submitter's stack. */
  predicate ContextAlive(s: State) { s.sub != Returned }

  datatype Action =
    | Submit | SubmitFails | Wake | Timeout | LockS | Check | UnlockS | ReadResult
    | Run | Drop | Handle(ok: bool, rsp: bool) | LockW | Branch | HandOver | Mark | Complete | Detach | FreeRsp | UnlockW | FreeCmd

  /** `waits` is whether the caller gave a context (timeout_ms >= 0). */
  function Init(waits: bool): State {
    State(Submitting, NotQueued, Nobody, true, waits, Submitted, false, false, false, false, false, NoBuffer, 0, false, false)
  }

  predicate Enabled(s: State, a: Action) {
    match a
    case Submit => s.sub == Submitting
    case SubmitFails => s.sub == Submitting
    case Wake => s.sub == Waiting && s.completed
    case Timeout => s.sub == Waiting
    case LockS => s.sub == Locking && s.mutex == Nobody
    case Check => s.sub == Checking
    case UnlockS => s.sub == Unlocking
    case ReadResult => s.sub == Reading
    case Run => s.wrk == Queued
    case Drop => s.wrk == Queued
    case Handle(_, _) => s.wrk == Handling
    case LockW => s.wrk == Entering && s.mutex == Nobody
    case Branch => s.wrk == Branching
    case HandOver => s.wrk == HandingOver
    case Mark => s.wrk == Marking
    case Complete => s.wrk == Completing
    case Detach => s.wrk == Detaching
    case FreeRsp => s.wrk == FreeingRsp
    case UnlockW => s.wrk == Leaving
    case FreeCmd => s.wrk == FreeingCmd
  }

  function TouchCmd(s: State): State { s.(fault := s.fault || !s.cmdAlive) }

  function TouchContext(s: State): State { s.(fault := s.fault || !ContextAlive(s)) }

  /** Where the submitter goes with an action. */
  function SubmitterNext(s: State, a: Action): Submitter {
    match a
    case Submit => if s.attached then Waiting else Returned
    case SubmitFails => Returned
    case Wake => Locking
    case Timeout => Locking
    case LockS => Checking
    case Check => Unlocking
    case UnlockS => Reading
    case ReadResult => Returned
    case _ => s.sub
  }

  /** Where the worker goes with an action; `hasFree` is whether the command names a function that frees
      its response. */
  function WorkerNext(s: State, a: Action, hasFree: bool): Worker {
    match a
    case Submit => Queued
    case Run => Handling
    case Drop => Entering
    case Handle(_, _) => Entering
    case LockW => Branching
    case Branch =>
      if s.attached then (if s.ok && !s.dropped && s.buffer == InCommand then HandingOver else Marking)
      else if !s.dropped && s.buffer == InCommand && hasFree then FreeingRsp else Leaving
    case HandOver => Marking
    case Mark => Completing
    case Complete => Detaching
    case Detach => Leaving
    case FreeRsp => Leaving
    case UnlockW => FreeingCmd
    case FreeCmd => Finished
    case _ => s.wrk
  }

  /** What an action does to the shared memory. */
  function Effect(s: State, a: Action): State {
    match a
    case SubmitFails => s.(cmdAlive := false)
    case LockS => s.(mutex := BySubmitter)
    case Check => if s.status == Submitted then TouchCmd(s).(attached := false) else s
    case UnlockS => s.(mutex := Nobody)
    case ReadResult =>
      if s.status == DoneSuccess
      then s.(success := true, buffer := if s.buffer == InContext then AtSubmitter else s.buffer)
      else s
    case Drop => s.(dropped := true)
    case Handle(ok, rsp) => TouchCmd(s).(ok := ok, rsp := rsp, buffer := if rsp then InCommand else NoBuffer)
    case LockW => s.(mutex := ByWorker)
    case Branch => TouchCmd(s).(found := s.attached)
    case HandOver => TouchContext(s).(buffer := InContext)
    case Mark => TouchContext(s).(status := if s.dropped then DoneCmdDrop else if s.ok then DoneSuccess else DoneCmdError)
    case Complete => TouchContext(s).(completed := true)
    case Detach => TouchCmd(s).(attached := false)
    case FreeRsp => s.(buffer := Freed, frees := s.frees + 1)
    case UnlockW => s.(mutex := Nobody)
    case FreeCmd => TouchCmd(s).(cmdAlive := false, buffer := if s.buffer == InCommand then Leaked else s.buffer)
    case _ => s
  }

  function Next(s: State, a: Action, hasFree: bool): State
    requires Enabled(s, a)
  {
    Effect(s, a).(sub := SubmitterNext(s, a), wrk := WorkerNext(s, a, hasFree))
  }

  ghost predicate IsRun(s: State, acts: seq<Action>, hasFree: bool)
    decreases |acts|
  {
    acts == [] || (Enabled(s, acts[0]) && IsRun(Next(s, acts[0], hasFree), acts[1..], hasFree))
  }

  ghost function After(s: State, acts: seq<Action>, hasFree: bool): State
    requires IsRun(s, acts, hasFree)
    decreases |acts|
  {
    if acts == [] then s else After(Next(s, acts[0], hasFree), acts[1..], hasFree)
  }

  // ---- what every step keeps

  /** Before the worker has looked at the context. */
  predicate Early(w: Worker) {
    w == NotQueued || w == Queued || w == Handling || w == Entering || w == Branching
  }

  /** Between finding the context attached and detaching it. */
  predicate UsingContext(w: Worker) {
    w == HandingOver || w == Marking || w == Completing || w == Detaching
  }

  predicate InSection(w: Worker) {
    w == Branching || UsingContext(w) || w == FreeingRsp || w == Leaving
  }

  predicate PastCheck(u: Submitter) {
    u == Unlocking || u == Reading || u == Returned
  }

  function Verdict(s: State): Status {
    if s.dropped then DoneCmdDrop else if s.ok then DoneSuccess else DoneCmdError
  }

  ghost predicate MutexInv(s: State) {
    && (s.mutex == BySubmitter <==> s.sub == Checking || s.sub == Unlocking)
    && (s.mutex == ByWorker <==> InSection(s.wrk))
  }

  ghost predicate CommandInv(s: State) {
    && (s.sub == Submitting ==> s.wrk == NotQueued)
    && (s.wrk == NotQueued ==> s.sub == Submitting || s.sub == Returned)
    && (s.cmdAlive <==> s.wrk != Finished && !(s.wrk == NotQueued && s.sub == Returned))
  }

  ghost predicate ContextInv(s: State) {
    && (s.attached ==> Early(s.wrk) || UsingContext(s.wrk))
    && (s.wrk != NotQueued && Early(s.wrk) ==> (s.attached <==> !PastCheck(s.sub)))
    && (Early(s.wrk) ==> !s.found && s.status == Submitted && !s.completed)
    && (UsingContext(s.wrk) ==> s.found && s.attached && !PastCheck(s.sub))
    && (s.wrk == HandingOver || s.wrk == Marking ==> s.status == Submitted && !s.completed)
    && (!Early(s.wrk) && !s.found ==> s.status == Submitted && !s.completed && PastCheck(s.sub))
    && (!Early(s.wrk) && s.found && s.wrk != HandingOver && s.wrk != Marking ==>
          s.status == Verdict(s) && (s.completed <==> s.wrk != Completing))
    && (s.success <==> s.sub == Returned && s.status == DoneSuccess)
  }

  /** Who has the response at each point. */
  function Owner(s: State, hasFree: bool): Buffer {
    if !s.rsp then NoBuffer
    else if Early(s.wrk) || s.wrk == HandingOver || s.wrk == FreeingRsp then InCommand
    else if s.found && s.ok then (if s.sub == Returned then AtSubmitter else InContext)
    else if !s.found && hasFree then Freed
    else if s.wrk == Finished then Leaked
    else InCommand
  }

  ghost predicate ResponseInv(s: State, hasFree: bool) {
    && (s.wrk == NotQueued || s.wrk == Queued || s.wrk == Handling ==> !s.rsp && !s.dropped)
    && (s.dropped ==> !s.rsp)
    && s.buffer == Owner(s, hasFree)
    && s.frees == (if s.buffer == Freed then 1 else 0)
    && (s.wrk == FreeingRsp ==> hasFree && !s.found && s.rsp)
    && (s.wrk == HandingOver ==> s.ok && s.rsp)
  }

  ghost predicate Inv(s: State, hasFree: bool) {
    !s.fault && MutexInv(s) && CommandInv(s) && ContextInv(s) && ResponseInv(s, hasFree)
  }

  lemma InitInv(waits: bool, hasFree: bool)
    ensures Inv(Init(waits), hasFree)
  {
  }

  lemma SubmitterSubmits(s: State, a: Action, hasFree: bool)
    requires Inv(s, hasFree) && Enabled(s, a) && (a.Submit? || a.SubmitFails? || a.Wake? || a.Timeout?)
    ensures Inv(Next(s, a, hasFree), hasFree)
  {
  }

  lemma SubmitterDetaches(s: State, a: Action, hasFree: bool)
    requires Inv(s, hasFree) && Enabled(s, a) && (a.LockS? || a.Check? || a.UnlockS? || a.ReadResult?)
    ensures Inv(Next(s, a, hasFree), hasFree)
  {
  }

  lemma WorkerRuns(s: State, a: Action, hasFree: bool)
    requires Inv(s, hasFree) && Enabled(s, a)
    requires a.Run? || a.Drop? || a.Handle? || a.LockW?
    ensures Inv(Next(s, a, hasFree), hasFree)
  {
  }

  lemma WorkerLooks(s: State, hasFree: bool)
    requires Inv(s, hasFree) && Enabled(s, Branch)
    ensures Inv(Next(s, Branch, hasFree), hasFree)
  {
  }

  lemma WorkerCompletes(s: State, a: Action, hasFree: bool)
    requires Inv(s, hasFree) && Enabled(s, a)
    requires a.HandOver? || a.Mark? || a.Complete? || a.Detach?
    ensures Inv(Next(s, a, hasFree), hasFree)
  {
  }

  lemma WorkerEnds(s: State, a: Action, hasFree: bool)
    requires Inv(s, hasFree) && Enabled(s, a)
    requires a.FreeRsp? || a.UnlockW? || a.FreeCmd?
    ensures Inv(Next(s, a, hasFree), hasFree)
  {
  }

  lemma StepInv(s: State, a: Action, hasFree: bool)
    requires Inv(s, hasFree) && Enabled(s, a)
    ensures Inv(Next(s, a, hasFree), hasFree)
  {
    match a
    case Run => WorkerRuns(s, a, hasFree);
    case Drop => WorkerRuns(s, a, hasFree);
    case Handle(_, _) => WorkerRuns(s, a, hasFree);
    case LockW => WorkerRuns(s, a, hasFree);
    case Branch => WorkerLooks(s, hasFree);
    case HandOver => WorkerCompletes(s, a, hasFree);
    case Mark => WorkerCompletes(s, a, hasFree);
    case Complete => WorkerCompletes(s, a, hasFree);
    case Detach => WorkerCompletes(s, a, hasFree);
    case FreeRsp => WorkerEnds(s, a, hasFree);
    case UnlockW => WorkerEnds(s, a, hasFree);
    case FreeCmd => WorkerEnds(s, a, hasFree);
    case LockS => SubmitterDetaches(s, a, hasFree);
    case Check => SubmitterDetaches(s, a, hasFree);
    case UnlockS => SubmitterDetaches(s, a, hasFree);
    case ReadResult => SubmitterDetaches(s, a, hasFree);
    case _ => SubmitterSubmits(s, a, hasFree);
  }

  lemma {:induction false} RunInv(s: State, acts: seq<Action>, hasFree: bool)
    requires Inv(s, hasFree) && IsRun(s, acts, hasFree)
    ensures Inv(After(s, acts, hasFree), hasFree)
    decreases |acts|
  {
    if acts != [] {
      StepInv(s, acts[0], hasFree);
      RunInv(Next(s, acts[0], hasFree), acts[1..], hasFree);
    }
  }

  /** Both threads are through: the submitter has returned and the command is gone. */
  predicate Final(s: State) {
    s.sub == Returned && (s.wrk == Finished || s.wrk == NotQueued)
  }

  ghost predicate Stuck(s: State) {
    forall a: Action :: !Enabled(s, a)
  }

  lemma Progress(s: State, hasFree: bool)
    requires Inv(s, hasFree)
    ensures Stuck(s) <==> Final(s)
  {
    if !Final(s) {
      assert Enabled(s, SubmitAction(s)) || Enabled(s, WorkAction(s));
    }
  }

  function SubmitAction(s: State): Action {
    match s.sub
    case Submitting => Submit
    case Waiting => Timeout
    case Locking => LockS
    case Checking => Check
    case Unlocking => UnlockS
    case _ => ReadResult
  }

  function WorkAction(s: State): Action {
    match s.wrk
    case NotQueued => Submit
    case Queued => Run
    case Handling => Handle(true, true)
    case Entering => LockW
    case Branching => Branch
    case HandingOver => HandOver
    case Marking => Mark
    case Completing => Complete
    case Detaching => Detach
    case FreeingRsp => FreeRsp
    case Leaving => UnlockW
    case _ => FreeCmd
  }

  function SubmitterLeft(u: Submitter): nat {
    match u
    case Submitting => 6 case Waiting => 5 case Locking => 4 case Checking => 3 case Unlocking => 2 case Reading => 1 case Returned => 0
  }

  function WorkerLeft(w: Worker): nat {
    match w
    case NotQueued => 11 case Queued => 10 case Handling => 9 case Entering => 8 case Branching => 7 case HandingOver => 6
    case Marking => 5 case Completing => 4 case Detaching => 3 case FreeingRsp => 3 case Leaving => 2 case FreeingCmd => 1 case Finished => 0
  }

  /** No run is longer than the steps the two threads have left, so every run can be completed. */
  lemma {:induction false} RunsAreFinite(s: State, acts: seq<Action>, hasFree: bool)
    requires Inv(s, hasFree) && IsRun(s, acts, hasFree)
    ensures |acts| <= SubmitterLeft(s.sub) + WorkerLeft(s.wrk)
    decreases |acts|
  {
    if acts != [] {
      StepInv(s, acts[0], hasFree);
      if BySubmitterThread(acts[0]) {
        SubmitterShrinks(s, acts[0], hasFree);
      } else {
        WorkerShrinks(s, acts[0], hasFree);
      }
      RunsAreFinite(Next(s, acts[0], hasFree), acts[1..], hasFree);
    }
  }

  predicate BySubmitterThread(a: Action) {
    a.Submit? || a.SubmitFails? || a.Wake? || a.Timeout? || a.LockS? || a.Check? || a.UnlockS? || a.ReadResult?
  }

  lemma SubmitterShrinks(s: State, a: Action, hasFree: bool)
    requires Enabled(s, a) && BySubmitterThread(a)
    ensures SubmitterLeft(SubmitterNext(s, a)) < SubmitterLeft(s.sub)
    ensures WorkerNext(s, a, hasFree) == if a.Submit? then Queued else s.wrk
  {
  }

  lemma WorkerShrinks(s: State, a: Action, hasFree: bool)
    requires Enabled(s, a) && !BySubmitterThread(a)
    ensures SubmitterNext(s, a) == s.sub && WorkerLeft(WorkerNext(s, a, hasFree)) < WorkerLeft(s.wrk)
  {
  }

  /** In every interleaving no step touches the context after the submitter has returned, nor a freed
      command; a run stops only when both threads are through; and then the response of a successful
      handler has exactly one owner: the submitter, which reports success, or it was freed once. */
  lemma EveryInterleaving(waits: bool, hasFree: bool, acts: seq<Action>)
    requires IsRun(Init(waits), acts, hasFree)
    ensures var s := After(Init(waits), acts, hasFree);
            && !s.fault && s.frees <= 1
            && |acts| <= 17
            && (Stuck(s) <==> Final(s))
            && (s.success ==> s.ok && !s.dropped)
            && (Final(s) ==> (s.buffer == Leaked <==> s.rsp && if s.found then !s.ok else !hasFree))
            && (Final(s) && s.rsp && s.ok && hasFree ==>
                  (s.success && s.buffer == AtSubmitter && s.frees == 0) || (!s.success && s.buffer == Freed && s.frees == 1))
  {
    InitInv(waits, hasFree);
    RunInv(Init(waits), acts, hasFree);
    RunsAreFinite(Init(waits), acts, hasFree);
    Progress(After(Init(waits), acts, hasFree), hasFree);
  }

  /** The handler leaves a response only when it succeeds. */
  ghost predicate RspOnSuccess(acts: seq<Action>) {
    forall i :: 0 <= i < |acts| ==> (acts[i].Handle? ==> acts[i].rsp ==> acts[i].ok)
  }

  lemma RspStep(s: State, a: Action, hasFree: bool)
    requires Enabled(s, a) && (a.Handle? ==> a.rsp ==> a.ok) && (s.rsp ==> s.ok)
    ensures var t := Next(s, a, hasFree); t.rsp ==> t.ok
  {
    if BySubmitterThread(a) {
      SubmitterKeepsRsp(s, a);
    } else if !a.Handle? {
      WorkerKeepsRsp(s, a);
    }
  }

  lemma SubmitterKeepsRsp(s: State, a: Action)
    requires BySubmitterThread(a)
    ensures Effect(s, a).rsp == s.rsp && Effect(s, a).ok == s.ok
  {
    match a
    case Submit => case SubmitFails => case Wake => case Timeout =>
    case LockS => case Check => case UnlockS => case ReadResult =>
  }

  lemma WorkerKeepsRsp(s: State, a: Action)
    requires !BySubmitterThread(a) && !a.Handle?
    ensures Effect(s, a).rsp == s.rsp && Effect(s, a).ok == s.ok
  {
    match a
    case Run => case Drop => case LockW => case Branch => case HandOver => case Mark => case Complete =>
    case Detach => case FreeRsp => case UnlockW => case FreeCmd =>
  }

  lemma RspTail(acts: seq<Action>)
    requires acts != [] && RspOnSuccess(acts)
    ensures RspOnSuccess(acts[1..]) && (acts[0].Handle? ==> acts[0].rsp ==> acts[0].ok)
  {
    forall i | 0 <= i < |acts| - 1 ensures acts[1..][i].Handle? ==> acts[1..][i].rsp ==> acts[1..][i].ok {
      assert acts[1..][i] == acts[i + 1];
    }
  }

  lemma {:induction false} RspMeansOk(s: State, acts: seq<Action>, hasFree: bool)
    requires IsRun(s, acts, hasFree) && RspOnSuccess(acts) && (s.rsp ==> s.ok)
    ensures var t := After(s, acts, hasFree); t.rsp ==> t.ok
    decreases |acts|
  {
    if acts != [] {
      RspTail(acts);
      RspStep(s, acts[0], hasFree);
      RspMeansOk(Next(s, acts[0], hasFree), acts[1..], hasFree);
    }
  }

  /** A command that names a function to free its response, and whose handler leaves one only on success, as the
      one command with a response does, never leaks it. */
  lemma NeverLeaks(waits: bool, acts: seq<Action>)
    requires IsRun(Init(waits), acts, true) && RspOnSuccess(acts)
    ensures After(Init(waits), acts, true).buffer != Leaked
  {
    InitInv(waits, true);
    RunInv(Init(waits), acts, true);
    RspMeansOk(Init(waits), acts, true);
  }

  // ---- a submitter that waits long enough

  ghost predicate NoTimeout(acts: seq<Action>) { forall i :: 0 <= i < |acts| ==> !acts[i].Timeout? }

  /** Past the wait only after completion. */
  ghost predicate Patient(s: State) {
    s.sub == Submitting || s.sub == Waiting || s.completed
  }

  lemma PatientStep(s: State, a: Action, hasFree: bool)
    requires Inv(s, hasFree) && Enabled(s, a) && Patient(s) && !a.Timeout? && !a.SubmitFails? && (a.Submit? ==> s.attached)
    ensures Patient(Next(s, a, hasFree))
  {
    if BySubmitterThread(a) {
      match a
      case Submit => case SubmitFails => case Wake => case Timeout =>
      case LockS => case Check => case UnlockS => case ReadResult =>
    } else {
      match a
      case Run => case Drop => case Handle(_, _) => case LockW => case Branch => case HandOver => case Mark => case Complete =>
      case Detach => case FreeRsp => case UnlockW => case FreeCmd =>
    }
  }

  lemma {:induction false} PatientRun(s: State, acts: seq<Action>, hasFree: bool)
    requires Inv(s, hasFree) && IsRun(s, acts, hasFree) && Patient(s) && NoTimeout(acts)
    requires (forall i :: 0 <= i < |acts| ==> !acts[i].SubmitFails?) && (s.sub == Submitting ==> s.attached)
    ensures Patient(After(s, acts, hasFree))
    decreases |acts|
  {
    if acts != [] {
      var t := Next(s, acts[0], hasFree);
      assert !acts[0].Timeout? && !acts[0].SubmitFails?;
      PatientStep(s, acts[0], hasFree);
      StepInv(s, acts[0], hasFree);
      var tail := acts[1..];
      forall i | 0 <= i < |tail| ensures !tail[i].Timeout? && !tail[i].SubmitFails? { assert tail[i] == acts[i + 1]; }
      assert t.sub == Submitting ==> t.attached by {
        if t.sub == Submitting { StillAttached(s, acts[0], hasFree); }
      }
      PatientRun(t, tail, hasFree);
    }
  }

  lemma StillAttached(s: State, a: Action, hasFree: bool)
    requires Inv(s, hasFree) && Enabled(s, a) && SubmitterNext(s, a) == Submitting && s.attached
    ensures Next(s, a, hasFree).attached
  {
    assert s.wrk == NotQueued;
  }

  /** Without a timeout a submitter that waits reports success exactly when the command ran and its handler succeeded,
      and then has the response, if there is one. */
  lemma PatienceIsRewarded(acts: seq<Action>, hasFree: bool)
    requires IsRun(Init(true), acts, hasFree) && NoTimeout(acts) && forall i :: 0 <= i < |acts| ==> !acts[i].SubmitFails?
    ensures var s := After(Init(true), acts, hasFree);
            Final(s) ==> (s.success <==> s.ok && !s.dropped) && (s.success && s.rsp ==> s.buffer == AtSubmitter)
  {
    InitInv(true, hasFree);
    RunInv(Init(true), acts, hasFree);
    PatientRun(Init(true), acts, hasFree);
  }
}
