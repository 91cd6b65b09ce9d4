/** Reviewing a cancellation request: the approval intent is committed before any provider effect, so a
    crashed approval can be resumed by its reviewer and by nobody else. */
module Approval {
  import opened Collections

  type User = string
  type ProcessId = nat

  datatype Decision = Approve | Reject | Withdraw
  datatype Status = Pending | Approved | Rejected | Withdrawn

  /** The request row.  `requester` is absent for a guest request. */
  datatype Request = Request(
    status: Status,
    version: nat,
    requester: Option<User>,
    executionActor: Option<User>,
    executionNote: Option<string>,
    reviewer: Option<User>,
    decisionNote: Option<string>)

  /** A provider operation stored under its idempotency key: who asked, and how it ended. */
  datatype StoredOperation = StoredOperation(actor: User, ok: bool)

  /** How far the transaction of one decision has got. */
  datatype Phase = Started | Locked | Checked | IntentCommitted | CancelDone | RefundDone

  datatype Process = Process(user: User, decision: Decision, note: string, version: nat, phase: Phase)

  /** Committed data, the booking lock, and the decisions under way. */
  datatype State = State(
    request: Request,
    refundNeeded: bool,
    cancellation: Option<StoredOperation>,
    cancellations: nat,
    refund: Option<StoredOperation>,
    refunds: nat,
    lock: Option<ProcessId>,
    processes: map<ProcessId, Process>)

  /** The checks that depend on facts outside this model. */
  datatype Checks = Checks(termsConfirmed: bool, maySelfApprove: bool, mayRefund: bool, evidenceUnchanged: bool)

  /** A provider call that runs for the first time: it commits a result, or throws and rolls back. */
  datatype CallOutcome = Succeeds | Fails | Throws

  datatype Step =
    | Begin(p: ProcessId, user: User, decision: Decision, note: string, version: nat)
    | TakeLock(p: ProcessId)
    | Check(p: ProcessId, checks: Checks)
    | CommitIntent(p: ProcessId)
    | CallCancel(p: ProcessId, outcome: CallOutcome)
    | CallRefund(p: ProcessId, outcome: CallOutcome)
    | Finish(p: ProcessId)
    | Crash(p: ProcessId)

  predicate At(s: State, p: ProcessId, phase: Phase) {
    p in s.processes && s.processes[p].phase == phase
  }

  function Advance(s: State, p: ProcessId, phase: Phase): State
    requires p in s.processes
  {
    s.(processes := s.processes[p := s.processes[p].(phase := phase)])
  }

  /** The transaction ends, by commit or rollback: its lock is released. */
  function End(s: State, p: ProcessId): State {
    s.(processes := s.processes - {p}, lock := if s.lock == Some(p) then None else s.lock)
  }

  /** Everything `decide` verifies after taking the lock. */
  predicate Passes(request: Request, process: Process, checks: Checks) {
    && request.status == Pending
    && request.version == process.version
    && (process.decision == Approve ==>
          && checks.termsConfirmed
          && (request.requester == Some(process.user) ==> checks.maySelfApprove)
          && checks.mayRefund)
    && (request.executionActor.Some? ==>
          && process.decision == Approve
          && request.executionActor == Some(process.user)
          && request.executionNote == Some(process.note))
    && (process.decision == Approve && request.executionActor.None? ==> checks.evidenceUnchanged)
  }

  /** The stable actor of the provider command. */
  function CommandActor(request: Request, user: User): User {
    if request.requester.Some? then request.requester.value else user
  }

  /** An idempotent provider call: the stored result when there is one, else `outcome`. */
  datatype Called = Returned(operation: StoredOperation, first: bool) | Conflict | Exception

  function Call(stored: Option<StoredOperation>, actor: User, outcome: CallOutcome): Called {
    if stored.Some? then
      if stored.value.actor == actor then Returned(stored.value, false) else Conflict
    else
      match outcome
      case Succeeds => Returned(StoredOperation(actor, true), true)
      case Fails => Returned(StoredOperation(actor, false), true)
      case Throws => Exception
  }

  function Decided(decision: Decision): Status {
    match decision
    case Approve => Approved
    case Reject => Rejected
    case Withdraw => Withdrawn
  }

  function AfterCancel(s: State, p: ProcessId, outcome: CallOutcome): State
    requires p in s.processes
  {
    var actor := CommandActor(s.request, s.processes[p].user);
    match Call(s.cancellation, actor, outcome)
    case Exception => End(s, p)
    case Conflict => End(s, p)
    case Returned(operation, first) =>
      var stored := s.(cancellation := Some(operation),
                       cancellations := s.cancellations + if first && operation.ok then 1 else 0);
      if operation.ok then Advance(stored, p, CancelDone) else End(stored, p)
  }

  function AfterRefund(s: State, p: ProcessId, outcome: CallOutcome): State
    requires p in s.processes
  {
    if !s.refundNeeded then Advance(s, p, RefundDone)
    else
      var actor := CommandActor(s.request, s.processes[p].user);
      match Call(s.refund, actor, outcome)
      case Exception => End(s, p)
      case Conflict => Advance(s, p, RefundDone)
      case Returned(operation, first) =>
        Advance(s.(refund := Some(operation), refunds := s.refunds + if first && operation.ok then 1 else 0),
                p, RefundDone)
  }

  function AfterFinish(s: State, p: ProcessId): State
    requires p in s.processes
  {
    var process := s.processes[p];
    End(if s.request.status != Pending then s
        else s.(request := s.request.(status := Decided(process.decision), reviewer := Some(process.user),
                                      decisionNote := Some(process.note), version := s.request.version + 1)), p)
  }

  /** One step; a step that cannot happen now leaves the state unchanged. */
  function Apply(s: State, step: Step): State {
    match step
    case Begin(p, user, decision, note, version) =>
      if p in s.processes then s
      else s.(processes := s.processes[p := Process(user, decision, note, version, Started)])
    case TakeLock(p) =>
      if At(s, p, Started) && s.lock.None? then Advance(s, p, Locked).(lock := Some(p)) else s
    case Check(p, checks) =>
      if !At(s, p, Locked) then s
      else if Passes(s.request, s.processes[p], checks) then Advance(s, p, Checked)
      else End(s, p)
    case CommitIntent(p) =>
      if !At(s, p, Checked) || s.processes[p].decision != Approve then s
      else if s.request.status == Pending && s.request.executionActor.None? then
        Advance(s, p, IntentCommitted).(request := s.request.(
          executionActor := Some(s.processes[p].user), executionNote := Some(s.processes[p].note)))
      else Advance(s, p, IntentCommitted)
    case CallCancel(p, outcome) => if At(s, p, IntentCommitted) then AfterCancel(s, p, outcome) else s
    case CallRefund(p, outcome) => if At(s, p, CancelDone) then AfterRefund(s, p, outcome) else s
    case Finish(p) =>
      if At(s, p, RefundDone) || (At(s, p, Checked) && s.processes[p].decision != Approve)
      then AfterFinish(s, p) else s
    case Crash(p) => if p in s.processes then End(s, p) else s
  }

  function Run(s: State, steps: seq<Step>): State
    decreases steps
  {
    if steps == [] then s else Run(Apply(s, steps[0]), steps[1..])
  }

  /** A fresh request: undecided, nothing executed, nobody deciding. */
  ghost predicate Initial(s: State) {
    && s.request.status == Pending && s.request.executionActor.None? && s.request.executionNote.None?
    && s.request.reviewer.None? && s.request.decisionNote.None?
    && s.cancellation.None? && s.cancellations == 0 && s.refund.None? && s.refunds == 0
    && s.lock.None? && s.processes == map[]
  }

  // ---------------------------------------------------------------- the inductive invariant

  ghost predicate LockInvariant(s: State) {
    && (forall p :: p in s.processes ==> (s.processes[p].phase != Started <==> s.lock == Some(p)))
    && (s.lock.Some? ==> s.lock.value in s.processes)
  }

  /** Effects happen once, by the actor whose intent was committed. */
  ghost predicate EffectInvariant(s: State) {
    var r := s.request;
    && (r.executionActor.Some? <==> r.executionNote.Some?)
    && (s.cancellation.Some? ==>
          r.executionActor.Some? && s.cancellation.value.actor == CommandActor(r, r.executionActor.value))
    && s.cancellations == (if s.cancellation.Some? && s.cancellation.value.ok then 1 else 0)
    && (s.refund.Some? ==>
          s.cancellation.Some? && s.cancellation.value.ok && s.refund.value.actor == s.cancellation.value.actor)
    && s.refunds == (if s.refund.Some? && s.refund.value.ok then 1 else 0)
  }

  ghost predicate StatusInvariant(s: State) {
    var r := s.request;
    match r.status
    case Pending => r.reviewer.None? && r.decisionNote.None?
    case Approved =>
      && r.executionActor.Some? && r.reviewer == r.executionActor && r.decisionNote == r.executionNote
      && s.cancellation.Some? && s.cancellation.value.ok
      && (s.refundNeeded ==> s.refund.Some?)
    case _ => r.executionActor.None? && r.reviewer.Some?
  }

  ghost predicate ProcessInvariant(s: State, process: Process) {
    var r := s.request;
    && (process.phase != Started && process.phase != Locked ==>
          && r.status == Pending
          && (r.executionActor.Some? ==>
                process.decision == Approve && r.executionActor == Some(process.user) && r.executionNote == Some(process.note)))
    && (process.phase == IntentCommitted || process.phase == CancelDone || process.phase == RefundDone ==>
          process.decision == Approve && r.executionActor == Some(process.user))
    && (process.phase == CancelDone || process.phase == RefundDone ==>
          s.cancellation.Some? && s.cancellation.value.ok)
    && (process.phase == RefundDone && s.refundNeeded ==> s.refund.Some?)
  }

  ghost predicate Inv(s: State) {
    && LockInvariant(s) && EffectInvariant(s) && StatusInvariant(s)
    && forall p :: p in s.processes ==> ProcessInvariant(s, s.processes[p])
  }

  /** A committed intent, a decision and an effect are never undone. */
  ghost predicate Kept(s: State, t: State) {
    && (s.request.executionActor.Some? ==>
          t.request.executionActor == s.request.executionActor && t.request.executionNote == s.request.executionNote)
    && (s.request.status != Pending ==> t.request == s.request)
    && (s.cancellation.Some? ==> t.cancellation == s.cancellation)
    && (s.refund.Some? ==> t.refund == s.refund)
    && s.cancellations <= t.cancellations && s.refunds <= t.refunds
    && t.refundNeeded == s.refundNeeded && t.request.requester == s.request.requester
  }

  ghost predicate Keeps(s: State, t: State) {
    Inv(t) && Kept(s, t)
  }

  lemma {:induction false} EndKeeps(s: State, p: ProcessId)
    requires Inv(s)
    ensures Keeps(s, End(s, p))
  {
  }

  lemma {:induction false} BeginKeeps(s: State, step: Step)
    requires Inv(s) && step.Begin?
    ensures Keeps(s, Apply(s, step))
  {
  }

  lemma {:induction false} TakeLockKeeps(s: State, p: ProcessId)
    requires Inv(s)
    ensures Keeps(s, Apply(s, TakeLock(p)))
  {
    var t := Apply(s, TakeLock(p));
    if At(s, p, Started) && s.lock.None? {
      forall q | q in t.processes
        ensures ProcessInvariant(t, t.processes[q])
      {
        if q != p {
          assert ProcessInvariant(s, s.processes[q]);
        }
      }
    }
  }

  lemma {:induction false} CheckKeeps(s: State, p: ProcessId, checks: Checks)
    requires Inv(s)
    ensures Keeps(s, Apply(s, Check(p, checks)))
  {
    EndKeeps(s, p);
  }

  /** Past the lock there is one process at most. */
  lemma {:induction false} HolderIsAlone(s: State, p: ProcessId, q: ProcessId)
    requires LockInvariant(s)
    requires p in s.processes && s.processes[p].phase != Started
    requires q in s.processes && q != p
    ensures s.processes[q].phase == Started
  {
  }

  lemma {:induction false} IntentKeeps(s: State, p: ProcessId)
    requires Inv(s)
    ensures Keeps(s, Apply(s, CommitIntent(p)))
  {
    var t := Apply(s, CommitIntent(p));
    if At(s, p, Checked) && s.processes[p].decision == Approve {
      forall q | q in t.processes
        ensures ProcessInvariant(t, t.processes[q])
      {
        if q != p {
          HolderIsAlone(s, p, q);
        }
      }
    }
  }

  /** Storing the first result of the cancellation, by the actor of the committed intent. */
  lemma {:induction false} StoreCancelKeeps(s: State, p: ProcessId, ok: bool)
    requires Inv(s) && At(s, p, IntentCommitted) && s.cancellation.None?
    ensures Keeps(s, s.(cancellation := Some(StoredOperation(CommandActor(s.request, s.processes[p].user), ok)),
                        cancellations := s.cancellations + if ok then 1 else 0))
  {
  }

  lemma {:induction false} CancelKeeps(s: State, p: ProcessId, outcome: CallOutcome)
    requires Inv(s) && At(s, p, IntentCommitted)
    ensures Keeps(s, AfterCancel(s, p, outcome))
  {
    var actor := CommandActor(s.request, s.processes[p].user);
    match Call(s.cancellation, actor, outcome)
    case Exception => EndKeeps(s, p);
    case Conflict => EndKeeps(s, p);
    case Returned(operation, first) =>
      var stored := s.(cancellation := Some(operation),
                       cancellations := s.cancellations + if first && operation.ok then 1 else 0);
      if first {
        StoreCancelKeeps(s, p, operation.ok);
      } else {
        assert stored == s;
      }
      EndKeeps(stored, p);
  }

  lemma {:induction false} RefundKeeps(s: State, p: ProcessId, outcome: CallOutcome)
    requires Inv(s) && At(s, p, CancelDone)
    ensures Keeps(s, AfterRefund(s, p, outcome))
  {
    EndKeeps(s, p);
  }

  lemma {:induction false} FinishKeeps(s: State, p: ProcessId)
    requires Inv(s)
    requires At(s, p, RefundDone) || (At(s, p, Checked) && s.processes[p].decision != Approve)
    ensures Keeps(s, AfterFinish(s, p))
  {
  }

  lemma {:induction false} StepKeeps(s: State, step: Step)
    requires Inv(s)
    ensures Keeps(s, Apply(s, step))
  {
    match step
    case CommitIntent(p) => IntentKeeps(s, p);
    case CallCancel(p, outcome) => if At(s, p, IntentCommitted) { CancelKeeps(s, p, outcome); }
    case CallRefund(p, outcome) => if At(s, p, CancelDone) { RefundKeeps(s, p, outcome); }
    case Finish(p) =>
      if At(s, p, RefundDone) || (At(s, p, Checked) && s.processes[p].decision != Approve) { FinishKeeps(s, p); }
    case Crash(p) => EndKeeps(s, p);
    case Begin(_, _, _, _, _) => BeginKeeps(s, step);
    case TakeLock(p) => TakeLockKeeps(s, p);
    case Check(p, checks) => CheckKeeps(s, p, checks);
  }

  lemma {:induction false} RunKeeps(s: State, steps: seq<Step>)
    requires Inv(s)
    ensures Keeps(s, Run(s, steps))
    decreases steps
  {
    if steps != [] {
      StepKeeps(s, steps[0]);
      RunKeeps(Apply(s, steps[0]), steps[1..]);
    }
  }

  lemma {:induction false} RunAppend(s: State, first: seq<Step>, second: seq<Step>)
    ensures Run(s, first + second) == Run(Run(s, first), second)
    decreases first
  {
    if first == [] {
      assert first + second == second;
    } else {
      assert (first + second)[0] == first[0] && (first + second)[1..] == first[1..] + second;
      RunAppend(Apply(s, first[0]), first[1..], second);
    }
  }

  /** Every run from a new request: a rejected or withdrawn request never had its cancellation or its refund
      carried out, an approved one had its cancellation exactly once under the note its reviewer committed,
      and neither effect ever happens twice. */
  lemma {:induction false} DecisionsMatchEffects(s: State, steps: seq<Step>)
    requires Initial(s)
    ensures var t := Run(s, steps);
      && t.cancellations <= 1 && t.refunds <= t.cancellations
      && (t.request.status == Rejected || t.request.status == Withdrawn ==>
            t.cancellations == 0 && t.cancellation.None? && t.refund.None? && t.request.executionActor.None?)
      && (t.request.status == Approved ==>
            && t.cancellations == 1
            && t.request.reviewer == t.request.executionActor && t.request.executionActor.Some?
            && t.request.decisionNote == t.request.executionNote
            && (t.refundNeeded ==> t.refund.Some?))
      && (t.cancellations == 1 ==> t.request.executionActor.Some?)
  {
    RunKeeps(s, steps);
  }

  /** Once an intent is committed it stands in every continuation: no other reviewer, note or decision can
      close the request, and a decided request never changes again. */
  lemma {:induction false} IntentIsFinal(s: State, first: seq<Step>, second: seq<Step>)
    requires Initial(s)
    requires Run(s, first).request.executionActor.Some?
    ensures var before, after := Run(s, first).request, Run(s, first + second).request;
      && after.executionActor == before.executionActor && after.executionNote == before.executionNote
      && (after.status == Pending || after.status == Approved)
      && (after.status == Approved ==>
            after.reviewer == before.executionActor && after.decisionNote == before.executionNote)
      && (before.status != Pending ==> after == before)
  {
    RunKeeps(s, first);
    RunKeeps(Run(s, first), second);
    RunAppend(s, first, second);
  }

  /** A cancellation that failed is stored under the request's key, so every retry gets that failure back:
      the request can then never be decided, by anyone. */
  lemma {:induction false} FailureIsFinal(s: State, first: seq<Step>, second: seq<Step>)
    requires Initial(s)
    requires Run(s, first).cancellation.Some? && !Run(s, first).cancellation.value.ok
    ensures Run(s, first + second).request.status == Pending
    ensures Run(s, first + second).cancellations == 0 && Run(s, first + second).refunds == 0
  {
    RunKeeps(s, first);
    RunKeeps(Run(s, first), second);
    RunAppend(s, first, second);
  }

  // ---------------------------------------------------------------- one decision, start to end

  /** One uninterrupted decision by process `p`; steps that do not apply to it change nothing. */
  function Script(p: ProcessId, decider: Process, checks: Checks, cancel: CallOutcome, refund: CallOutcome): seq<Step> {
    [Begin(p, decider.user, decider.decision, decider.note, decider.version), TakeLock(p), Check(p, checks),
     CommitIntent(p), CallCancel(p, cancel), CallRefund(p, refund), Finish(p)]
  }

  function Intended(request: Request, decider: Process): Request {
    if request.executionActor.None? then
      request.(executionActor := Some(decider.user), executionNote := Some(decider.note))
    else request
  }

  function Closed(request: Request, decider: Process): Request {
    request.(status := Decided(decider.decision), reviewer := Some(decider.user),
             decisionNote := Some(decider.note), version := request.version + 1)
  }

  function Finished(s: State, decider: Process): State {
    if s.request.status != Pending then s else s.(request := Closed(s.request, decider))
  }

  function Refunded(s: State, decider: Process, refund: CallOutcome): State {
    if !s.refundNeeded then Finished(s, decider)
    else
      match Call(s.refund, CommandActor(s.request, decider.user), refund)
      case Exception => s
      case Conflict => Finished(s, decider)
      case Returned(paid, once) =>
        Finished(s.(refund := Some(paid), refunds := s.refunds + if once && paid.ok then 1 else 0), decider)
  }

  function Executed(s: State, decider: Process, cancel: CallOutcome, refund: CallOutcome): State {
    match Call(s.cancellation, CommandActor(s.request, decider.user), cancel)
    case Exception => s
    case Conflict => s
    case Returned(operation, first) =>
      var stored := s.(cancellation := Some(operation),
                       cancellations := s.cancellations + if first && operation.ok then 1 else 0);
      if operation.ok then Refunded(stored, decider, refund) else stored
  }

  /** What an uninterrupted decision commits. */
  function Committed(s: State, decider: Process, checks: Checks, cancel: CallOutcome, refund: CallOutcome): State {
    if !Passes(s.request, decider, checks) then s
    else if decider.decision != Approve then Finished(s, decider)
    else Executed(s.(request := Intended(s.request, decider)), decider, cancel, refund)
  }

  lemma {:induction false} RunCons(s: State, a: Step, rest: seq<Step>)
    ensures Run(s, [a] + rest) == Run(Apply(s, a), rest)
  {
    assert ([a] + rest)[1..] == rest;
  }

  lemma {:induction false} RunSeven(s: State, a: Step, b: Step, c: Step, d: Step, e: Step, f: Step, g: Step)
    ensures Run(s, [a, b, c, d, e, f, g]) ==
            Apply(Apply(Apply(Apply(Apply(Apply(Apply(s, a), b), c), d), e), f), g)
  {
    RunCons(s, a, [b, c, d, e, f, g]);
    var s1 := Apply(s, a);
    RunCons(s1, b, [c, d, e, f, g]);
    var s2 := Apply(s1, b);
    RunCons(s2, c, [d, e, f, g]);
    var s3 := Apply(s2, c);
    RunCons(s3, d, [e, f, g]);
    var s4 := Apply(s3, d);
    RunCons(s4, e, [f, g]);
    var s5 := Apply(s4, e);
    RunCons(s5, f, [g]);
    RunCons(Apply(s5, f), g, []);
  }

  /** `s` with the decision at `phase` and in possession of the lock. */
  function Holding(s: State, p: ProcessId, decider: Process, phase: Phase): State {
    s.(processes := s.processes[p := decider.(phase := phase)], lock := Some(p))
  }

  ghost predicate Free(s: State, p: ProcessId) {
    s.lock.None? && p !in s.processes
  }

  lemma {:induction false} HoldingEnds(s: State, p: ProcessId, decider: Process, phase: Phase)
    requires Free(s, p)
    ensures End(Holding(s, p, decider, phase), p) == s
  {
    assert Holding(s, p, decider, phase).processes - {p} == s.processes;
  }

  lemma {:induction false} HoldingAdvances(s: State, p: ProcessId, decider: Process, phase: Phase, next: Phase)
    ensures Advance(Holding(s, p, decider, phase), p, next) == Holding(s, p, decider, next)
  {
    assert s.processes[p := decider.(phase := phase)][p := decider.(phase := next)]
        == s.processes[p := decider.(phase := next)];
  }

  lemma {:induction false} OpeningRuns(s: State, p: ProcessId, decider: Process, checks: Checks)
    requires Free(s, p)
    ensures Apply(Apply(Apply(s, Begin(p, decider.user, decider.decision, decider.note, decider.version)),
                        TakeLock(p)), Check(p, checks))
         == if Passes(s.request, decider, checks) then Holding(s, p, decider, Checked) else s
  {
    var begun := s.(processes := s.processes[p := decider.(phase := Started)]);
    assert begun.processes[p := decider.(phase := Locked)] == s.processes[p := decider.(phase := Locked)];
    assert Apply(begun, TakeLock(p)) == Holding(s, p, decider, Locked);
    HoldingAdvances(s, p, decider, Locked, Checked);
    HoldingEnds(s, p, decider, Locked);
  }

  lemma {:induction false} ExecutionRuns(s: State, p: ProcessId, decider: Process, cancel: CallOutcome,
      refund: CallOutcome)
    requires Free(s, p)
    ensures Apply(Apply(Apply(Holding(s, p, decider, IntentCommitted), CallCancel(p, cancel)), CallRefund(p, refund)), Finish(p))
         == Executed(s, decider, cancel, refund)
  {
    var actor := CommandActor(s.request, decider.user);
    HoldingEnds(s, p, decider, IntentCommitted);
    match Call(s.cancellation, actor, cancel)
    case Exception =>
    case Conflict =>
    case Returned(operation, first) =>
      var stored := s.(cancellation := Some(operation),
                       cancellations := s.cancellations + if first && operation.ok then 1 else 0);
      HoldingEnds(stored, p, decider, IntentCommitted);
      HoldingAdvances(stored, p, decider, IntentCommitted, CancelDone);
      if operation.ok {
        assert Apply(Holding(s, p, decider, IntentCommitted), CallCancel(p, cancel)) == Holding(stored, p, decider, CancelDone);
        RefundRuns(stored, p, decider, refund);
      }
  }

  lemma {:induction false} RefundRuns(s: State, p: ProcessId, decider: Process, refund: CallOutcome)
    requires Free(s, p)
    ensures Apply(Apply(Holding(s, p, decider, CancelDone), CallRefund(p, refund)), Finish(p))
         == Refunded(s, decider, refund)
  {
    HoldingAdvances(s, p, decider, CancelDone, RefundDone);
    HoldingEnds(s, p, decider, CancelDone);
    FinishRuns(s, p, decider, RefundDone);
    if s.refundNeeded {
      match Call(s.refund, CommandActor(s.request, decider.user), refund)
      case Exception =>
      case Conflict =>
      case Returned(paid, once) =>
        var stored := s.(refund := Some(paid), refunds := s.refunds + if once && paid.ok then 1 else 0);
        HoldingAdvances(stored, p, decider, CancelDone, RefundDone);
        FinishRuns(stored, p, decider, RefundDone);
    }
  }

  lemma {:induction false} FinishRuns(s: State, p: ProcessId, decider: Process, phase: Phase)
    requires Free(s, p)
    ensures AfterFinish(Holding(s, p, decider, phase), p) == Finished(s, decider)
  {
    HoldingEnds(s, p, decider, phase);
    HoldingEnds(Finished(s, decider), p, decider, phase);
  }

  /** Run through the step system without interruption, a decision commits what `Committed` says. */
  lemma {:induction false} DecisionRuns(s: State, p: ProcessId, decider: Process, checks: Checks,
                                        cancel: CallOutcome, refund: CallOutcome)
    requires Free(s, p)
    ensures Run(s, Script(p, decider, checks, cancel, refund)) == Committed(s, decider, checks, cancel, refund)
  {
    RunSeven(s, Begin(p, decider.user, decider.decision, decider.note, decider.version), TakeLock(p), Check(p, checks),
             CommitIntent(p), CallCancel(p, cancel), CallRefund(p, refund), Finish(p));
    OpeningRuns(s, p, decider, checks);
    if Passes(s.request, decider, checks) {
      var held := Holding(s, p, decider, Checked);
      if decider.decision == Approve {
        var intended := s.(request := Intended(s.request, decider));
        HoldingAdvances(intended, p, decider, Checked, IntentCommitted);
        HoldingAdvances(s, p, decider, Checked, IntentCommitted);
        assert Apply(held, CommitIntent(p)) == Holding(intended, p, decider, IntentCommitted);
        ExecutionRuns(intended, p, decider, cancel, refund);
      } else {
        assert Apply(Apply(Apply(held, CommitIntent(p)), CallCancel(p, cancel)), CallRefund(p, refund)) == held;
        FinishRuns(s, p, decider, Checked);
      }
    }
  }

  /** After any crash the reviewer whose intent is committed can finish, with the stored cancellation and
      even when the refund fails, exactly when the cancellation itself did not fail. */
  lemma {:induction false} ReviewerCanFinish(s: State, steps: seq<Step>, p: ProcessId, reviewer: Process)
    requires Initial(s)
    requires var t := Run(s, steps); Free(t, p) && t.request.status == Pending
    requires reviewer.decision == Approve && reviewer.version == Run(s, steps).request.version
    requires Run(s, steps).request.executionActor == Some(reviewer.user)
    requires Run(s, steps).request.executionNote == Some(reviewer.note)
    ensures var t := Run(s, steps);
      Run(t, Script(p, reviewer, Checks(true, true, true, true), Succeeds, Fails)).request.status == Approved <==>
      !(t.cancellation.Some? && !t.cancellation.value.ok)
  {
    RunKeeps(s, steps);
    DecisionRuns(Run(s, steps), p, reviewer, Checks(true, true, true, true), Succeeds, Fails);
  }

  /** It does happen: any reviewer who approves a new request while the provider refuses the cancellation leaves
      the failure stored, and no continuation whatever decides the request. */
  lemma {:induction false} FailedApprovalIsStuck(s: State, p: ProcessId, user: User, note: string,
      refund: CallOutcome, more: seq<Step>)
    requires Initial(s)
    ensures var reviewer := Process(user, Approve, note, s.request.version, Started);
      var script := Script(p, reviewer, Checks(true, true, true, true), Fails, refund);
      var t := Run(s, script);
      && t.cancellation == Some(StoredOperation(CommandActor(s.request, user), false))
      && t.request == Intended(s.request, reviewer) && t.request.status == Pending
      && t.lock.None? && t.processes == map[]
      && Run(s, script + more).request.status == Pending
  {
    var reviewer := Process(user, Approve, note, s.request.version, Started);
    var checks := Checks(true, true, true, true);
    DecisionRuns(s, p, reviewer, checks, Fails, refund);
    FailureIsFinal(s, Script(p, reviewer, checks, Fails, refund), more);
  }

  /** The committed data and the decision procedure that updates it. */
  class ReviewDesk {
    var request: Request
    const refundNeeded: bool
    var cancellation: Option<StoredOperation>
    var cancellations: nat
    var refund: Option<StoredOperation>
    var refunds: nat

    ghost function Data(): State
      reads this
    {
      State(request, refundNeeded, cancellation, cancellations, refund, refunds, None, map[])
    }

    constructor (requester: Option<User>, refundNeeded: bool)
      ensures Initial(Data()) && request.requester == requester && this.refundNeeded == refundNeeded
    {
      request := Request(Pending, 1, requester, None, None, None, None);
      this.refundNeeded := refundNeeded;
      cancellation, cancellations, refund, refunds := None, 0, None, 0;
    }

    /** The provider cancels under the request's idempotency key. */
    method CancelBooking(actor: User, outcome: CallOutcome) returns (called: Called)
      modifies this`cancellation, this`cancellations
      ensures called == Call(old(cancellation), actor, outcome)
      ensures cancellation == if called.Returned? then Some(called.operation) else old(cancellation)
      ensures cancellations == old(cancellations) + if called.Returned? && called.first && called.operation.ok then 1 else 0
    {
      called := Call(cancellation, actor, outcome);
      if called.Returned? {
        cancellation := Some(called.operation);
        if called.first && called.operation.ok {
          cancellations := cancellations + 1;
        }
      }
    }

    method RefundPayment(actor: User, outcome: CallOutcome) returns (called: Called)
      modifies this`refund, this`refunds
      ensures called == Call(old(refund), actor, outcome)
      ensures refund == if called.Returned? then Some(called.operation) else old(refund)
      ensures refunds == old(refunds) + if called.Returned? && called.first && called.operation.ok then 1 else 0
    {
      called := Call(refund, actor, outcome);
      if called.Returned? {
        refund := Some(called.operation);
        if called.first && called.operation.ok {
          refunds := refunds + 1;
        }
      }
    }

    /** Cancel, then refund; true when the decision may be recorded. */
    method Execute(user: User, cancel: CallOutcome, refundOutcome: CallOutcome) returns (done: bool)
      modifies this`cancellation, this`cancellations, this`refund, this`refunds
      ensures forall decider: Process :: decider.user == user && old(request).status == Pending ==>
        (if done then Finished(Data(), decider) else Data()) == Executed(old(Data()), decider, cancel, refundOutcome)
    {
      var actor := CommandActor(request, user);
      var cancelled := CancelBooking(actor, cancel);
      if !cancelled.Returned? || !cancelled.operation.ok {
        return false;
      }
      if refundNeeded {
        var refunded := RefundPayment(actor, refundOutcome);
        return !refunded.Exception?;
      }
      return true;
    }

    /** One decision.  It commits exactly what the step system commits when nothing interrupts it. */
    method Decide(decider: Process, checks: Checks, cancel: CallOutcome,
        refundOutcome: CallOutcome) returns (closed: bool)
      modifies this
      ensures Data() == Run(old(Data()), Script(0, decider, checks, cancel, refundOutcome))
      ensures closed <==> old(request).status == Pending && request.status != Pending
    {
      DecisionRuns(Data(), 0, decider, checks, cancel, refundOutcome);
      if !Passes(request, decider, checks) {
        return false;
      }
      if decider.decision == Approve {
        request := Intended(request, decider);
        var done := Execute(decider.user, cancel, refundOutcome);
        if !done {
          return false;
        }
      }
      request := Closed(request, decider);
      return true;
    }
  }
}
