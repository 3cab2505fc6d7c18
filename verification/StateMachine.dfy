/** The transition table of an agreement, its gate, and what the table alone does and does not enforce. */
module StateMachine {
  import opened Text

  datatype Status =
    | Draft | ReadyForAgentSignature | AgentSigning | AgentSigned
    | PendingEmployeeApproval | EmployeeApproving | EmployeeApproved
    | PendingEmployeeSignature | EmployeeSigning | EmployeeSigned
    | PendingMdSignature | MdSigning
    | Completed | Rejected | Cancelled | Expired | SignatureFailed

  datatype Action =
    | Generate
    | AgentSignInitiate | AgentSignSucceed | AgentSignFail | AdvanceToEmployee
    | EmployeeSignInitiate | EmployeeSignSucceed | EmployeeSignFail | AdvanceToMd
    | MdSignInitiate | MdSignSucceed | MdSignFail
    | RetryAgentSignature | RetryEmployeeSignature | RetryMdSignature
    | Reject | EmployeeReject | Cancel | Expire | Correct

  datatype Role = SuperAdmin | AgreementAdmin | AgentRole | EmployeeRole | MdRole | MdDelegate | Auditor | System

  datatype Rule = Rule(sources: set<Status>, target: Status, roles: set<Role>, requiresReason: bool)

  const ADMINS := {AgreementAdmin, SuperAdmin}

  function RuleOf(action: Action): Rule {
    match action
    case Generate => Rule({Draft}, ReadyForAgentSignature, {AgentRole} + ADMINS, false)
    case AgentSignInitiate => Rule({ReadyForAgentSignature}, AgentSigning, {AgentRole}, false)
    case AgentSignSucceed => Rule({AgentSigning}, AgentSigned, {System}, false)
    case AgentSignFail => Rule({AgentSigning}, SignatureFailed, {System}, false)
    case AdvanceToEmployee => Rule({AgentSigned}, PendingEmployeeSignature, {System}, false)
    case EmployeeSignInitiate => Rule({PendingEmployeeSignature}, EmployeeSigning, {EmployeeRole}, false)
    case EmployeeSignSucceed => Rule({EmployeeSigning}, EmployeeSigned, {System}, false)
    case EmployeeSignFail => Rule({EmployeeSigning}, SignatureFailed, {System}, false)
    case AdvanceToMd => Rule({EmployeeSigned}, PendingMdSignature, {System}, false)
    case MdSignInitiate => Rule({PendingMdSignature}, MdSigning, {MdRole, MdDelegate}, false)
    case MdSignSucceed => Rule({MdSigning}, Completed, {System}, false)
    case MdSignFail => Rule({MdSigning}, SignatureFailed, {System}, false)
    case RetryAgentSignature => Rule({SignatureFailed}, ReadyForAgentSignature, {AgentRole} + ADMINS, false)
    case RetryEmployeeSignature => Rule({SignatureFailed}, PendingEmployeeSignature, {EmployeeRole} + ADMINS, false)
    case RetryMdSignature => Rule({SignatureFailed}, PendingMdSignature, {MdRole, MdDelegate} + ADMINS, false)
    case Reject => Rule({PendingMdSignature, MdSigning}, Rejected, {MdRole, MdDelegate}, true)
    case EmployeeReject => Rule({PendingEmployeeSignature, EmployeeSigning}, Rejected, {EmployeeRole}, true)
    case Cancel =>
      Rule({Draft, ReadyForAgentSignature, AgentSigning, AgentSigned,
            PendingEmployeeApproval, EmployeeApproving, EmployeeApproved,
            PendingEmployeeSignature, EmployeeSigning, EmployeeSigned, PendingMdSignature, MdSigning, SignatureFailed},
           Cancelled, ADMINS, true)
    case Expire =>
      Rule({ReadyForAgentSignature, AgentSigning, PendingEmployeeSignature, EmployeeSigning, PendingMdSignature,
            MdSigning, SignatureFailed},
           Expired, {System}, false)
    case Correct => Rule({Rejected, Expired}, Draft, {AgentRole} + ADMINS, false)
  }

  const ACTIONS: seq<Action> :=
    [Generate, AgentSignInitiate, AgentSignSucceed, AgentSignFail, AdvanceToEmployee, EmployeeSignInitiate,
     EmployeeSignSucceed, EmployeeSignFail, AdvanceToMd, MdSignInitiate, MdSignSucceed, MdSignFail, RetryAgentSignature,
     RetryEmployeeSignature, RetryMdSignature, Reject, EmployeeReject, Cancel, Expire, Correct]

  datatype Refusal = InvalidTransition | Forbidden | ReasonTooShort

  datatype Verdict = Allowed(target: Status) | Refused(why: Refusal)

  predicate Edge(source: Status, action: Action, target: Status) {
    source in RuleOf(action).sources && target == RuleOf(action).target
  }

  predicate Holds(roles: set<Role>, action: Action) {
    RuleOf(action).roles * roles != {}
  }

  /** `assertTransition`: the edge first, then the role, then the reason. */
  function AssertTransition(source: Status, action: Action, roles: set<Role>, reason: string): (v: Verdict)
    ensures v.Allowed? ==> Edge(source, action, v.target) && Holds(roles, action)
  {
    var rule := RuleOf(action);
    if source !in rule.sources then Refused(InvalidTransition)
    else if !Holds(roles, action) then Refused(Forbidden)
    else if rule.requiresReason && |Trim(reason)| < 10 then Refused(ReasonTooShort)
    else Allowed(rule.target)
  }

  function Filtered(source: Status, roles: set<Role>, actions: seq<Action>): seq<Action> {
    if actions == [] then []
    else Filtered(source, roles, actions[..|actions| - 1]) +
         if source in RuleOf(actions[|actions| - 1]).sources && Holds(roles, actions[|actions| - 1])
         then [actions[|actions| - 1]] else []
  }

  /** `availableActions`. */
  function AvailableActions(source: Status, roles: set<Role>): seq<Action> {
    Filtered(source, roles, ACTIONS)
  }

  lemma {:induction false} FilteredMember(source: Status, roles: set<Role>, actions: seq<Action>, a: Action)
    ensures a in Filtered(source, roles, actions) <==> a in actions && source in RuleOf(a).sources && Holds(roles, a)
  {
    hide RuleOf, Holds;
    if actions != [] {
      var (front, last) := (actions[..|actions| - 1], actions[|actions| - 1]);
      FilteredMember(source, roles, front, a);
      assert actions == front + [last];
    }
  }

  lemma EveryAction(a: Action)
    ensures a in ACTIONS
  {
    var i := match a
      case Generate =>
        0 case AgentSignInitiate => 1 case AgentSignSucceed => 2 case AgentSignFail => 3 case AdvanceToEmployee => 4
      case EmployeeSignInitiate => 5 case EmployeeSignSucceed => 6 case EmployeeSignFail => 7 case AdvanceToMd => 8
      case MdSignInitiate => 9 case MdSignSucceed => 10 case MdSignFail => 11 case RetryAgentSignature => 12
      case RetryEmployeeSignature => 13 case RetryMdSignature => 14 case Reject => 15 case EmployeeReject => 16
      case Cancel => 17 case Expire => 18 case Correct => 19;
    assert ACTIONS[i] == a;
  }

  /** An action is offered exactly when the gate lets it through with some reason. */
  lemma OfferedIffAllowed(source: Status, roles: set<Role>, a: Action)
    ensures a in AvailableActions(source, roles) <==>
      exists reason :: AssertTransition(source, a, roles, reason).Allowed?
  {
    hide RuleOf, Holds, ACTIONS;
    EveryAction(a);
    FilteredMember(source, roles, ACTIONS, a);
    if a in AvailableActions(source, roles) {
      LongReason();
      assert AssertTransition(source, a, roles, "0123456789").Allowed?;
    }
  }

  lemma LongReason()
    ensures |Trim("0123456789")| == 10
  {
    var s := "0123456789";
    assert SkipSpaces(s, 0) == 0;
    assert s[0..] == s;
    assert TrimEnd(s) == s;
  }

  // ---- What the table enforces --------------------------------------------------------------------

  const TERMINAL: set<Status> := {Completed, Cancelled}

  predicate IsRetry(a: Action) {
    a == RetryAgentSignature || a == RetryEmployeeSignature || a == RetryMdSignature
  }

  /** Completed and cancelled agreements have no edge out; rejected and expired ones only the correction. */
  lemma TerminalEdges(source: Status, action: Action, target: Status)
    requires Edge(source, action, target)
    ensures source !in TERMINAL
    ensures source == Rejected || source == Expired ==> action == Correct
  {
  }

  /** Each waiting state is entered from the state before it in the signing order, or by its own retry edge. */
  lemma InboundEdges(source: Status, action: Action, target: Status)
    requires Edge(source, action, target)
    ensures target == ReadyForAgentSignature ==> action == Generate || action == RetryAgentSignature
    ensures target == PendingEmployeeSignature ==>
      (source == AgentSigned && action == AdvanceToEmployee) || action == RetryEmployeeSignature
    ensures target == PendingMdSignature ==>
      (source == EmployeeSigned && action == AdvanceToMd) || action == RetryMdSignature
    ensures target == Completed ==> source == MdSigning
  {
  }

  /** Whether the actions lead from one status to another along edges of the table. */
  predicate Path(source: Status, actions: seq<Action>, target: Status)
    decreases |actions|
  {
    if actions == [] then source == target
    else source in RuleOf(actions[0]).sources && Path(RuleOf(actions[0]).target, actions[1..], target)
  }

  const EARLY: seq<Action> :=
    [Generate, AgentSignInitiate, AgentSignFail, RetryMdSignature, MdSignInitiate, MdSignSucceed]

  /** The table alone lets an agreement complete without the agent's and the employee's signature: every retry edge
      leaves the one failure state. */
  lemma TableAdmitsEarlyCompletion()
    ensures Path(Draft, EARLY, Completed)
    ensures AgentSignSucceed !in EARLY && EmployeeSignSucceed !in EARLY
  {
    hide Path, RuleOf;
    var p := EARLY;
    EmptyPath(Completed);
    Edges();
    PathStep(MdSigning, [], Completed, MdSignSucceed);
    assert [MdSignSucceed] + [] == [MdSignSucceed];
    PathStep(PendingMdSignature, [MdSignSucceed], Completed, MdSignInitiate);
    assert [MdSignInitiate] + [MdSignSucceed] == p[4..];
    PathStep(SignatureFailed, p[4..], Completed, RetryMdSignature);
    assert [RetryMdSignature] + p[4..] == p[3..];
    PathStep(AgentSigning, p[3..], Completed, AgentSignFail);
    assert [AgentSignFail] + p[3..] == p[2..];
    PathStep(ReadyForAgentSignature, p[2..], Completed, AgentSignInitiate);
    assert [AgentSignInitiate] + p[2..] == p[1..];
    PathStep(Draft, p[1..], Completed, Generate);
    assert [Generate] + p[1..] == p;
  }

  lemma EmptyPath(s: Status)
    ensures Path(s, [], s)
  {
  }

  lemma PathStep(source: Status, rest: seq<Action>, target: Status, a: Action)
    requires source in RuleOf(a).sources && Path(RuleOf(a).target, rest, target)
    ensures Path(source, [a] + rest, target)
  {
    hide RuleOf;
    assert ([a] + rest)[1..] == rest;
  }

  lemma Edges()
    ensures MdSigning in RuleOf(MdSignSucceed).sources && RuleOf(MdSignSucceed).target == Completed
    ensures PendingMdSignature in RuleOf(MdSignInitiate).sources && RuleOf(MdSignInitiate).target == MdSigning
    ensures SignatureFailed in RuleOf(RetryMdSignature).sources && RuleOf(RetryMdSignature).target == PendingMdSignature
    ensures AgentSigning in RuleOf(AgentSignFail).sources && RuleOf(AgentSignFail).target == SignatureFailed
    ensures ReadyForAgentSignature in RuleOf(AgentSignInitiate).sources
    ensures RuleOf(AgentSignInitiate).target == AgentSigning
    ensures Draft in RuleOf(Generate).sources && RuleOf(Generate).target == ReadyForAgentSignature
  {
  }

  /** The successes an agreement in this status should have behind it; a failed, rejected, cancelled or expired
      agreement may have any. */
  function Due(s: Status): seq<Action> {
    match s
    case AgentSigned => [AgentSignSucceed]
    case PendingEmployeeSignature => [AgentSignSucceed]
    case EmployeeSigning => [AgentSignSucceed]
    case EmployeeSigned => [AgentSignSucceed, EmployeeSignSucceed]
    case PendingMdSignature => [AgentSignSucceed, EmployeeSignSucceed]
    case MdSigning => [AgentSignSucceed, EmployeeSignSucceed]
    case Completed => [AgentSignSucceed, EmployeeSignSucceed, MdSignSucceed]
    case _ => []
  }

  /** The successes after an action: a new version starts over. */
  function Tally(done: seq<Action>, a: Action): seq<Action> {
    if a == AgentSignSucceed || a == EmployeeSignSucceed || a == MdSignSucceed then done + [a]
    else if a == Correct then [] else done
  }

  function Successes(done: seq<Action>, actions: seq<Action>): seq<Action>
    decreases |actions|
  {
    if actions == [] then done else Successes(Tally(done, actions[0]), actions[1..])
  }

  predicate Settled(s: Status) {
    s == Rejected || s == Cancelled || s == Expired || s == SignatureFailed || Legacy(s)
  }

  predicate Legacy(s: Status) {
    s == PendingEmployeeApproval || s == EmployeeApproving || s == EmployeeApproved
  }

  function After(s: Status, actions: seq<Action>): Status {
    if actions == [] then s else RuleOf(actions[|actions| - 1]).target
  }

  /** Signatures so far are in order: what the status asks for is what succeeded since the last correction. */
  predicate InOrder(s: Status, done: seq<Action>) {
    Settled(s) || done == Due(s)
  }

  /** Whether signatures are in order after every prefix of the actions. */
  ghost predicate AlwaysInOrder(s: Status, done: seq<Action>, actions: seq<Action>) {
    forall k :: 0 <= k <= |actions| ==> InOrder(After(s, actions[..k]), Successes(done, actions[..k]))
  }

  /** The failure that a retry answers. */
  function FailureOf(retry: Action): Action
    requires IsRetry(retry)
  {
    match retry
    case RetryAgentSignature => AgentSignFail
    case RetryEmployeeSignature => EmployeeSignFail
    case _ => MdSignFail
  }

  /** Every retry is taken as the party whose ceremony failed just before. */
  predicate OwnRetries(actions: seq<Action>) {
    forall i :: 0 <= i < |actions| && IsRetry(actions[i]) ==> i > 0 && actions[i - 1] == FailureOf(actions[i])
  }

  /** The same, step by step, `before` being the action before the first. */
  predicate Answers(before: Option<Action>, actions: seq<Action>)
    decreases |actions|
  {
    actions == [] ||
    ((IsRetry(actions[0]) ==> before == Some(FailureOf(actions[0]))) && Answers(Some(actions[0]), actions[1..]))
  }

  /** In order at every step. */
  predicate Along(s: Status, done: seq<Action>, actions: seq<Action>)
    decreases |actions|
  {
    InOrder(s, done) && (actions == [] || Along(RuleOf(actions[0]).target, Tally(done, actions[0]), actions[1..]))
  }

  lemma SuccessesStep(done: seq<Action>, actions: seq<Action>, k: nat)
    requires 0 < k <= |actions|
    ensures Successes(done, actions[..k]) == Successes(Tally(done, actions[0]), actions[1..][..k - 1])
    ensures forall s: Status :: After(s, actions[..k]) == After(RuleOf(actions[0]).target, actions[1..][..k - 1])
  {
    hide RuleOf, Tally;
    assert actions[..k][1..] == actions[1..][..k - 1];
  }

  lemma {:induction false} AlongIsAlways(s: Status, done: seq<Action>, actions: seq<Action>)
    ensures Along(s, done, actions) <==> AlwaysInOrder(s, done, actions)
    decreases |actions|
  {
    hide RuleOf, Tally, InOrder;
    assert actions[..0] == [];
    if actions != [] {
      var (next, more) := (RuleOf(actions[0]).target, Tally(done, actions[0]));
      AlongIsAlways(next, more, actions[1..]);
      if Along(s, done, actions) {
        forall k | 0 <= k <= |actions|
          ensures InOrder(After(s, actions[..k]), Successes(done, actions[..k]))
        {
          if k > 0 {
            SuccessesStep(done, actions, k);
          }
        }
      }
      if AlwaysInOrder(s, done, actions) {
        assert InOrder(After(s, actions[..0]), Successes(done, actions[..0]));
        forall k | 0 <= k <= |actions[1..]|
          ensures InOrder(After(next, actions[1..][..k]), Successes(more, actions[1..][..k]))
        {
          SuccessesStep(done, actions, k + 1);
        }
      }
    }
  }

  /** What is known after an action on a path that was in order: a failed agreement has what its last failure leaves. */
  predicate Known(s: Status, done: seq<Action>, before: Option<Action>) {
    && InOrder(s, done)
    && (s == SignatureFailed ==> match before
          case Some(AgentSignFail) => done == Due(AgentSigning)
          case Some(EmployeeSignFail) => done == Due(EmployeeSigning)
          case Some(MdSignFail) => done == Due(MdSigning)
          case _ => false)
  }

  lemma StepKnown(s: Status, done: seq<Action>, before: Option<Action>, a: Action)
    requires s in RuleOf(a).sources && Known(s, done, before)
    ensures (IsRetry(a) ==> before == Some(FailureOf(a))) <==> InOrder(RuleOf(a).target, Tally(done, a))
    ensures InOrder(RuleOf(a).target, Tally(done, a)) ==> Known(RuleOf(a).target, Tally(done, a), Some(a))
  {
    hide Known, InOrder, Tally, RuleOf;
    if IsRetry(a) {
      RetryKnown(s, done, before, a);
    } else {
      PlainKnown(s, done, before, a);
    }
  }

  lemma RetryKnown(s: Status, done: seq<Action>, before: Option<Action>, a: Action)
    requires s in RuleOf(a).sources && Known(s, done, before) && IsRetry(a)
    ensures before == Some(FailureOf(a)) <==> InOrder(RuleOf(a).target, Tally(done, a))
    ensures InOrder(RuleOf(a).target, Tally(done, a)) ==> Known(RuleOf(a).target, Tally(done, a), Some(a))
  {
    assert s == SignatureFailed;
    match a
    case RetryAgentSignature =>
    case RetryEmployeeSignature =>
    case RetryMdSignature =>
  }

  lemma PlainKnown(s: Status, done: seq<Action>, before: Option<Action>, a: Action)
    requires s in RuleOf(a).sources && Known(s, done, before) && !IsRetry(a)
    ensures Known(RuleOf(a).target, Tally(done, a), Some(a)) && InOrder(RuleOf(a).target, Tally(done, a))
  {
    PlainOrder(s, done, a);
    if RuleOf(a).target == SignatureFailed {
      FailureKnown(s, done, a);
    }
  }

  lemma PlainOrder(s: Status, done: seq<Action>, a: Action)
    requires s in RuleOf(a).sources && InOrder(s, done) && !IsRetry(a)
    ensures InOrder(RuleOf(a).target, Tally(done, a))
  {
  }

  lemma FailureKnown(s: Status, done: seq<Action>, a: Action)
    requires s in RuleOf(a).sources && InOrder(s, done) && RuleOf(a).target == SignatureFailed
    ensures Known(SignatureFailed, Tally(done, a), Some(a))
  {
  }

  lemma {:induction false} AlongIffAnswers(s: Status, done: seq<Action>, before: Option<Action>, actions: seq<Action>,
                                           target: Status)
    requires Path(s, actions, target) && Known(s, done, before)
    ensures Along(s, done, actions) <==> Answers(before, actions)
    decreases |actions|
  {
    hide RuleOf, Tally, InOrder, Known, IsRetry, FailureOf;
    assert InOrder(s, done) by { KnownInOrder(s, done, before); }
    if actions != [] {
      var a := actions[0];
      StepKnown(s, done, before, a);
      if InOrder(RuleOf(a).target, Tally(done, a)) {
        AlongIffAnswers(RuleOf(a).target, Tally(done, a), Some(a), actions[1..], target);
      } else {
        NotAlong(RuleOf(a).target, Tally(done, a), actions[1..]);
      }
    }
  }

  lemma KnownInOrder(s: Status, done: seq<Action>, before: Option<Action>)
    requires Known(s, done, before)
    ensures InOrder(s, done)
  {
    hide InOrder;
  }

  lemma NotAlong(s: Status, done: seq<Action>, actions: seq<Action>)
    requires !InOrder(s, done)
    ensures !Along(s, done, actions)
  {
    hide InOrder, RuleOf, Tally;
  }

  function Preceding(before: Option<Action>, actions: seq<Action>, i: nat): Option<Action>
    requires i < |actions|
  {
    if i == 0 then before else Some(actions[i - 1])
  }

  ghost predicate OwnFrom(before: Option<Action>, actions: seq<Action>) {
    forall i :: 0 <= i < |actions| && IsRetry(actions[i]) ==>
      Preceding(before, actions, i) == Some(FailureOf(actions[i]))
  }

  lemma OwnStep(before: Option<Action>, actions: seq<Action>)
    requires actions != []
    ensures OwnFrom(before, actions) <==>
      ((IsRetry(actions[0]) ==> before == Some(FailureOf(actions[0]))) && OwnFrom(Some(actions[0]), actions[1..]))
  {
    hide IsRetry, FailureOf;
    var rest := actions[1..];
    assert forall i :: 0 <= i < |rest| ==>
      rest[i] == actions[i + 1] && Preceding(Some(actions[0]), rest, i) == Preceding(before, actions, i + 1);
    assert forall i :: 0 < i < |actions| ==> actions[i] == rest[i - 1];
    assert Preceding(before, actions, 0) == before;
  }

  lemma {:induction false} AnswersIsOwn(before: Option<Action>, actions: seq<Action>)
    ensures Answers(before, actions) <==> OwnFrom(before, actions)
    decreases |actions|
  {
    hide IsRetry, FailureOf, Preceding;
    if actions != [] {
      OwnStep(before, actions);
      AnswersIsOwn(Some(actions[0]), actions[1..]);
    }
  }

  lemma OwnIs(actions: seq<Action>)
    ensures OwnFrom(None, actions) <==> OwnRetries(actions)
  {
    hide IsRetry, FailureOf;
    if OwnFrom(None, actions) {
      forall i | 0 <= i < |actions| && IsRetry(actions[i])
        ensures i > 0 && actions[i - 1] == FailureOf(actions[i])
      {
        assert Preceding(None, actions, i) == Some(FailureOf(actions[i]));
      }
    }
  }

  /** From DRAFT, signatures are in order at every moment exactly when every retry is taken as the party whose ceremony
      failed just before: that much the table leaves to its callers, and no more. */
  lemma OrderIffOwnRetries(actions: seq<Action>, target: Status)
    requires Path(Draft, actions, target)
    ensures AlwaysInOrder(Draft, [], actions) <==> OwnRetries(actions)
  {
    hide Path, Along, Answers, AlwaysInOrder, IsRetry, FailureOf;
    AlongIffAnswers(Draft, [], None, actions, target);
    AlongIsAlways(Draft, [], actions);
    AnswersIsOwn(None, actions);
    assert OwnFrom(None, actions) <==> OwnRetries(actions) by { OwnIs(actions); }
  }

  /** So an agreement that completes with its own retries only has the three successes since its last correction, in
      order. */
  lemma CompletesInOrder(actions: seq<Action>)
    requires Path(Draft, actions, Completed) && OwnRetries(actions)
    ensures Successes([], actions) == [AgentSignSucceed, EmployeeSignSucceed, MdSignSucceed]
  {
    hide Path, RuleOf, Successes, IsRetry, FailureOf;
    OrderIffOwnRetries(actions, Completed);
    assert actions[..|actions|] == actions;
    PathEnds(Draft, actions, Completed);
    assert InOrder(After(Draft, actions[..|actions|]), Successes([], actions[..|actions|]));
  }

  lemma {:induction false} PathEnds(s: Status, actions: seq<Action>, target: Status)
    requires Path(s, actions, target)
    ensures After(s, actions) == target
    decreases |actions|
  {
    hide RuleOf;
    if actions != [] {
      PathEnds(RuleOf(actions[0]).target, actions[1..], target);
    }
  }
}
