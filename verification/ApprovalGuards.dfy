/** When exactly each approval operation is carried out and what it writes, in terms of the stored request: status,
    kind, owner, deadline and history (approval/service.py). */
module ApprovalGuards {
  import opened Approvals
  import Strings

  // ---------------------------------------------------------------- expiry

  /** A sweep at `now` expires exactly the pending requests that have a deadline before `now`, in the name of the
      system, and touches nothing else. */
  lemma SweepIs(e: Environment, rows: Rows, now: string, id: string)
    ensures var (rows', reply) := Apply(e, rows, ExpireStale, now);
            && reply == Done && rows'.Keys == rows.Keys
            && (id in rows ==>
                  if rows[id].status == Pending && rows[id].expiresAt != "" && Strings.Less(rows[id].expiresAt, now)
                  then rows'[id] == rows[id].(status := Expired, resolvedAt := now, resolvedBy := "system",
                                             history := rows[id].history + [Entry(Expiring, "system", now)])
                  else rows'[id] == rows[id])
  {
  }

  /** Every expiry in the history came after the request's deadline. */
  ghost predicate ExpiredInTime(r: Request)
  {
    forall k :: 0 <= k < |r.history| && r.history[k].action == Expiring ==>
      r.expiresAt != "" && Strings.Less(r.expiresAt, r.history[k].at)
  }

  ghost predicate AllInTime(rows: Rows) { forall id :: id in rows ==> ExpiredInTime(rows[id]) }

  /** Over every run: no request is expired before its deadline, or without one. */
  lemma {:induction false} NeverExpiredEarly(e: Environment, rows: Rows, calls: seq<Call>)
    requires AllInTime(rows)
    ensures AllInTime(Run(e, rows, calls))
  {
    if calls != [] {
      var init, last := calls[..|calls| - 1], calls[|calls| - 1];
      NeverExpiredEarly(e, rows, init);
      OperationInTime(e, Run(e, rows, init), last.op, last.now);
    }
  }

  lemma OperationInTime(e: Environment, rows: Rows, op: Operation, now: string)
    requires AllInTime(rows)
    ensures AllInTime(Apply(e, rows, op, now).0)
  {
    var rows' := Apply(e, rows, op, now).0;
    forall id | id in rows' ensures ExpiredInTime(rows'[id]) {
      if op.ExpireStale? {
        SweepIs(e, rows, now, id);
      } else if op.Create? {
        if id !in rows { CreatedIs(e, rows, op, now); }
      } else if op.id in rows {
        var added := Writes(e, rows[op.id], op, now);
        WritesNoExpiry(e, rows[op.id], op, now);
        Carries(e, rows, op, now);
      }
    }
  }

  lemma WritesNoExpiry(e: Environment, r: Request, op: Operation, now: string)
    requires !op.Create? && !op.ExpireStale?
    ensures forall k :: 0 <= k < |Writes(e, r, op, now)| ==> Writes(e, r, op, now)[k].action != Expiring
  {
  }

  // ---------------------------------------------------------------- what is allowed

  /** The statuses in which a decision is still open. */
  predicate Decidable(s: Status) { s == Pending || s == ExecutionFailed }

  predicate Unresolved(s: Status) { s == Pending || s == OnHold || s == ExecutionFailed }

  /** The account that a request of this kind needs is there. */
  predicate AccountFits(e: Environment, kind: string, params: string)
  {
    kind == "budget_change" || kind == "rule_change" || kind == "bot_create" ==> e.accountOk(kind, params)
  }

  /** The exact guard of every operation on a stored request. */
  ghost predicate Allowed(e: Environment, r: Request, op: Operation)
    requires !op.Create? && !op.ExpireStale?
  {
    match op
    case Approve(_, _, _) => KnownKind(r.kind) && Decidable(r.status)
    case Reject(_, _, _) => Decidable(r.status)
    case Reopen(_, who, _, newParams) =>
      && r.status == Rejected && r.requester == who
      && (newParams.Some? ==> AccountFits(e, r.kind, newParams.value))
      && e.validate(r.kind, if newParams.Some? then newParams.value else r.params).Some?
    case Cancel(_, who) => r.requester == who && Unresolved(r.status)
    case Hold(_) => Decidable(r.status)
    case Resume(_) => r.status == OnHold
    case AddReview(_, _, _) => true
    case CancelInvalidType(_, _) => !KnownKind(r.kind) && Unresolved(r.status)
  }

  predicate KnownKind(kind: string)
  {
    || kind == "strategy_adopt" || kind == "strategy_retire" || kind == "bot_create" || kind == "bot_assign_strategy"
    || kind == "bot_change_strategy" || kind == "bot_stop" || kind == "bot_resume" || kind == "bot_delete"
    || kind == "budget_change" || kind == "rule_change"
  }

  /** An operation on a request is carried out if and only if the request exists and its guard holds. */
  lemma DoneIff(e: Environment, rows: Rows, op: Operation, now: string)
    requires !op.Create? && !op.ExpireStale?
    ensures Apply(e, rows, op, now).1 == Done <==> op.id in rows && Allowed(e, rows[op.id], op)
    ensures Apply(e, rows, op, now).1 == NotFound <==> op.id !in rows
  {
  }

  /** A refusal names its reason; where there are several, the first in the order of the checks. */
  lemma RefusedBecause(e: Environment, rows: Rows, op: Operation, now: string)
    requires !op.Create? && !op.ExpireStale? && op.id in rows
    ensures var r, reply := rows[op.id], Apply(e, rows, op, now).1;
            && (reply == InvalidType <==> op.Approve? && !KnownKind(r.kind))
            && (reply == NotInvalidType <==> op.CancelInvalidType? && KnownKind(r.kind))
            && (reply == NotOwner <==> (op.Cancel? && r.requester != op.who)
                                       || (op.Reopen? && r.status == Rejected && r.requester != op.who))
            && (reply == BadAccount ==> op.Reopen? && op.newParams.Some? && !AccountFits(e, r.kind, op.newParams.value))
            && (reply == Invalid ==> op.Reopen?)
            && reply != Duplicate
  {
  }

  // ---------------------------------------------------------------- what is written

  /** The history entries of an operation that is carried out. */
  ghost function Writes(e: Environment, r: Request, op: Operation, now: string): History
    requires !op.Create? && !op.ExpireStale?
  {
    match op
    case Approve(_, who, x) => [Entry(Approving, who, now)] + ExecutionEntries(e, r.kind, who, now, x)
    case Reject(_, who, _) => [Entry(Rejecting, who, now)]
    case Reopen(_, who, _, _) => [Entry(Reopening, who, now)]
    case Cancel(_, who) => [Entry(Cancelling, who, now)]
    case Hold(_) => [Entry(Holding, "user", now)]
    case Resume(_) => [Entry(Resuming, "user", now)]
    case AddReview(_, author, _) => [Entry(Reviewing, author, now)]
    case CancelInvalidType(_, who) => [Entry(CancellingInvalidType, who, now)]
  }

  /** An interrupted execution writes nothing. */
  ghost function ExecutionEntries(e: Environment, kind: string, who: string, now: string, x: Execution): History
  {
    if kind !in e.executors then [Entry(NoExecutor, who, now)]
    else if x.Succeeds? then [Entry(Executing, who, now)]
    else if x.Raises? then [Entry(ExecutionFailing, who, now)]
    else []
  }

  /** The status an operation that is carried out leaves. */
  ghost function Leaves(e: Environment, r: Request, op: Operation): Status
    requires !op.Create? && !op.ExpireStale?
  {
    match op
    case Approve(_, _, x) => if r.kind in e.executors && !x.Raises? then Approved else ExecutionFailed
    case Reject(_, _, _) => Rejected
    case Reopen(_, _, _, _) | Resume(_) => Pending
    case Cancel(_, _) | CancelInvalidType(_, _) => Cancelled
    case Hold(_) => OnHold
    case AddReview(_, _, _) => r.status
  }

  /** What an operation writes and what it leaves alone: other requests, kind, owner and deadline always; the text
      and the parameters but for a resubmission; the reviews but for a review and the warnings of a resubmission. */
  lemma Carries(e: Environment, rows: Rows, op: Operation, now: string)
    requires !op.Create? && !op.ExpireStale? && op.id in rows
    ensures var (rows', reply) := Apply(e, rows, op, now);
            var r, done := rows[op.id], reply == Done;
            && rows'.Keys == rows.Keys && rows' - {op.id} == rows - {op.id}
            && var r' := rows'[op.id];
               && (!done ==> r' == r)
               && (r'.kind, r'.requester, r'.expiresAt) == (r.kind, r.requester, r.expiresAt)
               && r'.history == (if done then r.history + Writes(e, r, op, now) else r.history)
               && (done ==> r'.status == Leaves(e, r, op))
  {
    var r := rows[op.id];
    if op.Approve? && KnownKind(r.kind) && Decidable(r.status) {
      ExecutedWrites(e, Resolve(r, Approved, Approving, op.who, now), op.who, now, op.execution);
    }
  }

  lemma ExecutedWrites(e: Environment, r: Request, who: string, now: string, x: Execution)
    requires r.status == Approved
    ensures var r' := Executed(e, r, who, now, x);
            && r'.history == r.history + ExecutionEntries(e, r.kind, who, now, x)
            && r'.status == (if r.kind in e.executors && !x.Raises? then Approved else ExecutionFailed)
            && r' == r.(history := r'.history, status := r'.status)
  {
    assert r.history + [] == r.history;
  }

  /** The texts and the resolution. */
  lemma Texts(e: Environment, rows: Rows, op: Operation, now: string)
    requires !op.Create? && !op.ExpireStale? && op.id in rows && Apply(e, rows, op, now).1 == Done
    ensures var r, r' := rows[op.id], Apply(e, rows, op, now).0[op.id];
            var resent := op.Reopen?;
            && r'.body == (if resent && op.newBody.Some? then op.newBody.value else r.body)
            && r'.params == (if resent && op.newParams.Some? then op.newParams.value else r.params)
            && r'.rejectReason == (if op.Reject? then op.reason else if resent then "" else r.rejectReason)
            && r'.reviews == r.reviews + (if op.AddReview? then [Review(op.author, op.result)]
                                          else if resent && e.validate(r.kind, r'.params).Some?
                                          then e.validate(r.kind, r'.params).value else [])
            && (r'.resolvedBy, r'.resolvedAt)
               == (match op
                   case Approve(_, who, _) => (who, now)
                   case Reject(_, who, _) => (who, now)
                   case Cancel(_, who) => (who, now)
                   case CancelInvalidType(_, who) => (who, now)
                   case Reopen(_, _, _, _) => ("", "")
                   case _ => (r.resolvedBy, r.resolvedAt))
  {
    assert rows[op.id].reviews + [] == rows[op.id].reviews;
  }

  // ---------------------------------------------------------------- creation

  /** A request is created if and only if its kind is known, its account is there where it needs one, the validators
      pass and its identifier is new; and an existing request never changes by that. */
  lemma CreatedIff(e: Environment, rows: Rows, op: Operation, now: string)
    requires op.Create?
    ensures Apply(e, rows, op, now).1 == Done
            <==> KnownKind(op.kind) && AccountFits(e, op.kind, op.params) && e.validate(op.kind, op.params).Some?
                 && op.id !in rows
    ensures Apply(e, rows, op, now).1 == Done ==>
              Apply(e, rows, op, now).0.Keys == rows.Keys + {op.id} && Apply(e, rows, op, now).0 - {op.id} == rows
    ensures Apply(e, rows, op, now).1 != Done ==> Apply(e, rows, op, now).0 == rows
    ensures Apply(e, rows, op, now).1 == InvalidType <==> !KnownKind(op.kind)
    ensures Apply(e, rows, op, now).1 == BadAccount
            <==> KnownKind(op.kind) && !AccountFits(e, op.kind, op.params)
    ensures Apply(e, rows, op, now).1 == Invalid
            <==> KnownKind(op.kind) && AccountFits(e, op.kind, op.params) && e.validate(op.kind, op.params).None?
  {
  }

  /** The new request carries what was asked for and the validators' warnings; if the rules approve it, it is
      approved in their name and carried out at once, otherwise it waits. */
  lemma CreatedIs(e: Environment, rows: Rows, op: Operation, now: string)
    requires op.Create? && Apply(e, rows, op, now).1 == Done
    ensures op.id in Apply(e, rows, op, now).0 && e.validate(op.kind, op.params).Some?
    ensures var r := Apply(e, rows, op, now).0[op.id];
            var auto := e.autoApproves(op.kind, op.params);
            && (r.kind, r.requester, r.body, r.params, r.expiresAt)
               == (op.kind, op.requester, op.body, op.params, op.expiresAt)
            && r.reviews == e.validate(op.kind, op.params).value && r.rejectReason == ""
            && r.history == [Entry(Creating, op.requester, now)]
                            + (if auto then [Entry(Approving, "system:auto_approve", now)]
                                            + ExecutionEntries(e, op.kind, "system:auto_approve", now, op.execution)
                               else [])
            && (r.resolvedBy, r.resolvedAt) == (if auto then ("system:auto_approve", now) else ("", ""))
            && r.status == (if !auto then Pending
                            else if op.kind in e.executors && !op.execution.Raises? then Approved else ExecutionFailed)
  {
    var warnings := e.validate(op.kind, op.params).value;
    var r := Request(op.kind, Pending, op.requester, op.body, op.params, warnings,
                     [Entry(Creating, op.requester, now)], op.expiresAt, "", "", "");
    if e.autoApproves(op.kind, op.params) {
      ExecutedWrites(e, Resolve(r, Approved, Approving, AUTO, now), AUTO, now, op.execution);
      assert r.history + [Entry(Approving, AUTO, now)] + ExecutionEntries(e, op.kind, AUTO, now, op.execution)
          == r.history + ([Entry(Approving, AUTO, now)] + ExecutionEntries(e, op.kind, AUTO, now, op.execution));
    } else {
      assert r.history + [] == r.history;
    }
  }
}
