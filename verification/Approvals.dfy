/** The approval workflow: every operation of the service on its table of requests, and the history each
    request carries (approval/service.py, approval/models.py). */
module Approvals {
  import opened Collections
  import Strings

  datatype Status = Pending | Approved | ExecutionFailed | Rejected | OnHold | Expired | Cancelled

  datatype Action =
    | Creating | Approving | Executing | ExecutionFailing | NoExecutor | Rejecting | Reopening
    | Cancelling | CancellingInvalidType | Holding | Resuming | Expiring | Reviewing

  datatype Entry = Entry(action: Action, actor: string, at: string)
  type History = seq<Entry>

  datatype Review = Review(author: string, result: string)

  datatype Request = Request(kind: string, status: Status, requester: string, body: string, params: string,
                             reviews: seq<Review>, history: History, expiresAt: string,
                             resolvedAt: string, resolvedBy: string, rejectReason: string)
  type Rows = map<string, Request>

  const KINDS := {"strategy_adopt", "strategy_retire", "bot_create", "bot_assign_strategy", "bot_change_strategy",
                  "bot_stop", "bot_resume", "bot_delete", "budget_change", "rule_change"}
  const ACCOUNT_KINDS := {"budget_change", "rule_change", "bot_create"}
  const AUTO := "system:auto_approve"

  /** The collaborators: the account check, the validators (None when one of them fails, otherwise the
      warnings), the auto-approval rules, and which kinds have an executor. */
  datatype Environment = Environment(accountOk: (string, string) -> bool,
                                     validate: (string, string) -> Option<seq<Review>>,
                                     autoApproves: (string, string) -> bool,
                                     executors: set<string>)

  /** How the executor of an approved request ends; interrupted means cancelled from outside. */
  datatype Execution = Succeeds | Raises | Interrupted

  datatype Reply =
    Done | NotFound | InvalidType | NotInvalidType | BadAccount | Invalid | Conflict | NotOwner | Duplicate

  datatype Operation =
    | Create(id: string, kind: string, requester: string, body: string, params: string, expiresAt: string,
             execution: Execution)
    | Approve(id: string, who: string, execution: Execution)
    | Reject(id: string, who: string, reason: string)
    | Reopen(id: string, who: string, newBody: Option<string>, newParams: Option<string>)
    | Cancel(id: string, who: string)
    | Hold(id: string)
    | Resume(id: string)
    | AddReview(id: string, author: string, result: string)
    | ExpireStale
    | CancelInvalidType(id: string, who: string)

  function Log(r: Request, action: Action, actor: string, now: string): Request
  {
    r.(history := r.history + [Entry(action, actor, now)])
  }

  function Resolve(r: Request, status: Status, action: Action, who: string, now: string): Request
  {
    Log(r, action, who, now).(status := status, resolvedAt := now, resolvedBy := who)
  }

  /** Running the executor of a request that has just been approved. */
  function Executed(e: Environment, r: Request, actor: string, now: string, x: Execution): Request
  {
    if r.kind !in e.executors then Log(r, NoExecutor, actor, now).(status := ExecutionFailed)
    else
      match x
      case Succeeds => Log(r, Executing, actor, now)
      case Raises => Log(r, ExecutionFailing, actor, now).(status := ExecutionFailed)
      case Interrupted => r
  }

  function Overdue(r: Request, now: string): bool
  {
    r.status == Pending && r.expiresAt != "" && Strings.Less(r.expiresAt, now)
  }

  function OverdueIds(rows: Rows, now: string): set<string> { set id | id in rows && Overdue(rows[id], now) }

  function ExpireAll(rows: Rows, ids: set<string>, now: string): Rows
  {
    map id | id in rows :: if id in ids then Resolve(rows[id], Expired, Expiring, "system", now) else rows[id]
  }

  /** What an operation makes of one request. */
  function OnRequest(e: Environment, r: Request, op: Operation, now: string): (Request, Reply)
    requires !op.Create? && !op.ExpireStale?
  {
    match op
    case Approve(_, who, x) =>
      if r.kind !in KINDS then (r, InvalidType)
      else if r.status !in {Pending, ExecutionFailed} then (r, Conflict)
      else (Executed(e, Resolve(r, Approved, Approving, who, now), who, now, x), Done)
    case Reject(_, who, reason) =>
      if r.status !in {Pending, ExecutionFailed} then (r, Conflict)
      else (Resolve(r, Rejected, Rejecting, who, now).(rejectReason := reason), Done)
    case Reopen(_, who, newBody, newParams) =>
      if r.status != Rejected then (r, Conflict)
      else if r.requester != who then (r, NotOwner)
      else
        var body := if newBody.Some? then newBody.value else r.body;
        var params := if newParams.Some? then newParams.value else r.params;
        if newParams.Some? && r.kind in ACCOUNT_KINDS && !e.accountOk(r.kind, params) then (r, BadAccount)
        else
          var warnings := e.validate(r.kind, params);
          if warnings.None? then (r, Invalid)
          else
            (Log(r, Reopening, who, now).(status := Pending, body := body, params := params,
               reviews := r.reviews + warnings.value, rejectReason := "", resolvedAt := "", resolvedBy := ""), Done)
    case Cancel(_, who) =>
      if r.requester != who then (r, NotOwner)
      else if r.status !in {Pending, OnHold, ExecutionFailed} then (r, Conflict)
      else (Resolve(r, Cancelled, Cancelling, who, now), Done)
    case Hold(_) =>
      if r.status !in {Pending, ExecutionFailed} then (r, Conflict)
      else (Log(r, Holding, "user", now).(status := OnHold), Done)
    case Resume(_) =>
      if r.status != OnHold then (r, Conflict)
      else (Log(r, Resuming, "user", now).(status := Pending), Done)
    case AddReview(_, author, result) =>
      (Log(r, Reviewing, author, now).(reviews := r.reviews + [Review(author, result)]), Done)
    case CancelInvalidType(_, who) =>
      if r.kind in KINDS then (r, NotInvalidType)
      else if r.status !in {Pending, OnHold, ExecutionFailed} then (r, Conflict)
      else (Resolve(r, Cancelled, CancellingInvalidType, who, now), Done)
  }

  function Created(e: Environment, op: Operation, warnings: seq<Review>, now: string): Request
    requires op.Create?
  {
    var r := Request(op.kind, Pending, op.requester, op.body, op.params, warnings,
                     [Entry(Creating, op.requester, now)], op.expiresAt, "", "", "");
    if e.autoApproves(op.kind, op.params) then
      Executed(e, Resolve(r, Approved, Approving, AUTO, now), AUTO, now, op.execution)
    else r
  }

  /** One operation, carried out alone, with every write succeeding. */
  function Apply(e: Environment, rows: Rows, op: Operation, now: string): (Rows, Reply)
  {
    match op
    case Create(id, kind, _, _, params, _, _) =>
      if kind !in KINDS then (rows, InvalidType)
      else if kind in ACCOUNT_KINDS && !e.accountOk(kind, params) then (rows, BadAccount)
      else
        var warnings := e.validate(kind, params);
        if warnings.None? then (rows, Invalid)
        else if id in rows then (rows, Duplicate)
        else (rows[id := Created(e, op, warnings.value, now)], Done)
    case ExpireStale =>
      (ExpireAll(rows, OverdueIds(rows, now), now), Done)
    case _ =>
      if op.id !in rows then (rows, NotFound)
      else
        var (r, reply) := OnRequest(e, rows[op.id], op, now);
        (rows[op.id := r], reply)
  }

  datatype Call = Call(op: Operation, now: string)

  function Run(e: Environment, rows: Rows, calls: seq<Call>): Rows
  {
    if calls == [] then rows
    else
      var last := calls[|calls| - 1];
      Apply(e, Run(e, rows, calls[..|calls| - 1]), last.op, last.now).0
  }

  // ---------------------------------------------------------------- what a history means

  function Effect(a: Action, before: Status): Status
  {
    match a
    case Creating | Reopening | Resuming => Pending
    case Approving => Approved
    case ExecutionFailing | NoExecutor => ExecutionFailed
    case Rejecting => Rejected
    case Cancelling | CancellingInvalidType => Cancelled
    case Holding => OnHold
    case Expiring => Expired
    case Executing | Reviewing => before
  }

  /** The status that a history amounts to. */
  function Replay(h: History): Status
  {
    if h == [] then Pending else Effect(h[|h| - 1].action, Replay(h[..|h| - 1]))
  }

  /** Whether `a` may follow the non-empty history `h`. */
  predicate May(h: History, a: Action)
    requires h != []
  {
    match a
    case Creating => false
    case Approving | Rejecting | Holding => Replay(h) in {Pending, ExecutionFailed}
    case Executing | ExecutionFailing | NoExecutor => h[|h| - 1].action == Approving
    case Reopening => Replay(h) == Rejected
    case Cancelling | CancellingInvalidType => Replay(h) in {Pending, OnHold, ExecutionFailed}
    case Resuming => Replay(h) == OnHold
    case Expiring => Replay(h) == Pending
    case Reviewing => true
  }

  /** The histories the workflow allows. */
  predicate Legal(h: History)
  {
    h != [] && if |h| == 1 then h[0].action == Creating
               else Legal(h[..|h| - 1]) && May(h[..|h| - 1], h[|h| - 1].action)
  }

  function Executions(h: History): nat
  {
    if h == [] then 0 else Executions(h[..|h| - 1]) + if h[|h| - 1].action == Executing then 1 else 0
  }

  /** Who last resolved the request, and when: reopening and creating leave it unresolved. */
  function Resolution(h: History): (string, string)
  {
    if h == [] then ("", "")
    else
      var last := h[|h| - 1];
      match last.action
      case Approving | Rejecting | Cancelling | CancellingInvalidType | Expiring => (last.actor, last.at)
      case Creating | Reopening => ("", "")
      case Executing | ExecutionFailing | NoExecutor | Holding | Resuming | Reviewing => Resolution(h[..|h| - 1])
  }

  ghost predicate Accounted(r: Request)
  {
    Legal(r.history) && r.status == Replay(r.history) && (r.resolvedBy, r.resolvedAt) == Resolution(r.history)
  }

  ghost predicate AllAccounted(rows: Rows) { forall id :: id in rows ==> Accounted(rows[id]) }

  /** Writing an allowed entry together with its status keeps the books. */
  lemma LogKeeps(r: Request, r': Request, entry: Entry)
    requires Accounted(r) && May(r.history, entry.action)
    requires r'.history == r.history + [entry] && r'.status == Effect(entry.action, r.status)
    requires (r'.resolvedBy, r'.resolvedAt) ==
             match entry.action
             case Approving | Rejecting | Cancelling | CancellingInvalidType | Expiring => (entry.actor, entry.at)
             case Creating | Reopening => ("", "")
             case _ => (r.resolvedBy, r.resolvedAt)
    ensures Accounted(r')
  {
    assert r'.history[..|r'.history| - 1] == r.history;
  }

  lemma ExecutedKeeps(e: Environment, r: Request, actor: string, now: string, x: Execution)
    requires Accounted(r) && r.history[|r.history| - 1].action == Approving
    ensures Accounted(Executed(e, r, actor, now, x))
  {
    var r' := Executed(e, r, actor, now, x);
    if r' != r { LogKeeps(r, r', r'.history[|r.history|]); }
  }

  lemma {:induction false} OnRequestKeeps(e: Environment, r: Request, op: Operation, now: string)
    requires Accounted(r) && !op.Create? && !op.ExpireStale?
    ensures Accounted(OnRequest(e, r, op, now).0)
  {
    var (r', reply) := OnRequest(e, r, op, now);
    if reply == Done {
      if op.Approve? {
        var approved := Resolve(r, Approved, Approving, op.who, now);
        LogKeeps(r, approved, Entry(Approving, op.who, now));
        ExecutedKeeps(e, approved, op.who, now, op.execution);
      } else {
        LogKeeps(r, r', r'.history[|r.history|]);
      }
    }
  }

  lemma CreatedKeeps(e: Environment, op: Operation, warnings: seq<Review>, now: string)
    requires op.Create?
    ensures Accounted(Created(e, op, warnings, now))
  {
    var r := Request(op.kind, Pending, op.requester, op.body, op.params, warnings,
                     [Entry(Creating, op.requester, now)], op.expiresAt, "", "", "");
    assert r.history[..0] == [] && Replay(r.history[..0]) == Pending;
    if e.autoApproves(op.kind, op.params) {
      var approved := Resolve(r, Approved, Approving, AUTO, now);
      LogKeeps(r, approved, Entry(Approving, AUTO, now));
      ExecutedKeeps(e, approved, AUTO, now, op.execution);
    }
  }

  lemma ApplyKeeps(e: Environment, rows: Rows, op: Operation, now: string)
    requires AllAccounted(rows)
    ensures AllAccounted(Apply(e, rows, op, now).0)
  {
    if op.Create? {
      var warnings := e.validate(op.kind, op.params);
      if warnings.Some? { CreatedKeeps(e, op, warnings.value, now); }
    } else if op.ExpireStale? {
      forall id | id in rows && Overdue(rows[id], now)
        ensures Accounted(Resolve(rows[id], Expired, Expiring, "system", now))
      {
        LogKeeps(rows[id], Resolve(rows[id], Expired, Expiring, "system", now), Entry(Expiring, "system", now));
      }
    } else if op.id in rows {
      OnRequestKeeps(e, rows[op.id], op, now);
    }
  }

  /** Over every serialized run, from any table whose rows are in order (an empty one, say), each stored status
      and resolver is the replay of the stored history, and each history is one the workflow allows. */
  lemma {:induction false} StatusIsReplay(e: Environment, rows: Rows, calls: seq<Call>)
    requires AllAccounted(rows)
    ensures AllAccounted(Run(e, rows, calls))
  {
    if calls != [] {
      var init, last := calls[..|calls| - 1], calls[|calls| - 1];
      StatusIsReplay(e, rows, init);
      ApplyKeeps(e, Run(e, rows, init), last.op, last.now);
    }
  }

  predicate Final(s: Status) { s in {Approved, Expired, Cancelled} }

  /** What the workflow never takes back: a final request stays final under any operation, only reviews are
      added to it, and no operation removes a request or rewrites its history. */
  lemma {:induction false} FinalIsAbsorbing(e: Environment, rows: Rows, op: Operation, now: string, id: string)
    requires id in rows
    ensures var rows' := Apply(e, rows, op, now).0;
            && id in rows' && rows[id].history <= rows'[id].history && rows'[id].kind == rows[id].kind
            && rows'[id].requester == rows[id].requester
            && (Final(rows[id].status) ==>
                  rows'[id].status == rows[id].status
                  && forall k :: |rows[id].history| <= k < |rows'[id].history| ==>
                       rows'[id].history[k].action == Reviewing)
  {
  }

  /** The same over a whole run. */
  lemma {:induction false} FinalStays(e: Environment, rows: Rows, calls: seq<Call>, id: string)
    requires id in rows
    ensures var rows' := Run(e, rows, calls);
            && id in rows' && rows[id].history <= rows'[id].history && rows'[id].kind == rows[id].kind
            && rows'[id].requester == rows[id].requester
            && (Final(rows[id].status) ==>
                  rows'[id].status == rows[id].status
                  && forall k :: |rows[id].history| <= k < |rows'[id].history| ==>
                       rows'[id].history[k].action == Reviewing)
  {
    if calls != [] {
      var init, last := calls[..|calls| - 1], calls[|calls| - 1];
      FinalStays(e, rows, init, id);
      FinalIsAbsorbing(e, Run(e, rows, init), last.op, last.now, id);
      var before, after := Run(e, rows, init)[id].history, Run(e, rows, calls)[id].history;
      assert forall k :: 0 <= k < |before| ==> after[k] == before[k];
    }
  }

  /** A legal history executes at most once, and once it has, its request stays approved. */
  lemma {:induction false} ExecutesAtMostOnce(h: History)
    requires Legal(h)
    ensures Executions(h) <= 1
    ensures Executions(h) == 1 ==> Replay(h) == Approved && h[|h| - 1].action != Approving
  {
    if |h| > 1 { ExecutesAtMostOnce(h[..|h| - 1]); } else { assert Executions(h[..0]) == 0; }
  }

  /** Hence, over every run, a request was executed at most once, and is approved if it was. */
  lemma {:induction false} ExecutedOnceOverRuns(e: Environment, rows: Rows, calls: seq<Call>, id: string)
    requires AllAccounted(rows) && id in Run(e, rows, calls)
    ensures var r := Run(e, rows, calls)[id];
            && Executions(r.history) <= 1
            && (Executions(r.history) == 1 ==> r.status == Approved)
  {
    StatusIsReplay(e, rows, calls);
    ExecutesAtMostOnce(Run(e, rows, calls)[id].history);
  }

  /** An operation that is refused leaves the table as it was. */
  lemma {:induction false} RefusalChangesNothing(e: Environment, rows: Rows, op: Operation, now: string)
    requires Apply(e, rows, op, now).1 != Done
    ensures Apply(e, rows, op, now).0 == rows
  {
    if !op.Create? && !op.ExpireStale? && op.id in rows {
      assert rows[op.id := rows[op.id]] == rows;
    }
  }

  // ---------------------------------------------------------------- approved means executed

  predicate Ends(op: Operation) { (op.Approve? || op.Create?) ==> op.execution != Interrupted }

  ghost predicate Carried(r: Request) { Accounted(r) && (r.status == Approved ==> Executions(r.history) == 1) }

  lemma ExecutionsLog(h: History, entry: Entry)
    ensures Executions(h + [entry]) == Executions(h) + if entry.action == Executing then 1 else 0
  {
    assert (h + [entry])[..|h|] == h;
  }

  lemma ExecutedCarries(e: Environment, r: Request, actor: string, now: string, x: Execution)
    requires Accounted(r) && r.history[|r.history| - 1].action == Approving && x != Interrupted
    ensures Carried(Executed(e, r, actor, now, x))
  {
    ExecutedKeeps(e, r, actor, now, x);
    ExecutesAtMostOnce(r.history);
    ExecutionsLog(r.history, Entry(Executing, actor, now));
  }

  lemma OnRequestCarries(e: Environment, r: Request, op: Operation, now: string)
    requires Carried(r) && !op.Create? && !op.ExpireStale? && Ends(op)
    ensures Carried(OnRequest(e, r, op, now).0)
  {
    OnRequestKeeps(e, r, op, now);
    if op.Approve? {
      var approved := Resolve(r, Approved, Approving, op.who, now);
      if OnRequest(e, r, op, now).1 == Done {
        LogKeeps(r, approved, Entry(Approving, op.who, now));
        ExecutedCarries(e, approved, op.who, now, op.execution);
      }
    } else if op.AddReview? {
      ExecutionsLog(r.history, Entry(Reviewing, op.author, now));
    }
  }

  lemma CreatedCarries(e: Environment, op: Operation, warnings: seq<Review>, now: string)
    requires op.Create? && Ends(op)
    ensures Carried(Created(e, op, warnings, now))
  {
    CreatedKeeps(e, op, warnings, now);
    var r := Request(op.kind, Pending, op.requester, op.body, op.params, warnings,
                     [Entry(Creating, op.requester, now)], op.expiresAt, "", "", "");
    assert r.history[..0] == [] && Replay(r.history[..0]) == Pending;
    if e.autoApproves(op.kind, op.params) {
      LogKeeps(r, Resolve(r, Approved, Approving, AUTO, now), Entry(Approving, AUTO, now));
      ExecutedCarries(e, Resolve(r, Approved, Approving, AUTO, now), AUTO, now, op.execution);
    }
  }

  /** Over a run in which no executor is interrupted, a request is approved exactly if it was executed, once. */
  lemma {:induction false} ApprovedIffExecuted(e: Environment, calls: seq<Call>, id: string)
    requires forall k :: 0 <= k < |calls| ==> Ends(calls[k].op)
    requires id in Run(e, map[], calls)
    ensures var r := Run(e, map[], calls)[id];
            Accounted(r) && (r.status == Approved <==> Executions(r.history) == 1)
  {
    CarriedOverRun(e, calls);
    ExecutesAtMostOnce(Run(e, map[], calls)[id].history);
  }

  lemma {:induction false} CarriedOverRun(e: Environment, calls: seq<Call>)
    requires forall k :: 0 <= k < |calls| ==> Ends(calls[k].op)
    ensures forall id :: id in Run(e, map[], calls) ==> Carried(Run(e, map[], calls)[id])
  {
    if calls != [] {
      var init, last := calls[..|calls| - 1], calls[|calls| - 1];
      CarriedOverRun(e, init);
      ApplyCarries(e, Run(e, map[], init), last.op, last.now);
    }
  }

  lemma ApplyCarries(e: Environment, rows: Rows, op: Operation, now: string)
    requires (forall id :: id in rows ==> Carried(rows[id])) && Ends(op)
    ensures var rows' := Apply(e, rows, op, now).0; forall id :: id in rows' ==> Carried(rows'[id])
  {
    ApplyKeeps(e, rows, op, now);
    if op.Create? {
      var warnings := e.validate(op.kind, op.params);
      if warnings.Some? { CreatedCarries(e, op, warnings.value, now); }
    } else if !op.ExpireStale? && op.id in rows {
      OnRequestCarries(e, rows[op.id], op, now);
    }
  }

  // ---------------------------------------------------------------- the service

  /** Events and notifications are not modelled; `now` is the clock reading of the call. */
  class ApprovalService {
    const environment: Environment
    var rows: Rows

    constructor (environment: Environment)
      ensures this.environment == environment && rows == map[]
    {
      this.environment := environment;
      rows := map[];
    }

    /** Shared by automatic and manual approval: the row already says approved. */
    method ExecuteApproved(id: string, actor: string, now: string, x: Execution)
      requires id in rows
      modifies this
      ensures rows == old(rows)[id := Executed(environment, old(rows)[id], actor, now, x)]
    {
      var request := rows[id];
      if request.kind in environment.executors {
        match x {
          case Succeeds =>
            rows := rows[id := request.(history := request.history + [Entry(Executing, actor, now)])];
          case Raises =>
            rows := rows[id := request.(status := ExecutionFailed,
                                        history := request.history + [Entry(ExecutionFailing, actor, now)])];
          case Interrupted =>
            assert rows == rows[id := request];
        }
      } else {
        rows := rows[id := request.(status := ExecutionFailed,
                                    history := request.history + [Entry(NoExecutor, actor, now)])];
      }
    }

    method CreateRequest(id: string, kind: string, requester: string, body: string, params: string,
                         expiresAt: string, x: Execution, now: string) returns (reply: Reply)
      modifies this
      ensures (rows, reply)
              == Apply(environment, old(rows), Create(id, kind, requester, body, params, expiresAt, x), now)
    {
      if kind !in KINDS { return InvalidType; }
      if kind in ACCOUNT_KINDS {
        var valid := environment.accountOk(kind, params);
        if !valid { return BadAccount; }
      }
      var warnings := environment.validate(kind, params);
      if warnings.None? { return Invalid; }
      var request := Request(kind, Pending, requester, body, params, warnings.value,
                             [Entry(Creating, requester, now)], expiresAt, "", "", "");
      var auto := environment.autoApproves(kind, params);
      if auto {
        request := request.(status := Approved, resolvedAt := now, resolvedBy := AUTO,
                            history := request.history + [Entry(Approving, AUTO, now)]);
      }
      if id in rows { return Duplicate; }
      rows := rows[id := request];
      if auto {
        ExecuteApproved(id, AUTO, now, x);
        assert rows == old(rows)[id := Executed(environment, request, AUTO, now, x)];
      }
      return Done;
    }

    method ApproveRequest(id: string, who: string, x: Execution, now: string) returns (reply: Reply)
      modifies this
      ensures (rows, reply) == Apply(environment, old(rows), Approve(id, who, x), now)
    {
      if id !in rows { return NotFound; }
      var request := rows[id];
      assert rows[id := request] == rows;
      if request.kind !in KINDS { return InvalidType; }
      if request.status !in {Pending, ExecutionFailed} { return Conflict; }
      rows := rows[id := request.(history := request.history + [Entry(Approving, who, now)],
                                  status := Approved, resolvedAt := now, resolvedBy := who)];
      ghost var approved := rows[id];
      ExecuteApproved(id, who, now, x);
      assert rows == old(rows)[id := Executed(environment, approved, who, now, x)];
      return Done;
    }

    method RejectRequest(id: string, who: string, reason: string, now: string) returns (reply: Reply)
      modifies this
      ensures (rows, reply) == Apply(environment, old(rows), Reject(id, who, reason), now)
    {
      if id !in rows { return NotFound; }
      var request := rows[id];
      assert rows[id := request] == rows;
      if request.status !in {Pending, ExecutionFailed} { return Conflict; }
      rows := rows[id := request.(history := request.history + [Entry(Rejecting, who, now)], status := Rejected,
                                  resolvedAt := now, resolvedBy := who, rejectReason := reason)];
      return Done;
    }

    method ReopenRequest(id: string, who: string, newBody: Option<string>, newParams: Option<string>, now: string)
      returns (reply: Reply)
      modifies this
      ensures (rows, reply) == Apply(environment, old(rows), Reopen(id, who, newBody, newParams), now)
    {
      if id !in rows { return NotFound; }
      var request := rows[id];
      assert rows[id := request] == rows;
      if request.status != Rejected { return Conflict; }
      if request.requester != who { return NotOwner; }
      if newBody.Some? { request := request.(body := newBody.value); }
      if newParams.Some? { request := request.(params := newParams.value); }
      if newParams.Some? && request.kind in ACCOUNT_KINDS {
        var valid := environment.accountOk(request.kind, request.params);
        if !valid { return BadAccount; }
      }
      var warnings := environment.validate(request.kind, request.params);
      if warnings.None? { return Invalid; }
      request := request.(reviews := request.reviews + warnings.value, status := Pending, rejectReason := "",
                          resolvedAt := "", resolvedBy := "",
                          history := request.history + [Entry(Reopening, who, now)]);
      rows := rows[id := request];
      return Done;
    }

    method CancelRequest(id: string, who: string, now: string) returns (reply: Reply)
      modifies this
      ensures (rows, reply) == Apply(environment, old(rows), Cancel(id, who), now)
    {
      if id !in rows { return NotFound; }
      var request := rows[id];
      assert rows[id := request] == rows;
      if request.requester != who { return NotOwner; }
      if request.status !in {Pending, OnHold, ExecutionFailed} { return Conflict; }
      rows := rows[id := request.(history := request.history + [Entry(Cancelling, who, now)], status := Cancelled,
                                  resolvedAt := now, resolvedBy := who)];
      return Done;
    }

    method HoldRequest(id: string, now: string) returns (reply: Reply)
      modifies this
      ensures (rows, reply) == Apply(environment, old(rows), Hold(id), now)
    {
      if id !in rows { return NotFound; }
      var request := rows[id];
      assert rows[id := request] == rows;
      if request.status !in {Pending, ExecutionFailed} { return Conflict; }
      rows := rows[id := request.(history := request.history + [Entry(Holding, "user", now)], status := OnHold)];
      return Done;
    }

    method ResumeRequest(id: string, now: string) returns (reply: Reply)
      modifies this
      ensures (rows, reply) == Apply(environment, old(rows), Resume(id), now)
    {
      if id !in rows { return NotFound; }
      var request := rows[id];
      assert rows[id := request] == rows;
      if request.status != OnHold { return Conflict; }
      rows := rows[id := request.(history := request.history + [Entry(Resuming, "user", now)], status := Pending)];
      return Done;
    }

    method ReviewRequest(id: string, author: string, result: string, now: string) returns (reply: Reply)
      modifies this
      ensures (rows, reply) == Apply(environment, old(rows), AddReview(id, author, result), now)
    {
      if id !in rows { return NotFound; }
      var request := rows[id];
      rows := rows[id := request.(reviews := request.reviews + [Review(author, result)],
                                  history := request.history + [Entry(Reviewing, author, now)])];
      return Done;
    }

    method CancelInvalidTypeRequest(id: string, who: string, now: string) returns (reply: Reply)
      modifies this
      ensures (rows, reply) == Apply(environment, old(rows), CancelInvalidType(id, who), now)
    {
      if id !in rows { return NotFound; }
      var request := rows[id];
      assert rows[id := request] == rows;
      if request.kind in KINDS { return NotInvalidType; }
      if request.status !in {Pending, OnHold, ExecutionFailed} { return Conflict; }
      rows := rows[id := request.(history := request.history + [Entry(CancellingInvalidType, who, now)],
                                  status := Cancelled, resolvedAt := now, resolvedBy := who)];
      return Done;
    }

    /** The rows are selected first and then expired one by one. */
    method ExpireStaleRequests(now: string) returns (count: nat)
      modifies this
      ensures rows == ExpireAll(old(rows), OverdueIds(old(rows), now), now)
      ensures count == |OverdueIds(old(rows), now)|
    {
      ghost var before := rows;
      var stale := OverdueIds(rows, now);
      ghost var all := stale;
      count := 0;
      NoneExpired(before, all, now);
      while stale != {}
        invariant stale <= all && rows == ExpireAll(before, all - stale, now)
        invariant count + |stale| == |all|
      {
        var id :| id in stale;
        ExpireOneMore(before, all, stale, id, now);
        ExpireRow(id, now);
        stale := stale - {id};
        count := count + 1;
      }
      assert all - stale == all;
    }

    method ExpireRow(id: string, now: string)
      requires id in rows
      modifies this
      ensures rows == old(rows)[id := Resolve(old(rows)[id], Expired, Expiring, "system", now)]
    {
      var request := rows[id];
      rows := rows[id := request.(history := request.history + [Entry(Expiring, "system", now)], status := Expired,
                                  resolvedAt := now, resolvedBy := "system")];
    }
  }

  lemma NoneExpired(rows: Rows, all: set<string>, now: string)
    ensures ExpireAll(rows, all - all, now) == rows
  {
  }

  /** One more of those left, which was untouched so far. */
  lemma ExpireOneMore(rows: Rows, all: set<string>, left: set<string>, id: string, now: string)
    requires all == OverdueIds(rows, now) && left <= all && id in left
    ensures var before := ExpireAll(rows, all - left, now);
            id in before && before[id] == rows[id]
            && ExpireAll(rows, all - (left - {id}), now)
               == before[id := Resolve(rows[id], Expired, Expiring, "system", now)]
  {
  }
}
