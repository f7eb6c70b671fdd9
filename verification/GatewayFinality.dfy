/** What can no longer happen in a run of the gateway ledger: after a revocation, after a receipt, after the run
    budget closes, after a request settles, and after a cancellation that could not be confirmed. */
module GatewayFinality {
  import opened Options
  import opened Accounting
  import opened Receipt
  import opened GatewayLedger
  import opened GatewayInvariant
  import opened GatewayReach

  // ---- Revocation ----

  predicate Revoked(s: Ledger, id: string)
  {
    id in s.trials && s.trials[id].revoked
  }

  predicate AsksFor(e: Event, id: string)
  {
    (e.Register? || e.Admit?) && e.trialId == id
  }

  lemma RevokedStep(s: Ledger, e: Event, id: string)
    requires Revoked(s, id)
    ensures Revoked(Step(s, e).0, id)
    ensures AsksFor(e, id) ==> Step(s, e).1.Refused?
  {
    hide FrozenReceipt, StepAdmit, StepSettle, StepFail, RequestsOf, UsedBy, SettlementReply;
    if e.Settle? {
      SettleReach(s, e);
    } else if e.Fail? {
      FailReach(s, e);
    } else if e.Admit? {
      AdmitReach(s, e);
    }
  }

  lemma {:induction false} RevokedRun(s: Ledger, events: seq<Event>, id: string, i: nat)
    requires Revoked(s, id) && i < |events| && AsksFor(events[i], id)
    ensures ReplyAt(s, events, i).Refused?
    decreases i
  {
    hide Step;
    RevokedStep(s, events[0], id);
    if i > 0 {
      RevokedRun(Step(s, events[0]).0, events[1..], id, i - 1);
    }
  }

  /** Once a revoke call has taken the lock for a trial id, known or not, every later registration of that id and
      every later request for it is refused, in every continuation and from any state. */
  lemma RevocationIsFinal(s: Ledger, id: string, events: seq<Event>, i: nat)
    requires ValidTrialId(id) && i < |events| && AsksFor(events[i], id)
    ensures ReplyAt(Step(s, RevokeMark(id)).0, events, i).Refused?
  {
    RevokedRun(Step(s, RevokeMark(id)).0, events, id, i);
  }

  // ---- Receipts ----

  predicate Frozen(s: Ledger, id: string, r: Receipt)
  {
    id in s.trials && s.trials[id].receipt == Some(r)
  }

  lemma FrozenStep(s: Ledger, e: Event, id: string, r: Receipt)
    requires LedgerInv(s) && Frozen(s, id, r)
    ensures Frozen(Step(s, e).0, id, r)
    ensures Step(s, e).0.trials[id] == s.trials[id]
    ensures (e == RevokeMark(id) || e == RevokeFreeze(id)) && Step(s, e).1.Frozen? ==> Step(s, e).1.receipt == r
  {
    FrozenTrialFacts(s, id, r);
    hide LedgerInv, Step, FrozenReceipt;
    assert Quiet(s, id, r);
    QuietStep(s, e, id, r);
  }

  // A revoked trial with nothing active, whose accounting already reads as r, is left exactly as it is.
  lemma QuietStep(s: Ledger, e: Event, id: string, r: Receipt)
    requires Quiet(s, id, r)
    ensures KeepsQuiet(s, e, id, r)
  {
    hide Step, Quiet, KeepsQuiet;
    match e
    case Register(_, _, _, _, _, _) => QuietRegister(s, e, id, r);
    case Admit(_, _, _, _, _, _, _) => QuietAdmit(s, e, id, r);
    case Settle(_, _, _) => QuietSettle(s, e, id, r);
    case Fail(_) => QuietFail(s, e, id, r);
    case FailUnconfirmed(_) => QuietFailUnconfirmed(s, e, id, r);
    case RevokeMark(_) => QuietRevoke(s, e, id, r);
    case RevokeFreeze(_) => QuietRevoke(s, e, id, r);
    case RevokeAbandon(_) => QuietRevoke(s, e, id, r);
  }

  predicate Quiet(s: Ledger, id: string, r: Receipt)
  {
    && Frozen(s, id, r) && s.trials[id].revoked && s.trials[id].active == {}
    && FrozenReceipt(s.config, id, s.trials[id]) == r
    && (forall q :: q in s.threads && s.threads[q].trialId == id ==> s.threads[q].settled)
  }

  predicate KeepsQuiet(s: Ledger, e: Event, id: string, r: Receipt)
    requires id in s.trials
  {
    var (s', reply) := Step(s, e);
    && Frozen(s', id, r) && s'.trials[id] == s.trials[id]
    && ((e == RevokeMark(id) || e == RevokeFreeze(id)) && reply.Frozen? ==> reply.receipt == r)
  }

  lemma QuietRegister(s: Ledger, e: Event, id: string, r: Receipt)
    requires Quiet(s, id, r) && e.Register?
    ensures KeepsQuiet(s, e, id, r)
  {
    hide FrozenReceipt;
  }

  lemma QuietAdmit(s: Ledger, e: Event, id: string, r: Receipt)
    requires Quiet(s, id, r) && e.Admit?
    ensures KeepsQuiet(s, e, id, r)
  {
    hide FrozenReceipt, StepAdmit, RequestsOf, UsedBy;
    AdmitReach(s, e);
  }

  lemma QuietSettle(s: Ledger, e: Event, id: string, r: Receipt)
    requires Quiet(s, id, r) && e.Settle?
    ensures KeepsQuiet(s, e, id, r)
  {
    hide FrozenReceipt, StepSettle, RequestsOf, SettlementReply;
    SettleReach(s, e);
  }

  lemma QuietFail(s: Ledger, e: Event, id: string, r: Receipt)
    requires Quiet(s, id, r) && e.Fail?
    ensures KeepsQuiet(s, e, id, r)
  {
    hide FrozenReceipt, StepFail, RequestsOf, UsedBy;
    FailReach(s, e);
  }

  lemma QuietFailUnconfirmed(s: Ledger, e: Event, id: string, r: Receipt)
    requires Quiet(s, id, r) && e.FailUnconfirmed?
    ensures KeepsQuiet(s, e, id, r)
  {
    hide FrozenReceipt;
  }

  lemma QuietRevoke(s: Ledger, e: Event, id: string, r: Receipt)
    requires Quiet(s, id, r) && (e.RevokeMark? || e.RevokeFreeze? || e.RevokeAbandon?)
    ensures KeepsQuiet(s, e, id, r)
  {
    hide FrozenReceipt;
  }

  lemma FrozenTrialFacts(s: Ledger, id: string, r: Receipt)
    requires LedgerInv(s) && Frozen(s, id, r)
    ensures var t := s.trials[id];
      t.revoked && t.active == {} && FrozenReceipt(s.config, id, t) == r
    ensures forall q :: q in s.threads && s.threads[q].trialId == id ==> s.threads[q].settled
  {
    TrialFacts(s, id);
    hide AccountingInv, Conserved, BudgetFlagInv, FrozenReceipt;
    forall q | q in s.threads && s.threads[q].trialId == id
      ensures s.threads[q].settled
    {
      ThreadFacts(s, q);
    }
  }

  lemma {:induction false} FrozenRun(s: Ledger, events: seq<Event>, id: string, r: Receipt)
    requires LedgerInv(s) && Frozen(s, id, r)
    ensures id in Run(s, events).trials && Run(s, events).trials[id] == s.trials[id]
    decreases |events|
  {
    if events != [] {
      hide LedgerInv, Step;
      FrozenStep(s, events[0], id, r);
      StepKeeps(s, events[0]);
      FrozenRun(Step(s, events[0]).0, events[1..], id, r);
    }
  }

  lemma {:induction false} FrozenReplies(s: Ledger, events: seq<Event>, id: string, r: Receipt, i: nat)
    requires LedgerInv(s) && Frozen(s, id, r) && i < |events|
    requires events[i] == RevokeMark(id) || events[i] == RevokeFreeze(id)
    requires ReplyAt(s, events, i).Frozen?
    ensures ReplyAt(s, events, i).receipt == r
    decreases i
  {
    hide LedgerInv, Step;
    FrozenStep(s, events[0], id, r);
    if i > 0 {
      StepKeeps(s, events[0]);
      FrozenReplies(Step(s, events[0]).0, events[1..], id, r, i - 1);
    }
  }

  /** A frozen receipt ends the trial's history: in every continuation its accounting and receipt stay as they are,
      and every revoke call that returns a receipt, later or already waiting, returns this one. */
  lemma ReceiptIsFinal(config: Config, events: seq<Event>, more: seq<Event>, id: string, r: Receipt, i: nat)
    requires Frozen(Run(Init(config), events), id, r)
    ensures var s := Run(Init(config), events);
      && id in Run(s, more).trials && Run(s, more).trials[id] == s.trials[id]
      && (i < |more| && (more[i] == RevokeMark(id) || more[i] == RevokeFreeze(id)) && ReplyAt(s, more, i).Frozen? ==>
            ReplyAt(s, more, i).receipt == r)
  {
    var s := Run(Init(config), events);
    InitInv(config);
    RunKeeps(Init(config), events);
    hide LedgerInv, Run, ReplyAt;
    FrozenRun(s, more, id, r);
    if i < |more| && (more[i] == RevokeMark(id) || more[i] == RevokeFreeze(id)) && ReplyAt(s, more, i).Frozen? {
      FrozenReplies(s, more, id, r, i);
    }
  }

  // ---- Settlements ----

  // This step settles the given request.
  predicate Settles(s: Ledger, e: Event, request: nat)
  {
    e.Settle? && e.request == request && SettlementReply(Step(s, e).1)
  }

  // This step settles some request of the given trial.
  predicate SettlesFor(s: Ledger, e: Event, id: string)
  {
    e.Settle? && SettlementReply(Step(s, e).1) && e.request in s.threads && s.threads[e.request].trialId == id
  }

  function SettlementsFor(s: Ledger, events: seq<Event>, id: string): nat
    decreases |events|
  {
    if events == [] then 0
    else (if SettlesFor(s, events[0], id) then 1 else 0) + SettlementsFor(Step(s, events[0]).0, events[1..], id)
  }

  function SettlementsOf(s: Ledger, events: seq<Event>, request: nat): nat
    decreases |events|
  {
    if events == [] then 0
    else (if Settles(s, events[0], request) then 1 else 0) + SettlementsOf(Step(s, events[0]).0, events[1..], request)
  }

  function Outstanding(s: Ledger, id: string): nat
  {
    if id in s.trials && s.trials[id].active != {} then 1 else 0
  }

  lemma ClosedStep(s: Ledger, e: Event, id: string)
    requires LedgerInv(s) && s.runClosed
    ensures Step(s, e).0.runClosed && !Step(s, e).1.Admitted?
    ensures Outstanding(Step(s, e).0, id) + (if SettlesFor(s, e, id) then 1 else 0) <= Outstanding(s, id)
  {
    if e.Settle? && e.request in s.threads {
      ThreadFacts(s, e.request);
    }
    hide LedgerInv, Step, SettlesFor, Outstanding, ThreadInv;
    DrainStep(s, e, id);
  }

  lemma DrainStep(s: Ledger, e: Event, id: string)
    requires s.runClosed
    requires e.Settle? && e.request in s.threads ==> ThreadInv(s.threads[e.request], e.request, s.trials)
    ensures Step(s, e).0.runClosed && !Step(s, e).1.Admitted?
    ensures Outstanding(Step(s, e).0, id) + (if SettlesFor(s, e, id) then 1 else 0) <= Outstanding(s, id)
  {
    hide FrozenReceipt, StepAdmit, StepSettle, StepFail, RequestsOf, UsedBy;
    if e.Settle? {
      SettleReach(s, e);
    } else if e.Fail? {
      FailReach(s, e);
    } else if e.Admit? {
      AdmitReach(s, e);
    }
  }

  /** A closed run stays closed and admits nothing, and from then on each trial settles at most the one request it
      had in flight. */
  lemma {:induction false} ClosedRunDrains(s: Ledger, events: seq<Event>, id: string)
    requires LedgerInv(s) && s.runClosed
    ensures Run(s, events).runClosed
    ensures forall i :: 0 <= i < |events| ==> !ReplyAt(s, events, i).Admitted?
    ensures SettlementsFor(s, events, id) + Outstanding(Run(s, events), id) <= Outstanding(s, id) <= 1
    decreases |events|
  {
    if events != [] {
      hide LedgerInv, Step, SettlesFor, Outstanding;
      var s' := Step(s, events[0]).0;
      ClosedStep(s, events[0], id);
      StepKeeps(s, events[0]);
      ClosedRunDrains(s', events[1..], id);
      forall i | 0 <= i < |events|
        ensures !ReplyAt(s, events, i).Admitted?
      {
        if i > 0 {
          assert !ReplyAt(s', events[1..], i - 1).Admitted?;
        }
      }
    }
    OutstandingAtMostOne(s, id);
  }

  lemma OutstandingAtMostOne(s: Ledger, id: string)
    ensures Outstanding(s, id) <= 1
  {
  }

  // A request that can never settle again.
  predicate Spent(s: Ledger, request: nat)
  {
    request < s.created && (request in s.threads ==> s.threads[request].settled)
  }

  lemma SpentStep(s: Ledger, e: Event, request: nat)
    ensures Spent(s, request) ==> Spent(Step(s, e).0, request) && !Settles(s, e, request)
    ensures ThreadsInv(s) && Settles(s, e, request) ==> Spent(Step(s, e).0, request)
  {
    hide FrozenReceipt, StepAdmit, StepSettle, StepFail, RequestsOf, UsedBy;
    if e.Settle? {
      SettleReach(s, e);
    } else if e.Fail? {
      FailReach(s, e);
    } else if e.Admit? {
      AdmitReach(s, e);
    }
  }

  lemma {:induction false} SpentRun(s: Ledger, events: seq<Event>, request: nat)
    requires Spent(s, request)
    ensures SettlementsOf(s, events, request) == 0
    decreases |events|
  {
    if events != [] {
      hide Step, Spent, Settles;
      SpentStep(s, events[0], request);
      SpentRun(Step(s, events[0]).0, events[1..], request);
    }
  }

  lemma {:induction false} SettlesOnce(s: Ledger, events: seq<Event>, request: nat)
    requires LedgerInv(s)
    ensures SettlementsOf(s, events, request) <= 1
    decreases |events|
  {
    if events != [] {
      assert ThreadsInv(s);
      hide LedgerInv, Step, Spent, Settles;
      SpentStep(s, events[0], request);
      StepKeeps(s, events[0]);
      if Settles(s, events[0], request) {
        SpentRun(Step(s, events[0]).0, events[1..], request);
      } else {
        SettlesOnce(Step(s, events[0]).0, events[1..], request);
      }
    }
  }

  /** No run settles any request twice. */
  lemma EachRequestSettlesAtMostOnce(config: Config, events: seq<Event>, request: nat)
    ensures SettlementsOf(Init(config), events, request) <= 1
  {
    InitInv(config);
    SettlesOnce(Init(config), events, request);
  }

  // ---- Unconfirmed cancellation ----

  // The request is active, and the thread that could settle or fail it is gone.
  predicate Orphaned(s: Ledger, id: string, request: nat)
  {
    && id in s.trials && s.trials[id].active == {request} && s.trials[id].receipt == None
    && request < s.created && request !in s.threads
  }

  lemma OrphanedStep(s: Ledger, e: Event, id: string, request: nat)
    requires LedgerInv(s) && Orphaned(s, id, request)
    ensures Orphaned(Step(s, e).0, id, request)
  {
    if (e.Settle? || e.Fail?) && e.request in s.threads {
      ThreadFacts(s, e.request);
    }
    hide LedgerInv, Step, Orphaned, ThreadInv;
    StuckStep(s, e, id, request);
  }

  lemma StuckStep(s: Ledger, e: Event, id: string, request: nat)
    requires Orphaned(s, id, request)
    requires (e.Settle? || e.Fail?) && e.request in s.threads ==>
             ThreadInv(s.threads[e.request], e.request, s.trials)
    ensures Orphaned(Step(s, e).0, id, request)
  {
    hide FrozenReceipt, StepAdmit, StepSettle, StepFail, RequestsOf, UsedBy, SettlementReply;
    if e.Settle? {
      SettleReach(s, e);
    } else if e.Fail? {
      FailReach(s, e);
    } else if e.Admit? {
      AdmitReach(s, e);
    }
  }

  lemma {:induction false} OrphanedRun(s: Ledger, events: seq<Event>, id: string, request: nat)
    requires LedgerInv(s) && Orphaned(s, id, request)
    ensures Orphaned(Run(s, events), id, request)
    decreases |events|
  {
    if events != [] {
      hide LedgerInv, Step, Orphaned;
      OrphanedStep(s, events[0], id, request);
      StepKeeps(s, events[0]);
      OrphanedRun(Step(s, events[0]).0, events[1..], id, request);
    }
  }

  /** If cancelling an unsettled request cannot be confirmed, its trial never yields a receipt: the request stays active,
      and its entry pending with its whole reservation, rather than being reported as anything. */
  lemma UnconfirmedCancellationBlocksReceipt(config: Config, events: seq<Event>, request: nat, more: seq<Event>)
    requires var s := Run(Init(config), events);
      request in s.threads && !s.threads[request].settled
    ensures var s := Run(Init(config), events);
      var later, id := Run(Step(s, FailUnconfirmed(request)).0, more), s.threads[request].trialId;
      Orphaned(later, id, request) && PendingLast(later.trials[id].accounting.entries)
  {
    var s := Run(Init(config), events);
    InitInv(config);
    RunKeeps(Init(config), events);
    OrphanedByUnconfirmedCancel(s, request);
    StepKeeps(s, FailUnconfirmed(request));
    hide LedgerInv, Run, Orphaned, Step, PendingLast;
    var id := s.threads[request].trialId;
    var s' := Step(s, FailUnconfirmed(request)).0;
    OrphanedRun(s', more, id, request);
    RunKeeps(s', more);
    BusyEntryPends(Run(s', more), id, request);
  }

  lemma OrphanedByUnconfirmedCancel(s: Ledger, request: nat)
    requires LedgerInv(s) && request in s.threads && !s.threads[request].settled
    ensures Orphaned(Step(s, FailUnconfirmed(request)).0, s.threads[request].trialId, request)
  {
    ThreadFacts(s, request);
    TrialFacts(s, s.threads[request].trialId);
    hide LedgerInv, Conserved, BudgetFlagInv, EntriesInv, Sum, FrozenReceipt;
  }

  lemma BusyEntryPends(s: Ledger, id: string, request: nat)
    requires LedgerInv(s) && Orphaned(s, id, request)
    ensures PendingLast(s.trials[id].accounting.entries)
  {
    TrialFacts(s, id);
    hide LedgerInv, Conserved, BudgetFlagInv, ReceiptInv;
  }
}
