/**
 * The in-memory call log of the database service: a call that reaches `ended`
 * without a cost is priced once, and the price is queued once as a wallet
 * debit, however often and under whatever rate books the call is updated.
 */
module CallLedger {
  import opened CallStatuses
  import opened Common
  import opened Rating

  const MAX_CALLS: nat := 500

  datatype CallLog = CallLog(
    id: string,
    to: string,
    toExt: Option<string>,
    status: CallStatus,
    startMs: int,
    endMs: Option<int>,
    duration: Option<real>,
    cost: Option<real>,
    currency: Option<string>,
    ratePrefix: Option<string>,
    billedSecs: Option<int>)

  /** The fields an update sets; none of the call sites sets the cost itself. */
  datatype Updates = Updates(status: Option<CallStatus>, to: Option<string>, endMs: Option<int>, duration: Option<real>)

  /** The local user the calling leg resolves to, with the plan assigned to it. */
  datatype Payer = Payer(extension: string, planId: Option<int>)

  /** What surrounds an update: the rater's book if a rater is set, the resolved payer, the billing mode. */
  datatype Billing = Billing(book: Option<Book>, payer: Option<Payer>, prepaid: bool)

  datatype Debit = Debit(extension: string, callId: string, amount: real, currency: string)

  function OrElse<T>(a: Option<T>, b: T): T {
    if a.Some? then a.value else b
  }

  function Either<T>(a: Option<T>, b: Option<T>): Option<T> {
    if a.Some? then a else b
  }

  /** Whole seconds between two instants, rounded half up, never negative; 0 without an end. */
  function DerivedDuration(startMs: int, endMs: Option<int>): real {
    if endMs.None? then 0.0
    else Max(0, ((endMs.value - startMs) as real / 1000.0 + 0.5).Floor) as real
  }

  /** The price the rater puts on the call as it ends, if it is billable at all. */
  function PriceAtEnd(book: Book, call: CallLog, updates: Updates, planId: Option<int>): Option<Rated> {
    if call.toExt.Some? && call.toExt.value != "" then None
    else
      RateCall(book, call.to,
               OrElse(updates.duration, DerivedDuration(call.startMs, Either(updates.endMs, call.endMs))), planId)
  }

  predicate PricesNow(call: CallLog, updates: Updates, billing: Billing) {
    billing.book.Some? && updates.status == Some(Ended) && call.cost.None?
  }

  function PlanOf(billing: Billing): Option<int> {
    if billing.payer.Some? then billing.payer.value.planId else None
  }

  function NewPrice(call: CallLog, updates: Updates, billing: Billing): Option<Rated> {
    if PricesNow(call, updates, billing) then PriceAtEnd(billing.book.value, call, updates, PlanOf(billing)) else None
  }

  function Assigned(call: CallLog, updates: Updates, price: Option<Rated>): CallLog {
    call.(status := OrElse(updates.status, call.status),
          to := OrElse(updates.to, call.to),
          endMs := Either(updates.endMs, call.endMs),
          duration := Either(updates.duration, call.duration),
          cost := if price.Some? then Some(price.value.cost) else call.cost,
          currency := if price.Some? then Some(price.value.currency) else call.currency,
          ratePrefix := if price.Some? then Some(price.value.ratePrefix) else call.ratePrefix,
          billedSecs := if price.Some? then Some(price.value.billedSecs) else call.billedSecs)
  }

  /** The debit an update queues: only for a payer, under prepaid billing, and for a positive price. */
  function NewDebit(call: CallLog, updates: Updates, billing: Billing): seq<Debit> {
    var price := NewPrice(call, updates, billing);
    if price.Some? && billing.prepaid && billing.payer.Some? && price.value.cost > 0.0
    then [Debit(billing.payer.value.extension, call.id, price.value.cost, price.value.currency)]
    else []
  }

  /** The talk time is the nearest whole number of seconds from start to end, and nothing without an end or before the start. */
  lemma DerivedDurationIs(startMs: int, endMs: Option<int>) returns (seconds: nat)
    ensures DerivedDuration(startMs, endMs) == seconds as real
    ensures endMs.None? || endMs.value <= startMs ==> seconds == 0
    ensures endMs.Some? && startMs <= endMs.value ==>
      2 * (endMs.value - startMs) - 1000 < 2000 * seconds <= 2 * (endMs.value - startMs) + 1000
  {
    seconds := if endMs.None? then 0 else Max(0, ((endMs.value - startMs) as real / 1000.0 + 0.5).Floor);
  }

  datatype Ledger = Ledger(calls: seq<CallLog>, debits: seq<Debit>)

  /** Position of the first record with this id, or the number of records. */
  function Find(calls: seq<CallLog>, id: string): (i: nat)
    ensures i <= |calls|
    ensures i < |calls| ==> calls[i].id == id
    ensures forall j :: 0 <= j < i ==> calls[j].id != id
  {
    if calls == [] || calls[0].id == id then 0 else 1 + Find(calls[1..], id)
  }

  function Logged(l: Ledger, call: CallLog): Ledger {
    var calls := [call] + l.calls;
    l.(calls := if |calls| > MAX_CALLS then calls[..|calls| - 1] else calls)
  }

  function Updated(l: Ledger, id: string, updates: Updates, billing: Billing): Ledger {
    var i := Find(l.calls, id);
    if i == |l.calls| then l
    else
      var call := l.calls[i];
      Ledger(l.calls[i := Assigned(call, updates, NewPrice(call, updates, billing))],
             l.debits + NewDebit(call, updates, billing))
  }

  class CallStore {
    var callLogs: seq<CallLog>
    var debits: seq<Debit>

    ghost function Model(): Ledger
      reads this
    {
      Ledger(callLogs, debits)
    }

    constructor ()
      ensures Model() == Ledger([], [])
    {
      callLogs, debits := [], [];
    }

    method LogCall(call: CallLog)
      modifies this
      ensures Model() == Logged(old(Model()), call)
    {
      callLogs := [call] + callLogs;
      if |callLogs| > MAX_CALLS {
        callLogs := callLogs[..|callLogs| - 1];
      }
    }

    method UpdateCall(id: string, updates: Updates, billing: Billing)
      modifies this
      ensures Model() == Updated(old(Model()), id, updates, billing)
    {
      var i := 0;
      while i < |callLogs| && callLogs[i].id != id
        invariant 0 <= i <= |callLogs|
        invariant forall j :: 0 <= j < i ==> callLogs[j].id != id
      {
        i := i + 1;
      }
      if i == |callLogs| {
        return;
      }
      var call := callLogs[i];
      var price: Option<Rated> := None;
      if billing.book.Some? && updates.status == Some(Ended) && call.cost.None? {
        price := PriceAtEnd(billing.book.value, call, updates, PlanOf(billing));
        if billing.prepaid && billing.payer.Some? && price.Some? && price.value.cost > 0.0 {
          debits := debits + [Debit(billing.payer.value.extension, call.id, price.value.cost, price.value.currency)];
        }
      }
      callLogs := callLogs[i := Assigned(call, updates, price)];
    }
  }

  // ----- whole runs -----

  datatype Event =
    | Log(call: CallLog)
    | Update(id: string, updates: Updates, billing: Billing)

  /** The ids that have been logged so far. */
  ghost function Ids(run: Run<Event>): set<string> {
    match run
    case Start => {}
    case Then(before, Log(call)) => Ids(before) + {call.id}
    case Then(before, _) => Ids(before)
  }

  /** Every call is logged under its own id, and without a cost. Updates may name any id, any number of times. */
  ghost predicate UniqueCalls(run: Run<Event>) {
    run.Then? ==>
      && UniqueCalls(run.before)
      && (run.last.Log? ==> run.last.call.id !in Ids(run.before) && run.last.call.cost.None?)
  }

  ghost function After(run: Run<Event>): Ledger {
    match run
    case Start => Ledger([], [])
    case Then(before, Log(call)) => Logged(After(before), call)
    case Then(before, Update(id, updates, billing)) => Updated(After(before), id, updates, billing)
  }

  ghost predicate DistinctIds(l: Ledger, ids: set<string>) {
    && (forall i, j :: 0 <= i < j < |l.calls| ==> l.calls[i].id != l.calls[j].id)
    && (forall i :: 0 <= i < |l.calls| ==> l.calls[i].id in ids)
  }

  /** No call has two debits, and a debited call that is still on record carries exactly the debited cost. */
  ghost predicate DebitedOnce(l: Ledger, ids: set<string>) {
    && (forall i, j :: 0 <= i < j < |l.debits| ==> l.debits[i].callId != l.debits[j].callId)
    && (forall k :: 0 <= k < |l.debits| ==> l.debits[k].callId in ids && l.debits[k].amount > 0.0)
    && (forall k, i :: 0 <= k < |l.debits| && 0 <= i < |l.calls| && l.debits[k].callId == l.calls[i].id ==>
          l.calls[i].cost == Some(l.debits[k].amount))
  }

  lemma UpdatedKeeps(l: Ledger, ids: set<string>, id: string, updates: Updates, billing: Billing)
    requires DistinctIds(l, ids) && DebitedOnce(l, ids)
    ensures DistinctIds(Updated(l, id, updates, billing), ids) && DebitedOnce(Updated(l, id, updates, billing), ids)
  {
    var i := Find(l.calls, id);
    if i < |l.calls| {
      var l' := Updated(l, id, updates, billing);
      assert forall j :: 0 <= j < |l.calls| ==> l'.calls[j].id == l.calls[j].id;
      assert forall j :: 0 <= j < |l.calls| && j != i ==> l'.calls[j] == l.calls[j];
    }
  }

  lemma LoggedKeeps(l: Ledger, ids: set<string>, call: CallLog)
    requires DistinctIds(l, ids) && DebitedOnce(l, ids) && call.id !in ids
    ensures DistinctIds(Logged(l, call), ids + {call.id}) && DebitedOnce(Logged(l, call), ids + {call.id})
  {
    assert forall i :: 1 <= i < |Logged(l, call).calls| ==> Logged(l, call).calls[i] == l.calls[i - 1];
  }

  /**
   * On every run, at most one wallet debit is emitted per call, and it equals
   * the cost stamped on the call's record.
   */
  lemma {:induction false} DebitsAlwaysOnce(run: Run<Event>)
    requires UniqueCalls(run)
    ensures DistinctIds(After(run), Ids(run)) && DebitedOnce(After(run), Ids(run))
  {
    match run
    case Start =>
    case Then(before, Log(call)) =>
      DebitsAlwaysOnce(before);
      LoggedKeeps(After(before), Ids(before), call);
    case Then(before, Update(id, updates, billing)) =>
      DebitsAlwaysOnce(before);
      UpdatedKeeps(After(before), Ids(before), id, updates, billing);
  }

  /** The cost on the record of a call, if the record is there and priced. */
  ghost function CostOf(l: Ledger, id: string): Option<real> {
    var i := Find(l.calls, id);
    if i < |l.calls| then l.calls[i].cost else None
  }

  ghost predicate OnRecord(l: Ledger, id: string) {
    Find(l.calls, id) < |l.calls|
  }

  /** Another record in the list does not change what is found for an id. */
  lemma FindInLogged(l: Ledger, call: CallLog, id: string)
    requires call.id != id
    ensures OnRecord(Logged(l, call), id) ==> OnRecord(l, id) && CostOf(Logged(l, call), id) == CostOf(l, id)
  {
    var i := Find(Logged(l, call).calls, id);
    if i < |Logged(l, call).calls| {
      assert Logged(l, call).calls[i] == l.calls[i - 1];
      assert forall k :: 0 <= k < i - 1 ==> l.calls[k] == Logged(l, call).calls[k + 1];
    }
  }

  lemma FindInUpdated(l: Ledger, id: string, other: string, updates: Updates, billing: Billing)
    ensures OnRecord(Updated(l, other, updates, billing), id) <==> OnRecord(l, id)
    ensures CostOf(l, id).Some? ==> CostOf(Updated(l, other, updates, billing), id) == CostOf(l, id)
  {
    var l' := Updated(l, other, updates, billing);
    assert |l'.calls| == |l.calls| && forall j :: 0 <= j < |l.calls| ==> l'.calls[j].id == l.calls[j].id;
    var i, i' := Find(l.calls, id), Find(l'.calls, id);
    assert i == i';
  }

  /** Once stamped, the cost of a call never changes while the record exists. */
  lemma {:induction false} CostNeverChanges(from: Run<Event>, run: Run<Event>, id: string)
    requires UniqueCalls(run) && Continues(run, from) && CostOf(After(from), id).Some?
    ensures OnRecord(After(run), id) ==> CostOf(After(run), id) == CostOf(After(from), id)
    ensures id in Ids(run)
  {
    if run == from {
      DebitsAlwaysOnce(run);
      assert After(run).calls[Find(After(run).calls, id)].id in Ids(run);
    } else {
      CostNeverChanges(from, run.before, id);
      match run.last
      case Log(call) => FindInLogged(After(run.before), call, id);
      case Update(other, updates, billing) => FindInUpdated(After(run.before), id, other, updates, billing);
    }
  }

  /** How long the call took, as far as the update and the record say. */
  ghost function TalkTime(call: CallLog, updates: Updates): real {
    if updates.duration.Some? then updates.duration.value
    else DerivedDuration(call.startMs, if updates.endMs.Some? then updates.endMs else call.endMs)
  }

  /**
   * The price of a call that is billed with this update: an unpriced call to
   * somebody outside that ends while there is a rater and a rate for the number
   * that was dialed. Without a payer the default plan is used.
   */
  ghost function Bill(call: CallLog, updates: Updates, billing: Billing): Option<Rated> {
    if updates.status == Some(Ended) && call.cost.None? && (call.toExt.None? || call.toExt.value == "") && billing.book.Some?
    then RateCall(billing.book.value, call.to, TalkTime(call, updates),
                  if billing.payer.Some? then billing.payer.value.planId else None)
    else None
  }

  /** What an update sets, it sets; everything else stays. */
  ghost function Patched(call: CallLog, updates: Updates): CallLog {
    CallLog(call.id,
            if updates.to.Some? then updates.to.value else call.to,
            call.toExt,
            if updates.status.Some? then updates.status.value else call.status,
            call.startMs,
            if updates.endMs.Some? then updates.endMs else call.endMs,
            if updates.duration.Some? then updates.duration else call.duration,
            call.cost, call.currency, call.ratePrefix, call.billedSecs)
  }

  /**
   * What an update does to the ledger: it changes the newest record with the id
   * and no other; that record gets the four billing fields exactly when it is
   * billed; and one debit goes out, to the payer's extension and for that cost,
   * exactly when billing is prepaid, there is a payer and the cost is positive.
   */
  lemma UpdateIs(l: Ledger, id: string, updates: Updates, billing: Billing, i: nat)
    requires i < |l.calls| && l.calls[i].id == id && forall j :: 0 <= j < i ==> l.calls[j].id != id
    ensures var l' := Updated(l, id, updates, billing);
      var bill, patched := Bill(l.calls[i], updates, billing), Patched(l.calls[i], updates);
      var charged := bill.Some? && billing.prepaid && billing.payer.Some? && bill.value.cost > 0.0;
      && |l'.calls| == |l.calls|
      && (forall j :: 0 <= j < |l.calls| && j != i ==> l'.calls[j] == l.calls[j])
      && (bill.None? ==> l'.calls[i] == patched)
      && (bill.Some? ==> l'.calls[i] == patched.(cost := Some(bill.value.cost), currency := Some(bill.value.currency),
                                                 ratePrefix := Some(bill.value.ratePrefix),
                                                 billedSecs := Some(bill.value.billedSecs)))
      && (!charged ==> l'.debits == l.debits)
      && (charged ==> l'.debits == l.debits + [Debit(billing.payer.value.extension, id, bill.value.cost, bill.value.currency)])
  {
    assert Find(l.calls, id) == i;
  }

  /** An update of a call that is not on record does nothing. */
  lemma UnknownCallIgnored(l: Ledger, id: string, updates: Updates, billing: Billing)
    requires forall j :: 0 <= j < |l.calls| ==> l.calls[j].id != id
    ensures Updated(l, id, updates, billing) == l
  {
    assert Find(l.calls, id) == |l.calls|;
  }

  /** The ids in the order they were logged, newest first. */
  ghost function NewestFirst(run: Run<Event>): seq<string> {
    match run
    case Start => []
    case Then(before, Log(call)) => [call.id] + NewestFirst(before)
    case Then(before, _) => NewestFirst(before)
  }

  ghost function IdsOf(l: Ledger): seq<string> {
    seq(|l.calls|, i requires 0 <= i < |l.calls| => l.calls[i].id)
  }

  ghost predicate Newest500(ids: seq<string>, all: seq<string>) {
    ids == if |all| > 500 then all[..500] else all
  }

  lemma IdsAfterUpdate(l: Ledger, id: string, updates: Updates, billing: Billing)
    ensures IdsOf(Updated(l, id, updates, billing)) == IdsOf(l)
  {
  }

  lemma IdsAfterLog(l: Ledger, call: CallLog, all: seq<string>)
    requires Newest500(IdsOf(l), all)
    ensures Newest500(IdsOf(Logged(l, call)), [call.id] + all)
  {
    var ids := IdsOf(Logged(l, call));
    var more := [call.id] + all;
    assert |l.calls| == |IdsOf(l)|;
    forall i | 0 <= i < |ids| ensures ids[i] == more[i] {
      if i > 0 {
        assert ids[i] == IdsOf(l)[i - 1];
      }
    }
  }

  /** The log holds the newest 500 calls, newest first, whatever updates there were. */
  lemma {:induction false} LogKeepsNewest(run: Run<Event>)
    ensures Newest500(IdsOf(After(run)), NewestFirst(run))
  {
    match run
    case Start =>
    case Then(before, Log(call)) =>
      LogKeepsNewest(before);
      IdsAfterLog(After(before), call, NewestFirst(before));
    case Then(before, Update(id, updates, billing)) =>
      LogKeepsNewest(before);
      IdsAfterUpdate(After(before), id, updates, billing);
  }

  /** A debit is never below the minimum that the same book quotes for the call beforehand. */
  lemma DebitCoversQuote(call: CallLog, updates: Updates, billing: Billing)
    requires NewDebit(call, updates, billing) != [] && PricesNotNegative(billing.book.value)
    ensures var quote := EstimateMinCharge(billing.book.value, call.to, PlanOf(billing));
      quote.Some? && NewDebit(call, updates, billing)[0].amount >= quote.value.cost
  {
    var duration := OrElse(updates.duration, DerivedDuration(call.startMs, Either(updates.endMs, call.endMs)));
    CostAtLeastMinimum(billing.book.value, call.to, duration, PlanOf(billing));
  }
}
