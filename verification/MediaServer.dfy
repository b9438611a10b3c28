/**
 * The media-server rendezvous: an INVITE to FreeSWITCH and the ESL connection
 * FreeSWITCH opens in return meet in the map of pending connections, racing a
 * timer, an INVITE failure and (for DTLS callers) the answer to the caller.
 * Plain `createEndpoint` calls and DTLS `connectCaller` calls share the map.
 */
module MediaServer {
  import opened Common

  type Uuid = string

  /** A SIP dialog with FreeSWITCH, created by the INVITE that carried `uuid`. */
  datatype Dialog = Dialog(uuid: Uuid, serial: int)

  /** An inbound ESL connection; `uuid` is what its User-Agent header names, if it has the right form. */
  datatype Conn = Conn(uuid: Option<Uuid>, serial: int)

  /** A pending connection. `fn` is the continuation, which holds the dialog it was bound to. */
  datatype Entry = Entry(conn: Option<Conn>, dialog: Option<Dialog>, fn: Option<Dialog>)

  datatype Endpoint = Endpoint(conn: Conn, dialog: Dialog)

  datatype Cause = NotReady | InviteFailed | CallerFailed | TimedOut

  /** One invocation of the callback given to `createEndpoint` or `connectCaller`. */
  datatype Report = Done(endpoint: Endpoint) | Error(cause: Cause)

  datatype Kind = Plain | Dtls

  /** How far a library operation has come. */
  datatype Progress = Idle | Open | Succeeded | Failed

  datatype Timer = Unset | Armed(dialog: Dialog) | Fired

  /** Everything about one call that is not in the pending map. */
  datatype Call = Call(
    kind: Kind,
    invite: Progress,
    answer: Progress,
    timer: Timer,
    endpoints: seq<Endpoint>,
    readied: nat,
    reports: seq<Report>)
  {
    function Report(r: Report): Call {
      this.(reports := reports + [r])
    }

    /** The caller's own dialog has been set on the pair. */
    predicate HasDialog() {
      answer.Succeeded?
    }
  }

  datatype State = State(pending: map<Uuid, Entry>, calls: map<Uuid, Call>, hungUp: seq<Conn>) {
    function With(u: Uuid, call: Call): State {
      this.(calls := calls[u := call])
    }

    function Without(u: Uuid): State {
      this.(pending := pending - {u})
    }
  }

  const EMPTY: State := State(map[], map[], [])

  /** A plain call on a server that is not connected or not ready is refused before any INVITE. */
  function Created(s: State, u: Uuid, kind: Kind, ready: bool): State {
    if kind.Plain? && !ready then s.With(u, Call(kind, Idle, Idle, Unset, [], 0, [Error(NotReady)]))
    else
      s.(pending := s.pending[u := Entry(None, None, None)],
         calls := s.calls[u := Call(kind, Open, Idle, Unset, [], 0, [])])
  }

  /** FreeSWITCH answered the INVITE. */
  function Answered(s: State, u: Uuid, dialog: Dialog): State
    requires u in s.calls
  {
    var call := s.calls[u].(invite := Succeeded, answer := if s.calls[u].kind.Dtls? then Open else Idle);
    if u !in s.pending then
      // the lookup yields undefined and the first use of it throws
      if call.kind.Plain? then s.With(u, call.Report(Error(InviteFailed))) else s.With(u, call.(answer := Idle))
    else
      match s.pending[u].conn
      case Some(conn) => s.Without(u).With(u, call.(endpoints := call.endpoints + [Endpoint(conn, dialog)]))
      case None =>
        s.(pending := s.pending[u := Entry(None, Some(dialog), Some(dialog))])
         .With(u, call.(timer := Armed(dialog)))
  }

  function Refused(s: State, u: Uuid): State
    requires u in s.calls
  {
    s.Without(u).With(u, s.calls[u].(invite := Failed).Report(Error(InviteFailed)))
  }

  /** An ESL connection arrived. */
  function Connected(s: State, conn: Conn): State
    requires forall u :: u in s.pending ==> u in s.calls
  {
    if conn.uuid.None? || conn.uuid.value !in s.pending then s.(hungUp := s.hungUp + [conn])
    else
      var u := conn.uuid.value;
      match s.pending[u].fn
      case Some(dialog) =>
        s.Without(u).With(u, s.calls[u].(
          endpoints := s.calls[u].endpoints + [Endpoint(conn, dialog)],
          timer := Unset))
      case None => s.(pending := s.pending[u := s.pending[u].(conn := Some(conn))])
  }

  function Expired(s: State, u: Uuid): State
    requires u in s.calls
  {
    s.Without(u).With(u, s.calls[u].(timer := Fired).Report(Error(TimedOut)))
  }

  /** A built endpoint became ready. */
  function Readied(s: State, u: Uuid): State
    requires u in s.calls && s.calls[u].readied < |s.calls[u].endpoints|
  {
    var call := s.calls[u].(readied := s.calls[u].readied + 1);
    s.With(u, if call.kind.Plain? || call.HasDialog() then call.Report(Done(call.endpoints[call.readied - 1])) else call)
  }

  /** The caller's own INVITE was answered (DTLS only). */
  function CallerUp(s: State, u: Uuid): State
    requires u in s.calls && s.calls[u].readied <= |s.calls[u].endpoints|
  {
    var call := s.calls[u].(answer := Succeeded);
    s.With(u, if call.readied > 0 then call.Report(Done(call.endpoints[call.readied - 1])) else call)
  }

  function CallerDown(s: State, u: Uuid): State
    requires u in s.calls
  {
    s.Without(u).With(u, s.calls[u].(answer := Failed).Report(Error(CallerFailed)))
  }

  class Server {
    var pendingConnections: map<Uuid, Entry>
    var calls: map<Uuid, Call>
    var hungUp: seq<Conn>

    ghost function Model(): State
      reads this
    {
      State(pendingConnections, calls, hungUp)
    }

    constructor ()
      ensures Model() == EMPTY
    {
      pendingConnections, calls, hungUp := map[], map[], [];
    }

    /** `createEndpoint` and the DTLS branch of `connectCaller` up to the INVITE. */
    method Begin(u: Uuid, kind: Kind, ready: bool)
      modifies this
      ensures Model() == Created(old(Model()), u, kind, ready)
    {
      if kind.Plain? && !ready {
        calls := calls[u := Call(kind, Idle, Idle, Unset, [], 0, [Error(NotReady)])];
        return;
      }
      pendingConnections := pendingConnections[u := Entry(None, None, None)];
      calls := calls[u := Call(kind, Open, Idle, Unset, [], 0, [])];
    }

    method OnInviteAnswered(u: Uuid, dialog: Dialog)
      requires u in calls
      modifies this
      ensures Model() == Answered(old(Model()), u, dialog)
    {
      var call := calls[u].(invite := Succeeded);
      if u !in pendingConnections {
        if call.kind.Plain? {
          call := call.Report(Error(InviteFailed));
        }
        calls := calls[u := call.(answer := Idle)];
        return;
      }
      var obj := pendingConnections[u].(dialog := Some(dialog));
      if obj.conn.Some? {
        pendingConnections := pendingConnections - {u};
        call := call.(endpoints := call.endpoints + [Endpoint(obj.conn.value, dialog)]);
      } else {
        call := call.(timer := Armed(dialog));
        pendingConnections := pendingConnections[u := obj.(fn := Some(dialog))];
      }
      calls := calls[u := call.(answer := if call.kind.Dtls? then Open else Idle)];
    }

    method OnInviteFailed(u: Uuid)
      requires u in calls
      modifies this
      ensures Model() == Refused(old(Model()), u)
    {
      pendingConnections := pendingConnections - {u};
      calls := calls[u := calls[u].(invite := Failed).Report(Error(InviteFailed))];
    }

    method OnNewCall(conn: Conn)
      requires forall u :: u in pendingConnections ==> u in calls
      modifies this
      ensures Model() == Connected(old(Model()), conn)
    {
      if conn.uuid.None? || conn.uuid.value !in pendingConnections {
        hungUp := hungUp + [conn];
        return;
      }
      var u := conn.uuid.value;
      var obj := pendingConnections[u];
      if obj.fn.Some? {
        var call := calls[u];
        call := call.(endpoints := call.endpoints + [Endpoint(conn, obj.fn.value)]);
        calls := calls[u := call.(timer := Unset)];
        pendingConnections := pendingConnections - {u};
      } else {
        pendingConnections := pendingConnections[u := obj.(conn := Some(conn))];
      }
    }

    method OnTimeout(u: Uuid)
      requires u in calls
      modifies this
      ensures Model() == Expired(old(Model()), u)
    {
      pendingConnections := pendingConnections - {u};
      calls := calls[u := calls[u].(timer := Fired).Report(Error(TimedOut))];
    }

    method OnEndpointReady(u: Uuid)
      requires u in calls && calls[u].readied < |calls[u].endpoints|
      modifies this
      ensures Model() == Readied(old(Model()), u)
    {
      var call := calls[u];
      var endpoint := call.endpoints[call.readied];
      call := call.(readied := call.readied + 1);
      if call.kind.Plain? || call.HasDialog() {
        call := call.Report(Done(endpoint));
      }
      calls := calls[u := call];
    }

    method OnCallerAnswered(u: Uuid)
      requires u in calls && calls[u].readied <= |calls[u].endpoints|
      modifies this
      ensures Model() == CallerUp(old(Model()), u)
    {
      var call := calls[u].(answer := Succeeded);
      if call.readied > 0 {
        call := call.Report(Done(call.endpoints[call.readied - 1]));
      }
      calls := calls[u := call];
    }

    method OnCallerFailed(u: Uuid)
      requires u in calls
      modifies this
      ensures Model() == CallerDown(old(Model()), u)
    {
      pendingConnections := pendingConnections - {u};
      calls := calls[u := calls[u].(answer := Failed).Report(Error(CallerFailed))];
    }
  }

  // ----- whole runs -----

  datatype Event =
    | Create(u: Uuid, kind: Kind, ready: bool)
    | Answer(u: Uuid, serial: int)
    | Refuse(u: Uuid)
    | Connect(conn: Conn)
    | Expire(u: Uuid)
    | Ready(u: Uuid)
    | CallerAnswer(u: Uuid)
    | CallerRefuse(u: Uuid)

  /** What can happen next: fresh uuids, completions of open operations, armed timers, any connection. */
  ghost predicate Possible(s: State, e: Event) {
    match e
    case Create(u, _, _) => u !in s.calls
    case Answer(u, _) => u in s.calls && s.calls[u].invite.Open?
    case Refuse(u) => u in s.calls && s.calls[u].invite.Open?
    case Connect(_) => true
    case Expire(u) => u in s.calls && s.calls[u].timer.Armed?
    case Ready(u) => u in s.calls && s.calls[u].readied < |s.calls[u].endpoints|
    case CallerAnswer(u) => u in s.calls && s.calls[u].answer.Open?
    case CallerRefuse(u) => u in s.calls && s.calls[u].answer.Open?
  }

  /** One event; one that is not possible does not happen. */
  ghost function Step(s: State, e: Event): State {
    if !Possible(s, e) then s
    else
      match e
      case Create(u, kind, ready) => Created(s, u, kind, ready)
      case Answer(u, serial) => Answered(s, u, Dialog(u, serial))
      case Refuse(u) => Refused(s, u)
      case Connect(conn) => if s.pending.Keys <= s.calls.Keys then Connected(s, conn) else s
      case Expire(u) => Expired(s, u)
      case Ready(u) => Readied(s, u)
      case CallerAnswer(u) => if s.calls[u].readied <= |s.calls[u].endpoints| then CallerUp(s, u) else s
      case CallerRefuse(u) => CallerDown(s, u)
  }

  ghost function After(run: Run<Event>): State {
    match run
    case Start => EMPTY
    case Then(before, e) => Step(After(before), e)
  }

  /** The call's entry is in the map while the INVITE is open or the timer waits for its connection. */
  ghost predicate EntryInv(pending: map<Uuid, Entry>, u: Uuid, call: Call) {
    && (u in pending <==> call.invite.Open? || (call.timer.Armed? && !call.answer.Failed?))
    && (u in pending ==>
          var entry := pending[u];
          && (entry.conn.Some? ==> call.invite.Open? && entry.conn.value.uuid == Some(u))
          && entry.fn == (if call.timer.Armed? then Some(call.timer.dialog) else None))
  }

  /** Once FreeSWITCH has answered, exactly one of timer, timeout and endpoint exists. */
  ghost predicate CallInv(u: Uuid, call: Call) {
    && (call.invite.Idle? ==> call.kind.Plain?)
    && (call.timer.Armed? ==> call.timer.dialog.uuid == u)
    && (call.timer.Unset? <==> !call.invite.Succeeded? || |call.endpoints| == 1)
    && (call.endpoints != [] ==>
          && call.timer.Unset? && |call.endpoints| == 1 && call.invite.Succeeded?
          && call.endpoints[0].dialog.uuid == u && call.endpoints[0].conn.uuid == Some(u))
    && call.readied <= |call.endpoints|
    && (call.answer.Idle? <==> call.kind.Plain? || !call.invite.Succeeded?)
  }

  /** The causes of failure that have come about for the call. */
  ghost predicate Happened(call: Call, cause: Cause) {
    match cause
    case NotReady => call.invite.Idle?
    case InviteFailed => call.invite.Failed?
    case CallerFailed => call.answer.Failed?
    case TimedOut => call.timer.Fired?
  }

  ghost function One(b: bool): nat {
    if b then 1 else 0
  }

  ghost function Failures(call: Call): nat {
    One(call.invite.Idle?) + One(call.invite.Failed?) + One(call.answer.Failed?) + One(call.timer.Fired?)
  }

  /** Success has been earned: the endpoint is ready, and for DTLS the caller is answered too. */
  ghost predicate Complete(call: Call) {
    call.readied == 1 && (call.kind.Plain? || call.HasDialog())
  }

  /** Exactly which callbacks have fired, as a function of what has happened to the call. */
  ghost predicate ReportsInv(call: Call)
    requires call.readied <= |call.endpoints|
  {
    if Complete(call) then call.reports == [Done(call.endpoints[0])]
    else
      && |call.reports| == Failures(call)
      && (forall i :: 0 <= i < |call.reports| ==> call.reports[i].Error?)
      && (forall cause :: Happened(call, cause) ==> Error(cause) in call.reports)
  }

  ghost predicate Sound(s: State, u: Uuid)
    requires u in s.calls
  {
    CallInv(u, s.calls[u]) && EntryInv(s.pending, u, s.calls[u]) && ReportsInv(s.calls[u])
  }

  ghost predicate Inv(s: State) {
    && s.pending.Keys <= s.calls.Keys
    && forall u :: u in s.calls ==> Sound(s, u)
  }

  /** `s'` differs from `s` only in what concerns `u`. */
  ghost predicate OnlyTouches(s: State, s': State, u: Uuid) {
    && u in s'.calls
    && (forall v :: v != u ==> (v in s'.calls <==> v in s.calls) && (v in s'.pending <==> v in s.pending))
    && (forall v :: v != u && v in s.calls ==> s'.calls[v] == s.calls[v])
    && (forall v :: v != u && v in s.pending ==> s'.pending[v] == s.pending[v])
  }

  /** A step that touches only `u` keeps the invariant when it leaves `u` sound. */
  lemma TouchedSound(s: State, s': State, u: Uuid)
    requires Inv(s) && OnlyTouches(s, s', u) && Sound(s', u)
    ensures Inv(s')
  {
    forall v | v in s'.calls ensures Sound(s', v) {
      if v != u {
        assert Sound(s, v);
      }
    }
  }

  lemma CreatedKeepsInv(s: State, u: Uuid, kind: Kind, ready: bool)
    requires Inv(s) && u !in s.calls
    ensures Inv(Created(s, u, kind, ready))
  {
    TouchedSound(s, Created(s, u, kind, ready), u);
  }

  lemma AnsweredKeepsInv(s: State, u: Uuid, dialog: Dialog)
    requires Inv(s) && u in s.calls && s.calls[u].invite.Open? && dialog.uuid == u
    ensures Inv(Answered(s, u, dialog))
  {
    assert Sound(s, u);
    TouchedSound(s, Answered(s, u, dialog), u);
  }

  lemma RefusedKeepsInv(s: State, u: Uuid)
    requires Inv(s) && u in s.calls && s.calls[u].invite.Open?
    ensures Inv(Refused(s, u))
  {
    assert Sound(s, u);
    TouchedSound(s, Refused(s, u), u);
  }

  lemma ConnectedKeepsInv(s: State, conn: Conn)
    requires Inv(s)
    ensures Inv(Connected(s, conn))
  {
    if conn.uuid.Some? && conn.uuid.value in s.pending {
      var u := conn.uuid.value;
      assert Sound(s, u);
      TouchedSound(s, Connected(s, conn), u);
    } else {
      forall v | v in s.calls ensures Sound(Connected(s, conn), v) {
        assert Sound(s, v);
      }
    }
  }

  lemma ExpiredKeepsInv(s: State, u: Uuid)
    requires Inv(s) && u in s.calls && s.calls[u].timer.Armed?
    ensures Inv(Expired(s, u))
  {
    assert Sound(s, u);
    TouchedSound(s, Expired(s, u), u);
  }

  lemma ReadiedKeepsInv(s: State, u: Uuid)
    requires Inv(s) && u in s.calls && s.calls[u].readied < |s.calls[u].endpoints|
    ensures Inv(Readied(s, u))
  {
    assert Sound(s, u);
    TouchedSound(s, Readied(s, u), u);
  }

  lemma CallerUpKeepsInv(s: State, u: Uuid)
    requires Inv(s) && u in s.calls && s.calls[u].answer.Open? && s.calls[u].readied <= |s.calls[u].endpoints|
    ensures Inv(CallerUp(s, u))
  {
    assert Sound(s, u);
    TouchedSound(s, CallerUp(s, u), u);
  }

  lemma CallerDownKeepsInv(s: State, u: Uuid)
    requires Inv(s) && u in s.calls && s.calls[u].answer.Open?
    ensures Inv(CallerDown(s, u))
  {
    assert Sound(s, u);
    TouchedSound(s, CallerDown(s, u), u);
  }

  /** Every event keeps the invariant, whatever the interleaving. */
  lemma StepKeepsInv(s: State, e: Event)
    requires Inv(s)
    ensures Inv(Step(s, e))
  {
    if Possible(s, e) {
      match e
      case Create(u, kind, ready) => CreatedKeepsInv(s, u, kind, ready);
      case Answer(u, serial) => AnsweredKeepsInv(s, u, Dialog(u, serial));
      case Refuse(u) => RefusedKeepsInv(s, u);
      case Connect(conn) => ConnectedKeepsInv(s, conn);
      case Expire(u) => ExpiredKeepsInv(s, u);
      case Ready(u) => ReadiedKeepsInv(s, u);
      case CallerAnswer(u) => assert Sound(s, u); CallerUpKeepsInv(s, u);
      case CallerRefuse(u) => CallerDownKeepsInv(s, u);
    }
  }

  lemma {:induction false} InvAlways(run: Run<Event>)
    ensures Inv(After(run))
  {
    if run.Then? {
      InvAlways(run.before);
      StepKeepsInv(After(run.before), run.last);
    }
  }

  // ----- what callers of the library can rely on -----

  lemma AlwaysSound(run: Run<Event>, u: Uuid)
    requires u in After(run).calls
    ensures Sound(After(run), u)
  {
    InvAlways(run);
  }

  /**
   * Plain calls: the callback fires at most once; a built endpoint and a
   * timeout exclude each other; an endpoint pairs a dialog and a connection of
   * the call's own uuid; and a pending entry either awaits its SIP answer or
   * has an armed timer, never both.
   */
  lemma PlainCallIsSettledOnce(s: State, u: Uuid, run: Run<Event>)
    requires s == After(run) && u in s.calls && s.calls[u].kind.Plain?
    ensures var call := s.calls[u];
      && |call.reports| <= 1
      && !(call.endpoints != [] && Error(TimedOut) in call.reports)
      && |call.endpoints| <= 1
      && (forall e :: e in call.endpoints ==> e.dialog.uuid == u && e.conn.uuid == Some(u))
      && (forall e :: Done(e) in call.reports ==> e in call.endpoints)
      && (u in s.pending <==> call.invite.Open? || call.timer.Armed?)
      && !(call.invite.Open? && call.timer.Armed?)
  {
    AlwaysSound(run, u);
  }

  /**
   * DTLS calls: success is reported exactly when both the endpoint is ready and
   * the caller's dialog is up; then it is the only report. Otherwise every
   * report is an error, and there are two of them exactly when answering the
   * caller failed and the connection timed out as well.
   */
  lemma DtlsCallReports(s: State, u: Uuid, run: Run<Event>)
    requires s == After(run) && u in s.calls && s.calls[u].kind.Dtls?
    ensures var call := s.calls[u];
      && ((exists e :: Done(e) in call.reports) <==> call.readied == 1 && call.HasDialog())
      && (forall e :: Done(e) in call.reports ==>
            call.reports == [Done(e)] && e.dialog.uuid == u && e.conn.uuid == Some(u))
      && |call.reports| <= 2
      && (|call.reports| == 2 <==> call.answer.Failed? && call.timer.Fired?)
  {
    AlwaysSound(run, u);
    var call := s.calls[u];
    if Complete(call) {
      assert Done(call.endpoints[0]) in call.reports;
    }
  }

  /** The double report does happen: the caller cannot be answered, and the timer is still armed. */
  lemma DtlsErrorReportedTwice(u: Uuid)
    ensures var run := Then(Then(Then(Then(Start, Create(u, Dtls, true)), Answer(u, 0)), CallerRefuse(u)), Expire(u));
      u in After(run).calls && After(run).calls[u].reports == [Error(CallerFailed), Error(TimedOut)]
  {
    var one := Then(Start, Create(u, Dtls, true));
    var two := Then(one, Answer(u, 0));
    var three := Then(two, CallerRefuse(u));
    assert After(one) == Created(EMPTY, u, Dtls, true);
    assert After(two) == Answered(After(one), u, Dialog(u, 0));
    assert After(three) == CallerDown(After(two), u);
    assert After(Then(three, Expire(u))) == Expired(After(three), u);
  }

  /** Nothing is outstanding: no INVITE, no answer to a caller, no timer, no endpoint on its way. */
  ghost predicate Quiescent(s: State) {
    forall u :: u in s.calls ==>
      var call := s.calls[u];
      !call.invite.Open? && !call.answer.Open? && !call.timer.Armed? && call.readied == |call.endpoints|
  }

  /** No call is forgotten: when nothing is outstanding, nothing is pending and every callback has fired. */
  lemma NoCallForgotten(s: State, u: Uuid, run: Run<Event>)
    requires s == After(run) && Quiescent(s) && u in s.calls
    ensures u !in s.pending && s.pending.Keys <= s.calls.Keys
    ensures 1 <= |s.calls[u].reports| && (s.calls[u].kind.Plain? ==> |s.calls[u].reports| == 1)
  {
    InvAlways(run);
    AlwaysSound(run, u);
  }

  /** The state in which answer and connection have met: entry gone, no timer, one endpoint of the two. */
  ghost function Met(s: State, u: Uuid, dialog: Dialog, conn: Conn): State
    requires u in s.calls
  {
    var call := s.calls[u];
    State(s.pending - {u},
          s.calls[u := Call(call.kind, Succeeded, if call.kind.Dtls? then Open else Idle, Unset,
                            [Endpoint(conn, dialog)], 0, [])],
          s.hungUp)
  }

  lemma AnswerThenConnection(s: State, u: Uuid, dialog: Dialog, conn: Conn)
    requires u in s.pending && u in s.calls && s.pending.Keys <= s.calls.Keys && Sound(s, u)
    requires s.calls[u].invite.Open? && conn.uuid == Some(u) && s.pending[u].conn.None?
    ensures var answered := Answered(s, u, dialog);
      answered.pending.Keys <= answered.calls.Keys && Connected(answered, conn) == Met(s, u, dialog, conn)
  {
    var answered := Answered(s, u, dialog);
    assert s.calls[u].endpoints == [] && s.calls[u].reports == [] && [] + [Endpoint(conn, dialog)] == [Endpoint(conn, dialog)];
    assert answered.pending - {u} == s.pending - {u};
    assert Connected(answered, conn).calls == Met(s, u, dialog, conn).calls;
  }

  lemma ConnectionThenAnswer(s: State, u: Uuid, dialog: Dialog, conn: Conn)
    requires u in s.pending && u in s.calls && s.pending.Keys <= s.calls.Keys && Sound(s, u)
    requires s.calls[u].invite.Open? && conn.uuid == Some(u)
    ensures Answered(Connected(s, conn), u, dialog) == Met(s, u, dialog, conn)
  {
    var connected := Connected(s, conn);
    assert s.calls[u].endpoints == [] && s.calls[u].reports == [] && [] + [Endpoint(conn, dialog)] == [Endpoint(conn, dialog)];
    assert connected.pending - {u} == s.pending - {u};
  }

  /** Answer and connection may come in either order: the outcome is the same state. */
  lemma RendezvousEitherOrder(run: Run<Event>, u: Uuid, serial: int, conn: Conn)
    requires u in After(run).calls && After(run).calls[u].invite.Open? && conn.uuid == Some(u)
    requires u in After(run).pending && After(run).pending[u].conn.None?
    ensures var met := Met(After(run), u, Dialog(u, serial), conn);
      && After(Then(Then(run, Answer(u, serial)), Connect(conn))) == met
      && After(Then(Then(run, Connect(conn)), Answer(u, serial))) == met
  {
    var s, dialog := After(run), Dialog(u, serial);
    InvAlways(run);
    AlwaysSound(run, u);
    AnswerThenConnection(s, u, dialog, conn);
    ConnectionThenAnswer(s, u, dialog, conn);
    assert After(Then(run, Answer(u, serial))) == Answered(s, u, dialog);
    assert After(Then(run, Connect(conn))) == Connected(s, conn);
  }

  /** Once an endpoint exists for a uuid, any further connection that names it is hung up. */
  lemma DuplicateConnectionHungUp(s: State, u: Uuid, conn: Conn)
    requires Inv(s) && u in s.calls && s.calls[u].endpoints != [] && conn.uuid == Some(u)
    ensures Connected(s, conn) == s.(hungUp := s.hungUp + [conn])
  {
    assert Sound(s, u);
  }

  // ----- the shared map cannot be noticed -----

  /**
   * One call on its own, without the map, the timers and the other calls: the
   * connection it got, the serial of the dialog that answered it, whether it was
   * given up waiting, whether its endpoint is ready, and its reports in order.
   */
  datatype Trace = Trace(
    kind: Kind,
    invite: Progress,
    answer: Progress,
    conn: Option<Conn>,
    serial: Option<int>,
    expired: bool,
    ready: bool,
    reports: seq<Report>)
  {
    /** Answered by FreeSWITCH, and still without the connection. */
    predicate Waiting() {
      invite.Succeeded? && conn.None? && !expired
    }

    /** A connection that names this call is welcome. */
    predicate Wants() {
      invite.Open? || (Waiting() && !answer.Failed?)
    }

    /** Answer and connection are both there. */
    predicate Met() {
      serial.Some? && conn.Some?
    }

    function Report(r: Report): Trace {
      this.(reports := reports + [r])
    }

    function ReportIf(success: bool, u: Uuid): Trace {
      if success && Met() then Report(Done(Endpoint(conn.value, Dialog(u, serial.value)))) else this
    }
  }

  function FirstTrace(kind: Kind, ready: bool): Trace {
    if kind.Plain? && !ready then Trace(kind, Idle, Idle, None, None, false, false, [Error(NotReady)])
    else Trace(kind, Open, Idle, None, None, false, false, [])
  }

  /** What an event means to a call that exists. */
  function Next(u: Uuid, t: Trace, e: Event): Trace {
    match e
    case Create(_, _, _) => t
    case Answer(v, serial) =>
      if v == u && t.invite.Open?
      then t.(invite := Succeeded, serial := Some(serial), answer := if t.kind.Dtls? then Open else Idle) else t
    case Refuse(v) => if v == u && t.invite.Open? then t.(invite := Failed).Report(Error(InviteFailed)) else t
    case Connect(conn) => if conn.uuid == Some(u) && t.Wants() then t.(conn := Some(conn)) else t
    case Expire(v) => if v == u && t.Waiting() then t.(expired := true).Report(Error(TimedOut)) else t
    case Ready(v) =>
      if v == u && t.Met() && !t.ready then t.(ready := true).ReportIf(t.kind.Plain? || t.answer.Succeeded?, u) else t
    case CallerAnswer(v) => if v == u && t.answer.Open? then t.(answer := Succeeded).ReportIf(t.ready, u) else t
    case CallerRefuse(v) => if v == u && t.answer.Open? then t.(answer := Failed).Report(Error(CallerFailed)) else t
  }

  ghost function NextTrace(u: Uuid, t: Option<Trace>, e: Event): Option<Trace> {
    match t
    case Some(trace) => Some(Next(u, trace, e))
    case None => if e.Create? && e.u == u then Some(FirstTrace(e.kind, e.ready)) else None
  }

  /** The call's history, read off the events that concern it. */
  ghost function TraceOf(run: Run<Event>, u: Uuid): Option<Trace> {
    match run
    case Start => None
    case Then(before, e) => NextTrace(u, TraceOf(before, u), e)
  }

  /** How the server stores the trace of a call. */
  ghost function Stored(u: Uuid, t: Trace): Call {
    Call(t.kind, t.invite, t.answer,
         if t.Waiting() && t.serial.Some? then Armed(Dialog(u, t.serial.value)) else if t.expired then Fired else Unset,
         if t.Met() then [Endpoint(t.conn.value, Dialog(u, t.serial.value))] else [],
         if t.ready then 1 else 0,
         t.reports)
  }

  ghost predicate TraceInv(t: Trace) {
    && (t.serial.Some? <==> t.invite.Succeeded?)
    && (t.ready ==> t.Met())
    && (t.expired ==> t.conn.None? && t.invite.Succeeded?)
    && (t.kind.Plain? ==> t.answer.Idle?)
    && (!t.answer.Idle? ==> t.invite.Succeeded?)
  }

  ghost predicate Refines(s: State, u: Uuid, t: Option<Trace>) {
    && (u in s.calls <==> t.Some?)
    && (u in s.pending <==> t.Some? && t.value.Wants())
    && (t.Some? ==> TraceInv(t.value) && s.calls[u] == Stored(u, t.value))
    && (u in s.pending ==>
          && s.pending[u].conn == t.value.conn
          && s.pending[u].fn == (if t.value.serial.Some? then Some(Dialog(u, t.value.serial.value)) else None))
  }

  /** An event that is not about the call does not concern it. */
  lemma OtherCallsUntouched(s: State, u: Uuid, t: Option<Trace>, e: Event)
    requires s.pending.Keys <= s.calls.Keys && Refines(s, u, t) && (if e.Connect? then e.conn.uuid != Some(u) else e.u != u)
    ensures Refines(Step(s, e), u, t) && NextTrace(u, t, e) == t
  {
  }

  lemma RefinesCreate(s: State, u: Uuid, t: Option<Trace>, kind: Kind, ready: bool)
    requires s.pending.Keys <= s.calls.Keys && Refines(s, u, t)
    ensures Refines(Step(s, Create(u, kind, ready)), u, NextTrace(u, t, Create(u, kind, ready)))
  {
  }

  lemma RefinesInvite(s: State, u: Uuid, t: Trace, e: Event)
    requires s.pending.Keys <= s.calls.Keys && Refines(s, u, Some(t)) && (e.Answer? || e.Refuse?) && e.u == u
    ensures Refines(Step(s, e), u, Some(Next(u, t, e)))
  {
  }

  lemma RefinesConnect(s: State, u: Uuid, t: Trace, conn: Conn)
    requires s.pending.Keys <= s.calls.Keys && Refines(s, u, Some(t)) && conn.uuid == Some(u)
    ensures Refines(Step(s, Connect(conn)), u, Some(Next(u, t, Connect(conn))))
  {
  }

  lemma RefinesEnd(s: State, u: Uuid, t: Trace, e: Event)
    requires s.pending.Keys <= s.calls.Keys && Refines(s, u, Some(t)) && (e.Expire? || e.Ready? || e.CallerAnswer? || e.CallerRefuse?) && e.u == u
    ensures Refines(Step(s, e), u, Some(Next(u, t, e)))
  {
  }

  lemma RefinesStep(s: State, u: Uuid, t: Option<Trace>, e: Event)
    requires s.pending.Keys <= s.calls.Keys && Refines(s, u, t)
    ensures Refines(Step(s, e), u, NextTrace(u, t, e))
  {
    if if e.Connect? then e.conn.uuid != Some(u) else e.u != u {
      OtherCallsUntouched(s, u, t, e);
    } else if e.Create? {
      RefinesCreate(s, u, t, e.kind, e.ready);
    } else if t.Some? {
      if e.Connect? {
        RefinesConnect(s, u, t.value, e.conn);
      } else if e.Answer? || e.Refuse? {
        RefinesInvite(s, u, t.value, e);
      } else {
        RefinesEnd(s, u, t.value, e);
      }
    }
  }

  /**
   * Refinement: on every run, what the server holds for a call is exactly what
   * the call on its own would have come to, whatever the other calls do.
   */
  lemma {:induction false} ServerRefinesCalls(run: Run<Event>, u: Uuid)
    ensures Refines(After(run), u, TraceOf(run, u))
  {
    if run.Then? {
      ServerRefinesCalls(run.before, u);
      InvAlways(run.before);
      RefinesStep(After(run.before), u, TraceOf(run.before, u), run.last);
    }
  }

  /** Nobody waits for the connection: it names no call, an unknown one, or one that wants none any more. */
  ghost predicate Unwelcome(run: Run<Event>, conn: Conn) {
    conn.uuid.None? || TraceOf(run, conn.uuid.value).None? || !TraceOf(run, conn.uuid.value).value.Wants()
  }

  /** The connections that were unwelcome when they came, in order. */
  ghost function UnwelcomeOnes(run: Run<Event>): seq<Conn> {
    match run
    case Start => []
    case Then(before, Connect(conn)) =>
      if Unwelcome(before, conn) then UnwelcomeOnes(before) + [conn] else UnwelcomeOnes(before)
    case Then(before, _) => UnwelcomeOnes(before)
  }

  lemma HungUpStep(s: State, e: Event)
    requires s.pending.Keys <= s.calls.Keys
    ensures Step(s, e).hungUp ==
      if e.Connect? && (e.conn.uuid.None? || e.conn.uuid.value !in s.pending) then s.hungUp + [e.conn] else s.hungUp
  {
  }

  /** On every run exactly the unwelcome connections have been hung up, in the order they came. */
  lemma {:induction false} HungUpExactly(run: Run<Event>)
    ensures After(run).hungUp == UnwelcomeOnes(run)
  {
    if run.Then? {
      HungUpExactly(run.before);
      InvAlways(run.before);
      HungUpStep(After(run.before), run.last);
      if run.last.Connect? && run.last.conn.uuid.Some? {
        ServerRefinesCalls(run.before, run.last.conn.uuid.value);
      }
    }
  }
}
