/**
 * Routing an INVITE to an extension and the fallback chain behind it: forward,
 * PSTN, voicemail, spoken announcement, plain failure. What the SIP and media
 * libraries do is an outcome handed in; what the caller gets (final responses)
 * and what is recorded (statuses) is what the routing methods accumulate.
 */
module CallRouting {
  import opened CallStatuses
  import opened Common

  const OK := 200
  const NOT_FOUND := 404
  const REQUEST_TIMEOUT := 408
  const GONE := 410
  const TEMPORARILY_UNAVAILABLE := 480
  const BUSY_HERE := 486
  const REQUEST_TERMINATED := 487
  const SERVER_ERROR := 500
  const SERVICE_UNAVAILABLE := 503
  const DECLINE := 603

  /** Another extension that calls are forwarded to. */
  datatype Target = Target(registered: bool, hasMobile: bool)

  /** What is configured for the callee and for the workspace. */
  datatype Config = Config(
    blocked: bool,
    onBusy: Option<Target>,
    onNoAnswer: Option<Target>,
    onUnavailable: Option<Target>,
    hasMobile: bool,
    trunkEnabled: bool,
    voicemailEnabled: bool,
    hasMedia: bool)

  /**
   * The leg to the callee's device. Its failures are not relayed to the caller,
   * but the library answers the caller's side too, so the leg can fail with a
   * response to the caller already out. `status` 0 is a failure without one.
   */
  datatype Device = Picked | Rejected(status: nat, saysTimeout: bool, sent: Option<nat>)

  /** The leg to a forward target; its failure may already have been relayed to the caller. */
  datatype Forwarded = Taken | NotTaken(relayed: Option<nat>)

  /** The PSTN leg: it fails, or the caller is then answered, or answering the caller fails with or without a response sent. */
  datatype Pstn = NoLeg | Bridged | NotBridged(sent: Option<nat>)

  /** The media server: absent, or connecting the caller fails with or without a response sent, or it works. */
  datatype Media = Absent | NotConnected(sent: Option<nat>) | Played(saved: bool)

  datatype Outcomes = Outcomes(device: Device, forwarded: Forwarded, pstn: Pstn, media: Media)

  datatype Reason = Busy | NoAnswer | Offline

  /** How the routing classifies the device's failure. */
  datatype Failure = Declined | RangOut | Cancelled | NotThere | Unexpected

  function Classified(status: nat, saysTimeout: bool): Failure {
    if status == BUSY_HERE || status == DECLINE then Declined
    else if status == REQUEST_TIMEOUT || saysTimeout then RangOut
    else if status == REQUEST_TERMINATED then Cancelled
    else if status in {TEMPORARILY_UNAVAILABLE, GONE, NOT_FOUND, SERVICE_UNAVAILABLE, SERVER_ERROR, 0} then NotThere
    else Unexpected
  }

  /** What the caller has got and what has been recorded, in order. */
  datatype Result = Result(responses: seq<nat>, statuses: seq<CallStatus>) {
    /** An unguarded final response. */
    function Send(code: nat): Result {
      this.(responses := responses + [code])
    }

    /** A final response only while none has gone out: a guarded send, or the library's. */
    function SendIfOpen(code: nat): Result {
      if responses == [] then this.(responses := [code]) else this
    }

    /** What a library leg sends, if it sends anything. */
    function LegSent(code: Option<nat>): Result {
      if code.Some? then SendIfOpen(code.value) else this
    }

    function Record(status: CallStatus): Result {
      this.(statuses := statuses + [status])
    }
  }

  /** A fresh INVITE. */
  const UNANSWERED: Result := Result([], [])

  // ----- what each stage comes to, whatever has been sent before it -----

  function ViaTrunk(r: Result, enabled: bool, pstn: Pstn): Result {
    if !enabled || pstn.NoLeg? then r.Send(SERVICE_UNAVAILABLE)
    else if pstn.Bridged? then r.SendIfOpen(OK)
    else r.LegSent(pstn.sent).Send(SERVICE_UNAVAILABLE)
  }

  function ViaMedia(r: Result, media: Media): Result {
    match media
    case Absent => r.SendIfOpen(TEMPORARILY_UNAVAILABLE)
    case NotConnected(sent) => r.LegSent(sent).SendIfOpen(TEMPORARILY_UNAVAILABLE)
    case Played(_) => r.SendIfOpen(OK)
  }

  function ViaForward(r: Result, target: Target, cfg: Config, o: Outcomes): Result {
    if !target.registered && target.hasMobile && cfg.trunkEnabled then
      ViaTrunk(r, true, o.pstn).Record(if o.pstn.Bridged? then Answered else Failed)
    else if !target.registered then r.Record(Missed).SendIfOpen(TEMPORARILY_UNAVAILABLE)
    else
      match o.forwarded
      case Taken => r.SendIfOpen(OK).Record(Answered)
      case NotTaken(relayed) => r.LegSent(relayed).Record(Failed).SendIfOpen(SERVICE_UNAVAILABLE)
  }

  function Unreached(r: Result, reason: Reason, cfg: Config, o: Outcomes): Result {
    if cfg.hasMobile && cfg.trunkEnabled then
      ViaTrunk(r, true, o.pstn).Record(if o.pstn.Bridged? then Answered else Unreachable)
    else if cfg.onUnavailable.Some? then ViaForward(r, cfg.onUnavailable.value, cfg, o)
    else
      var status := if reason.Offline? then Unreachable else Missed;
      if !cfg.hasMedia then r.Record(status).SendIfOpen(TEMPORARILY_UNAVAILABLE)
      else if reason.Offline? && cfg.voicemailEnabled && o.media == Played(true) then r.SendIfOpen(OK).Record(Voicemail)
      else ViaMedia(r, o.media).Record(status)
  }

  function AfterFailure(r: Result, failure: Failure, cfg: Config, o: Outcomes): Result {
    match failure
    case Declined =>
      if cfg.onBusy.Some? then ViaForward(r, cfg.onBusy.value, cfg, o) else Unreached(r, Busy, cfg, o)
    case RangOut =>
      if cfg.onNoAnswer.Some? then ViaForward(r, cfg.onNoAnswer.value, cfg, o) else Unreached(r, NoAnswer, cfg, o)
    case Cancelled => r.Record(Missed)
    case NotThere => Unreached(r, Offline, cfg, o)
    case Unexpected => r.Record(Missed).SendIfOpen(SERVICE_UNAVAILABLE)
  }

  function Routed(r: Result, cfg: Config, o: Outcomes): Result {
    if cfg.blocked then r.Record(Missed).Send(DECLINE)
    else
      match o.device
      case Picked => r.SendIfOpen(OK).Record(Answered)
      case Rejected(status, saysTimeout, sent) =>
        AfterFailure(r.LegSent(sent), Classified(status, saysTimeout), cfg, o)
  }

  /** Do not disturb: voicemail if there is any, else a silent 480. */
  function Silenced(r: Result, cfg: Config, o: Outcomes): Result {
    if cfg.voicemailEnabled && cfg.hasMedia then
      ViaMedia(r, o.media).Record(if o.media == Played(true) then Voicemail else Missed)
    else r.Record(Missed).SendIfOpen(TEMPORARILY_UNAVAILABLE)
  }

  class Invite {
    var responses: seq<nat>
    var statuses: seq<CallStatus>

    ghost function Model(): Result
      reads this
    {
      Result(responses, statuses)
    }

    constructor ()
      ensures Model() == UNANSWERED
    {
      responses, statuses := [], [];
    }

    /** `res.send` of a final response. */
    method Send(code: nat)
      modifies this`responses
      ensures Model() == old(Model()).Send(code)
    {
      responses := responses + [code];
    }

    /** Nothing when a final response has already gone out (`finalResponseSent`). */
    method SendIfOpen(code: nat)
      modifies this`responses
      ensures Model() == old(Model()).SendIfOpen(code)
    {
      if responses == [] {
        responses := [code];
      }
    }

    /** The library answers or rejects the caller's INVITE, while that is open. */
    method LegSends(code: Option<nat>)
      modifies this`responses
      ensures Model() == old(Model()).LegSent(code)
    {
      if code.Some? {
        SendIfOpen(code.value);
      }
    }

    method UpdateStatus(status: CallStatus)
      modifies this`statuses
      ensures Model() == old(Model()).Record(status)
    {
      statuses := statuses + [status];
    }

    /** The trunk service's `routeCall`: its failure response is not guarded. */
    method RouteViaTrunk(enabled: bool, pstn: Pstn) returns (ok: bool)
      modifies this`responses
      ensures Model() == ViaTrunk(old(Model()), enabled, pstn)
      ensures ok <==> enabled && pstn.Bridged?
    {
      if !enabled {
        Send(SERVICE_UNAVAILABLE);
        return false;
      }
      match pstn
      case NoLeg =>
        Send(SERVICE_UNAVAILABLE);
        return false;
      case Bridged =>
        LegSends(Some(OK));
        return true;
      case NotBridged(sent) =>
        LegSends(sent);
        Send(SERVICE_UNAVAILABLE);
        return false;
    }

    method RecordVoicemail(enabled: bool, media: Media) returns (saved: bool)
      modifies this`responses
      ensures Model() == if enabled then ViaMedia(old(Model()), media) else old(Model())
      ensures saved <==> enabled && media == Played(true)
    {
      if !enabled {
        return false;
      }
      match media
      case Absent =>
        SendIfOpen(TEMPORARILY_UNAVAILABLE);
        return false;
      case NotConnected(sent) =>
        LegSends(sent);
        SendIfOpen(TEMPORARILY_UNAVAILABLE);
        return false;
      case Played(done) =>
        LegSends(Some(OK));
        return done;
    }

    method PlayUnavailable(media: Media)
      modifies this`responses
      ensures Model() == ViaMedia(old(Model()), media)
    {
      match media
      case Absent =>
        SendIfOpen(TEMPORARILY_UNAVAILABLE);
      case NotConnected(sent) =>
        LegSends(sent);
        SendIfOpen(TEMPORARILY_UNAVAILABLE);
      case Played(_) =>
        LegSends(Some(OK));
    }

    method ForwardCall(target: Target, cfg: Config, o: Outcomes)
      modifies this
      ensures Model() == ViaForward(old(Model()), target, cfg, o)
    {
      if !target.registered {
        if target.hasMobile && cfg.trunkEnabled {
          var ok := RouteViaTrunk(cfg.trunkEnabled, o.pstn);
          UpdateStatus(if ok then Answered else Failed);
          return;
        }
        UpdateStatus(Missed);
        SendIfOpen(TEMPORARILY_UNAVAILABLE);
        return;
      }
      match o.forwarded
      case Taken =>
        LegSends(Some(OK));
        UpdateStatus(Answered);
      case NotTaken(relayed) =>
        LegSends(relayed);
        UpdateStatus(Failed);
        SendIfOpen(SERVICE_UNAVAILABLE);
    }

    method RouteUnreachable(reason: Reason, cfg: Config, o: Outcomes)
      modifies this
      ensures Model() == Unreached(old(Model()), reason, cfg, o)
    {
      if cfg.hasMobile && cfg.trunkEnabled {
        var ok := RouteViaTrunk(cfg.trunkEnabled, o.pstn);
        UpdateStatus(if ok then Answered else Unreachable);
        return;
      }
      if cfg.onUnavailable.Some? {
        ForwardCall(cfg.onUnavailable.value, cfg, o);
        return;
      }
      if reason == Offline && cfg.voicemailEnabled && cfg.hasMedia {
        var saved := RecordVoicemail(cfg.voicemailEnabled, o.media);
        UpdateStatus(if saved then Voicemail else Unreachable);
        return;
      }
      if cfg.hasMedia {
        PlayUnavailable(o.media);
        UpdateStatus(if reason == Offline then Unreachable else Missed);
        return;
      }
      UpdateStatus(if reason == Offline then Unreachable else Missed);
      SendIfOpen(TEMPORARILY_UNAVAILABLE);
    }

    method RouteDoNotDisturb(cfg: Config, o: Outcomes)
      modifies this
      ensures Model() == Silenced(old(Model()), cfg, o)
    {
      if cfg.voicemailEnabled && cfg.hasMedia {
        var saved := RecordVoicemail(cfg.voicemailEnabled, o.media);
        UpdateStatus(if saved then Voicemail else Missed);
        return;
      }
      UpdateStatus(Missed);
      SendIfOpen(TEMPORARILY_UNAVAILABLE);
    }

    /** The `catch` branch of `routeToExtension`: the device did not take the call. */
    method RouteRejected(status: nat, saysTimeout: bool, cfg: Config, o: Outcomes)
      modifies this
      ensures Model() == AfterFailure(old(Model()), Classified(status, saysTimeout), cfg, o)
    {
      if status == BUSY_HERE || status == DECLINE {
        if cfg.onBusy.Some? {
          ForwardCall(cfg.onBusy.value, cfg, o);
        } else {
          RouteUnreachable(Busy, cfg, o);
        }
      } else if status == REQUEST_TIMEOUT || saysTimeout {
        if cfg.onNoAnswer.Some? {
          ForwardCall(cfg.onNoAnswer.value, cfg, o);
        } else {
          RouteUnreachable(NoAnswer, cfg, o);
        }
      } else if status == REQUEST_TERMINATED {
        UpdateStatus(Missed);
      } else if status == TEMPORARILY_UNAVAILABLE || status == GONE || status == NOT_FOUND
             || status == SERVICE_UNAVAILABLE || status == SERVER_ERROR || status == 0 {
        RouteUnreachable(Offline, cfg, o);
      } else {
        UpdateStatus(Missed);
        SendIfOpen(SERVICE_UNAVAILABLE);
      }
    }

    /** The whole chain; `RoutedAnswersOnce` says what it amounts to for a fresh INVITE. */
    method RouteToExtension(cfg: Config, o: Outcomes)
      modifies this
      ensures Model() == Routed(old(Model()), cfg, o)
    {
      if cfg.blocked {
        UpdateStatus(Missed);
        Send(DECLINE);
        return;
      }
      match o.device
      case Picked =>
        LegSends(Some(OK));
        UpdateStatus(Answered);
      case Rejected(status, saysTimeout, sent) =>
        LegSends(sent);
        RouteRejected(status, saysTimeout, cfg, o);
    }
  }

  // ----- the reference table, read off configuration, SIP codes and outcomes alone -----

  predicate SaysBusy(status: nat) {
    status == 486 || status == 603
  }

  predicate SaysNoAnswer(status: nat, saysTimeout: bool) {
    (status == 408 || saysTimeout) && !SaysBusy(status)
  }

  predicate SaysCancelled(status: nat, saysTimeout: bool) {
    status == 487 && !saysTimeout
  }

  predicate SaysAbsent(status: nat, saysTimeout: bool) {
    status in {0, 404, 410, 480, 500, 503} && !saysTimeout
  }

  /** The callee could not be had, one way or the other, so the chain goes on without the device. */
  predicate GoesOn(status: nat, saysTimeout: bool) {
    SaysBusy(status) || SaysNoAnswer(status, saysTimeout) || SaysAbsent(status, saysTimeout)
  }

  /** The forward rule that decides the call, if one does. */
  function ForwardRule(cfg: Config, status: nat, saysTimeout: bool): Option<Target> {
    if SaysBusy(status) && cfg.onBusy.Some? then cfg.onBusy
    else if SaysNoAnswer(status, saysTimeout) && cfg.onNoAnswer.Some? then cfg.onNoAnswer
    else if GoesOn(status, saysTimeout) && !(cfg.hasMobile && cfg.trunkEnabled) then cfg.onUnavailable
    else None
  }

  /** The PSTN is tried: the callee's own mobile, or the mobile of an unregistered forward target. */
  predicate PstnTried(cfg: Config, status: nat, saysTimeout: bool) {
    && cfg.trunkEnabled
    && var rule := ForwardRule(cfg, status, saysTimeout);
       if rule.Some? then !rule.value.registered && rule.value.hasMobile
       else GoesOn(status, saysTimeout) && cfg.hasMobile
  }

  /** Somebody else picks up: a forward target, or a mobile over the PSTN. */
  predicate AnsweredElsewhere(cfg: Config, status: nat, saysTimeout: bool, o: Outcomes) {
    || (PstnTried(cfg, status, saysTimeout) && o.pstn.Bridged?)
    || (var rule := ForwardRule(cfg, status, saysTimeout); rule.Some? && rule.value.registered && o.forwarded.Taken?)
  }

  /** A message is left: only for an absent device with no other way to reach the callee. */
  predicate MessageLeft(cfg: Config, status: nat, saysTimeout: bool, o: Outcomes) {
    && SaysAbsent(status, saysTimeout) && !(cfg.hasMobile && cfg.trunkEnabled) && cfg.onUnavailable.None?
    && cfg.voicemailEnabled && cfg.hasMedia && o.media == Played(true)
  }

  /** The status of a call that the device did not take. */
  function StatusAfter(cfg: Config, status: nat, saysTimeout: bool, o: Outcomes): CallStatus {
    var rule := ForwardRule(cfg, status, saysTimeout);
    if AnsweredElsewhere(cfg, status, saysTimeout, o) then Answered
    else if MessageLeft(cfg, status, saysTimeout, o) then Voicemail
    else if rule.Some? then (if rule.value.registered || PstnTried(cfg, status, saysTimeout) then Failed else Missed)
    else if SaysAbsent(status, saysTimeout) || PstnTried(cfg, status, saysTimeout) then Unreachable
    else Missed
  }

  function OrElse(sent: Option<nat>, code: nat): nat {
    if sent.Some? then sent.value else code
  }

  /** The first response from trying the PSTN. */
  function PstnCode(pstn: Pstn): nat {
    match pstn
    case NoLeg => 503
    case Bridged => 200
    case NotBridged(sent) => OrElse(sent, 503)
  }

  function ForwardCode(target: Target, cfg: Config, o: Outcomes): nat {
    if !target.registered then (if target.hasMobile && cfg.trunkEnabled then PstnCode(o.pstn) else 480)
    else if o.forwarded.Taken? then 200
    else OrElse(o.forwarded.relayed, 503)
  }

  /** The response of voicemail or of an announcement. */
  function MediaCode(media: Media): nat {
    match media
    case Absent => 480
    case NotConnected(sent) => OrElse(sent, 480)
    case Played(_) => 200
  }

  /** The first response to a caller whom the device leg did not answer. */
  function CodeAfter(cfg: Config, status: nat, saysTimeout: bool, o: Outcomes): nat {
    var rule := ForwardRule(cfg, status, saysTimeout);
    if rule.Some? then ForwardCode(rule.value, cfg, o)
    else if !GoesOn(status, saysTimeout) then 503
    else if cfg.hasMobile && cfg.trunkEnabled then PstnCode(o.pstn)
    else if cfg.hasMedia then MediaCode(o.media)
    else 480
  }

  function FinalStatus(cfg: Config, o: Outcomes): CallStatus {
    if cfg.blocked then Missed
    else
      match o.device
      case Picked => Answered
      case Rejected(status, saysTimeout, _) => StatusAfter(cfg, status, saysTimeout, o)
  }

  /** The first final response the caller gets, if any. */
  function FirstResponse(cfg: Config, o: Outcomes): Option<nat> {
    if cfg.blocked then Some(603)
    else
      match o.device
      case Picked => Some(200)
      case Rejected(status, saysTimeout, sent) =>
        if sent.Some? then sent
        else if SaysCancelled(status, saysTimeout) then None
        else Some(CodeAfter(cfg, status, saysTimeout, o))
  }

  /** A vain PSTN attempt sends its 503 on top of a response from before it or from answering the caller. */
  predicate SentAgain(before: bool, pstn: bool, o: Outcomes) {
    pstn && !o.pstn.Bridged? && (before || (o.pstn.NotBridged? && o.pstn.sent.Some?))
  }

  /** A second final response goes out. */
  predicate AnsweredTwice(cfg: Config, o: Outcomes) {
    && !cfg.blocked && o.device.Rejected?
    && SentAgain(o.device.sent.Some?, PstnTried(cfg, o.device.status, o.device.saysTimeout), o)
  }

  // ----- the chain against the table -----

  /** What a stage adds: one status, a response if there is none, and a 503 on top only after a vain PSTN attempt. */
  predicate Adds(before: Result, after: Result, status: CallStatus, code: nat, pstn: bool, o: Outcomes) {
    && after.statuses == before.statuses + [status]
    && after.responses == (if before.responses == [] then [code] else before.responses) +
                          (if SentAgain(before.responses != [], pstn, o) then [503] else [])
  }

  /** A forward settles the call alone. */
  lemma ForwardSettles(r: Result, target: Target, cfg: Config, o: Outcomes)
    ensures var pstn := !target.registered && target.hasMobile && cfg.trunkEnabled;
      var status :=
        if (target.registered && o.forwarded.Taken?) || (pstn && o.pstn.Bridged?) then Answered
        else if target.registered || pstn then Failed
        else Missed;
      Adds(r, ViaForward(r, target, cfg, o), status, ForwardCode(target, cfg, o), pstn, o)
  {
  }

  /** The last resort, when no forward rule on unavailability decides. */
  lemma UnreachedSettles(r: Result, reason: Reason, cfg: Config, o: Outcomes)
    requires cfg.onUnavailable.None? || (cfg.hasMobile && cfg.trunkEnabled)
    ensures var pstn := cfg.hasMobile && cfg.trunkEnabled;
      var status :=
        if pstn then (if o.pstn.Bridged? then Answered else Unreachable)
        else if !reason.Offline? then Missed
        else if cfg.voicemailEnabled && cfg.hasMedia && o.media == Played(true) then Voicemail
        else Unreachable;
      var code := if pstn then PstnCode(o.pstn) else if cfg.hasMedia then MediaCode(o.media) else 480;
      Adds(r, Unreached(r, reason, cfg, o), status, code, pstn, o)
  {
  }

  /** Whatever the device said, unless the caller hung up, the chain settles the call as the table says. */
  lemma FailureSettles(r: Result, status: nat, saysTimeout: bool, cfg: Config, o: Outcomes)
    requires !SaysCancelled(status, saysTimeout)
    ensures Adds(r, AfterFailure(r, Classified(status, saysTimeout), cfg, o), StatusAfter(cfg, status, saysTimeout, o),
                 CodeAfter(cfg, status, saysTimeout, o), PstnTried(cfg, status, saysTimeout), o)
  {
    var rule := ForwardRule(cfg, status, saysTimeout);
    if rule.Some? {
      ForwardSettles(r, rule.value, cfg, o);
    } else if SaysBusy(status) {
      UnreachedSettles(r, Busy, cfg, o);
    } else if SaysNoAnswer(status, saysTimeout) {
      UnreachedSettles(r, NoAnswer, cfg, o);
    } else if SaysAbsent(status, saysTimeout) {
      UnreachedSettles(r, Offline, cfg, o);
    }
  }

  /**
   * Every INVITE to an extension, whatever is configured and whatever happens:
   * one status is recorded and one response goes out, the ones the table gives;
   * no response goes out exactly when the caller hung up and the library sent
   * nothing; and a second one, a 503, exactly when the PSTN is tried in vain
   * after a first.
   */
  lemma RoutedAnswersOnce(cfg: Config, o: Outcomes)
    ensures var r := Routed(UNANSWERED, cfg, o);
      var first := FirstResponse(cfg, o);
      && r.statuses == [FinalStatus(cfg, o)]
      && r.responses == (if first.Some? then [first.value] else []) + (if AnsweredTwice(cfg, o) then [503] else [])
      && (AnsweredTwice(cfg, o) ==> first.Some?)
  {
    if !cfg.blocked && o.device.Rejected? && !SaysCancelled(o.device.status, o.device.saysTimeout) {
      FailureSettles(UNANSWERED.LegSent(o.device.sent), o.device.status, o.device.saysTimeout, cfg, o);
    }
  }

  /** The promise of a single final response is not kept: the PSTN attempt answers again, in both ways. */
  lemma TwoFinalResponses(cfg: Config, o: Outcomes, sent: nat)
    requires !cfg.blocked && o.device.Rejected? && o.device.status == 0 && !o.device.saysTimeout
    requires cfg.hasMobile && cfg.trunkEnabled
    ensures o.device.sent == Some(sent) && o.pstn == NoLeg ==> Routed(UNANSWERED, cfg, o).responses == [sent, 503]
    ensures o.device.sent == None && o.pstn == NotBridged(Some(sent)) ==>
      Routed(UNANSWERED, cfg, o).responses == [sent, 503]
  {
    RoutedAnswersOnce(cfg, o);
  }

  /** A message is what is recorded exactly when the device is absent by its SIP code and nothing else was left to try. */
  lemma VoicemailOnlyWhenAbsent(cfg: Config, o: Outcomes)
    ensures Voicemail in Routed(UNANSWERED, cfg, o).statuses <==>
      !cfg.blocked && o.device.Rejected? && MessageLeft(cfg, o.device.status, o.device.saysTimeout, o)
  {
    RoutedAnswersOnce(cfg, o);
  }

  /** A busy, declining or unanswered device, and a caller who hung up, never end with voicemail. */
  lemma ReachedDeviceNeverVoicemail(cfg: Config, o: Outcomes)
    requires o.device.Rejected? && (o.device.status in {486, 603, 408, 487} || o.device.saysTimeout)
    ensures Voicemail !in Routed(UNANSWERED, cfg, o).statuses
  {
    RoutedAnswersOnce(cfg, o);
  }

  /** Busy or declined goes by the busy rule, unanswered by the no-answer rule, before anything else is looked at. */
  lemma OwnRuleDecides(cfg: Config, o: Outcomes, target: Target)
    requires !cfg.blocked && o.device.Rejected?
    requires var status := o.device.status;
      || (status in {486, 603} && cfg.onBusy == Some(target))
      || ((status == 408 || o.device.saysTimeout) && status !in {486, 603} && cfg.onNoAnswer == Some(target))
    ensures target.registered && o.forwarded.Taken? ==> Routed(UNANSWERED, cfg, o).statuses == [Answered]
    ensures target.registered && o.forwarded.NotTaken? ==> Routed(UNANSWERED, cfg, o).statuses == [Failed]
    ensures !target.registered && !(target.hasMobile && cfg.trunkEnabled) ==>
      Routed(UNANSWERED, cfg, o).statuses == [Missed]
  {
    RoutedAnswersOnce(cfg, o);
  }

  /** Do not disturb: one response and one status, voicemail exactly when a message was saved. */
  lemma SilencedAnswersOnce(cfg: Config, o: Outcomes)
    ensures var r := Silenced(UNANSWERED, cfg, o);
      var tried := cfg.voicemailEnabled && cfg.hasMedia;
      && r.responses == [if tried then MediaCode(o.media) else 480]
      && r.statuses == [if tried && o.media == Played(true) then Voicemail else Missed]
  {
  }
}
