/**
 The custody protocol of one destination agent (h-app/core/channels.py and the retirement script
 of h-app/lib/agentlifecycle/lifecycle.py) as a transition system.

 One event is one Redis command or script, or one step a process takes between two commands.
 Events of any number of port processes, of senders, of the retirement script and of the switch's
 retention pass interleave freely. No delivery lease appears anywhere in this file.
 */
module Custody {
  import opened Prelude

  const OPENED_RECEIPT_MAX: nat := 1000

  /** How parse(raw) ends: it returns, it raises EnvelopeError, or it raises anything else. */
  datatype Verdict = Accepted | Refused | Broken

  /** What a port process is built from: which frames parse, which kinds have an opener. */
  datatype Config = Config(
    judges: Raw -> Verdict,
    opens: Raw -> bool,     // openers.get(envelope["kind"]) is not None
    decodes: Raw -> bool,   // raw.decode() does not raise
    answerable: Raw -> bool) // envelope.get("l2", {}).get("source") does not raise
  {
    predicate Accepts(raw: Raw) { judges(raw).Accepted? }

    predicate Breaks(raw: Raw) { judges(raw).Broken? }

    /** Telling the sender of a dead letter starts outside its own try. */
    function AfterNotice(raw: Raw): Pc { if answerable(raw) then Claim else Gone }
  }

  datatype Tagged<+T> = Tagged(tag: T, raw: Raw)

  /** Why a record is in the tenant's `unresolved` list. */
  datatype Doubt = OpenerFailed | ProcessExited | RetiredWhileOpening

  /** Why a frame is in the agent's `dead` list. */
  datatype Cause = RefusedUnopened | OpenerRefused | RefusedBySwitch

  /** How far one entry into `opening` has got. */
  datatype Stage =
    | Waiting        // in opening, opener not called yet
    | Started        // opener called
    | SaidOpened | SaidDead | SaidFailed             // opener returned / raised DeadLetter / raised
    | RecordedOpened | RecordedDead | RecordedFailed // and that outcome was recorded

  /** The Redis lists holding this agent's custody. */
  datatype Lists = Lists(
    ingress: seq<Raw>, processing: seq<Raw>, opening: seq<Raw>,
    dead: seq<Raw>, receipts: seq<Raw>,
    unresolved: seq<Tagged<Doubt>>, undeliverable: seq<Raw>)

  /** Where one port process stands inside `receive`. */
  datatype Pc =
    | Sweep                            // about to read the head of opening
    | Surface(raw: Raw)                // about to move that head to unresolved
    | Recover                          // about to read the head of processing
    | Claim                            // about to move the head of ingress to processing
    | Hold(raw: Raw)                   // holds a claimed frame, about to judge and move it
    | Entered(raw: Raw, ticket: nat)   // moved to opening, about to call the opener
    | Running(raw: Raw, ticket: nat)   // inside the opener
    | ToOpened(raw: Raw, ticket: nat)
    | ToDead(raw: Raw, ticket: nat)
    | ToUnresolved(raw: Raw, ticket: nat)
    | Done                             // receive returned
    | Gone                             // receive raised, or the process died
  {
    predicate HasTicket() { Entered? || Running? || ToOpened? || ToDead? || ToUnresolved? }
    predicate Live() { !Done? && !Gone? }
  }

  /** How a call of an opener ends. */
  datatype Outcome = Returns | RaisesDeadLetter | RaisesOther

  datatype Event =
    | Admit(raw: Raw)              // the switch admits one copy to ingress
    | Spawn(port: nat)             // a new port process starts receive
    | Act(port: nat, outcome: Outcome) // a port process takes its next step
    | Crash(port: nat)             // a port process dies, or its command's reply is lost
    | Retire                       // the retirement script runs
    | SwitchDead(raw: Raw)         // the switch dead-letters a frame this agent sent
    | TrimDead(cap: nat)           // the retention pass

  /** The lists, every process, and the logs of what happened so far. */
  datatype Sys = Sys(
    lists: Lists, ports: map<nat, Pc>,
    admitted: seq<Raw>,            // every copy ever put in ingress, in order
    entries: seq<Tagged<Stage>>,   // every move from processing to opening, in order
    started: seq<Raw>,             // every opener call, in order
    deadLog: seq<Tagged<Cause>>,   // everything ever put in dead
    openedLog: seq<Raw>)           // everything ever put in opened

  const INITIAL := Sys(Lists([], [], [], [], [], [], []), map[], [], [], [], [], [])

  function At(s: Sys, p: nat, pc: Pc): Sys { s.(ports := s.ports[p := pc]) }

  function SetStage(entries: seq<Tagged<Stage>>, k: nat, stage: Stage): seq<Tagged<Stage>> {
    if k < |entries| then entries[k := entries[k].(tag := stage)] else entries
  }

  function ToDeadList(s: Sys, raw: Raw, cause: Cause): Sys {
    s.(lists := s.lists.(dead := s.lists.dead + [raw]), deadLog := s.deadLog + [Tagged(cause, raw)])
  }

  /** LREM opening 1 raw, after it was found there. */
  function TakeOpening(s: Sys, raw: Raw): Sys {
    s.(lists := s.lists.(opening := RemoveFirst(s.lists.opening, raw)))
  }

  function TakeProcessing(s: Sys, raw: Raw): Sys {
    s.(lists := s.lists.(processing := RemoveFirst(s.lists.processing, raw)))
  }

  function EnterOpening(s: Sys, raw: Raw): Sys {
    s.(lists := s.lists.(opening := s.lists.opening + [raw]), entries := s.entries + [Tagged(Waiting, raw)])
  }

  /** LMOVE ingress processing LEFT RIGHT on a non-empty ingress. */
  function ClaimHead(s: Sys): Sys
    requires s.lists.ingress != []
  {
    var l := s.lists;
    s.(lists := l.(ingress := l.ingress[1..], processing := l.processing + [l.ingress[0]]))
  }

  function CallOpener(s: Sys, raw: Raw, k: nat): Sys {
    s.(entries := SetStage(s.entries, k, Started), started := s.started + [raw])
  }

  function ToUnresolvedList(s: Sys, raw: Raw, doubt: Doubt): Sys {
    s.(lists := s.lists.(unresolved := s.lists.unresolved + [Tagged(doubt, raw)]))
  }

  function ToOpenedList(s: Sys, raw: Raw): Sys {
    s.(lists := s.lists.(receipts := KeepLast(s.lists.receipts + [raw], OPENED_RECEIPT_MAX)),
       openedLog := s.openedLog + [raw])
  }

  /** _open_received up to its first transfer: processing to dead, or processing to opening. */
  function Judge(cfg: Config, s: Sys, p: nat, raw: Raw): Sys {
    if cfg.Breaks(raw) || raw !in s.lists.processing then At(s, p, Gone)
    else
      var taken := TakeProcessing(s, raw);
      if !cfg.Accepts(raw) then
        At(ToDeadList(taken, raw, RefusedUnopened), p, Claim)
      else if !cfg.opens(raw) then
        At(ToDeadList(taken, raw, RefusedUnopened), p, cfg.AfterNotice(raw))
      else
        At(EnterOpening(taken, raw), p, Entered(raw, |s.entries|))
  }

  function FinishOpener(s: Sys, p: nat, raw: Raw, k: nat, outcome: Outcome): Sys {
    match outcome
    case Returns => At(s.(entries := SetStage(s.entries, k, SaidOpened)), p, ToOpened(raw, k))
    case RaisesDeadLetter => At(s.(entries := SetStage(s.entries, k, SaidDead)), p, ToDead(raw, k))
    case RaisesOther => At(s.(entries := SetStage(s.entries, k, SaidFailed)), p, ToUnresolved(raw, k))
  }

  /** The transfer that records an opener's outcome; a transfer that moves nothing raises. */
  function Record(cfg: Config, s: Sys, p: nat): Sys
    requires p in s.ports
    requires s.ports[p].ToOpened? || s.ports[p].ToDead? || s.ports[p].ToUnresolved?
  {
    var raw, k := s.ports[p].raw, s.ports[p].ticket;
    if raw !in s.lists.opening then At(s, p, Gone)
    else
      var taken := TakeOpening(s, raw);
      match s.ports[p]
      case ToOpened(_, _) =>
        At(ToOpenedList(taken, raw).(entries := SetStage(s.entries, k, RecordedOpened)), p, Claim)
      case ToDead(_, _) =>
        At(ToDeadList(taken, raw, OpenerRefused).(entries := SetStage(s.entries, k, RecordedDead)), p, cfg.AfterNotice(raw))
      case ToUnresolved(_, _) =>
        if !cfg.decodes(raw) then At(s, p, Gone)
        else At(ToUnresolvedList(taken, raw, OpenerFailed).(entries := SetStage(s.entries, k, RecordedFailed)), p, Claim)
  }

  function SweepStep(cfg: Config, s: Sys, p: nat): Sys {
    if s.lists.opening == [] then At(s, p, Recover)
    else if !cfg.decodes(s.lists.opening[0]) then At(s, p, Gone)
    else At(s, p, Surface(s.lists.opening[0]))
  }

  /** After the move the frame is parsed once more, for its record in the log. */
  function SurfaceStep(cfg: Config, s: Sys, p: nat, raw: Raw): Sys {
    if raw !in s.lists.opening then At(s, p, Gone)
    else At(ToUnresolvedList(TakeOpening(s, raw), raw, ProcessExited), p, if cfg.Breaks(raw) then Gone else Sweep)
  }

  function ClaimStep(s: Sys, p: nat): Sys {
    if s.lists.ingress == [] then At(s, p, Done)
    else At(ClaimHead(s), p, Hold(s.lists.ingress[0]))
  }

  /** One step of port process `p`. */
  function ActStep(cfg: Config, s: Sys, p: nat, outcome: Outcome): Sys
    requires p in s.ports
  {
    match s.ports[p]
    case Sweep => SweepStep(cfg, s, p)
    case Surface(raw) => SurfaceStep(cfg, s, p, raw)
    case Recover => At(s, p, if s.lists.processing == [] then Claim else Hold(s.lists.processing[0]))
    case Claim => ClaimStep(s, p)
    case Hold(raw) => Judge(cfg, s, p, raw)
    case Entered(raw, k) => At(CallOpener(s, raw, k), p, Running(raw, k))
    case Running(raw, k) => FinishOpener(s, p, raw, k, outcome)
    case Done => s
    case Gone => s
    case _ => Record(cfg, s, p)
  }

  function Doubted(raws: seq<Raw>): seq<Tagged<Doubt>> {
    seq(|raws|, i requires 0 <= i < |raws| => Tagged(RetiredWhileOpening, raws[i]))
  }

  /** The custody part of _REMOVE_MEMBERSHIP_AND_OWN_LEAD_LUA. */
  function RetireLists(l: Lists): Lists {
    l.(undeliverable := l.undeliverable + l.processing + l.ingress,
       unresolved := l.unresolved + Doubted(l.opening),
       processing := [], opening := [], ingress := [])
  }

  function Step(cfg: Config, s: Sys, e: Event): Sys {
    match e
    case Admit(raw) =>
      s.(lists := s.lists.(ingress := s.lists.ingress + [raw]), admitted := s.admitted + [raw])
    case Spawn(p) => if p in s.ports then s else At(s, p, Sweep)
    case Act(p, outcome) => if p in s.ports then ActStep(cfg, s, p, outcome) else s
    case Crash(p) => if p in s.ports then At(s, p, Gone) else s
    case Retire => s.(lists := RetireLists(s.lists))
    case SwitchDead(raw) => ToDeadList(s, raw, RefusedBySwitch)
    case TrimDead(cap) => s.(lists := s.lists.(dead := KeepLast(s.lists.dead, cap)))
  }

  function RunFrom(cfg: Config, s: Sys, events: seq<Event>): Sys
    decreases |events|
  {
    if events == [] then s
    else Step(cfg, RunFrom(cfg, s, events[..|events| - 1]), events[|events| - 1])
  }

  /** The state after `events`, from an office in which nothing has happened yet. */
  function Run(cfg: Config, events: seq<Event>): Sys { RunFrom(cfg, INITIAL, events) }

  lemma RunExtend(cfg: Config, events: seq<Event>, e: Event)
    ensures Run(cfg, events + [e]) == Step(cfg, Run(cfg, events), e)
  {
    assert (events + [e])[..|events|] == events;
  }
}
