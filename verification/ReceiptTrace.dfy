/** The trace script of h-app/core/receipts.py and the word it is summed up in. */
module ReceiptTrace {
  import opened Prelude
  import opened RedisStore
  import opened Scripts
  import opened Receipts
  import C = Custody

  /** How a key is scanned: raw frames, custody records, or an api inbox. */
  datatype Kind = RawList | RecordList | InboxStream

  datatype Scan = Scan(key: Key, kind: Kind)

  /** What head_matches looks at in a custody record; hex evidence is decoded for its first 66 digits only. */
  function RecordedHead(x: Item): Option<Raw> {
    match x
    case Json(CustodyRecord(_, _, hex)) => Some(Unhex(if |hex| <= 66 then hex else hex[..66]))
    case Json(OpeningRecord(_, _, raw)) => Some(raw)
    case _ => None
  }

  predicate Starts(text: Raw, i: nat, needle: Raw) { i + |needle| <= |text| && text[i..i + |needle|] == needle }

  /** string.find with plain matching. */
  predicate Contains(text: Raw, needle: Raw) { exists i :: 0 <= i <= |text| && Starts(text, i, needle) }

  predicate RawHit(x: Item, id: Raw) { x.Frame? && IdOf(x.raw) == id }

  predicate RecordHit(x: Item, id: Raw) { RecordedHead(x).Some? && IdOf(RecordedHead(x).value) == id }

  predicate EntryHit(e: Entry, needle: Raw) { exists i :: 0 <= i < |e.fields| && Contains(e.fields[i].1, needle) }

  /** A key of the wrong type reads as empty: it must not blind the trace for the others. */
  predicate Hit(db: Store, scan: Scan, id: Raw, needle: Raw) {
    match scan.kind
    case RawList => exists i :: 0 <= i < |Items(db, scan.key)| && RawHit(Items(db, scan.key)[i], id)
    case RecordList => exists i :: 0 <= i < |Items(db, scan.key)| && RecordHit(Items(db, scan.key)[i], id)
    case InboxStream => exists i :: 0 <= i < |Entries(db, scan.key)| && EntryHit(Entries(db, scan.key)[i], needle)
  }

  /** Scan one list, stopping at the first match. */
  method AnyItem(items: seq<Item>, recorded: bool, id: Raw) returns (hit: bool)
    ensures hit <==> exists i :: 0 <= i < |items| && (if recorded then RecordHit(items[i], id) else RawHit(items[i], id))
  {
    for i := 0 to |items|
      invariant forall j :: 0 <= j < i ==> !(if recorded then RecordHit(items[j], id) else RawHit(items[j], id))
    {
      if (if recorded then RecordHit(items[i], id) else RawHit(items[i], id)) { return true; }
    }
    hit := false;
  }

  method AnyEntry(entries: seq<Entry>, needle: Raw) returns (hit: bool)
    ensures hit <==> exists i :: 0 <= i < |entries| && EntryHit(entries[i], needle)
  {
    for i := 0 to |entries|
      invariant forall j :: 0 <= j < i ==> !EntryHit(entries[j], needle)
    {
      for k := 0 to |entries[i].fields|
        invariant forall j :: 0 <= j < k ==> !Contains(entries[i].fields[j].1, needle)
      {
        if Contains(entries[i].fields[k].1, needle) { return true; }
      }
    }
    hit := false;
  }

  /** One key, scanned as its kind says. */
  method ScanKey(db: Store, scan: Scan, id: Raw, needle: Raw) returns (hit: bool)
    ensures hit == Hit(db, scan, id, needle)
  {
    hide RawHit, RecordHit, EntryHit, Items, Entries;
    match scan.kind
    case RawList => hit := AnyItem(Items(db, scan.key), false, id);
    case RecordList => hit := AnyItem(Items(db, scan.key), true, id);
    case InboxStream => hit := AnyEntry(Entries(db, scan.key), needle);
  }

  /** _TRACE: the indexes of every matching key, in order, in one look at the database. */
  method Trace(db: Store, plan: seq<Scan>, id: Raw, needle: Raw) returns (found: seq<nat>)
    ensures forall i: nat :: i in found <==> i < |plan| && Hit(db, plan[i], id, needle)
    ensures forall i, j :: 0 <= i < j < |found| ==> found[i] < found[j]
  {
    hide Hit;
    found := [];
    for n := 0 to |plan|
      invariant forall i: nat :: i in found <==> i < n && Hit(db, plan[i], id, needle)
      invariant forall k :: 0 <= k < |found| ==> found[k] < n
      invariant forall i, j :: 0 <= i < j < |found| ==> found[i] < found[j]
    {
      var hit := ScanKey(db, plan[n], id, needle);
      ghost var before := found;
      if hit { found := found + [n]; }
      assert forall k :: 0 <= k < |found| ==> k < |before| || (hit && found[k] == n);
    }
    forall i: nat | i in found ensures i < |plan| {}
  }

  /** Hex evidence of a frame shows the trace the frame's own id, whatever the frame's length. */
  lemma HexEvidenceIsFound(agent: string, raw: Raw, id: Raw)
    ensures RecordHit(UndeliverableRecord(agent, Frame(raw)), id) <==> IdOf(raw) == id
    ensures RecordHit(UnresolvedRecord(agent, Frame(raw)), id) <==> IdOf(raw) == id
  {
    hide Hex, Unhex;
    UnhexPrefix(raw, 33);
    assert |Hex(raw)| <= 66 <==> |raw| <= 33;
    if |raw| > 33 { assert raw[..33][1..] == raw[1..33]; }
  }

  // ---- one word for the whole trace ----

  datatype State = Queued | Delivering | Delivered | Failed | NotResolved

  datatype Word = Unknown | Agreed(state: State) | Partial

  /** STAGE_STATE */
  function StateOf(place: Place): Option<State> {
    match place
    case AtEgress => Some(Queued)
    case AtIngress => Some(Queued)
    case AtProcessing => Some(Queued)
    case AtOpening => Some(Delivering)
    case Opened => Some(Delivered)
    case Dead => Some(Failed)
    case Bounced => Some(Failed)
    case Undeliverable => Some(Failed)
    case Unresolved => Some(NotResolved)
    case _ => None
  }

  /** overall_state over the states of the located stages. */
  function OverallState(states: seq<State>): Word {
    if states == [] then Unknown
    else if forall i :: 0 <= i < |states| ==> states[i] == states[0] then Agreed(states[0])
    else Partial
  }

  function StatesOf(places: seq<Place>): Option<seq<State>> {
    if places == [] then Some([])
    else
      var head, tail := StateOf(places[0]), StatesOf(places[1..]);
      if head.None? || tail.None? then None else Some([head.value] + tail.value)
  }

  /** A unicast frame's trace is never `partial`, however often its one place is listed. */
  lemma NeverPartial(cfg: C.Config, moves: seq<Move>, places: seq<Place>, id: Raw)
    requires SentOnce(moves, id) && StatesOf(places).Some?
    requires forall i :: 0 <= i < |places| ==> Located(cfg, moves, places[i], id)
    ensures OverallState(StatesOf(places).value) != Partial
  {
    hide Located, SentOnce;
    if places != [] {
      forall i | 0 <= i < |places| ensures places[i] == places[0] {
        OnePlace(cfg, moves, places[i], places[0], id);
      }
      SameStates(places);
    }
  }

  lemma {:induction false} SameStates(places: seq<Place>)
    requires places != [] && StatesOf(places).Some? && forall i :: 0 <= i < |places| ==> places[i] == places[0]
    ensures |StatesOf(places).value| == |places|
    ensures forall i :: 0 <= i < |places| ==> StatesOf(places).value[i] == StateOf(places[0]).value
    decreases |places|
  {
    if |places| > 1 { SameStates(places[1..]); }
  }

  function Progress(s: State): nat {
    match s case Queued => 0 case Delivering => 1 case _ => 2
  }

  /** What a sender is told never goes back: queued, then delivering, then one final word for good. */
  lemma StateOnlyAdvances(cfg: C.Config, moves: seq<Move>, more: seq<Move>, a: Place, b: Place, id: Raw)
    requires SentOnce(moves + more, id) && Located(cfg, moves, a, id) && Located(cfg, moves + more, b, id)
    requires StateOf(a).Some? && StateOf(b).Some?
    ensures StateOf(a) == StateOf(b) || Progress(StateOf(a).value) < Progress(StateOf(b).value)
  {
    hide Located, SentOnce;
    NeverBackwards(cfg, moves, more, a, b, id);
  }

  /**
     The word says what became of the frame: delivered if and only if its opener returned and that was
     recorded, failed if and only if it was refused, bounced or retired unopened, and so for the others.
   */
  lemma WordIsTrue(cfg: C.Config, moves: seq<Move>, place: Place, id: Raw)
    requires SentOnce(moves, id) && Located(cfg, moves, place, id)
    ensures var c := CountsOf(Run(moves), Office(cfg, Run(moves)), id);
      && (StateOf(place) == Some(Delivered) <==> c.acknowledged > 0)
      && (StateOf(place) == Some(Failed) <==> c.dead + c.undeliverable + c.bounced > 0)
      && (StateOf(place) == Some(NotResolved) <==> c.unresolved > 0)
      && (StateOf(place) == Some(Delivering) <==> c.opening > 0)
      && (StateOf(place) == Some(Queued) <==> c.egress + c.ingress + c.processing > 0)
  {
    hide CountsOf, Run, Office;
    LocatedIsWhere(cfg, moves, place, id);
    LocatedIsSomewhere(cfg, moves, place, id);
  }

  lemma LocatedIsSomewhere(cfg: C.Config, moves: seq<Move>, place: Place, id: Raw)
    requires Located(cfg, moves, place, id)
    ensures place != Nowhere && place != InHand && place != Dropped
  {
  }
}
