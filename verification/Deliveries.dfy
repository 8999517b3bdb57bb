/** webhook/webhook.go: ServeHTTP's verify, record, parse, route order, over any interleaving of requests. */
module Deliveries {
  import opened Text

  datatype Status = Accepted | AlreadyProcessed | InvalidSignature | BadPayload | RecordFailed | HandlingFailed

  datatype Pc = AtVerify | AtRecord | AtParse | AtRoute | Responded(status: Status)

  /** One request; an absent X-GitHub-Delivery header is the empty id. */
  datatype Request = Request(delivery: string, signed: bool, parses: bool, pc: Pc)

  /** `deliveries` is the webhook_deliveries table. `winner` and `routed` are history: the request that inserted
      each id, and the requests that have been routed. */
  datatype State = State(deliveries: set<string>, requests: map<int, Request>, winner: map<string, int>, routed: set<int>)

  datatype Event =
    | Arrive(r: int, delivery: string, signed: bool, parses: bool)
    | Verify(r: int)
    | Record(r: int, outcome: Outcome)
    | Parse(r: int)
    | Route(r: int, ok: bool)
    | Die(r: int)

  const INITIAL := State({}, map[], map[], {})

  predicate At(s: State, r: int, pc: Pc) {
    r in s.requests && s.requests[r].pc == pc
  }

  function Step(s: State, r: int, pc: Pc): State
    requires r in s.requests
  {
    s.(requests := s.requests[r := s.requests[r].(pc := pc)])
  }

  /** INSERT ... ON CONFLICT DO NOTHING; no delivery id, no record. */
  function ApplyRecord(s: State, r: int, o: Outcome): State
    requires r in s.requests
  {
    var id := s.requests[r].delivery;
    if id == "" then Step(s, r, AtParse)
    else
      var inserted := !o.Lost? && id !in s.deliveries;
      var t := if inserted then s.(deliveries := s.deliveries + {id}, winner := s.winner[id := r]) else s;
      Step(t, r, if !o.Done? then Responded(RecordFailed) else if inserted then AtParse else Responded(AlreadyProcessed))
  }

  /** An event that is not possible changes nothing. */
  function Apply(s: State, e: Event): State {
    match e
    case Arrive(r, d, signed, parses) =>
      if r in s.requests then s
      else s.(requests := s.requests[r := Request(d, signed, parses, AtVerify)])
    case Verify(r) =>
      if At(s, r, AtVerify) then Step(s, r, if s.requests[r].signed then AtRecord else Responded(InvalidSignature)) else s
    case Record(r, o) => if At(s, r, AtRecord) then ApplyRecord(s, r, o) else s
    case Parse(r) =>
      if At(s, r, AtParse) then Step(s, r, if s.requests[r].parses then AtRoute else Responded(BadPayload)) else s
    case Route(r, ok) =>
      if At(s, r, AtRoute) then Step(s.(routed := s.routed + {r}), r, Responded(if ok then Accepted else HandlingFailed)) else s
    case Die(r) =>
      if r in s.requests && !s.requests[r].pc.Responded? then Step(s, r, Responded(HandlingFailed)) else s
  }

  function Run(s: State, events: seq<Event>): State
    decreases |events|
  {
    if events == [] then s else Run(Apply(s, events[0]), events[1..])
  }

  /** Past the record step. */
  predicate Past(pc: Pc) {
    pc == AtParse || pc == AtRoute
  }

  predicate Winner(s: State, r: int) {
    r in s.requests ==>
      && (Past(s.requests[r].pc) || s.requests[r].pc == AtRecord || r in s.routed ==> s.requests[r].signed)
      && (s.requests[r].delivery != "" && (Past(s.requests[r].pc) || r in s.routed) ==>
            s.requests[r].delivery in s.winner && s.winner[s.requests[r].delivery] == r)
      && (r in s.routed ==> s.requests[r].pc.Responded?)
  }

  predicate Inv(s: State) {
    && s.winner.Keys == s.deliveries
    && s.routed <= s.requests.Keys
    && forall r :: r in s.requests ==> Winner(s, r)
  }

  lemma StepKeeps(s: State, e: Event)
    requires Inv(s)
    ensures Inv(Apply(s, e))
  {
    var t := Apply(s, e);
    forall r | r in t.requests ensures Winner(t, r) {
      assert r in s.requests ==> Winner(s, r);
    }
  }

  lemma {:induction false} RunKeeps(s: State, events: seq<Event>)
    requires Inv(s)
    ensures Inv(Run(s, events))
    decreases |events|
  {
    if events != [] {
      StepKeeps(s, events[0]);
      RunKeeps(Apply(s, events[0]), events[1..]);
    }
  }

  /** However originals, duplicates and replays interleave, and whatever fails, no two requests with one
      non-empty delivery id are both routed, each is routed only once, and only after its signature verified. */
  lemma RoutedAtMostOnce(events: seq<Event>, q: int, r: int)
    requires var s := Run(INITIAL, events); q in s.routed && r in s.routed
    ensures var s := Run(INITIAL, events);
            && q in s.requests && r in s.requests
            && s.requests[q].signed && s.requests[q].pc.Responded? && Apply(s, Route(q, true)) == s
            && (s.requests[q].delivery == s.requests[r].delivery && s.requests[q].delivery != "" ==> q == r)
  {
    RunKeeps(INITIAL, events);
    var s := Run(INITIAL, events);
    assert Winner(s, q) && Winner(s, r);
  }

  /** Nobody who could still route this id is under way. */
  predicate Spent(s: State, id: string) {
    id in s.deliveries && forall r :: r in s.requests && s.requests[r].delivery == id ==> !Past(s.requests[r].pc)
  }

  predicate RoutedFor(s: State, id: string, r: int) {
    r in s.routed && r in s.requests && s.requests[r].delivery == id
  }

  lemma SpentStep(s: State, e: Event, id: string)
    requires Inv(s) && id != "" && Spent(s, id)
    ensures Spent(Apply(s, e), id)
    ensures forall r :: RoutedFor(Apply(s, e), id, r) <==> RoutedFor(s, id, r)
  {
  }

  /** Recording comes before routing: once an id is recorded and its request is over, whether its routing
      failed or the process died before it, no redelivery is ever routed. */
  lemma {:induction false} SpentForever(s: State, events: seq<Event>, id: string)
    requires Inv(s) && id != "" && Spent(s, id)
    ensures forall r :: RoutedFor(Run(s, events), id, r) <==> RoutedFor(s, id, r)
    decreases |events|
  {
    if events != [] {
      StepKeeps(s, events[0]);
      SpentStep(s, events[0], id);
      SpentForever(Apply(s, events[0]), events[1..], id);
    }
  }

  /** Without a delivery id nothing is remembered: the same payload sent twice is routed twice. */
  lemma EmptyIdBypasses(s: State, r: int)
    requires Inv(s) && r !in s.requests
    ensures var t := Apply(Apply(Apply(Apply(Apply(s, Arrive(r, "", true, true)), Verify(r)), Record(r, Done)), Parse(r)), Route(r, true));
            r in t.routed && t.deliveries == s.deliveries
  {
    var s1 := Apply(s, Arrive(r, "", true, true));
    assert At(s1, r, AtVerify);
    var s2 := Apply(s1, Verify(r));
    assert At(s2, r, AtRecord);
    var s3 := Apply(s2, Record(r, Done));
    assert At(s3, r, AtParse);
    var s4 := Apply(s3, Parse(r));
    assert At(s4, r, AtRoute);
  }

  /** A request without a valid signature leaves no trace. */
  lemma UnsignedChangesNothing(s: State, r: int, delivery: string, parses: bool)
    requires Inv(s) && r !in s.requests
    ensures var t := Apply(Apply(s, Arrive(r, delivery, false, parses)), Verify(r));
            t.deliveries == s.deliveries && t.routed == s.routed && At(t, r, Responded(InvalidSignature))
            && forall e: Event :: (e.Record? || e.Parse? || e.Route?) && e.r == r ==> Apply(t, e) == t
  {
    var s1 := Apply(s, Arrive(r, delivery, false, parses));
    assert At(s1, r, AtVerify);
  }

  // ---------------------------------------------------------------- one call on its own

  /** The answer to a request, given the ids recorded so far and whether its routing succeeds. */
  function StatusOf(recorded: set<string>, delivery: string, signed: bool, parses: bool, record: Outcome, routes: bool): Status {
    if !signed then InvalidSignature
    else if delivery != "" && !record.Done? then RecordFailed
    else if delivery != "" && delivery in recorded then AlreadyProcessed
    else if !parses then BadPayload
    else if routes then Accepted
    else HandlingFailed
  }

  /** The steps of one request with nothing between them. */
  function OneCall(s: State, r: int, delivery: string, signed: bool, parses: bool, record: Outcome, routes: bool): State {
    Apply(Apply(Apply(Apply(Apply(s, Arrive(r, delivery, signed, parses)), Verify(r)), Record(r, record)), Parse(r)), Route(r, routes))
  }

  /** They answer with that status, record the id unless the insert was lost, and route exactly the requests that
      get so far. */
  lemma OneCallIs(s: State, r: int, delivery: string, signed: bool, parses: bool, record: Outcome, routes: bool)
    requires r !in s.requests && r !in s.routed
    ensures var t := OneCall(s, r, delivery, signed, parses, record, routes);
            var status := StatusOf(s.deliveries, delivery, signed, parses, record, routes);
            && At(t, r, Responded(status)) && (r in t.routed <==> status == Accepted || status == HandlingFailed)
            && t.deliveries == s.deliveries + if signed && delivery != "" && !record.Lost? then {delivery} else {}
  {
    var s1 := Apply(s, Arrive(r, delivery, signed, parses));
    assert At(s1, r, AtVerify);
    var s2 := Apply(s1, Verify(r));
    if !signed {
      assert At(s2, r, Responded(InvalidSignature));
    } else {
      assert At(s2, r, AtRecord);
      RecordIs(s2, r, record);
    }
  }

  lemma RecordIs(s: State, r: int, record: Outcome)
    requires At(s, r, AtRecord)
    ensures var id, t := s.requests[r].delivery, Apply(s, Record(r, record));
            && t.deliveries == s.deliveries + (if id != "" && !record.Lost? then {id} else {}) && t.routed == s.routed
            && At(t, r, if id == "" then AtParse
                        else if !record.Done? then Responded(RecordFailed)
                        else if id in s.deliveries then Responded(AlreadyProcessed) else AtParse)
            && t.requests[r].parses == s.requests[r].parses
  {
  }
}
