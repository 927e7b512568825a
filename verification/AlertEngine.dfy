/** The edge-triggered alert reducer (frontend/src/lib/alertEngine.ts). */
module AlertEngine {
  import opened Words

  datatype Source = Sensor1 | Sensor2 {
    function Name(): string {
      if this == Sensor1 then "SENSOR_1" else "SENSOR_2"
    }
  }

  datatype Zone = Normal | High | Low

  /** An empty `recipientId` is how an absent one behaves: the rule applies to everyone. */
  datatype Rule = Rule(
    id: string, source: Source, minC: int, maxC: int, enabled: bool, recipientId: string,
    highMessage: string, lowMessage: string, clearMessage: string
  )

  datatype Recipient = Recipient(id: string, destination: string, enabled: bool)

  /** One reading per sensor; temperatures in any exact unit shared with the thresholds. */
  datatype Frame = Frame(timestamp: int, first: Option<int>, second: Option<int>)

  datatype Event = Event(
    key: string, timestamp: int, recipientId: string, ruleId: string, source: Source,
    transition: Zone, destination: string, message: string, celsius: int
  )

  type States = map<string, Zone>

  function RuleStateKey(recipientId: string, ruleId: string, source: Source): string {
    recipientId + "::" + ruleId + "::" + source.Name()
  }

  function SourceCelsius(frame: Frame, source: Source): Option<int> {
    if source == Sensor1 then frame.first else frame.second
  }

  function ZoneFor(celsius: int, rule: Rule): Zone {
    if celsius > rule.maxC then High else if celsius < rule.minC then Low else Normal
  }

  function MessageFor(rule: Rule, zone: Zone): string {
    match zone
    case High => rule.highMessage
    case Low => rule.lowMessage
    case Normal => rule.clearMessage
  }

  function StateOf(states: States, key: string): Zone {
    if key in states then states[key] else Normal
  }

  // --- One frame ----------------------------------------------------------------------

  /** A recipient together with a rule that applies to it. */
  datatype Pair = Pair(recipient: Recipient, rule: Rule) {
    function Key(): string {
      RuleStateKey(recipient.id, rule.id, rule.source)
    }
  }

  predicate Applies(recipient: Recipient, rule: Rule) {
    recipient.enabled && rule.enabled && (rule.recipientId == "" || rule.recipientId == recipient.id)
  }

  function PairsOf(recipient: Recipient, rules: seq<Rule>): seq<Pair> {
    if rules == [] then []
    else
      var front, last := PairsOf(recipient, rules[..|rules| - 1]), rules[|rules| - 1];
      if Applies(recipient, last) then front + [Pair(recipient, last)] else front
  }

  /** The active pairs in the order the reducer visits them. */
  function Active(rules: seq<Rule>, recipients: seq<Recipient>): seq<Pair> {
    if recipients == [] then []
    else Active(rules, recipients[..|recipients| - 1]) + PairsOf(recipients[|recipients| - 1], rules)
  }

  /** The zone a pair's reading falls in; none without a reading. */
  function ZoneOf(pair: Pair, frame: Frame): Option<Zone> {
    match SourceCelsius(frame, pair.rule.source)
    case None => None
    case Some(celsius) => Some(ZoneFor(celsius, pair.rule))
  }

  function EventOf(pair: Pair, frame: Frame, zone: Zone, celsius: int): Event {
    Event(pair.Key(), frame.timestamp, pair.recipient.id, pair.rule.id, pair.rule.source, zone,
          pair.recipient.destination, MessageFor(pair.rule, zone), celsius)
  }

  datatype Step = Step(states: States, events: seq<Event>)

  /** Visit one pair: silent without a reading or a change of zone. */
  function Visit(s: Step, frame: Frame, pair: Pair): Step {
    match SourceCelsius(frame, pair.rule.source)
    case None => s
    case Some(celsius) =>
      var zone := ZoneFor(celsius, pair.rule);
      if zone == StateOf(s.states, pair.Key()) then s
      else Step(s.states[pair.Key() := zone], s.events + [EventOf(pair, frame, zone, celsius)])
  }

  function VisitAll(states: States, frame: Frame, pairs: seq<Pair>): Step {
    if pairs == [] then Step(states, [])
    else Visit(VisitAll(states, frame, pairs[..|pairs| - 1]), frame, pairs[|pairs| - 1])
  }

  /** The body of the inner loop, with its early exits. */
  method VisitRule(states: States, events: seq<Event>, frame: Frame, recipient: Recipient, rule: Rule)
    returns (states': States, events': seq<Event>)
    requires recipient.enabled
    ensures Step(states', events')
         == if Applies(recipient, rule) then Visit(Step(states, events), frame, Pair(recipient, rule)) else Step(states, events)
  {
    states', events' := states, events;
    if !rule.enabled {
      return;
    }
    if rule.recipientId != "" && rule.recipientId != recipient.id {
      return;
    }
    var key := RuleStateKey(recipient.id, rule.id, rule.source);
    var current := StateOf(states, key);
    var celsius := SourceCelsius(frame, rule.source);
    if celsius.None? {
      return;
    }
    var zone := ZoneFor(celsius.value, rule);
    if zone == current {
      return;
    }
    states' := states[key := zone];
    events' := events + [EventOf(Pair(recipient, rule), frame, zone, celsius.value)];
  }

  lemma VisitNext(states: States, frame: Frame, pairs: seq<Pair>, pair: Pair)
    ensures VisitAll(states, frame, pairs + [pair]) == Visit(VisitAll(states, frame, pairs), frame, pair)
  {
    assert (pairs + [pair])[..|pairs|] == pairs;
  }

  /** `stepAlertEngine`: the nested loops visit exactly the active pairs. */
  method StepAlertEngine(prev: States, frame: Frame, rules: seq<Rule>, recipients: seq<Recipient>)
    returns (states: States, events: seq<Event>)
    ensures Step(states, events) == VisitAll(prev, frame, Active(rules, recipients))
  {
    states, events := prev, [];
    for i := 0 to |recipients|
      invariant Step(states, events) == VisitAll(prev, frame, Active(rules, recipients[..i]))
    {
      ghost var before := Active(rules, recipients[..i]);
      assert recipients[..i + 1][..i] == recipients[..i];
      if recipients[i].enabled {
        states, events := VisitRules(prev, before, states, events, frame, recipients[i], rules);
      } else {
        NoPairs(recipients[i], rules);
        assert before + [] == before;
      }
    }
    assert recipients[..|recipients|] == recipients;
  }

  /** The inner loop: one recipient against every rule. */
  method VisitRules(ghost prev: States, ghost before: seq<Pair>, states: States, events: seq<Event>,
                    frame: Frame, recipient: Recipient, rules: seq<Rule>)
    returns (states': States, events': seq<Event>)
    requires recipient.enabled && Step(states, events) == VisitAll(prev, frame, before)
    ensures Step(states', events') == VisitAll(prev, frame, before + PairsOf(recipient, rules))
  {
    states', events' := states, events;
    assert before + [] == before;
    for j := 0 to |rules|
      invariant Step(states', events') == VisitAll(prev, frame, before + PairsOf(recipient, rules[..j]))
    {
      assert rules[..j + 1][..j] == rules[..j];
      ghost var visited := before + PairsOf(recipient, rules[..j]);
      states', events' := VisitRule(states', events', frame, recipient, rules[j]);
      if Applies(recipient, rules[j]) {
        VisitNext(prev, frame, visited, Pair(recipient, rules[j]));
        assert visited + [Pair(recipient, rules[j])] == before + PairsOf(recipient, rules[..j + 1]);
      }
    }
    assert rules[..|rules|] == rules;
  }

  lemma {:induction false} NoPairs(recipient: Recipient, rules: seq<Rule>)
    requires !recipient.enabled
    ensures PairsOf(recipient, rules) == []
  {
    if rules != [] {
      NoPairs(recipient, rules[..|rules| - 1]);
    }
  }

  // --- What an alert says -----------------------------------------------------------------

  /** The rule is switched on, and so is the recipient, to whom it applies by name or as one of all. */
  predicate Addressed(recipient: Recipient, rule: Rule) {
    recipient.enabled && rule.enabled && (rule.recipientId == recipient.id || rule.recipientId == "")
  }

  /** The alert tells the recipient about this reading, by this rule: which limit it is beyond, if any, in the words for that. */
  predicate Alerts(e: Event, frame: Frame, recipient: Recipient, rule: Rule) {
    && e.recipientId == recipient.id && e.destination == recipient.destination && e.ruleId == rule.id && e.source == rule.source
    && e.key == recipient.id + "::" + rule.id + (if rule.source == Sensor1 then "::SENSOR_1" else "::SENSOR_2")
    && e.timestamp == frame.timestamp
    && Some(e.celsius) == (if rule.source == Sensor1 then frame.first else frame.second)
    && (e.transition == High <==> rule.maxC < e.celsius)
    && (e.transition == Low <==> e.celsius < rule.minC && e.celsius <= rule.maxC)
    && (e.transition == High ==> e.message == rule.highMessage)
    && (e.transition == Low ==> e.message == rule.lowMessage)
    && (e.transition == Normal ==> e.message == rule.clearMessage)
  }

  lemma {:induction false} InPairs(recipient: Recipient, rules: seq<Rule>, pair: Pair)
    ensures pair in PairsOf(recipient, rules) <==> pair.recipient == recipient && pair.rule in rules && Addressed(recipient, pair.rule)
  {
    if rules != [] {
      InPairs(recipient, rules[..|rules| - 1], pair);
    }
  }

  lemma {:induction false} InActive(rules: seq<Rule>, recipients: seq<Recipient>, pair: Pair)
    ensures pair in Active(rules, recipients)
       <==> pair.recipient in recipients && pair.rule in rules && Addressed(pair.recipient, pair.rule)
  {
    if recipients != [] {
      InActive(rules, recipients[..|recipients| - 1], pair);
      InPairs(recipients[|recipients| - 1], rules, pair);
    }
  }

  lemma {:induction false} EventFrom(states: States, frame: Frame, pairs: seq<Pair>, e: Event) returns (pair: Pair)
    requires e in VisitAll(states, frame, pairs).events
    ensures pair in pairs && e.key == pair.Key() && Alerts(e, frame, pair.recipient, pair.rule)
  {
    var front, last := pairs[..|pairs| - 1], pairs[|pairs| - 1];
    var before := VisitAll(states, frame, front);
    if e in before.events {
      pair := EventFrom(states, frame, front, e);
    } else {
      pair := last;
      assert last.Key() == last.recipient.id + "::" + last.rule.id + (if last.rule.source == Sensor1 then "::SENSOR_1" else "::SENSOR_2");
    }
  }

  /** Every alert goes to an enabled recipient, under an enabled rule for it, and is true of the reading. */
  lemma AlertsAreTrue(prev: States, frame: Frame, rules: seq<Rule>, recipients: seq<Recipient>, e: Event)
    returns (recipient: Recipient, rule: Rule)
    requires e in VisitAll(prev, frame, Active(rules, recipients)).events
    ensures recipient in recipients && rule in rules && Addressed(recipient, rule) && Alerts(e, frame, recipient, rule)
  {
    var pair := EventFrom(prev, frame, Active(rules, recipients), e);
    InActive(rules, recipients, pair);
    recipient, rule := pair.recipient, pair.rule;
  }

  // --- What a key's alerts mean ---------------------------------------------------------

  /** The changes of zone in a list of zones, starting from `current`. */
  function Changes(current: Zone, zones: seq<Zone>): seq<Zone>
    decreases |zones|
  {
    if zones == [] then []
    else if zones[0] == current then Changes(current, zones[1..])
    else [zones[0]] + Changes(zones[0], zones[1..])
  }

  function LastZone(current: Zone, zones: seq<Zone>): Zone {
    if zones == [] then current else zones[|zones| - 1]
  }

  lemma {:induction false} ChangesAppend(current: Zone, zones: seq<Zone>, more: seq<Zone>)
    ensures Changes(current, zones + more) == Changes(current, zones) + Changes(LastZone(current, zones), more)
    decreases |zones|
  {
    if zones == [] {
      assert zones + more == more;
    } else {
      assert (zones + more)[1..] == zones[1..] + more;
      ChangesAppend(zones[0], zones[1..], more);
      ChangesAppend(current, zones[1..], more);
      assert LastZone(zones[0], zones[1..]) == LastZone(current, zones);
    }
  }

  lemma ChangesOne(current: Zone, zone: Zone)
    ensures Changes(current, [zone]) == if zone == current then [] else [zone]
  {
    assert [zone][1..] == [];
  }

  function Opt(zone: Option<Zone>): seq<Zone> {
    if zone.None? then [] else [zone.value]
  }

  /** The zones of the pairs with one key, in visiting order. */
  function KeyZones(pairs: seq<Pair>, frame: Frame, key: string): seq<Zone> {
    if pairs == [] then []
    else
      var last := pairs[|pairs| - 1];
      KeyZones(pairs[..|pairs| - 1], frame, key) + (if last.Key() == key then Opt(ZoneOf(last, frame)) else [])
  }

  /** The transitions emitted under one key. */
  function Transitions(events: seq<Event>, key: string): seq<Zone> {
    if events == [] then []
    else
      var last := events[|events| - 1];
      Transitions(events[..|events| - 1], key) + (if last.key == key then [last.transition] else [])
  }

  lemma {:induction false} TransitionsAppend(a: seq<Event>, b: seq<Event>, key: string)
    ensures Transitions(a + b, key) == Transitions(a, key) + Transitions(b, key)
  {
    if b == [] {
      assert a + b == a;
    } else {
      assert (a + b)[..|a + b| - 1] == a + b[..|b| - 1];
      TransitionsAppend(a, b[..|b| - 1], key);
    }
  }

  /** Within one frame a key's events are the changes among its pairs' zones. */
  lemma {:induction false} FrameTrace(states: States, frame: Frame, pairs: seq<Pair>, key: string)
    ensures var s := VisitAll(states, frame, pairs);
            && Transitions(s.events, key) == Changes(StateOf(states, key), KeyZones(pairs, frame, key))
            && StateOf(s.states, key) == LastZone(StateOf(states, key), KeyZones(pairs, frame, key))
  {
    if pairs != [] {
      var front, last := pairs[..|pairs| - 1], pairs[|pairs| - 1];
      FrameTrace(states, frame, front, key);
      var before, after := VisitAll(states, frame, front), VisitAll(states, frame, pairs);
      var zones := KeyZones(front, frame, key);
      VisitTrace(before, frame, last, key);
      if last.Key() == key && ZoneOf(last, frame).Some? {
        ChangesAppend(StateOf(states, key), zones, [ZoneOf(last, frame).value]);
      } else {
        assert KeyZones(pairs, frame, key) == zones;
      }
    }
  }

  /** A visit moves its own key to the zone of the reading, if there is one, and no other key. */
  lemma VisitState(s: Step, frame: Frame, pair: Pair, key: string)
    ensures StateOf(Visit(s, frame, pair).states, key)
         == LastZone(StateOf(s.states, key), if pair.Key() == key then Opt(ZoneOf(pair, frame)) else [])
  {
  }

  lemma VisitTrace(s: Step, frame: Frame, pair: Pair, key: string)
    ensures var t := Visit(s, frame, pair);
            var zones := if pair.Key() == key then Opt(ZoneOf(pair, frame)) else [];
            && Transitions(t.events, key) == Transitions(s.events, key) + Changes(StateOf(s.states, key), zones)
            && StateOf(t.states, key) == LastZone(StateOf(s.states, key), zones)
  {
    var t := Visit(s, frame, pair);
    if t.events != s.events {
      assert t.events[..|t.events| - 1] == s.events;
    }
    if ZoneOf(pair, frame).Some? {
      ChangesOne(StateOf(s.states, key), ZoneOf(pair, frame).value);
    }
  }

  // --- Runs over any stream of frames, rules and recipients -------------------------------

  datatype Input = Input(frame: Frame, rules: seq<Rule>, recipients: seq<Recipient>)

  function RunEngine(inputs: seq<Input>): Step {
    if inputs == [] then Step(map[], [])
    else
      var before, input := RunEngine(inputs[..|inputs| - 1]), inputs[|inputs| - 1];
      var s := VisitAll(before.states, input.frame, Active(input.rules, input.recipients));
      Step(s.states, before.events + s.events)
  }

  function StreamZones(inputs: seq<Input>, key: string): seq<Zone> {
    if inputs == [] then []
    else
      var input := inputs[|inputs| - 1];
      StreamZones(inputs[..|inputs| - 1], key) + KeyZones(Active(input.rules, input.recipients), input.frame, key)
  }

  /**
   * For every key and every stream, with rules and recipients changing at will: the transitions
   * emitted are the zones of the readings seen under that key while active, with consecutive
   * repeats removed, starting from NORMAL.
   */
  lemma {:induction false} KeyTrace(inputs: seq<Input>, key: string)
    ensures Transitions(RunEngine(inputs).events, key) == Changes(Normal, StreamZones(inputs, key))
    ensures StateOf(RunEngine(inputs).states, key) == LastZone(Normal, StreamZones(inputs, key))
  {
    if inputs != [] {
      var front, input := inputs[..|inputs| - 1], inputs[|inputs| - 1];
      var before, pairs := RunEngine(front), Active(input.rules, input.recipients);
      var s := VisitAll(before.states, input.frame, pairs);
      assert RunEngine(inputs) == Step(s.states, before.events + s.events);
      assert StreamZones(inputs, key) == StreamZones(front, key) + KeyZones(pairs, input.frame, key);
      KeyTrace(front, key);
      FrameTrace(before.states, input.frame, pairs, key);
      TransitionsAppend(before.events, s.events, key);
      ChangesAppend(Normal, StreamZones(front, key), KeyZones(pairs, input.frame, key));
    }
  }

  // --- One edge detector per pair ------------------------------------------------------------

  predicate KeysDistinct(pairs: seq<Pair>) {
    forall i, j :: 0 <= i < j < |pairs| ==> pairs[i].Key() != pairs[j].Key()
  }

  /** What the visit to pair `j` emits, when a frame meets `states`. */
  function Emitted(states: States, frame: Frame, pairs: seq<Pair>, j: nat): seq<Zone>
    requires j < |pairs|
  {
    var before := VisitAll(states, frame, pairs[..j]);
    Changes(StateOf(before.states, pairs[j].Key()), Opt(ZoneOf(pairs[j], frame)))
  }

  function StatesAfter(frames: seq<Frame>, pairs: seq<Pair>): States {
    if frames == [] then map[]
    else VisitAll(StatesAfter(frames[..|frames| - 1], pairs), frames[|frames| - 1], pairs).states
  }

  function PairEmissions(frames: seq<Frame>, pairs: seq<Pair>, j: nat): seq<Zone>
    requires j < |pairs|
  {
    if frames == [] then []
    else
      var front, frame := frames[..|frames| - 1], frames[|frames| - 1];
      PairEmissions(front, pairs, j) + Emitted(StatesAfter(front, pairs), frame, pairs, j)
  }

  function PairZones(frames: seq<Frame>, pair: Pair): seq<Zone> {
    if frames == [] then [] else PairZones(frames[..|frames| - 1], pair) + Opt(ZoneOf(pair, frames[|frames| - 1]))
  }

  lemma {:induction false} UntouchedKey(states: States, frame: Frame, pairs: seq<Pair>, key: string)
    requires forall i :: 0 <= i < |pairs| ==> pairs[i].Key() != key
    ensures StateOf(VisitAll(states, frame, pairs).states, key) == StateOf(states, key)
  {
    if pairs != [] {
      UntouchedKey(states, frame, pairs[..|pairs| - 1], key);
    }
  }

  /** With distinct keys, pair `j` meets the state its own last reading left. */
  lemma OwnState(states: States, frame: Frame, pairs: seq<Pair>, j: nat)
    requires KeysDistinct(pairs) && j < |pairs|
    ensures StateOf(VisitAll(states, frame, pairs[..j]).states, pairs[j].Key()) == StateOf(states, pairs[j].Key())
    ensures StateOf(VisitAll(states, frame, pairs).states, pairs[j].Key())
         == LastZone(StateOf(states, pairs[j].Key()), Opt(ZoneOf(pairs[j], frame)))
  {
    UntouchedKey(states, frame, pairs[..j], pairs[j].Key());
    AfterOwnVisit(states, frame, pairs, j, |pairs|);
  }

  lemma {:induction false} AfterOwnVisit(states: States, frame: Frame, pairs: seq<Pair>, j: nat, n: nat)
    requires KeysDistinct(pairs) && j < n <= |pairs|
    ensures StateOf(VisitAll(states, frame, pairs[..n]).states, pairs[j].Key())
         == LastZone(StateOf(states, pairs[j].Key()), Opt(ZoneOf(pairs[j], frame)))
    ensures pairs[..|pairs|] == pairs
  {
    assert pairs[..n][..n - 1] == pairs[..n - 1];
    var before := VisitAll(states, frame, pairs[..n - 1]);
    assert VisitAll(states, frame, pairs[..n]) == Visit(before, frame, pairs[n - 1]);
    VisitState(before, frame, pairs[n - 1], pairs[j].Key());
    if j == n - 1 {
      UntouchedKey(states, frame, pairs[..j], pairs[j].Key());
    } else {
      AfterOwnVisit(states, frame, pairs, j, n - 1);
      assert pairs[j].Key() != pairs[n - 1].Key();
    }
  }

  lemma {:induction false} PairTrace(frames: seq<Frame>, pairs: seq<Pair>, j: nat)
    requires KeysDistinct(pairs) && j < |pairs|
    ensures PairEmissions(frames, pairs, j) == Changes(Normal, PairZones(frames, pairs[j]))
    ensures StateOf(StatesAfter(frames, pairs), pairs[j].Key()) == LastZone(Normal, PairZones(frames, pairs[j]))
  {
    if frames != [] {
      var front, frame := frames[..|frames| - 1], frames[|frames| - 1];
      PairTrace(front, pairs, j);
      OwnState(StatesAfter(front, pairs), frame, pairs, j);
      ChangesAppend(Normal, PairZones(front, pairs[j]), Opt(ZoneOf(pairs[j], frame)));
    }
  }

  /** Every pair, on every stream of frames, alerts on exactly its own changes of zone. */
  ghost predicate Independent(pairs: seq<Pair>) {
    forall frames: seq<Frame>, j: nat :: j < |pairs| ==>
      PairEmissions(frames, pairs, j) == Changes(Normal, PairZones(frames, pairs[j]))
  }

  /** The pairs are independent exactly when their composite keys are distinct. */
  lemma IndependentIffDistinct(pairs: seq<Pair>)
    ensures Independent(pairs) <==> KeysDistinct(pairs)
  {
    if KeysDistinct(pairs) {
      forall frames: seq<Frame>, j: nat | j < |pairs|
        ensures PairEmissions(frames, pairs, j) == Changes(Normal, PairZones(frames, pairs[j]))
      {
        PairTrace(frames, pairs, j);
      }
    } else {
      var i, j :| 0 <= i < j < |pairs| && pairs[i].Key() == pairs[j].Key();
      Swallowed(pairs, i, j);
    }
  }

  function Hot(pairs: seq<Pair>): int {
    if pairs == [] then 0
    else
      var rest, own := Hot(pairs[..|pairs| - 1]), pairs[|pairs| - 1].rule.maxC + 1;
      if rest < own then own else rest
  }

  lemma {:induction false} HotAboveAll(pairs: seq<Pair>, j: nat)
    requires j < |pairs|
    ensures Hot(pairs) > pairs[j].rule.maxC
  {
    if j < |pairs| - 1 {
      HotAboveAll(pairs[..|pairs| - 1], j);
    }
  }

  /** On the first reading above every threshold, the later of two pairs sharing a key is silent. */
  lemma Swallowed(pairs: seq<Pair>, i: nat, j: nat)
    requires i < j < |pairs| && pairs[i].Key() == pairs[j].Key()
    ensures !Independent(pairs)
  {
    var frame := Frame(0, Some(Hot(pairs)), Some(Hot(pairs)));
    var key := pairs[j].Key();
    forall k | 0 <= k < |pairs|
      ensures ZoneOf(pairs[k], frame) == Some(High)
    {
      HotAboveAll(pairs, k);
    }
    HighAfter(frame, pairs, i, j, key);
    var frames := [frame];
    assert frames[..0] == [];
    assert PairEmissions(frames[..0], pairs, j) == [] && StatesAfter(frames[..0], pairs) == map[];
    assert PairEmissions(frames, pairs, j) == [] + Emitted(map[], frame, pairs, j);
    ChangesOne(High, High);
    assert PairEmissions(frames, pairs, j) == [];
    assert PairZones(frames[..0], pairs[j]) == [];
    assert PairZones(frames, pairs[j]) == [High];
    ChangesOne(Normal, High);
  }

  lemma {:induction false} HighAfter(frame: Frame, pairs: seq<Pair>, i: nat, n: nat, key: string)
    requires i < n <= |pairs| && pairs[i].Key() == key
    requires forall k :: 0 <= k < |pairs| ==> ZoneOf(pairs[k], frame) == Some(High)
    ensures StateOf(VisitAll(map[], frame, pairs[..n]).states, key) == High
  {
    assert pairs[..n][..n - 1] == pairs[..n - 1];
    if i < n - 1 {
      HighAfter(frame, pairs, i, n - 1, key);
    }
  }

  lemma {:induction false} OnlyZone(pairs: seq<Pair>, frame: Frame, j: nat)
    requires KeysDistinct(pairs) && j < |pairs|
    ensures KeyZones(pairs, frame, pairs[j].Key()) == Opt(ZoneOf(pairs[j], frame))
  {
    var front := pairs[..|pairs| - 1];
    if j < |front| {
      OnlyZone(front, frame, j);
      assert pairs[j].Key() != pairs[|pairs| - 1].Key();
    } else {
      NoZone(front, frame, pairs[j].Key());
    }
  }

  lemma {:induction false} NoZone(pairs: seq<Pair>, frame: Frame, key: string)
    requires forall i :: 0 <= i < |pairs| ==> pairs[i].Key() != key
    ensures KeyZones(pairs, frame, key) == []
  {
    if pairs != [] {
      NoZone(pairs[..|pairs| - 1], frame, key);
    }
  }

  lemma {:induction false} TransitionIn(events: seq<Event>, key: string)
    ensures Transitions(events, key) != [] <==> exists e :: e in events && e.key == key
  {
    if events != [] {
      TransitionIn(events[..|events| - 1], key);
    }
  }

  lemma PairSpeaks(prev: States, frame: Frame, pairs: seq<Pair>, j: nat)
    requires KeysDistinct(pairs) && j < |pairs|
    ensures var s, key, zone := VisitAll(prev, frame, pairs), pairs[j].Key(), ZoneOf(pairs[j], frame);
            && ((exists e :: e in s.events && e.key == key) <==> zone.Some? && zone.value != StateOf(prev, key))
            && StateOf(s.states, key) == if zone.Some? then zone.value else StateOf(prev, key)
  {
    OnlyZone(pairs, frame, j);
    FrameTrace(prev, frame, pairs, pairs[j].Key());
    TransitionIn(VisitAll(prev, frame, pairs).events, pairs[j].Key());
    if ZoneOf(pairs[j], frame).Some? {
      ChangesOne(StateOf(prev, pairs[j].Key()), ZoneOf(pairs[j], frame).value);
    }
  }

  lemma PairAlerts(prev: States, frame: Frame, pairs: seq<Pair>, j: nat)
    requires KeysDistinct(pairs) && j < |pairs|
    ensures forall e :: e in VisitAll(prev, frame, pairs).events && e.key == pairs[j].Key() ==> Alerts(e, frame, pairs[j].recipient, pairs[j].rule)
  {
    forall e | e in VisitAll(prev, frame, pairs).events && e.key == pairs[j].Key()
      ensures Alerts(e, frame, pairs[j].recipient, pairs[j].rule)
    {
      var from := EventFrom(prev, frame, pairs, e);
      var i :| 0 <= i < |pairs| && pairs[i] == from;
    }
  }

  /**
   * Where no two active pairs share a key: a rule alerts its recipient exactly when its sensor has a
   * reading and this lies beyond another limit, or none, than the last one did; and remembers where.
   */
  lemma AlertsIffChanged(prev: States, frame: Frame, rules: seq<Rule>, recipients: seq<Recipient>, recipient: Recipient, rule: Rule, key: string)
    requires KeysDistinct(Active(rules, recipients))
    requires recipient in recipients && rule in rules && Addressed(recipient, rule) && key == Pair(recipient, rule).Key()
    ensures var s, reading := VisitAll(prev, frame, Active(rules, recipients)), if rule.source == Sensor1 then frame.first else frame.second;
            var was := if key in prev then prev[key] else Normal;
            var now := if reading.None? then was
                       else if rule.maxC < reading.value then High else if reading.value < rule.minC then Low else Normal;
            && ((exists e :: e in s.events && e.key == key) <==> now != was)
            && (forall e :: e in s.events && e.key == key ==> Alerts(e, frame, recipient, rule))
            && StateOf(s.states, key) == now
  {
    var pairs, pair := Active(rules, recipients), Pair(recipient, rule);
    InActive(rules, recipients, pair);
    var j :| 0 <= j < |pairs| && pairs[j] == pair;
    PairSpeaks(prev, frame, pairs, j);
    PairAlerts(prev, frame, pairs, j);
  }

  // --- Stepping the same frame again --------------------------------------------------------------

  predicate AllEqual(zones: seq<Zone>) {
    forall i, j :: 0 <= i < |zones| && 0 <= j < |zones| ==> zones[i] == zones[j]
  }

  lemma {:induction false} NoChanges(current: Zone, zones: seq<Zone>)
    ensures Changes(current, zones) == [] <==> forall i :: 0 <= i < |zones| ==> zones[i] == current
    decreases |zones|
  {
    if zones != [] {
      NoChanges(current, zones[1..]);
      assert forall i :: 1 <= i < |zones| ==> zones[i] == zones[1..][i - 1];
    }
  }

  /** A key is silent on the second pass exactly when the pairs that share it see one zone. */
  lemma SilentIffOneZone(states: States, frame: Frame, pairs: seq<Pair>, key: string)
    ensures Transitions(VisitAll(VisitAll(states, frame, pairs).states, frame, pairs).events, key) == []
       <==> AllEqual(KeyZones(pairs, frame, key))
  {
    var zones, first := KeyZones(pairs, frame, key), VisitAll(states, frame, pairs);
    FrameTrace(states, frame, pairs, key);
    FrameTrace(first.states, frame, pairs, key);
    NoChanges(LastZone(StateOf(states, key), zones), zones);
  }

  /** Stepping the frame again emits nothing and leaves the states as they are. */
  ghost predicate RestepSilent(states: States, frame: Frame, pairs: seq<Pair>) {
    var first := VisitAll(states, frame, pairs);
    VisitAll(first.states, frame, pairs) == Step(first.states, [])
  }

  lemma {:induction false} SilentLeavesStates(states: States, frame: Frame, pairs: seq<Pair>)
    requires VisitAll(states, frame, pairs).events == []
    ensures VisitAll(states, frame, pairs).states == states
  {
    if pairs != [] {
      SilentLeavesStates(states, frame, pairs[..|pairs| - 1]);
    }
  }

  lemma {:induction false} EventsHaveKeys(events: seq<Event>, i: nat)
    requires i < |events|
    ensures Transitions(events, events[i].key) != []
  {
    if i < |events| - 1 {
      EventsHaveKeys(events[..|events| - 1], i);
    }
  }

  /** The second pass is silent exactly when no key has pairs in different zones. */
  lemma RestepSilentIff(states: States, frame: Frame, pairs: seq<Pair>)
    ensures RestepSilent(states, frame, pairs) <==> forall key :: AllEqual(KeyZones(pairs, frame, key))
  {
    var first := VisitAll(states, frame, pairs);
    var second := VisitAll(first.states, frame, pairs);
    forall key
      ensures Transitions(second.events, key) == [] <==> AllEqual(KeyZones(pairs, frame, key))
    {
      SilentIffOneZone(states, frame, pairs, key);
    }
    if second.events == [] {
      SilentLeavesStates(first.states, frame, pairs);
    } else {
      EventsHaveKeys(second.events, 0);
      assert !AllEqual(KeyZones(pairs, frame, second.events[0].key));
    }
  }

  /** The thresholds tell the same zone for every reading; a low threshold above the high one is never met by itself. */
  predicate SameBands(a: Rule, b: Rule) {
    a.maxC == b.maxC && (a.minC == b.minC || (a.minC > a.maxC && b.minC > b.maxC))
  }

  lemma SameBandsIff(a: Rule, b: Rule)
    ensures SameBands(a, b) <==> forall celsius: int :: ZoneFor(celsius, a) == ZoneFor(celsius, b)
  {
    if !SameBands(a, b) {
      var celsius := if a.maxC < b.maxC then b.maxC else if b.maxC < a.maxC then a.maxC
                     else if a.minC < b.minC then a.minC else b.minC;
      assert ZoneFor(celsius, a) != ZoneFor(celsius, b);
    }
  }

  /** Pairs that share a key share their thresholds too, so far as any reading can tell. */
  predicate Compatible(pairs: seq<Pair>) {
    forall i, j :: 0 <= i < j < |pairs| && pairs[i].Key() == pairs[j].Key() ==> SameBands(pairs[i].rule, pairs[j].rule)
  }

  /** The zones seen under a key are those of its pairs that have a reading. */
  lemma {:induction false} ZoneHasPair(pairs: seq<Pair>, frame: Frame, key: string, i: nat) returns (j: nat)
    requires i < |KeyZones(pairs, frame, key)|
    ensures j < |pairs| && pairs[j].Key() == key && ZoneOf(pairs[j], frame) == Some(KeyZones(pairs, frame, key)[i])
  {
    var front := pairs[..|pairs| - 1];
    if i < |KeyZones(front, frame, key)| {
      j := ZoneHasPair(front, frame, key, i);
    } else {
      j := |pairs| - 1;
    }
  }

  lemma {:induction false} PairHasZone(pairs: seq<Pair>, frame: Frame, j: nat)
    requires j < |pairs| && ZoneOf(pairs[j], frame).Some?
    ensures ZoneOf(pairs[j], frame).value in KeyZones(pairs, frame, pairs[j].Key())
  {
    if j < |pairs| - 1 {
      PairHasZone(pairs[..|pairs| - 1], frame, j);
    }
  }

  /** Two pairs of one key in different zones alert again on a second pass. */
  lemma DifferentZonesRepeat(states: States, frame: Frame, pairs: seq<Pair>, i: nat, j: nat)
    requires i < |pairs| && j < |pairs| && pairs[i].Key() == pairs[j].Key()
    requires ZoneOf(pairs[i], frame).Some? && ZoneOf(pairs[j], frame).Some? && ZoneOf(pairs[i], frame) != ZoneOf(pairs[j], frame)
    ensures !RestepSilent(states, frame, pairs)
  {
    PairHasZone(pairs, frame, i);
    PairHasZone(pairs, frame, j);
    assert !AllEqual(KeyZones(pairs, frame, pairs[i].Key()));
    RestepSilentIff(states, frame, pairs);
  }

  /** One key names one sensor: the source's name ends it. */
  lemma SameKeySameSource(a: Pair, b: Pair)
    requires a.Key() == b.Key()
    ensures a.rule.source == b.rule.source
  {
    assert a.Key()[|a.Key()| - 1] == a.rule.source.Name()[7];
    assert b.Key()[|b.Key()| - 1] == b.rule.source.Name()[7];
  }

  lemma CompatibleZones(pairs: seq<Pair>, frame: Frame, i: nat, j: nat)
    requires Compatible(pairs) && i < |pairs| && j < |pairs| && pairs[i].Key() == pairs[j].Key()
    ensures ZoneOf(pairs[i], frame) == ZoneOf(pairs[j], frame)
  {
    SameKeySameSource(pairs[i], pairs[j]);
    if i != j {
      var a, b := pairs[if i < j then i else j], pairs[if i < j then j else i];
      assert SameBands(a.rule, b.rule);
      SameBandsIff(a.rule, b.rule);
    }
  }

  lemma CompatibleIsSilent(states: States, frame: Frame, pairs: seq<Pair>)
    requires Compatible(pairs)
    ensures RestepSilent(states, frame, pairs)
  {
    forall key
      ensures AllEqual(KeyZones(pairs, frame, key))
    {
      var zones := KeyZones(pairs, frame, key);
      forall a, b | 0 <= a < |zones| && 0 <= b < |zones|
        ensures zones[a] == zones[b]
      {
        var i := ZoneHasPair(pairs, frame, key, a);
        var j := ZoneHasPair(pairs, frame, key, b);
        CompatibleZones(pairs, frame, i, j);
      }
    }
    RestepSilentIff(states, frame, pairs);
  }

  /** Two pairs that share a key and differ in thresholds alert again at some reading. */
  lemma IncompatibleSpeaks(states: States, pairs: seq<Pair>, i: nat, j: nat) returns (frame: Frame)
    requires i < j < |pairs| && pairs[i].Key() == pairs[j].Key() && !SameBands(pairs[i].rule, pairs[j].rule)
    ensures !RestepSilent(states, frame, pairs)
  {
    SameKeySameSource(pairs[i], pairs[j]);
    SameBandsIff(pairs[i].rule, pairs[j].rule);
    var celsius: int :| ZoneFor(celsius, pairs[i].rule) != ZoneFor(celsius, pairs[j].rule);
    frame := Frame(0, Some(celsius), Some(celsius));
    DifferentZonesRepeat(states, frame, pairs, i, j);
  }

  /**
   * The step is idempotent per frame, whatever the states and the readings, exactly when active pairs
   * that share a key have the same thresholds; in particular when keys are distinct.
   */
  lemma IdempotentIffCompatible(pairs: seq<Pair>)
    ensures (forall states, frame :: RestepSilent(states, frame, pairs)) <==> Compatible(pairs)
    ensures KeysDistinct(pairs) ==> Compatible(pairs)
  {
    if Compatible(pairs) {
      forall states, frame
        ensures RestepSilent(states, frame, pairs)
      {
        CompatibleIsSilent(states, frame, pairs);
      }
    } else {
      var i, j :| 0 <= i < j < |pairs| && pairs[i].Key() == pairs[j].Key() && !SameBands(pairs[i].rule, pairs[j].rule);
      var frame := IncompatibleSpeaks(map[], pairs, i, j);
      assert !RestepSilent(map[], frame, pairs);
    }
  }

  /** Re-running the same frame emits nothing when keys are distinct. */
  lemma Idempotent(states: States, frame: Frame, pairs: seq<Pair>)
    requires KeysDistinct(pairs)
    ensures VisitAll(VisitAll(states, frame, pairs).states, frame, pairs) == Step(VisitAll(states, frame, pairs).states, [])
  {
    CompatibleIsSilent(states, frame, pairs);
  }

  // --- When keys are distinct -------------------------------------------------------------------

  predicate Plain(id: string) {
    ':' !in id
  }

  lemma FirstColon(a: string, x: string)
    requires Plain(a)
    ensures (a + "::" + x)[|a|] == ':' && forall k :: 0 <= k < |a| ==> (a + "::" + x)[k] != ':'
  {
    forall k | 0 <= k < |a|
      ensures (a + "::" + x)[k] != ':'
    {
      assert (a + "::" + x)[k] == a[k];
    }
  }

  lemma SplitAtSeparator(a: string, b: string, x: string, y: string)
    requires Plain(a) && Plain(b) && a + "::" + x == b + "::" + y
    ensures a == b && x == y
  {
    var s, t := a + "::" + x, b + "::" + y;
    FirstColon(a, x);
    FirstColon(b, y);
    assert |a| == |b|;
    assert s[..|a|] == a && t[..|b|] == b;
    assert s[|a| + 2..] == x && t[|b| + 2..] == y;
  }

  /** Ids without a colon never share a composite key unless they are the same. */
  lemma PlainKeysInjective(r: string, u: string, a: Source, r': string, u': string, b: Source)
    requires Plain(r) && Plain(r') && Plain(u) && Plain(u') && RuleStateKey(r, u, a) == RuleStateKey(r', u', b)
    ensures r == r' && u == u' && a == b
  {
    assert RuleStateKey(r, u, a) == r + "::" + (u + "::" + a.Name());
    assert RuleStateKey(r', u', b) == r' + "::" + (u' + "::" + b.Name());
    SplitAtSeparator(r, r', u + "::" + a.Name(), u' + "::" + b.Name());
    SplitAtSeparator(u, u', a.Name(), b.Name());
    assert a.Name()[7] == b.Name()[7];
  }

  predicate UniqueIds(rules: seq<Rule>, recipients: seq<Recipient>) {
    && (forall i, j :: 0 <= i < j < |rules| ==> rules[i].id != rules[j].id)
    && (forall i, j :: 0 <= i < j < |recipients| ==> recipients[i].id != recipients[j].id)
  }

  /** Unique ids alone do not keep keys apart: two recipients and two rules that collide. */
  lemma UniqueIdsMayCollide() returns (rules: seq<Rule>, recipients: seq<Recipient>)
    ensures UniqueIds(rules, recipients) && !Independent(Active(rules, recipients))
  {
    var p, q := Recipient("a", "", true), Recipient("a::b", "", true);
    var u, v := Rule("b::c", Sensor1, 0, 1, true, "a", "", "", ""), Rule("c", Sensor1, 0, 1, true, "a::b", "", "", "");
    rules, recipients := [u, v], [p, q];
    assert |"a"| != |"a::b"| && |"b::c"| != |"c"|;
    OnePairEach(p, u, q, v);
    SameKey("a", "b", "c", "SENSOR_1");
    var pairs := Active(rules, recipients);
    assert !KeysDistinct(pairs) by {
      assert pairs[0].Key() == pairs[1].Key();
    }
    IndependentIffDistinct(pairs);
  }

  /** The separator inside an id is indistinguishable from the one between ids. */
  lemma SameKey(a: string, b: string, c: string, d: string)
    ensures a + "::" + (b + "::" + c) + "::" + d == (a + "::" + b) + "::" + c + "::" + d
  {
  }

  /** Two recipients, each with a rule of its own. */
  lemma OnePairEach(p: Recipient, u: Rule, q: Recipient, v: Rule)
    requires Applies(p, u) && !Applies(p, v) && !Applies(q, u) && Applies(q, v)
    ensures Active([u, v], [p, q]) == [Pair(p, u), Pair(q, v)]
  {
    var rules, recipients := [u, v], [p, q];
    assert rules[..1] == [u] && [u][..0] == [] && recipients[..1] == [p] && [p][..0] == [];
    assert PairsOf(p, [u]) == [Pair(p, u)] && PairsOf(q, [u]) == [];
    assert PairsOf(p, rules) == [Pair(p, u)] && PairsOf(q, rules) == [Pair(q, v)];
    assert Active(rules, [p]) == [Pair(p, u)];
  }

  /** Such pairs alert on every pass over one frame: high thresholds 40 and 100 at a reading of 50. */
  lemma CollidingPairsRepeat() returns (rules: seq<Rule>, recipients: seq<Recipient>)
    ensures UniqueIds(rules, recipients)
    ensures !RestepSilent(map[], Frame(0, Some(50), None), Active(rules, recipients))
  {
    var p, q := Recipient("a", "", true), Recipient("a::b", "", true);
    var u, v := Rule("b::c", Sensor1, 0, 40, true, "a", "", "", ""), Rule("c", Sensor1, 0, 100, true, "a::b", "", "", "");
    var frame := Frame(0, Some(50), None);
    rules, recipients := [u, v], [p, q];
    assert |"a"| != |"a::b"| && |"b::c"| != |"c"|;
    OnePairEach(p, u, q, v);
    SameKey("a", "b", "c", "SENSOR_1");
    DifferentZonesRepeat(map[], frame, [Pair(p, u), Pair(q, v)], 0, 1);
  }
}
