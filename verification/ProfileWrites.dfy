/** The write queue in front of the profile records (`createRequestHandler`): requests that change
    profiles run one behind the other, while arrivals and failures come at any time. */
module ProfileWrites {
  import opened Options
  import opened ProfileNames
  import opened ProfileStore

  const MAX_PENDING: nat := 50

  /** A request reads the records, works on that snapshot, and may write a new list. A read that
      fails is not noticed: it yields no records. */
  datatype Phase = Begun | Loaded(snapshot: seq<Record>, complete: bool) | Settled

  /** What became of a settled request: it worked on the stored records, on none because its read
      failed, or the handler threw and left the file alone. */
  datatype Effect = OnRecords | OnNothing | Thrown

  datatype Running = Running(request: Request, phase: Phase)

  /** `accepted` and `effects` are the history: the requests not turned away, in arrival order, and
      what became of those settled. */
  datatype State = State(file: seq<Record>, pending: nat, running: Option<Running>, waiting: seq<Request>,
                         accepted: seq<Request>, effects: seq<Effect>, turnedAway: nat)

  datatype Action =
    | Arrive(request: Request)
    | Start    // the previous operation's promise resolved
    | Load(complete: bool) // the file is read, or reading or parsing it fails
    | Commit   // the outcome is known: the list is written, or an answer is sent without writing
    | Fail     // the handler throws before the file is replaced
    | Finally  // the operation's `finally` runs

  function Init(file: seq<Record>): State { State(file, 0, None, [], [], [], 0) }

  predicate InPhase(s: State, p: Phase) { s.running.Some? && s.running.value.phase == p }

  predicate Enabled(s: State, a: Action) {
    match a
    case Arrive(_) => true
    case Start => s.running.None? && s.waiting != []
    case Load(_) => InPhase(s, Begun)
    case Commit => s.running.Some? && s.running.value.phase.Loaded?
    case Fail => s.running.Some? && !s.running.value.phase.Settled?
    case Finally => InPhase(s, Settled) && s.pending > 0
  }

  function Settle(s: State, effect: Effect): State
    requires s.running.Some?
  {
    s.(running := Some(s.running.value.(phase := Settled)), effects := s.effects + [effect])
  }

  function Do(s: State, a: Action): State
    requires Enabled(s, a)
  {
    match a
    case Arrive(q) =>
      if s.pending >= MAX_PENDING then s.(turnedAway := s.turnedAway + 1)
      else s.(pending := s.pending + 1, waiting := s.waiting + [q], accepted := s.accepted + [q])
    case Start => s.(running := Some(Running(s.waiting[0], Begun)), waiting := s.waiting[1..])
    case Load(complete) =>
      s.(running := Some(s.running.value.(phase := Loaded(if complete then ReadRecords(s.file) else [], complete))))
    case Commit =>
      var phase := s.running.value.phase;
      var outcome := OutcomeOf(phase.snapshot, s.running.value.request);
      Settle(s, if phase.complete then OnRecords else OnNothing).(file := if outcome.Written? then outcome.records else s.file)
    case Fail => Settle(s, Thrown)
    case Finally => s.(running := None, pending := s.pending - 1)
  }

  function AfterEffect(file: seq<Record>, q: Request, effect: Effect): seq<Record> {
    match effect
    case OnRecords => Apply(file, q)
    case OnNothing => ApplyTo([], file, q)
    case Thrown => file
  }

  /** One request at a time, in arrival order. */
  function Replay(file: seq<Record>, accepted: seq<Request>, effects: seq<Effect>): seq<Record>
    requires |effects| <= |accepted|
  {
    if effects == [] then file
    else
      var k := |effects| - 1;
      AfterEffect(Replay(file, accepted, effects[..k]), accepted[k], effects[k])
  }

  function Unsettled(s: State): seq<Request> {
    (if s.running.Some? && !s.running.value.phase.Settled? then [s.running.value.request] else []) + s.waiting
  }

  predicate Inv(file: seq<Record>, s: State) {
    && s.pending == |s.waiting| + (if s.running.Some? then 1 else 0)
    && s.pending <= MAX_PENDING
    && |s.effects| <= |s.accepted|
    && s.accepted[|s.effects|..] == Unsettled(s)
    && s.file == Replay(file, s.accepted, s.effects)
    && (s.running.Some? && s.running.value.phase.Loaded? ==>
          s.running.value.phase.snapshot == if s.running.value.phase.complete then ReadRecords(s.file) else [])
  }

  lemma {:induction false} ReplayPrefix(file: seq<Record>, accepted: seq<Request>, q: Request, effects: seq<Effect>)
    requires |effects| <= |accepted|
    ensures Replay(file, accepted + [q], effects) == Replay(file, accepted, effects)
  {
    hide AfterEffect;
    if effects != [] {
      ReplayPrefix(file, accepted, q, effects[..|effects| - 1]);
    }
  }

  lemma SettleKeeps(file: seq<Record>, s: State, effect: Effect, file': seq<Record>)
    requires Inv(file, s) && s.running.Some? && !s.running.value.phase.Settled?
    requires file' == AfterEffect(s.file, s.running.value.request, effect)
    ensures Inv(file, Settle(s, effect).(file := file'))
  {
    hide AfterEffect, ReadRecords;
    var k := |s.effects|;
    assert s.accepted[k] == s.accepted[k..][0] == s.running.value.request;
    assert (s.effects + [effect])[..k] == s.effects;
    assert s.accepted[k + 1..] == s.accepted[k..][1..];
  }

  lemma StepKeeps(file: seq<Record>, s: State, a: Action)
    requires Inv(file, s) && Enabled(s, a)
    ensures Inv(file, Do(s, a))
  {
    hide OutcomeOf, ReadRecords, Replay;
    match a
    case Arrive(q) =>
      if s.pending < MAX_PENDING {
        ReplayPrefix(file, s.accepted, q, s.effects);
        assert (s.accepted + [q])[|s.effects|..] == s.accepted[|s.effects|..] + [q];
      }
    case Start => assert s.waiting == [s.waiting[0]] + s.waiting[1..];
    case Load(_) =>
    case Commit =>
      var effect := if s.running.value.phase.complete then OnRecords else OnNothing;
      SettleKeeps(file, s, effect, AfterEffect(s.file, s.running.value.request, effect));
    case Fail => SettleKeeps(file, s, Thrown, s.file);
    case Finally =>
  }

  predicate Possible(s: State, actions: seq<Action>)
    decreases |actions|
  {
    actions == [] || (Enabled(s, actions[0]) && Possible(Do(s, actions[0]), actions[1..]))
  }

  function Run(s: State, actions: seq<Action>): State
    requires Possible(s, actions)
    decreases |actions|
  {
    if actions == [] then s else Run(Do(s, actions[0]), actions[1..])
  }

  lemma {:induction false} RunKeeps(file: seq<Record>, s: State, actions: seq<Action>)
    requires Inv(file, s) && Possible(s, actions)
    ensures Inv(file, Run(s, actions))
    decreases |actions|
  {
    hide Inv, Do, Enabled;
    if actions != [] {
      StepKeeps(file, s, actions[0]);
      RunKeeps(file, Do(s, actions[0]), actions[1..]);
    }
  }

  /** Under every interleaving the stored records are those of the settled requests applied one at
      a time in arrival order; at most 50 are pending, and what is not settled is still queued in
      arrival order. */
  lemma WritesLinearise(file: seq<Record>, actions: seq<Action>)
    requires Possible(Init(file), actions)
    ensures var s := Run(Init(file), actions);
      && |s.effects| <= |s.accepted|
      && s.file == Replay(file, s.accepted, s.effects)
      && s.accepted[|s.effects|..] == Unsettled(s)
      && s.pending <= 50 && (s.pending == 0 ==> |s.effects| == |s.accepted|)
  {
    hide Do, Enabled;
    RunKeeps(file, Init(file), actions);
  }

  /** One settled request after the other: on the stored records, on none at all, or thrown. */
  lemma ReplayedInTurn(file: seq<Record>, accepted: seq<Request>, effects: seq<Effect>, k: nat)
    requires k < |effects| <= |accepted|
    ensures var before, after := Replay(file, accepted, effects[..k]), Replay(file, accepted, effects[..k + 1]);
      var read := if effects[k].OnRecords? then ReadRecords(before) else [];
      var outcome := if accepted[k].Link? then LinkOutcome(read, accepted[k]) else TransferOutcome(read, accepted[k]);
      after == if effects[k].Thrown? || outcome.Answered? then before else outcome.records
  {
    hide ReadRecords, LinkOutcome, TransferOutcome;
    assert effects[..k + 1][..k] == effects[..k];
  }

  /** An arrival is turned away exactly while 50 requests are pending, and changes nothing else. */
  lemma {:induction false} EveryArrivalCounts(s: State, actions: seq<Action>)
    requires Possible(s, actions)
    ensures var end := Run(s, actions);
      |end.accepted| + end.turnedAway == |s.accepted| + s.turnedAway + Arrivals(actions)
    ensures forall q: Request ::
              var end := Run(s, actions);
              Do(end, Arrive(q)) == if end.pending < 50
                                    then end.(pending := end.pending + 1, waiting := end.waiting + [q], accepted := end.accepted + [q])
                                    else end.(turnedAway := end.turnedAway + 1)
    decreases |actions|
  {
    hide OutcomeOf, ReadRecords;
    if actions != [] {
      EveryArrivalCounts(Do(s, actions[0]), actions[1..]);
    }
  }

  function Arrivals(actions: seq<Action>): nat {
    if actions == [] then 0 else (if actions[0].Arrive? then 1 else 0) + Arrivals(actions[1..])
  }

  predicate ReadsComplete(s: State) {
    OnNothing !in s.effects && (s.running.Some? && s.running.value.phase.Loaded? ==> s.running.value.phase.complete)
  }

  /** As long as no read fails, every request that is not thrown works on the stored records. */
  lemma {:induction false} EveryRequestSeesTheRecords(s: State, actions: seq<Action>)
    requires Possible(s, actions) && ReadsComplete(s) && Load(false) !in actions
    ensures ReadsComplete(Run(s, actions))
    decreases |actions|
  {
    hide OutcomeOf, ReadRecords;
    if actions != [] {
      assert actions[0] in actions;
      EveryRequestSeesTheRecords(Do(s, actions[0]), actions[1..]);
    }
  }

  /** The steps still ahead of the pending requests. */
  function Work(s: State): nat {
    4 * |s.waiting| +
    match s.running
    case None => 0
    case Some(Running(_, Begun)) => 3
    case Some(Running(_, Loaded(_, _))) => 2
    case Some(Running(_, Settled)) => 1
  }

  /** Failures do not block: while requests are pending some step of theirs is possible, and each
      such step, a failure too, brings the queue closer to empty. */
  lemma FailuresDoNotBlock(file: seq<Record>, s: State)
    requires Inv(file, s)
    ensures s.pending > 0 ==> exists a: Action :: !a.Arrive? && Enabled(s, a)
    ensures forall a: Action | !a.Arrive? && Enabled(s, a) :: Work(Do(s, a)) < Work(s)
  {
    hide OutcomeOf, ReadRecords, Replay;
    if s.pending > 0 {
      var a := if s.running.None? then Start
               else if s.running.value.phase.Begun? then Load(true)
               else if s.running.value.phase.Loaded? then Commit
               else Finally;
      assert !a.Arrive? && Enabled(s, a);
    }
  }

  lemma {:induction false} ReplayKeepsRoutes(file: seq<Record>, accepted: seq<Request>, effects: seq<Effect>)
    requires Fixed(file) && Distinct(file) && |effects| <= |accepted|
    requires forall q | q in accepted :: Plain(q)
    ensures var records := Replay(file, accepted, effects); Fixed(records) && Distinct(records)
  {
    hide ApplyTo, Fixed, Distinct, Plain, ReadRecords;
    if effects != [] {
      var k := |effects| - 1;
      ReplayKeepsRoutes(file, accepted, effects[..k]);
      var before := Replay(file, accepted, effects[..k]);
      FixedReads(before);
      NoRecords();
      RequestKeepsRoutes(before, before, accepted[k]);
      RequestKeepsRoutes([], before, accepted[k]);
    }
  }

  lemma NoRecords()
    ensures Fixed([]) && Distinct([])
  {}

  /** Without route overrides no two records ever share a route, in any interleaving and however
      many reads fail. */
  lemma RoutesStayDistinct(file: seq<Record>, actions: seq<Action>)
    requires Fixed(file) && Distinct(file) && Possible(Init(file), actions)
    requires forall q | q in Run(Init(file), actions).accepted :: Plain(q)
    ensures var s := Run(Init(file), actions);
      && (forall i, j | 0 <= i < j < |s.file| :: s.file[i].slug != s.file[j].slug)
      && ReadRecords(s.file) == s.file
  {
    hide Fixed, Distinct, Plain, Run, Possible, ReadRecords;
    WritesLinearise(file, actions);
    var s := Run(Init(file), actions);
    ReplayKeepsRoutes(file, s.accepted, s.effects);
    FixedReads(s.file);
    DistinctPairs(s.file);
  }

  /** A failed read that is followed by an accepted link loses every other profile. */
  lemma FailedReadLosesTheRest(file: seq<Record>, q: Request)
    requires q.Link?
    ensures OutcomeOf([], q).Written? ==> |AfterEffect(file, q, OnNothing)| == 1
  {
    hide LinkCheck, NormalizeProfileInput, LinkedRecord;
    CheckedName(q);
    if OutcomeOf([], q).Written? {
      var n := NormalizeProfileInput(q.name, q.source).value;
      var r := LinkedRecord([], q, n);
      assert Without([], ById(LinkIdentity(q, n))) + [r] == [r];
      OneSorted(r);
    }
  }
}
