/** The wallet sign-in protocol of the web client (apps/web/lib/walletSession.ts): a generation
    counter, a queue of authenticated requests, a logout barrier and one pending sign-in,
    interleaved in every order the event loop allows. */
module WalletSession {
  import opened Options

  /** Where a sign-in is suspended. */
  datatype Point =
    | AwaitBarrier             // `await logoutBarrier`
    | AwaitMutations(upTo: nat) // `await mutations`, the queue as it was then
    | Reading                  // the GET of the current session is in flight
    | AwaitChallenge(task: nat)
    | Prompting                // the wallet asks its user to sign
    | AwaitVerify(task: nat)
    | Settled(ok: bool)

  datatype SignIn = SignIn(generation: nat, key: string, point: Point)

  datatype TaskKind = Logout | Challenge | Verify
  datatype TaskStatus = Waiting | Running | Done(ok: bool)
  datatype Task = Task(kind: TaskKind, generation: nat, status: TaskStatus)

  /** A request that left the client: which sign-in generation it belongs to, and which
      generation was current when it left. */
  datatype Issue = Issue(kind: TaskKind, generation: nat, current: nat)

  /** `logouts[g - 1]` is the task whose promise is the barrier of generation g; generation 0 has
      a barrier that resolved before anything happened. `session` is the generation of the
      sign-in that created the server's session; one found at start counts as generation 0. */
  datatype State = State(generation: nat, tasks: seq<Task>, logouts: seq<nat>, pending: Option<nat>, signIns: seq<SignIn>,
                         session: Option<nat>, issued: seq<Issue>)

  datatype ReadResult = ReadFailed | AlreadySignedIn | NotSignedIn

  datatype Action =
    | Ensure(key: string)              // ensureWalletSession is called
    | Clear                            // clearWalletSession is called
    | BarrierSettled(signIn: nat)
    | MutationsSettled(signIn: nat)
    | ReadDone(signIn: nat, result: ReadResult)
    | ChallengeDone(signIn: nat)
    | Signed(signIn: nat, approved: bool)
    | VerifyDone(signIn: nat)
    | PendingReleased(signIn: nat)     // the `finally` of a settled sign-in
    | StartTask(task: nat)
    | ServerActs(task: nat)            // the server carries out a request in flight
    | FinishTask(task: nat, ok: bool)

  function Init(session: Option<nat>): State
    requires session.Some? ==> session.value == 0
  {
    State(0, [], [], None, [], session, [])
  }

  predicate WellTyped(s: State) {
    && |s.logouts| == s.generation
    && (forall g | 0 <= g < |s.logouts| :: s.logouts[g] < |s.tasks|)
    && (s.pending.Some? ==> s.pending.value < |s.signIns|)
    && (forall i | 0 <= i < |s.signIns| :: s.signIns[i].generation <= s.generation &&
          (s.signIns[i].point.AwaitMutations? ==> s.signIns[i].point.upTo <= |s.tasks|) &&
          (s.signIns[i].point.AwaitChallenge? || s.signIns[i].point.AwaitVerify? ==> s.signIns[i].point.task < |s.tasks|))
  }

  /** The status of the barrier of a generation. */
  function Barrier(s: State, generation: nat): TaskStatus
    requires WellTyped(s) && generation <= s.generation
  {
    if generation == 0 then Done(true) else s.tasks[s.logouts[generation - 1]].status
  }

  /** The promise a sign-in waits for has settled. */
  predicate PreviousDone(s: State, n: nat)
    requires n <= |s.tasks|
  {
    n == 0 || s.tasks[n - 1].status.Done?
  }

  predicate Enabled(s: State, a: Action)
    requires WellTyped(s)
  {
    match a
    case Ensure(_) => true
    case Clear => true
    case BarrierSettled(i) =>
      i < |s.signIns| && s.signIns[i].point.AwaitBarrier? && Barrier(s, s.signIns[i].generation).Done?
    case MutationsSettled(i) =>
      i < |s.signIns| && s.signIns[i].point.AwaitMutations? && PreviousDone(s, s.signIns[i].point.upTo)
    case ReadDone(i, _) => i < |s.signIns| && s.signIns[i].point.Reading?
    case ChallengeDone(i) =>
      i < |s.signIns| && s.signIns[i].point.AwaitChallenge? && s.tasks[s.signIns[i].point.task].status.Done?
    case Signed(i, _) => i < |s.signIns| && s.signIns[i].point.Prompting?
    case VerifyDone(i) =>
      i < |s.signIns| && s.signIns[i].point.AwaitVerify? && s.tasks[s.signIns[i].point.task].status.Done?
    case PendingReleased(i) => i < |s.signIns| && s.signIns[i].point.Settled?
    case StartTask(t) => t < |s.tasks| && s.tasks[t].status.Waiting? && PreviousDone(s, t)
    case ServerActs(t) => t < |s.tasks| && s.tasks[t].status.Running?
    case FinishTask(t, ok) =>
      t < |s.tasks| && s.tasks[t].status.Running? &&
      // a logout succeeds only after its own check found no session
      (s.tasks[t].kind.Logout? && ok ==> s.session.None?)
  }

  function MoveTo(s: State, i: nat, point: Point): State
    requires i < |s.signIns|
  {
    s.(signIns := s.signIns[i := s.signIns[i].(point := point)])
  }

  function SetStatus(s: State, t: nat, status: TaskStatus): State
    requires t < |s.tasks|
  {
    s.(tasks := s.tasks[t := s.tasks[t].(status := status)])
  }

  /** `mutate`: one more request at the end of the queue. */
  function Enqueue(s: State, kind: TaskKind, generation: nat): State {
    s.(tasks := s.tasks + [Task(kind, generation, Waiting)])
  }

  predicate IsCurrent(s: State, i: nat)
    requires i < |s.signIns|
  {
    s.signIns[i].generation == s.generation
  }

  function Do(s: State, a: Action): State
    requires WellTyped(s) && Enabled(s, a)
  {
    match a
    case Ensure(key) =>
      if s.pending.Some? && IsCurrent(s, s.pending.value) then s
      else s.(signIns := s.signIns + [SignIn(s.generation, key, AwaitBarrier)], pending := Some(|s.signIns|))
    case Clear =>
      Enqueue(s, Logout, s.generation + 1).(generation := s.generation + 1, pending := None, logouts := s.logouts + [|s.tasks|])
    case BarrierSettled(i) =>
      MoveTo(s, i, if Barrier(s, s.signIns[i].generation).ok then AwaitMutations(|s.tasks|) else Settled(false))
    case MutationsSettled(i) => MoveTo(s, i, Reading)
    case ReadDone(i, result) =>
      if result.ReadFailed? || !IsCurrent(s, i) then MoveTo(s, i, Settled(false))
      else if result.AlreadySignedIn? then MoveTo(s, i, Settled(true))
      else MoveTo(Enqueue(s, Challenge, s.generation), i, AwaitChallenge(|s.tasks|))
    case ChallengeDone(i) =>
      if !s.tasks[s.signIns[i].point.task].status.ok || !IsCurrent(s, i) then MoveTo(s, i, Settled(false))
      else MoveTo(s, i, Prompting)
    case Signed(i, approved) =>
      if !approved || !IsCurrent(s, i) then MoveTo(s, i, Settled(false))
      else MoveTo(Enqueue(s, Verify, s.generation), i, AwaitVerify(|s.tasks|))
    case VerifyDone(i) =>
      MoveTo(s, i, Settled(s.tasks[s.signIns[i].point.task].status.ok && IsCurrent(s, i)))
    case PendingReleased(i) => if s.pending == Some(i) then s.(pending := None) else s
    case StartTask(t) =>
      var task := s.tasks[t];
      if task.kind.Logout? || task.generation == s.generation then
        SetStatus(s, t, Running).(issued := s.issued + [Issue(task.kind, task.generation, s.generation)])
      else SetStatus(s, t, Done(false))
    case ServerActs(t) =>
      match s.tasks[t].kind {
        case Logout => s.(session := None)
        case Challenge => s
        case Verify => s.(session := Some(s.tasks[t].generation))
      }
    case FinishTask(t, ok) => SetStatus(s, t, Done(ok))
  }

  // ----- the invariant -----

  /** The queue runs one task at a time, in order. */
  predicate QueueInOrder(s: State) {
    forall t | 0 < t < |s.tasks| :: !s.tasks[t].status.Waiting? ==> s.tasks[t - 1].status.Done?
  }

  /** Tasks are queued generation by generation, and the logout of a generation comes first. */
  predicate QueueByGeneration(s: State)
    requires WellTyped(s)
  {
    && (forall t | 0 <= t < |s.tasks| :: s.tasks[t].generation <= s.generation)
    && (forall g | 0 <= g < s.generation :: s.tasks[s.logouts[g]].kind == Logout)
    && (forall g, t | 0 <= g < s.generation && 0 <= t < |s.tasks| ::
          s.tasks[t].generation <= g <==> t < s.logouts[g])
  }

  /** Past the barrier there are only sign-ins, requests and issues of generations whose logout
      succeeded. */
  predicate BarrierHeld(s: State)
    requires WellTyped(s)
  {
    && (forall i | 0 <= i < |s.signIns| ::
          s.signIns[i].point.AwaitBarrier? || s.signIns[i].point.Settled? || Barrier(s, s.signIns[i].generation) == Done(true))
    && (forall t | 0 <= t < |s.tasks| && !s.tasks[t].kind.Logout? ::
          s.tasks[t].generation <= s.generation && Barrier(s, s.tasks[t].generation) == Done(true))
    && (forall k | 0 <= k < |s.issued| && !s.issued[k].kind.Logout? ::
          s.issued[k].generation == s.issued[k].current <= s.generation && Barrier(s, s.issued[k].generation) == Done(true))
  }

  predicate OneSignInPerGeneration(s: State)
    requires WellTyped(s)
  {
    && (forall i, j | 0 <= i < j < |s.signIns| && s.signIns[i].generation == s.signIns[j].generation ::
          s.signIns[i].point.Settled?)
    && (forall i | 0 <= i < |s.signIns| && s.signIns[i].generation == s.generation && !s.signIns[i].point.Settled? ::
          s.pending == Some(i))
  }

  predicate SessionSafe(s: State)
    requires WellTyped(s)
  {
    Barrier(s, s.generation) == Done(true) ==> s.session.None? || s.session.value == s.generation
  }

  predicate Inv(s: State) {
    WellTyped(s) && QueueInOrder(s) && QueueByGeneration(s) && BarrierHeld(s) && OneSignInPerGeneration(s) && SessionSafe(s)
  }

  lemma InitInv(session: Option<nat>)
    requires session.Some? ==> session.value == 0
    ensures Inv(Init(session))
  {}

  lemma {:induction false} DoneBefore(s: State, t: nat, u: nat)
    requires QueueInOrder(s) && t < u < |s.tasks| && !s.tasks[u].status.Waiting?
    ensures s.tasks[t].status.Done?
    decreases u
  {
    if t < u - 1 {
      DoneBefore(s, t, u - 1);
    }
  }

  /** At most one request of the queue is in flight. */
  lemma OneInFlight(s: State, t: nat, u: nat)
    requires Inv(s) && t < |s.tasks| && u < |s.tasks| && s.tasks[t].status.Running? && s.tasks[u].status.Running?
    ensures t == u
  {
    if t < u {
      DoneBefore(s, t, u);
    } else if u < t {
      DoneBefore(s, u, t);
    }
  }

  lemma ClearTyped(s: State)
    requires Inv(s)
    ensures var s' := Do(s, Clear);
      WellTyped(s') && (forall g: nat | g <= s.generation :: Barrier(s', g) == Barrier(s, g)) &&
      Barrier(s', s'.generation) == Waiting
  {}

  lemma ClearKeepsQueue(s: State)
    requires Inv(s) && WellTyped(Do(s, Clear))
    ensures var s' := Do(s, Clear); QueueInOrder(s') && QueueByGeneration(s')
  {
    hide BarrierHeld, OneSignInPerGeneration, SessionSafe;
  }

  lemma ClearKeeps(s: State)
    requires Inv(s)
    ensures Inv(Do(s, Clear))
  {
    ClearTyped(s);
    ClearKeepsQueue(s);
    hide QueueInOrder, QueueByGeneration, Barrier;
    var s' := Do(s, Clear);
    assert BarrierHeld(s') && OneSignInPerGeneration(s') && SessionSafe(s');
  }

  lemma EnsureKeeps(s: State, key: string)
    requires Inv(s)
    ensures Inv(Do(s, Ensure(key)))
  {
    var s' := Do(s, Ensure(key));
    assert WellTyped(s') && forall g: nat | g <= s.generation :: Barrier(s', g) == Barrier(s, g);
    assert QueueInOrder(s') && QueueByGeneration(s');
    hide QueueInOrder, QueueByGeneration, Barrier;
    assert BarrierHeld(s') && OneSignInPerGeneration(s') && SessionSafe(s');
  }

  /** Steps of one sign-in: its point moves, and at most one task joins the queue, of the current
      generation, whose barrier the sign-in has passed. */
  predicate SignInStep(s: State, i: nat, point: Point, kind: Option<TaskKind>) {
    && Inv(s) && i < |s.signIns| && !s.signIns[i].point.Settled? && !point.AwaitBarrier?
    && (point.Settled? || Barrier(s, s.signIns[i].generation) == Done(true))
    && (kind.Some? ==> !kind.value.Logout? && IsCurrent(s, i) && !point.Settled?)
    && var n := |s.tasks| + (if kind.Some? then 1 else 0);
      (point.AwaitMutations? ==> point.upTo <= n) && (point.AwaitChallenge? || point.AwaitVerify? ==> point.task < n)
  }

  function AfterSignInStep(s: State, i: nat, point: Point, kind: Option<TaskKind>): State
    requires i < |s.signIns|
  {
    MoveTo(if kind.Some? then Enqueue(s, kind.value, s.generation) else s, i, point)
  }

  lemma SignInStepTyped(s: State, i: nat, point: Point, kind: Option<TaskKind>)
    requires SignInStep(s, i, point, kind)
    ensures var s' := AfterSignInStep(s, i, point, kind);
      WellTyped(s') && (forall g: nat | g <= s.generation :: Barrier(s', g) == Barrier(s, g))
  {}

  lemma SignInStepKeepsQueue(s: State, i: nat, point: Point, kind: Option<TaskKind>)
    requires SignInStep(s, i, point, kind) && WellTyped(AfterSignInStep(s, i, point, kind))
    ensures var s' := AfterSignInStep(s, i, point, kind); QueueInOrder(s') && QueueByGeneration(s')
  {
    hide BarrierHeld, OneSignInPerGeneration, SessionSafe;
  }

  lemma SignInStepKeepsBarrier(s: State, i: nat, point: Point, kind: Option<TaskKind>)
    requires SignInStep(s, i, point, kind) && WellTyped(AfterSignInStep(s, i, point, kind))
    requires forall g: nat | g <= s.generation :: Barrier(AfterSignInStep(s, i, point, kind), g) == Barrier(s, g)
    ensures var s' := AfterSignInStep(s, i, point, kind); BarrierHeld(s') && SessionSafe(s')
  {
    hide QueueInOrder, QueueByGeneration, OneSignInPerGeneration, Barrier;
  }

  lemma SignInStepKeepsOne(s: State, i: nat, point: Point, kind: Option<TaskKind>)
    requires SignInStep(s, i, point, kind) && WellTyped(AfterSignInStep(s, i, point, kind))
    ensures OneSignInPerGeneration(AfterSignInStep(s, i, point, kind))
  {
    hide QueueInOrder, QueueByGeneration, BarrierHeld, SessionSafe;
  }

  lemma SignInStepKeeps(s: State, i: nat, point: Point, kind: Option<TaskKind>)
    requires SignInStep(s, i, point, kind)
    ensures Inv(AfterSignInStep(s, i, point, kind))
  {
    hide QueueInOrder, QueueByGeneration, BarrierHeld, OneSignInPerGeneration, SessionSafe, WellTyped, AfterSignInStep, SignInStep;
    SignInStepTyped(s, i, point, kind);
    SignInStepKeepsQueue(s, i, point, kind);
    SignInStepKeepsBarrier(s, i, point, kind);
    SignInStepKeepsOne(s, i, point, kind);
  }

  lemma PendingReleasedKeeps(s: State, i: nat)
    requires Inv(s) && Enabled(s, PendingReleased(i))
    ensures Inv(Do(s, PendingReleased(i)))
  {
    var s' := Do(s, PendingReleased(i));
    forall g: nat | g <= s.generation
      ensures Barrier(s', g) == Barrier(s, g)
    {}
  }

  /** A task of the queue starts or settles. */
  predicate StatusStep(s: State, t: nat, status: TaskStatus) {
    && Inv(s) && t < |s.tasks| && !s.tasks[t].status.Done? && !status.Waiting? && PreviousDone(s, t)
    && (s.tasks[t].kind.Logout? && status == Done(true) ==> s.session.None?)
  }

  lemma StatusStepTyped(s: State, t: nat, status: TaskStatus)
    requires StatusStep(s, t, status)
    ensures var s' := SetStatus(s, t, status);
      WellTyped(s') && forall g: nat | g <= s.generation && Barrier(s, g).Done? :: Barrier(s', g) == Barrier(s, g)
  {}

  lemma StatusStepKeepsQueue(s: State, t: nat, status: TaskStatus)
    requires StatusStep(s, t, status) && WellTyped(SetStatus(s, t, status))
    ensures var s' := SetStatus(s, t, status); QueueInOrder(s') && QueueByGeneration(s')
  {
    hide BarrierHeld, OneSignInPerGeneration, SessionSafe;
  }

  lemma StatusStepKeepsRest(s: State, t: nat, status: TaskStatus)
    requires StatusStep(s, t, status) && WellTyped(SetStatus(s, t, status))
    requires forall g: nat | g <= s.generation && Barrier(s, g).Done? :: Barrier(SetStatus(s, t, status), g) == Barrier(s, g)
    ensures var s' := SetStatus(s, t, status); BarrierHeld(s') && OneSignInPerGeneration(s') && SessionSafe(s')
  {
    hide QueueInOrder;
  }

  lemma StatusStepKeeps(s: State, t: nat, status: TaskStatus)
    requires StatusStep(s, t, status)
    ensures Inv(SetStatus(s, t, status))
  {
    hide QueueInOrder, QueueByGeneration, BarrierHeld, OneSignInPerGeneration, SessionSafe, WellTyped, SetStatus, StatusStep;
    StatusStepTyped(s, t, status);
    StatusStepKeepsQueue(s, t, status);
    StatusStepKeepsRest(s, t, status);
  }

  lemma IssueKeeps(s: State, issue: Issue)
    requires Inv(s)
    requires !issue.kind.Logout? ==> issue.generation == issue.current == s.generation && Barrier(s, s.generation) == Done(true)
    ensures Inv(s.(issued := s.issued + [issue]))
  {
    hide QueueInOrder, OneSignInPerGeneration;
    var s' := s.(issued := s.issued + [issue]);
    assert forall g: nat | g <= s.generation :: Barrier(s', g) == Barrier(s, g);
    assert QueueInOrder(s') && OneSignInPerGeneration(s') by {
      IssueIsInvisible(s, issue);
    }
  }

  lemma IssueIsInvisible(s: State, issue: Issue)
    requires WellTyped(s) && QueueInOrder(s) && OneSignInPerGeneration(s)
    ensures var s' := s.(issued := s.issued + [issue]); WellTyped(s') && QueueInOrder(s') && OneSignInPerGeneration(s')
  {}

  lemma StartTaskKeeps(s: State, t: nat)
    requires Inv(s) && Enabled(s, StartTask(t))
    ensures Inv(Do(s, StartTask(t)))
  {
    hide QueueInOrder, OneSignInPerGeneration, SessionSafe;
    var task := s.tasks[t];
    if task.kind.Logout? || task.generation == s.generation {
      StatusStepKeeps(s, t, Running);
      var s' := SetStatus(s, t, Running);
      assert !task.kind.Logout? ==> Barrier(s', s.generation) == Done(true);
      IssueKeeps(s', Issue(task.kind, task.generation, s.generation));
    } else {
      StatusStepKeeps(s, t, Done(false));
    }
  }

  lemma ServerActsKeeps(s: State, t: nat)
    requires Inv(s) && Enabled(s, ServerActs(t))
    ensures Inv(Do(s, ServerActs(t)))
  {
    var s' := Do(s, ServerActs(t));
    forall g: nat | g <= s.generation
      ensures Barrier(s', g) == Barrier(s, g)
    {}
    if s.tasks[t].kind.Verify? && Barrier(s, s.generation) == Done(true) && s.tasks[t].generation < s.generation {
      DoneBefore(s, t, s.logouts[s.generation - 1]);
    }
  }

  lemma FinishTaskKeeps(s: State, t: nat, ok: bool)
    requires Inv(s) && Enabled(s, FinishTask(t, ok))
    ensures Inv(Do(s, FinishTask(t, ok)))
  {
    StatusStepKeeps(s, t, Done(ok));
  }

  /** Every step keeps the invariant. */
  lemma StepKeeps(s: State, a: Action)
    requires Inv(s) && Enabled(s, a)
    ensures Inv(Do(s, a))
  {
    hide QueueInOrder, QueueByGeneration, OneSignInPerGeneration, SessionSafe;
    match a
    case Ensure(key) => EnsureKeeps(s, key);
    case Clear => ClearKeeps(s);
    case BarrierSettled(i) =>
      SignInStepKeeps(s, i, if Barrier(s, s.signIns[i].generation).ok then AwaitMutations(|s.tasks|) else Settled(false), None);
    case MutationsSettled(i) => SignInStepKeeps(s, i, Reading, None);
    case ReadDone(i, result) =>
      if result.ReadFailed? || !IsCurrent(s, i) {
        SignInStepKeeps(s, i, Settled(false), None);
      } else if result.AlreadySignedIn? {
        SignInStepKeeps(s, i, Settled(true), None);
      } else {
        SignInStepKeeps(s, i, AwaitChallenge(|s.tasks|), Some(Challenge));
      }
    case ChallengeDone(i) =>
      if !s.tasks[s.signIns[i].point.task].status.ok || !IsCurrent(s, i) {
        SignInStepKeeps(s, i, Settled(false), None);
      } else {
        SignInStepKeeps(s, i, Prompting, None);
      }
    case Signed(i, approved) =>
      if !approved || !IsCurrent(s, i) {
        SignInStepKeeps(s, i, Settled(false), None);
      } else {
        SignInStepKeeps(s, i, AwaitVerify(|s.tasks|), Some(Verify));
      }
    case VerifyDone(i) =>
      SignInStepKeeps(s, i, Settled(s.tasks[s.signIns[i].point.task].status.ok && IsCurrent(s, i)), None);
    case PendingReleased(i) => PendingReleasedKeeps(s, i);
    case StartTask(t) => StartTaskKeeps(s, t);
    case ServerActs(t) => ServerActsKeeps(s, t);
    case FinishTask(t, ok) => FinishTaskKeeps(s, t, ok);
  }

  // ----- every run -----

  ghost predicate IsRun(states: seq<State>, actions: seq<Action>) {
    && |states| == |actions| + 1
    && (exists session: Option<nat> :: (session.Some? ==> session.value == 0) && states[0] == Init(session))
    && (forall k | 0 <= k < |actions| ::
          WellTyped(states[k]) && Enabled(states[k], actions[k]) && states[k + 1] == Do(states[k], actions[k]))
  }

  lemma {:induction false} RunKeeps(states: seq<State>, actions: seq<Action>, k: nat)
    requires IsRun(states, actions) && k < |states|
    ensures Inv(states[k])
  {
    hide Inv, Do, Enabled, WellTyped;
    if k == 0 {
      var session: Option<nat> :| (session.Some? ==> session.value == 0) && states[0] == Init(session);
      InitInv(session);
    } else {
      RunKeeps(states, actions, k - 1);
      StepKeeps(states[k - 1], actions[k - 1]);
    }
  }

  /** Logout safety: whenever the latest logout has succeeded, the server's session is empty or
      was created by a sign-in of the current generation; and a challenge or a verification
      leaves the client only while its own generation is current. */
  lemma LogoutSafety(states: seq<State>, actions: seq<Action>, k: nat)
    requires IsRun(states, actions) && k < |states|
    ensures var s := states[k];
      && WellTyped(s)
      && (Barrier(s, s.generation) == Done(true) ==> s.session.None? || s.session.value == s.generation)
      && (forall i | 0 <= i < |s.issued| && !s.issued[i].kind.Logout? :: s.issued[i].generation == s.issued[i].current)
  {
    RunKeeps(states, actions, k);
  }

  ghost predicate WritesSession(s: State, a: Action) {
    a.ServerActs? && a.task < |s.tasks| && !s.tasks[a.task].kind.Challenge?
  }

  /** The server's session is what the last logout or verification it carried out left. */
  lemma {:induction false} SessionIsLastWrite(states: seq<State>, actions: seq<Action>, j: nat, k: nat)
    requires IsRun(states, actions) && j < k < |states|
    requires forall m | j < m < k :: !WritesSession(states[m], actions[m])
    ensures states[k].session ==
            if actions[j].ServerActs? && actions[j].task < |states[j].tasks| then
              match states[j].tasks[actions[j].task].kind
              case Logout => None
              case Challenge => states[j].session
              case Verify => Some(states[j].tasks[actions[j].task].generation)
            else states[j].session
    decreases k
  {
    hide WellTyped;
    var s, a := states[k - 1], actions[k - 1];
    assert WellTyped(s) && Enabled(s, a) && states[k] == Do(s, a);
    if j < k - 1 {
      assert !WritesSession(s, a);
      SessionIsLastWrite(states, actions, j, k - 1);
    }
  }

  /** Tasks are only added, and a settled one stays settled. */
  lemma StepExtends(s: State, a: Action)
    requires WellTyped(s) && Enabled(s, a)
    ensures var s' := Do(s, a);
      && s.generation <= s'.generation && s.logouts <= s'.logouts && |s.tasks| <= |s'.tasks| && |s.signIns| <= |s'.signIns|
      && (forall t | 0 <= t < |s.tasks| && s.tasks[t].status.Done? :: s'.tasks[t].status == s.tasks[t].status)
  {}

  lemma SettledStays(s: State, a: Action, g: nat)
    requires Inv(s) && Enabled(s, a) && g <= s.generation && Barrier(s, g).Done?
    ensures Inv(Do(s, a)) && g <= Do(s, a).generation && Barrier(Do(s, a), g) == Barrier(s, g)
  {
    StepKeeps(s, a);
    StepExtends(s, a);
    hide Do, Enabled, QueueInOrder, QueueByGeneration, OneSignInPerGeneration, SessionSafe, BarrierHeld;
    if g > 0 {
      assert Do(s, a).logouts[g - 1] == s.logouts[g - 1];
    }
  }

  lemma {:induction false} BarrierStays(states: seq<State>, actions: seq<Action>, j: nat, k: nat, g: nat)
    requires IsRun(states, actions) && j <= k < |states| && Inv(states[j])
    requires g <= states[j].generation && Barrier(states[j], g).Done?
    ensures Inv(states[k]) && g <= states[k].generation && Barrier(states[k], g) == Barrier(states[j], g)
    decreases k - j
  {
    hide Do, Enabled, Barrier;
    RunKeeps(states, actions, k);
    if j < k {
      BarrierStays(states, actions, j, k - 1, g);
      SettledStays(states[k - 1], actions[k - 1], g);
    }
  }

  /** A failed logout keeps blocking: no challenge and no verification of its generation ever
      leaves the client, neither before nor after the failure. */
  lemma FailedLogoutBlocks(states: seq<State>, actions: seq<Action>, j: nat, k: nat, g: nat)
    requires IsRun(states, actions) && j < |states| && k < |states| && WellTyped(states[j])
    requires g <= states[j].generation && Barrier(states[j], g) == Done(false)
    ensures forall i | 0 <= i < |states[k].issued| && !states[k].issued[i].kind.Logout? :: states[k].issued[i].generation != g
  {
    hide Do, Enabled;
    RunKeeps(states, actions, j);
    RunKeeps(states, actions, k);
    forall i | 0 <= i < |states[k].issued| && !states[k].issued[i].kind.Logout?
      ensures states[k].issued[i].generation != g
    {
      if states[k].issued[i].generation == g {
        if j <= k {
          BarrierStays(states, actions, j, k, g);
        } else {
          BarrierStays(states, actions, k, j, g);
        }
      }
    }
  }

  /** At any time at most one authenticated request is in flight, and each generation has at most
      one sign-in that has not settled. */
  lemma OneRequestOneSignIn(states: seq<State>, actions: seq<Action>, k: nat)
    requires IsRun(states, actions) && k < |states|
    ensures var s := states[k];
      && (forall t, u | 0 <= t < |s.tasks| && 0 <= u < |s.tasks| && s.tasks[t].status.Running? && s.tasks[u].status.Running? :: t == u)
      && (forall i, j | 0 <= i < |s.signIns| && 0 <= j < |s.signIns| && s.signIns[i].generation == s.signIns[j].generation &&
            !s.signIns[i].point.Settled? && !s.signIns[j].point.Settled? :: i == j)
  {
    RunKeeps(states, actions, k);
    var s := states[k];
    forall t, u | 0 <= t < |s.tasks| && 0 <= u < |s.tasks| && s.tasks[t].status.Running? && s.tasks[u].status.Running?
      ensures t == u
    {
      OneInFlight(s, t, u);
    }
  }

  // ----- how sign-ins end -----

  /** A sign-in awaits tasks of its own, of its own generation. */
  predicate OwnTask(s: State, i: nat)
    requires i < |s.signIns|
  {
    var signIn := s.signIns[i];
    && (signIn.point.AwaitChallenge? || signIn.point.AwaitVerify? ==> signIn.point.task < |s.tasks|)
    && (signIn.point.AwaitChallenge? ==>
          s.tasks[signIn.point.task].kind == Challenge && s.tasks[signIn.point.task].generation == signIn.generation)
    && (signIn.point.AwaitVerify? ==>
          s.tasks[signIn.point.task].kind == Verify && s.tasks[signIn.point.task].generation == signIn.generation)
  }

  predicate OwnTasks(s: State) {
    forall i | 0 <= i < |s.signIns| :: OwnTask(s, i)
  }

  lemma StepKeepsTyped(s: State, a: Action)
    requires WellTyped(s) && Enabled(s, a)
    ensures WellTyped(Do(s, a))
  {
    match a
    case StartTask(_) =>
    case ServerActs(_) =>
    case FinishTask(_, _) =>
    case _ =>
  }

  lemma StepKeepsOwnTask(s: State, a: Action, i: nat)
    requires WellTyped(s) && Enabled(s, a) && i < |Do(s, a).signIns|
    requires i < |s.signIns| ==> OwnTask(s, i)
    ensures OwnTask(Do(s, a), i)
  {
    hide WellTyped;
  }

  lemma StepKeepsOwnTasks(s: State, a: Action)
    requires WellTyped(s) && OwnTasks(s) && Enabled(s, a)
    ensures WellTyped(Do(s, a)) && OwnTasks(Do(s, a))
  {
    StepKeepsTyped(s, a);
    hide WellTyped, Do, OwnTask, Enabled;
    forall i | 0 <= i < |Do(s, a).signIns|
      ensures OwnTask(Do(s, a), i)
    {
      StepKeepsOwnTask(s, a, i);
    }
  }

  lemma {:induction false} RunKeepsOwnTasks(states: seq<State>, actions: seq<Action>, k: nat)
    requires IsRun(states, actions) && k < |states|
    ensures WellTyped(states[k]) && OwnTasks(states[k])
  {
    hide Do, Enabled;
    if k > 0 {
      RunKeepsOwnTasks(states, actions, k - 1);
      StepKeepsOwnTasks(states[k - 1], actions[k - 1]);
    }
  }

  /** When one step settles a sign-in, and how. */
  lemma StepSettles(s: State, a: Action, i: nat)
    requires WellTyped(s) && OwnTasks(s) && Enabled(s, a) && i < |Do(s, a).signIns|
    ensures i >= |s.signIns| ==> Do(s, a).signIns[i].point == AwaitBarrier
    ensures i < |s.signIns| ==>
              var signIn, after := s.signIns[i], Do(s, a).signIns[i];
              && after.generation == signIn.generation && after.key == signIn.key
              && (signIn.point.Settled? ==> after == signIn)
              && (after.point == Settled(true) <==>
                    || signIn.point == Settled(true)
                    || (signIn.generation == s.generation &&
                        (a == ReadDone(i, AlreadySignedIn) ||
                         (a == VerifyDone(i) && signIn.point.AwaitVerify? &&
                          s.tasks[signIn.point.task] == Task(Verify, signIn.generation, Done(true))))))
              && (after.point == Settled(false) <==>
                    || signIn.point == Settled(false)
                    || (a == BarrierSettled(i) && signIn.generation > 0 &&
                        s.tasks[s.logouts[signIn.generation - 1]].status == Done(false))
                    || (a.ReadDone? && a.signIn == i && (a.result.ReadFailed? || signIn.generation != s.generation))
                    || (a == ChallengeDone(i) && (s.tasks[signIn.point.task].status == Done(false) || signIn.generation != s.generation))
                    || (a.Signed? && a.signIn == i && (!a.approved || signIn.generation != s.generation))
                    || (a == VerifyDone(i) && (s.tasks[signIn.point.task].status == Done(false) || signIn.generation != s.generation)))
  {
    if i < |s.signIns| {
      assert OwnTask(s, i);
    }
  }

  /** Over every run: a sign-in has succeeded exactly if, while its generation was current, either its
      read found the wallet signed in already, or the verification task it awaited, of its own
      generation, had ended well. */
  lemma {:induction false} SucceededIff(states: seq<State>, actions: seq<Action>, k: nat, i: nat)
    requires IsRun(states, actions) && k < |states| && i < |states[k].signIns|
    ensures states[k].signIns[i].point == Settled(true) <==>
            exists j | 0 <= j < k && i < |states[j].signIns| ::
              var signIn := states[j].signIns[i];
              signIn.generation == states[j].generation &&
              (actions[j] == ReadDone(i, AlreadySignedIn) ||
               (actions[j] == VerifyDone(i) && signIn.point.AwaitVerify? && signIn.point.task < |states[j].tasks| &&
                states[j].tasks[signIn.point.task] == Task(Verify, signIn.generation, Done(true))))
  {
    hide Do, Enabled, OwnTasks;
    if k > 0 {
      RunKeepsOwnTasks(states, actions, k - 1);
      assert WellTyped(states[k - 1]) && Enabled(states[k - 1], actions[k - 1]) && states[k] == Do(states[k - 1], actions[k - 1]);
      StepSettles(states[k - 1], actions[k - 1], i);
      if i < |states[k - 1].signIns| {
        SucceededIff(states, actions, k - 1, i);
      } else {
        NotThereYet(states, actions, k - 1, i);
      }
    }
  }

  /** Sign-ins are never forgotten. */
  lemma {:induction false} NotThereYet(states: seq<State>, actions: seq<Action>, k: nat, i: nat)
    requires IsRun(states, actions) && k < |states| && i >= |states[k].signIns|
    ensures forall j | 0 <= j <= k :: i >= |states[j].signIns|
  {
    hide Do, Enabled, WellTyped;
    if k > 0 {
      assert WellTyped(states[k - 1]) && Enabled(states[k - 1], actions[k - 1]) && states[k] == Do(states[k - 1], actions[k - 1]);
      StepExtends(states[k - 1], actions[k - 1]);
      NotThereYet(states, actions, k - 1, i);
    }
  }

  /** And it has failed exactly if its barrier failed, its read failed, its challenge or verification
      failed, its user refused, or its generation was no longer current when one of the last four ended. */
  lemma {:induction false} FailedIff(states: seq<State>, actions: seq<Action>, k: nat, i: nat)
    requires IsRun(states, actions) && k < |states| && i < |states[k].signIns|
    ensures states[k].signIns[i].point == Settled(false) <==>
            exists j | 0 <= j < k && i < |states[j].signIns| ::
              var s, a, signIn := states[j], actions[j], states[j].signIns[i];
              || (a == BarrierSettled(i) && 0 < signIn.generation <= |s.logouts| &&
                  s.logouts[signIn.generation - 1] < |s.tasks| &&
                  s.tasks[s.logouts[signIn.generation - 1]].status == Done(false))
              || a == ReadDone(i, ReadFailed) || a == Signed(i, false)
              || (signIn.generation != s.generation &&
                  ((a.ReadDone? && a.signIn == i) || a == ChallengeDone(i) || a == Signed(i, true) || a == VerifyDone(i)))
              || (((a == ChallengeDone(i) && signIn.point.AwaitChallenge?) || (a == VerifyDone(i) && signIn.point.AwaitVerify?)) &&
                  signIn.point.task < |s.tasks| && s.tasks[signIn.point.task].status == Done(false))
  {
    hide Do, OwnTasks;
    if k > 0 {
      RunKeepsOwnTasks(states, actions, k - 1);
      assert WellTyped(states[k - 1]) && Enabled(states[k - 1], actions[k - 1]) && states[k] == Do(states[k - 1], actions[k - 1]);
      StepSettles(states[k - 1], actions[k - 1], i);
      if i < |states[k - 1].signIns| {
        FailedIff(states, actions, k - 1, i);
      } else {
        NotThereYet(states, actions, k - 1, i);
      }
    }
  }

  // ----- no sign-in hangs -----

  /** While a task has not settled, the queue can go on. */
  lemma {:induction false} QueueGoesOn(s: State, t: nat) returns (a: Action)
    requires WellTyped(s) && t < |s.tasks| && !s.tasks[t].status.Done?
    ensures Enabled(s, a) && (a.StartTask? || a.FinishTask?)
  {
    if t > 0 && !s.tasks[t - 1].status.Done? {
      a := QueueGoesOn(s, t - 1);
    } else if s.tasks[t].status.Waiting? {
      a := StartTask(t);
    } else {
      a := FinishTask(t, false);
    }
  }

  /** In every run a sign-in that has not settled can go on, or the queue it waits for can, without
      anyone signing in or out; the wallet's user may approve or refuse, the server grant or refuse. */
  lemma NeverStuck(states: seq<State>, actions: seq<Action>, k: nat, i: nat)
    requires IsRun(states, actions) && k < |states| && i < |states[k].signIns| && !states[k].signIns[i].point.Settled?
    ensures WellTyped(states[k]) && exists a: Action :: !a.Ensure? && !a.Clear? && !a.PendingReleased? && Enabled(states[k], a)
    ensures states[k].signIns[i].point.Reading? ==> forall result: ReadResult :: Enabled(states[k], ReadDone(i, result))
    ensures states[k].signIns[i].point.Prompting? ==> forall approved: bool :: Enabled(states[k], Signed(i, approved))
    ensures forall t, ok: bool | 0 <= t < |states[k].tasks| && states[k].tasks[t].status.Running? && !states[k].tasks[t].kind.Logout? ::
              Enabled(states[k], FinishTask(t, ok))
  {
    RunKeeps(states, actions, k);
    hide QueueInOrder, QueueByGeneration, BarrierHeld, OneSignInPerGeneration, SessionSafe, IsRun;
    var s := states[k];
    var a := NextOf(s, i);
    assert !a.Ensure? && !a.Clear? && !a.PendingReleased? && Enabled(s, a);
  }

  lemma NextOf(s: State, i: nat) returns (a: Action)
    requires WellTyped(s) && i < |s.signIns| && !s.signIns[i].point.Settled?
    ensures Enabled(s, a) && !a.Ensure? && !a.Clear? && !a.PendingReleased?
  {
    var signIn := s.signIns[i];
    match signIn.point {
      case AwaitBarrier =>
        if Barrier(s, signIn.generation).Done? {
          return BarrierSettled(i);
        }
        a := QueueGoesOn(s, s.logouts[signIn.generation - 1]);
      case AwaitMutations(upTo) =>
        if PreviousDone(s, upTo) {
          return MutationsSettled(i);
        }
        a := QueueGoesOn(s, upTo - 1);
      case Reading => a := ReadDone(i, NotSignedIn);
      case AwaitChallenge(t) =>
        if s.tasks[t].status.Done? {
          return ChallengeDone(i);
        }
        a := QueueGoesOn(s, t);
      case Prompting => a := Signed(i, true);
      case AwaitVerify(t) =>
        if s.tasks[t].status.Done? {
          return VerifyDone(i);
        }
        a := QueueGoesOn(s, t);
    }
  }

  // ----- the steps of a successful sign-in -----

  /** The step found the wallet not signed in, while the sign-in was current. */
  ghost predicate NotSignedInAt(states: seq<State>, actions: seq<Action>, j: int, i: nat) {
    && 0 <= j < |actions| < |states| && i < |states[j].signIns|
    && actions[j] == ReadDone(i, NotSignedIn) && states[j].signIns[i].generation == states[j].generation
  }

  /** The challenge of the sign-in had been fetched, while it was current. */
  ghost predicate ChallengedAt(states: seq<State>, actions: seq<Action>, j: int, i: nat) {
    && 0 <= j < |actions| < |states| && i < |states[j].signIns|
    && actions[j] == ChallengeDone(i) && states[j].signIns[i].generation == states[j].generation
    && states[j].signIns[i].point.AwaitChallenge? && states[j].signIns[i].point.task < |states[j].tasks|
    && states[j].tasks[states[j].signIns[i].point.task] == Task(Challenge, states[j].generation, Done(true))
  }

  /** The user of the wallet signed, while the sign-in was current. */
  ghost predicate SignedAt(states: seq<State>, actions: seq<Action>, j: int, i: nat) {
    && 0 <= j < |actions| < |states| && i < |states[j].signIns|
    && actions[j] == Signed(i, true) && states[j].signIns[i].generation == states[j].generation
  }

  /** The verification of the sign-in had ended well, while it was current. */
  ghost predicate VerifiedAt(states: seq<State>, actions: seq<Action>, j: int, i: nat) {
    && 0 <= j < |actions| < |states| && i < |states[j].signIns|
    && actions[j] == VerifyDone(i) && states[j].signIns[i].generation == states[j].generation
    && states[j].signIns[i].point.AwaitVerify? && states[j].signIns[i].point.task < |states[j].tasks|
    && states[j].tasks[states[j].signIns[i].point.task] == Task(Verify, states[j].generation, Done(true))
  }

  /** How far a sign-in has come, told by what happened before step `k`. */
  ghost predicate CameThisFar(states: seq<State>, actions: seq<Action>, k: nat, i: nat)
    requires k < |states| && i < |states[k].signIns|
  {
    match states[k].signIns[i].point
    case AwaitChallenge(_) => exists a :: a < k && NotSignedInAt(states, actions, a, i)
    case Prompting =>
      exists a, b :: a < b < k && NotSignedInAt(states, actions, a, i) && ChallengedAt(states, actions, b, i)
    case AwaitVerify(_) =>
      exists a, b, c :: a < b < c < k && NotSignedInAt(states, actions, a, i) && ChallengedAt(states, actions, b, i) &&
                        SignedAt(states, actions, c, i)
    case _ => true
  }

  lemma StepFrom(s: State, a: Action, i: nat)
    requires WellTyped(s) && OwnTasks(s) && Enabled(s, a) && i < |Do(s, a).signIns|
    ensures var after := Do(s, a).signIns[i].point;
      && (i >= |s.signIns| ==> after.AwaitBarrier?)
      && (i < |s.signIns| && after != s.signIns[i].point ==>
            var point, current := s.signIns[i].point, s.signIns[i].generation == s.generation;
            && (after.AwaitChallenge? ==> current && a == ReadDone(i, NotSignedIn))
            && (after.Prompting? ==>
                  current && a == ChallengeDone(i) && point.AwaitChallenge? &&
                  s.tasks[point.task] == Task(Challenge, s.generation, Done(true)))
            && (after.AwaitVerify? ==> current && a == Signed(i, true) && point.Prompting?))
  {
    if i < |s.signIns| {
      assert OwnTask(s, i);
    }
  }

  lemma {:induction false} EveryPointIsReached(states: seq<State>, actions: seq<Action>, k: nat, i: nat)
    requires IsRun(states, actions) && k < |states| && i < |states[k].signIns|
    ensures CameThisFar(states, actions, k, i)
  {
    hide Do, Enabled, OwnTasks;
    if k > 0 {
      RunKeepsOwnTasks(states, actions, k - 1);
      var s, a := states[k - 1], actions[k - 1];
      assert WellTyped(s) && Enabled(s, a) && states[k] == Do(s, a);
      StepFrom(s, a, i);
      if i < |s.signIns| {
        EveryPointIsReached(states, actions, k - 1, i);
        if states[k].signIns[i].point != s.signIns[i].point {
          assert states[k].signIns[i].point.AwaitChallenge? ==> NotSignedInAt(states, actions, k - 1, i);
          assert states[k].signIns[i].point.Prompting? ==> ChallengedAt(states, actions, k - 1, i);
          assert states[k].signIns[i].point.AwaitVerify? ==> SignedAt(states, actions, k - 1, i);
        }
      }
    }
  }

  /** A sign-in that succeeds was found signed in already, or went through its challenge, its user's
      signature and its verification, in this order, its generation being current each time. */
  lemma SucceededTookEveryStep(states: seq<State>, actions: seq<Action>, k: nat, i: nat)
    requires IsRun(states, actions) && k < |states| && i < |states[k].signIns| && states[k].signIns[i].point == Settled(true)
    ensures || (exists j | 0 <= j < k && i < |states[j].signIns| ::
                  actions[j] == ReadDone(i, AlreadySignedIn) && states[j].signIns[i].generation == states[j].generation)
            || (exists a, b, c, d :: a < b < c < d < k && NotSignedInAt(states, actions, a, i) &&
                  ChallengedAt(states, actions, b, i) && SignedAt(states, actions, c, i) && VerifiedAt(states, actions, d, i))
  {
    hide Do, Enabled, WellTyped;
    SucceededIff(states, actions, k, i);
    var j: nat :| j < k && i < |states[j].signIns| && states[j].signIns[i].generation == states[j].generation &&
                  (actions[j] == ReadDone(i, AlreadySignedIn) || VerifiedAt(states, actions, j, i));
    if VerifiedAt(states, actions, j, i) {
      EveryPointIsReached(states, actions, j, i);
    }
  }

  // ----- the module itself -----

  datatype EnsureOutcome = Joined(signIn: nat) | Rejected | Started(signIn: nat)

  /** The module's variables, with the promises they hold as indices, and the server's session. */
  class Client {
    var generation: nat
    var tasks: seq<Task>
    var logouts: seq<nat>
    var pending: Option<nat>
    var signIns: seq<SignIn>
    var session: Option<nat>
    var issued: seq<Issue>

    constructor (session: Option<nat>)
      requires session.Some? ==> session.value == 0
      ensures View() == Init(session) && Inv(View())
    {
      generation, tasks, logouts, pending, signIns, issued := 0, [], [], None, [], [];
      this.session := session;
    }

    ghost function View(): State
      reads this
    {
      State(generation, tasks, logouts, pending, signIns, session, issued)
    }

    method Mutate(kind: TaskKind, generation: nat) returns (task: nat)
      modifies this`tasks
      ensures View() == Enqueue(old(View()), kind, generation)
      ensures task == |old(tasks)| && |tasks| == task + 1 && tasks[task] == Task(kind, generation, Waiting)
      ensures forall t | 0 <= t < task :: tasks[t] == old(tasks)[t]
    {
      task := |tasks|;
      tasks := tasks + [Task(kind, generation, Waiting)];
    }

    method ClearWalletSession() returns (barrier: nat)
      requires Inv(View())
      modifies this
      ensures View() == Do(old(View()), Clear) && Inv(View())
      ensures barrier == |old(tasks)| && generation == old(generation) + 1
    {
      hide Inv, QueueInOrder, QueueByGeneration, BarrierHeld, OneSignInPerGeneration, SessionSafe;
      ghost var before := View();
      StepKeeps(before, Clear);
      generation := generation + 1;
      pending := None;
      barrier := Mutate(Logout, generation);
      logouts := logouts + [barrier];
    }

    /** A pending sign-in of this generation is joined by a caller with the same key and refuses
        any other; otherwise a new one starts. */
    method EnsureWalletSession(key: string) returns (outcome: EnsureOutcome)
      requires Inv(View())
      modifies this
      ensures View() == Do(old(View()), Ensure(key)) && Inv(View())
      ensures if old(pending).Some? && old(signIns)[old(pending).value].generation == old(generation) then
                && View() == old(View())
                && outcome == if old(signIns)[old(pending).value].key == key then Joined(old(pending).value) else Rejected
              else
                && outcome == Started(|old(signIns)|) && pending == Some(|old(signIns)|)
                && signIns == old(signIns) + [SignIn(old(generation), key, AwaitBarrier)]
    {
      hide QueueInOrder, QueueByGeneration, BarrierHeld, OneSignInPerGeneration, SessionSafe;
      StepKeeps(View(), Ensure(key));
      var expected := generation;
      if pending.Some? && signIns[pending.value].generation == expected {
        return if signIns[pending.value].key == key then Joined(pending.value) else Rejected;
      }
      signIns := signIns + [SignIn(expected, key, AwaitBarrier)];
      pending := Some(|signIns| - 1);
      return Started(|signIns| - 1);
    }

    method MoveSignIn(i: nat, point: Point)
      requires i < |signIns|
      modifies this`signIns
      ensures View() == MoveTo(old(View()), i, point)
    {
      signIns := signIns[i := signIns[i].(point := point)];
    }

    /** The sign-in goes on from where it was suspended, up to its next suspension. */
    method Resume(a: Action)
      requires Inv(View()) && Enabled(View(), a)
      requires a.BarrierSettled? || a.MutationsSettled? || a.ReadDone? || a.ChallengeDone? || a.Signed? || a.VerifyDone?
      modifies this
      ensures View() == Do(old(View()), a) && Inv(View())
    {
      hide QueueInOrder, QueueByGeneration, BarrierHeld, OneSignInPerGeneration, SessionSafe;
      StepKeeps(View(), a);
      var i := a.signIn;
      var current := signIns[i].generation == generation;
      match a {
        case BarrierSettled(_) =>
          var resolved := signIns[i].generation == 0 || tasks[logouts[signIns[i].generation - 1]].status.ok;
          MoveSignIn(i, if resolved then AwaitMutations(|tasks|) else Settled(false));
        case MutationsSettled(_) =>
          MoveSignIn(i, Reading);
        case ReadDone(_, result) =>
          if result.ReadFailed? || !current {
            MoveSignIn(i, Settled(false));
          } else if result.AlreadySignedIn? {
            MoveSignIn(i, Settled(true));
          } else {
            var task := Mutate(Challenge, generation);
            MoveSignIn(i, AwaitChallenge(task));
          }
        case ChallengeDone(_) =>
          MoveSignIn(i, if tasks[signIns[i].point.task].status.ok && current then Prompting else Settled(false));
        case Signed(_, approved) =>
          if !approved || !current {
            MoveSignIn(i, Settled(false));
          } else {
            var task := Mutate(Verify, generation);
            MoveSignIn(i, AwaitVerify(task));
          }
        case VerifyDone(_) =>
          MoveSignIn(i, Settled(tasks[signIns[i].point.task].status.ok && current));
      }
    }

    method ReleasePending(i: nat)
      requires Inv(View()) && Enabled(View(), PendingReleased(i))
      modifies this`pending
      ensures View() == Do(old(View()), PendingReleased(i)) && Inv(View())
    {
      hide Inv, QueueInOrder, QueueByGeneration, BarrierHeld, OneSignInPerGeneration, SessionSafe;
      StepKeeps(View(), PendingReleased(i));
      if pending == Some(i) {
        pending := None;
      }
    }

    /** The queue reaches a task: a request of an outdated sign-in is dropped unsent. */
    method RunTask(t: nat)
      requires Inv(View()) && Enabled(View(), StartTask(t))
      modifies this`tasks, this`issued
      ensures View() == Do(old(View()), StartTask(t)) && Inv(View())
    {
      hide Inv, QueueInOrder, QueueByGeneration, BarrierHeld, OneSignInPerGeneration, SessionSafe;
      StepKeeps(View(), StartTask(t));
      var task := tasks[t];
      if task.kind.Logout? || task.generation == generation {
        tasks := tasks[t := task.(status := Running)];
        issued := issued + [Issue(task.kind, task.generation, generation)];
      } else {
        tasks := tasks[t := task.(status := Done(false))];
      }
    }
  }
}
