/** `mapWithConcurrency`: a fixed number of runners share one counter and take the items one by
    one, each waiting for its worker before it takes the next. */
module ConcurrentMap {

  datatype Runner =
    | Free              // about to read the counter
    | Working(item: nat)
    | Stopped           // the counter was past the last item
    | Failed(item: nat) // the worker threw; the runner ends

  /** `handed`: the items given to the worker, in order; `finished`: those it completed. */
  datatype State = State(items: nat, nextIndex: nat, runners: seq<Runner>, handed: seq<nat>, finished: set<nat>)

  datatype Action = Take(runner: nat) | Finish(runner: nat, ok: bool)

  function RunnerCount(items: nat, concurrency: int): nat {
    var maxConcurrency := if concurrency > 1 then concurrency else 1;
    if maxConcurrency < items then maxConcurrency else items
  }

  function Init(items: nat, concurrency: int): State {
    State(items, 0, seq(RunnerCount(items, concurrency), _ => Free), [], {})
  }

  predicate Enabled(s: State, a: Action) {
    a.runner < |s.runners| && (if a.Take? then s.runners[a.runner].Free? else s.runners[a.runner].Working?)
  }

  function Do(s: State, a: Action): State
    requires Enabled(s, a)
  {
    match a
    case Take(r) =>
      var index := s.nextIndex;
      if index >= s.items then s.(nextIndex := index + 1, runners := s.runners[r := Stopped])
      else s.(nextIndex := index + 1, runners := s.runners[r := Working(index)], handed := s.handed + [index])
    case Finish(r, ok) =>
      var item := s.runners[r].item;
      if ok then s.(runners := s.runners[r := Free], finished := s.finished + {item})
      else s.(runners := s.runners[r := Failed(item)])
  }

  predicate Holds(r: Runner, item: nat) {
    (r.Working? || r.Failed?) && r.item == item
  }

  /** The items handed out are the first ones, in order; no two runners hold the same item, and
      none holds a finished one. */
  predicate HandedInOrder(s: State) {
    && |s.handed| == (if s.nextIndex < s.items then s.nextIndex else s.items)
    && (forall k | 0 <= k < |s.handed| :: s.handed[k] == k)
    && (forall i | i in s.finished :: i < |s.handed|)
    && (forall r | 0 <= r < |s.runners| && (s.runners[r].Working? || s.runners[r].Failed?) ::
          s.runners[r].item < |s.handed| && s.runners[r].item !in s.finished)
    && (forall q, r | 0 <= q < r < |s.runners| && (s.runners[r].Working? || s.runners[r].Failed?) ::
          !Holds(s.runners[q], s.runners[r].item))
    && (forall r | 0 <= r < |s.runners| && s.runners[r].Stopped? :: s.nextIndex > s.items)
  }

  /** Each item handed out is finished or held by a runner. */
  ghost predicate NothingLost(s: State) {
    forall i: nat | i < |s.handed| && i !in s.finished :: exists r :: 0 <= r < |s.runners| && Holds(s.runners[r], i)
  }

  ghost predicate Inv(s: State) { HandedInOrder(s) && NothingLost(s) }

  lemma TakeKeepsOrder(s: State, r: nat)
    requires HandedInOrder(s) && Enabled(s, Take(r))
    ensures HandedInOrder(Do(s, Take(r)))
  {}

  lemma FinishKeepsOrder(s: State, r: nat, ok: bool)
    requires HandedInOrder(s) && Enabled(s, Finish(r, ok))
    ensures HandedInOrder(Do(s, Finish(r, ok)))
  {
    assert forall q | 0 <= q < |s.runners| && q != r && (s.runners[q].Working? || s.runners[q].Failed?) ::
      s.runners[q].item != s.runners[r].item;
  }

  lemma StepKeeps(s: State, a: Action)
    requires Inv(s) && Enabled(s, a)
    ensures Inv(Do(s, a)) && |Do(s, a).runners| == |s.runners| && Do(s, a).items == s.items
  {
    match a {
      case Take(r) => TakeKeepsOrder(s, r);
      case Finish(r, ok) => FinishKeepsOrder(s, r, ok);
    }
    hide HandedInOrder;
    var s', r := Do(s, a), a.runner;
    forall i: nat | i < |s'.handed| && i !in s'.finished
      ensures exists q :: 0 <= q < |s'.runners| && Holds(s'.runners[q], i)
    {
      if i < |s.handed| {
        var q :| 0 <= q < |s.runners| && Holds(s.runners[q], i);
        assert Holds(s'.runners[q], i);
      } else {
        TakenIsHeld(s, r, i);
        assert Holds(s'.runners[r], i);
      }
    }
  }

  lemma TakenIsHeld(s: State, r: nat, i: nat)
    requires HandedInOrder(s) && Enabled(s, Take(r)) && i >= |s.handed|
    ensures i < |Do(s, Take(r)).handed| ==> Do(s, Take(r)).runners[r] == Working(i)
  {}

  ghost predicate IsRun(states: seq<State>, actions: seq<Action>, items: nat, concurrency: int) {
    && |states| == |actions| + 1 && states[0] == Init(items, concurrency)
    && forall k | 0 <= k < |actions| :: Enabled(states[k], actions[k]) && states[k + 1] == Do(states[k], actions[k])
  }

  lemma {:induction false} RunKeeps(states: seq<State>, actions: seq<Action>, items: nat, concurrency: int, k: nat)
    requires IsRun(states, actions, items, concurrency) && k < |states|
    ensures Inv(states[k]) && states[k].items == items && |states[k].runners| == RunnerCount(items, concurrency)
  {
    if k > 0 {
      hide Inv, Do;
      RunKeeps(states, actions, items, concurrency, k - 1);
      StepKeeps(states[k - 1], actions[k - 1]);
    }
  }

  /** In every interleaving the worker gets the items 0, 1, 2, ... each at most once; the number
      in flight never exceeds the concurrency given, or one when less than one was given. */
  lemma HandedOutAtMostOnce(states: seq<State>, actions: seq<Action>, items: nat, concurrency: int, k: nat)
    requires IsRun(states, actions, items, concurrency) && k < |states|
    ensures forall i | 0 <= i < |states[k].handed| :: states[k].handed[i] == i && i < items
    ensures |InFlight(states[k].runners)| <= if concurrency > 1 then concurrency else 1
    ensures |states[k].runners| == if items < 1 then 0 else if concurrency < 1 then 1
                                   else if concurrency < items then concurrency else items
    ensures forall i :: i in InFlight(states[k].runners) <==>
              exists r :: 0 <= r < |states[k].runners| && states[k].runners[r] == Working(i)
  {
    RunKeeps(states, actions, items, concurrency, k);
    InFlightBounded(states[k].runners);
  }

  /** The items some worker is busy with. */
  function InFlight(runners: seq<Runner>): set<nat> {
    if runners == [] then {}
    else InFlight(runners[..|runners| - 1]) +
         (if runners[|runners| - 1].Working? then {runners[|runners| - 1].item} else {})
  }

  lemma {:induction false} InFlightBounded(runners: seq<Runner>)
    ensures |InFlight(runners)| <= |runners|
    ensures forall i :: i in InFlight(runners) <==> exists r :: 0 <= r < |runners| && runners[r] == Working(i)
  {
    if runners != [] {
      var init, last := runners[..|runners| - 1], runners[|runners| - 1];
      InFlightBounded(init);
      forall i
        ensures i in InFlight(runners) <==> exists r :: 0 <= r < |runners| && runners[r] == Working(i)
      {
        if i in InFlight(init) {
          var r :| 0 <= r < |init| && init[r] == Working(i);
          assert runners[r] == Working(i);
        }
        if exists r :: 0 <= r < |runners| && runners[r] == Working(i) {
          var r :| 0 <= r < |runners| && runners[r] == Working(i);
          if r < |init| {
            assert init[r] == Working(i);
          }
        }
      }
    }
  }

  /** A runner that has neither stopped nor failed can always go on: no runner waits for another. */
  lemma NobodyWaits(states: seq<State>, actions: seq<Action>, items: nat, concurrency: int, k: nat, r: nat)
    requires IsRun(states, actions, items, concurrency) && k < |states| && r < |states[k].runners|
    ensures states[k].runners[r].Stopped? || states[k].runners[r].Failed? || Enabled(states[k], Take(r)) ||
            (Enabled(states[k], Finish(r, true)) && states[k].runners[r].item < items)
    ensures states[k].runners[r].Stopped? ==> |states[k].handed| == items
  {
    RunKeeps(states, actions, items, concurrency, k);
  }

  /** When every runner has ended and no worker failed, every item was handed out and finished. */
  lemma AllFinished(states: seq<State>, actions: seq<Action>, items: nat, concurrency: int, k: nat)
    requires IsRun(states, actions, items, concurrency) && k < |states|
    requires forall r | 0 <= r < |states[k].runners| :: states[k].runners[r].Stopped?
    ensures |states[k].handed| == items && forall i: nat :: i in states[k].finished <==> i < items
  {
    RunKeeps(states, actions, items, concurrency, k);
    var s := states[k];
    if items > 0 {
      assert s.runners[0].Stopped?;
    }
  }
}
