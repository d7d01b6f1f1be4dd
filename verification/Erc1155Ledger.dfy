/** Reconstruction of ERC-1155 balances from transfer logs: single transfers first, then batch
    transfers, every balance clamped at zero. */
module Erc1155Ledger {
  import opened Marketplace
  import opened Holdings

  const ZERO_ADDRESS: Address := 0

  datatype SingleLog = SingleLog(from: Address, to: Address, id: nat, value: nat)
  datatype BatchLog = BatchLog(from: Address, to: Address, ids: seq<nat>, values: seq<nat>)

  /** One token moving once. */
  datatype Movement = Movement(token: nat, from: Address, to: Address, value: nat)

  /** The change of the sender's balance. */
  function Spent(m: Movement): int {
    var value: int := m.value;
    -value
  }

  function OfSingle(log: SingleLog): Movement {
    Movement(log.id, log.from, log.to, log.value)
  }

  function ValueAt(log: BatchLog, i: nat): nat {
    if i < |log.values| then log.values[i] else 0
  }

  function OfBatch(log: BatchLog, n: nat): seq<Movement>
    requires n <= |log.ids|
  {
    if n == 0 then [] else OfBatch(log, n - 1) + [Movement(log.ids[n - 1], log.from, log.to, ValueAt(log, n - 1))]
  }

  function OfSingles(logs: seq<SingleLog>): seq<Movement> {
    if logs == [] then [] else OfSingles(logs[..|logs| - 1]) + [OfSingle(logs[|logs| - 1])]
  }

  function Flat(parts: seq<seq<Movement>>): seq<Movement> {
    if parts == [] then [] else Flat(parts[..|parts| - 1]) + parts[|parts| - 1]
  }

  function OfBatches(logs: seq<BatchLog>): seq<seq<Movement>> {
    seq(|logs|, b requires 0 <= b < |logs| => OfBatch(logs[b], |logs[b].ids|))
  }

  /** The order in which the logs are applied. */
  function Processed(singles: seq<SingleLog>, batches: seq<BatchLog>): seq<Movement> {
    OfSingles(singles) + Flat(OfBatches(batches))
  }

  /** Concatenation: nothing of an earlier part comes behind a later one. */
  lemma {:induction false} FlatInOrder(before: seq<seq<Movement>>, after: seq<seq<Movement>>)
    ensures Flat(before + after) == Flat(before) + Flat(after)
    ensures |after| == 1 ==> Flat(after) == after[0]
  {
    if after == [] {
      assert before + after == before;
    } else {
      var init := after[..|after| - 1];
      FlatInOrder(before, init);
      assert (before + after)[..|before + after| - 1] == before + init;
    }
  }

  lemma {:induction false} SinglesInOrder(logs: seq<SingleLog>)
    ensures |OfSingles(logs)| == |logs|
    ensures forall k | 0 <= k < |logs| ::
              var m := OfSingles(logs)[k];
              m.token == logs[k].id && m.from == logs[k].from && m.to == logs[k].to && m.value == logs[k].value
  {
    if logs != [] {
      SinglesInOrder(logs[..|logs| - 1]);
    }
  }

  /** Every entry of a batch moves its own token; no value means zero. */
  lemma {:induction false} BatchInOrder(log: BatchLog, n: nat)
    requires n <= |log.ids|
    ensures |OfBatch(log, n)| == n
    ensures forall i | 0 <= i < n ::
              var m := OfBatch(log, n)[i];
              && m.token == log.ids[i] && m.from == log.from && m.to == log.to
              && m.value == if i < |log.values| then log.values[i] else 0
  {
    if n > 0 {
      BatchInOrder(log, n - 1);
    }
  }

  // ----- one token's ledger -----

  function AfterDelta(h: Ledger, holder: Address, delta: int): Ledger {
    if delta == 0 then h else Written(h, holder, Held(h, holder) + delta)
  }

  function AfterMovement(h: Ledger, m: Movement): Ledger {
    var h1 := if m.from != ZERO_ADDRESS then AfterDelta(h, m.from, Spent(m)) else h;
    if m.to != ZERO_ADDRESS then AfterDelta(h1, m.to, m.value) else h1
  }

  function LedgerOf(movements: seq<Movement>, token: nat): (h: Ledger)
    ensures AllPositive(h)
  {
    if movements == [] then map[]
    else
      var before, m := LedgerOf(movements[..|movements| - 1], token), movements[|movements| - 1];
      if m.token == token then AfterMovement(before, m) else before
  }

  function Minted(movements: seq<Movement>, token: nat): nat {
    if movements == [] then 0
    else
      var m := movements[|movements| - 1];
      Minted(movements[..|movements| - 1], token) + (if m.token == token && m.from == ZERO_ADDRESS then m.value else 0)
  }

  function Burned(movements: seq<Movement>, token: nat): nat {
    if movements == [] then 0
    else
      var m := movements[|movements| - 1];
      Burned(movements[..|movements| - 1], token) + (if m.token == token && m.to == ZERO_ADDRESS then m.value else 0)
  }

  /** What the clamp at zero forgave: amounts sent by holders not recorded as having them. */
  function Forgiven(movements: seq<Movement>, token: nat): nat {
    if movements == [] then 0
    else
      var before, m := movements[..|movements| - 1], movements[|movements| - 1];
      Forgiven(before, token) +
      (if m.token == token && m.from != ZERO_ADDRESS then Shortfall(LedgerOf(before, token), m.from, m.value) else 0)
  }

  // ----- one holder's balance: a clamped sum -----

  /** The changes of one balance, in processing order. */
  function Deltas(movements: seq<Movement>, token: nat, holder: Address): seq<int> {
    if movements == [] then []
    else
      var before, m := Deltas(movements[..|movements| - 1], token, holder), movements[|movements| - 1];
      if m.token != token || holder == ZERO_ADDRESS then before
      else
        var sent := if m.from == holder then before + [Spent(m)] else before;
        if m.to == holder then sent + [m.value] else sent
  }

  function Net(deltas: seq<int>): int {
    if deltas == [] then 0 else Net(deltas[..|deltas| - 1]) + deltas[|deltas| - 1]
  }

  function Clamped(deltas: seq<int>): nat {
    if deltas == [] then 0
    else
      var b := Clamped(deltas[..|deltas| - 1]) + deltas[|deltas| - 1];
      if b <= 0 then 0 else b
  }

  /** The smallest sum of a prefix, the empty one included. */
  function Lowest(deltas: seq<int>): int {
    if deltas == [] then 0
    else if Net(deltas) < Lowest(deltas[..|deltas| - 1]) then Net(deltas) else Lowest(deltas[..|deltas| - 1])
  }

  lemma {:induction false} LowestIsSmallestPrefix(deltas: seq<int>)
    ensures forall k | 0 <= k <= |deltas| :: Lowest(deltas) <= Net(deltas[..k])
    ensures exists k :: 0 <= k <= |deltas| && Lowest(deltas) == Net(deltas[..k])
  {
    var n := |deltas|;
    assert deltas[..n] == deltas;
    if deltas == [] {
      assert Lowest(deltas) == Net(deltas[..0]);
    } else {
      var init := deltas[..n - 1];
      LowestIsSmallestPrefix(init);
      forall k | 0 <= k <= n
        ensures Lowest(deltas) <= Net(deltas[..k])
      {
        if k < n {
          assert init[..k] == deltas[..k];
        }
      }
      var k :| 0 <= k <= n - 1 && Lowest(init) == Net(init[..k]);
      assert init[..k] == deltas[..k];
      if Net(deltas) < Lowest(init) {
        assert Lowest(deltas) == Net(deltas[..n]);
      }
    }
  }

  /** The clamped sum in closed form: the net sum less the smallest prefix sum. */
  lemma {:induction false} ClampedClosedForm(deltas: seq<int>)
    ensures Clamped(deltas) == Net(deltas) - Lowest(deltas)
  {
    if deltas != [] {
      ClampedClosedForm(deltas[..|deltas| - 1]);
    }
  }

  /** So it is never below the net sum, and equal to it exactly when no prefix goes negative. */
  lemma ClampedIsNetIffNeverNegative(deltas: seq<int>)
    ensures Clamped(deltas) >= Net(deltas)
    ensures Clamped(deltas) == Net(deltas) <==> forall k | 0 <= k <= |deltas| :: Net(deltas[..k]) >= 0
  {
    ClampedClosedForm(deltas);
    LowestIsSmallestPrefix(deltas);
    assert Net(deltas[..0]) == 0;
  }

  function Clamp(b: int): nat { if b <= 0 then 0 else b }

  lemma ClampedSnoc(deltas: seq<int>, d: int)
    ensures Clamped(deltas + [d]) == Clamp(Clamped(deltas) + d)
  {
    assert (deltas + [d])[..|deltas|] == deltas;
  }

  lemma HeldAfterMovement(h: Ledger, m: Movement, holder: Address)
    requires holder != ZERO_ADDRESS
    ensures var sent := if m.from == holder then Clamp(Held(h, holder) + Spent(m)) else Held(h, holder);
      Held(AfterMovement(h, m), holder) == if m.to == holder then Clamp(sent + m.value) else sent
  {}

  /** Every folded balance is the clamped sum of its changes. */
  lemma {:induction false} BalanceIsClamped(movements: seq<Movement>, token: nat, holder: Address)
    requires holder != ZERO_ADDRESS
    ensures Held(LedgerOf(movements, token), holder) == Clamped(Deltas(movements, token, holder))
  {
    hide AfterMovement;
    if movements != [] {
      hide Clamped;
      var before, m := movements[..|movements| - 1], movements[|movements| - 1];
      BalanceIsClamped(before, token, holder);
      if m.token == token {
        var ds := Deltas(before, token, holder);
        HeldAfterMovement(LedgerOf(before, token), m, holder);
        ClampedSnoc(ds, Spent(m));
        ClampedSnoc(ds, m.value);
        ClampedSnoc(ds + [Spent(m)], m.value);
      }
    }
  }

  // ----- the whole supply -----

  lemma DeltaTotal(h: Ledger, holder: Address, delta: int)
    requires AllPositive(h)
    ensures Total(AfterDelta(h, holder, delta)) ==
            Total(h) + delta + (if delta < 0 then Shortfall(h, holder, -delta) else 0)
    ensures AllPositive(AfterDelta(h, holder, delta))
  {
    var q := Held(h, holder) + delta;
    if q > 0 {
      TotalAfterSet(h, holder, q);
    } else {
      TotalAfterRemove(h, holder);
    }
  }

  /** The recorded holders together hold what was minted, less what was burned, plus what the
      clamp forgave. */
  lemma {:induction false} SupplyAccounted(movements: seq<Movement>, token: nat)
    ensures Total(LedgerOf(movements, token)) ==
            Minted(movements, token) - Burned(movements, token) + Forgiven(movements, token)
  {
    if movements != [] {
      var before, m := movements[..|movements| - 1], movements[|movements| - 1];
      SupplyAccounted(before, token);
      if m.token == token {
        var h := LedgerOf(before, token);
        var h1 := if m.from != ZERO_ADDRESS then AfterDelta(h, m.from, Spent(m)) else h;
        DeltaTotal(h, m.from, Spent(m));
        DeltaTotal(h1, m.to, m.value);
      }
    }
  }

  /** Each shortfall is the sender's: it widens the gap between balance and net sum. */
  lemma GapStep(movements: seq<Movement>, token: nat, holder: Address)
    requires movements != [] && holder != ZERO_ADDRESS
    ensures var before, m := movements[..|movements| - 1], movements[|movements| - 1];
      Gap(Deltas(movements, token, holder)) == Gap(Deltas(before, token, holder)) +
        (if m.token == token && m.from == holder then Shortfall(LedgerOf(before, token), m.from, m.value) else 0)
  {
    var before, m := movements[..|movements| - 1], movements[|movements| - 1];
    var ds := Deltas(before, token, holder);
    BalanceIsClamped(before, token, holder);
    GapSnoc(ds, Spent(m));
    GapSnoc(ds, m.value);
    GapSnoc(ds + [Spent(m)], m.value);
  }

  function Gap(deltas: seq<int>): int { Clamped(deltas) - Net(deltas) }

  lemma GapSnoc(deltas: seq<int>, d: int)
    ensures Gap(deltas + [d]) == Gap(deltas) + (if Clamped(deltas) + d < 0 then -d - Clamped(deltas) else 0)
  {
    assert (deltas + [d])[..|deltas|] == deltas;
  }

  predicate NeverNegative(deltas: seq<int>) {
    forall k | 0 <= k <= |deltas| :: Net(deltas[..k]) >= 0
  }

  /** Nothing is forgiven exactly when no holder's running sum, in processing order, ever goes
      negative; then the holders together hold what was minted less what was burned. */
  lemma {:induction false} NothingForgivenIff(movements: seq<Movement>, token: nat)
    ensures Forgiven(movements, token) == 0 <==>
            forall holder: Address | holder != ZERO_ADDRESS :: NeverNegative(Deltas(movements, token, holder))
    ensures Forgiven(movements, token) == 0 <==>
            Total(LedgerOf(movements, token)) == Minted(movements, token) - Burned(movements, token)
  {
    hide Deltas, LedgerOf;
    SupplyAccounted(movements, token);
    forall holder: Address | holder != ZERO_ADDRESS
      ensures NeverNegative(Deltas(movements, token, holder)) <==> Gap(Deltas(movements, token, holder)) == 0
    {
      ClampedIsNetIffNeverNegative(Deltas(movements, token, holder));
    }
    forall holder: Address | holder != ZERO_ADDRESS
      ensures 0 <= Gap(Deltas(movements, token, holder)) <= Forgiven(movements, token)
    {
      GapWithinForgiven(movements, token, holder);
    }
    if Forgiven(movements, token) > 0 {
      var holder := SomeoneHasAGap(movements, token);
    }
  }

  lemma {:induction false} GapWithinForgiven(movements: seq<Movement>, token: nat, holder: Address)
    requires holder != ZERO_ADDRESS
    ensures 0 <= Gap(Deltas(movements, token, holder)) <= Forgiven(movements, token)
  {
    GapNonNegative(Deltas(movements, token, holder));
    if movements != [] {
      hide Gap, LedgerOf, Deltas;
      GapWithinForgiven(movements[..|movements| - 1], token, holder);
      GapStep(movements, token, holder);
    }
  }

  lemma {:induction false} SomeoneHasAGap(movements: seq<Movement>, token: nat) returns (holder: Address)
    requires Forgiven(movements, token) > 0
    ensures holder != ZERO_ADDRESS && Gap(Deltas(movements, token, holder)) > 0
  {
    hide Gap, LedgerOf, Deltas;
    var before := movements[..|movements| - 1];
    if Forgiven(before, token) > 0 {
      holder := SomeoneHasAGap(before, token);
    } else {
      holder := movements[|movements| - 1].from;
    }
    GapStep(movements, token, holder);
    GapNonNegative(Deltas(before, token, holder));
  }

  lemma GapNonNegative(deltas: seq<int>)
    ensures Gap(deltas) >= 0
  {
    ClampedIsNetIffNeverNegative(deltas);
  }

  /** Applying all single transfers first can show more tokens than exist: a batch mint followed
      by a single transfer is processed the other way round, and both ends keep the tokens. */
  lemma SinglesFirstCanInflate()
    ensures var singles, batches := [SingleLog(1, 2, 9, 5)], [BatchLog(ZERO_ADDRESS, 1, [9], [5])];
      && Total(LedgerOf(Flat(OfBatches(batches)) + OfSingles(singles), 9)) == 5
      && Total(LedgerOf(Processed(singles, batches), 9)) == 10
  {
    var single, batch := SingleLog(1, 2, 9, 5), BatchLog(ZERO_ADDRESS, 1, [9], [5]);
    var out, mint := Movement(9, 1, 2, 5), Movement(9, ZERO_ADDRESS, 1, 5);
    assert [single][..0] == [] && [batch][..0] == [];
    assert OfSingles([single]) == [out];
    assert OfBatch(batch, 1) == OfBatch(batch, 0) + [mint];
    assert OfBatches([batch]) == [OfBatch(batch, 1)];
    FlatInOrder([], [OfBatch(batch, 1)]);
    assert Flat(OfBatches([batch])) == [mint];
    Two(mint, out, 9);
    Two(out, mint, 9);
    assert [mint] + [out] == [mint, out] && [out] + [mint] == [out, mint];
  }

  lemma Two(a: Movement, b: Movement, token: nat)
    requires a.token == token && b.token == token
    ensures var s := [a, b];
      Total(LedgerOf(s, token)) == Minted(s, token) - Burned(s, token) + Forgiven(s, token)
    ensures Minted([a, b], token) == (if a.from == ZERO_ADDRESS then a.value else 0) + (if b.from == ZERO_ADDRESS then b.value else 0)
    ensures Burned([a, b], token) == (if a.to == ZERO_ADDRESS then a.value else 0) + (if b.to == ZERO_ADDRESS then b.value else 0)
    ensures Forgiven([a, b], token) ==
            (if a.from != ZERO_ADDRESS then a.value else 0) +
            (if b.from != ZERO_ADDRESS then Shortfall(AfterMovement(map[], a), b.from, b.value) else 0)
  {
    assert [a, b][..1] == [a] && [a][..0] == [];
    SupplyAccounted([a, b], token);
    assert LedgerOf([a], token) == AfterMovement(map[], a);
    assert Minted([a], token) == if a.from == ZERO_ADDRESS then a.value else 0;
    assert Burned([a], token) == if a.to == ZERO_ADDRESS then a.value else 0;
    assert Forgiven([a], token) == if a.from == ZERO_ADDRESS then 0 else a.value;
  }

  // ----- the fold -----

  type Balances = map<nat, Ledger>

  function LedgerIn(balances: Balances, token: nat): Ledger {
    if token in balances then balances[token] else map[]
  }

  /** The tables the backfill keeps while it reads logs. */
  class Fold {
    var tokenIds: set<nat>
    var totalMinted: map<nat, nat>
    var balances: Balances

    constructor ()
      ensures Shows([])
    {
      tokenIds, totalMinted, balances := {}, map[], map[];
    }

    ghost predicate Shows(movements: seq<Movement>)
      reads this
    {
      && (forall token: nat :: LedgerIn(balances, token) == LedgerOf(movements, token))
      && (forall token: nat :: (if token in totalMinted then totalMinted[token] else 0) == Minted(movements, token))
      && (forall token: nat :: token in tokenIds <==> exists m :: m in movements && m.token == token)
    }

    method ApplyBalanceDelta(token: nat, holder: Address, delta: int)
      modifies this`balances
      ensures LedgerIn(balances, token) == AfterDelta(LedgerIn(old(balances), token), holder, delta)
      ensures forall t: nat | t != token :: LedgerIn(balances, t) == LedgerIn(old(balances), t)
    {
      if delta == 0 {
        return;
      }
      var next := LedgerIn(balances, token);
      var nextBalance := Held(next, holder) + delta;
      if nextBalance <= 0 {
        next := next - {holder};
      } else {
        next := next[holder := nextBalance];
      }
      balances := balances[token := next];
    }

    method ApplyMovement(m: Movement, ghost movements: seq<Movement>)
      requires Shows(movements)
      modifies this
      ensures Shows(movements + [m])
    {
      hide LedgerOf, Minted, AfterDelta;
      Snoc(movements, m);
      tokenIds := tokenIds + {m.token};
      if m.from == ZERO_ADDRESS {
        totalMinted := totalMinted[m.token := (if m.token in totalMinted then totalMinted[m.token] else 0) + m.value];
      }
      if m.from != ZERO_ADDRESS {
        ApplyBalanceDelta(m.token, m.from, Spent(m));
      }
      if m.to != ZERO_ADDRESS {
        ApplyBalanceDelta(m.token, m.to, m.value);
      }
    }

    method ApplyBatch(log: BatchLog, ghost before: seq<Movement>)
      requires Shows(before)
      modifies this
      ensures Shows(before + OfBatch(log, |log.ids|))
    {
      assert before + OfBatch(log, 0) == before;
      for n := 0 to |log.ids|
        invariant Shows(before + OfBatch(log, n))
      {
        var m := Movement(log.ids[n], log.from, log.to, ValueAt(log, n));
        ApplyMovement(m, before + OfBatch(log, n));
        assert before + OfBatch(log, n + 1) == before + OfBatch(log, n) + [m];
      }
    }

    method ApplyLogs(singles: seq<SingleLog>, batches: seq<BatchLog>)
      requires Shows([])
      modifies this
      ensures Shows(Processed(singles, batches))
    {
      hide Shows;
      for i := 0 to |singles|
        invariant Shows(OfSingles(singles[..i]))
      {
        assert singles[..i + 1][..i] == singles[..i];
        ApplyMovement(OfSingle(singles[i]), OfSingles(singles[..i]));
      }
      assert singles[..|singles|] == singles;
      ghost var all := OfBatches(batches);
      assert OfSingles(singles) + Flat(all[..0]) == OfSingles(singles);
      for i := 0 to |batches|
        invariant Shows(OfSingles(singles) + Flat(all[..i]))
      {
        ApplyBatch(batches[i], OfSingles(singles) + Flat(all[..i]));
        assert all[..i + 1][..i] == all[..i];
        assert OfSingles(singles) + Flat(all[..i + 1]) == OfSingles(singles) + Flat(all[..i]) + all[i];
      }
      assert all[..|batches|] == all;
    }

    /** All single transfers, then all batch transfers. */
    method Run(singles: seq<SingleLog>, batches: seq<BatchLog>)
      returns (ghost single: seq<Movement>, ghost batch: seq<seq<Movement>>)
      requires Shows([])
      modifies this
      ensures Shows(single + Flat(batch)) && single + Flat(batch) == Processed(singles, batches)
      ensures |single| == |singles| && |batch| == |batches|
      ensures forall k | 0 <= k < |singles| ::
                && single[k].token == singles[k].id && single[k].from == singles[k].from && single[k].to == singles[k].to
                && single[k].value == singles[k].value
      ensures forall b | 0 <= b < |batches| ::
                |batch[b]| == |batches[b].ids| && forall i | 0 <= i < |batch[b]| ::
                  && batch[b][i].token == batches[b].ids[i] && batch[b][i].from == batches[b].from
                  && batch[b][i].to == batches[b].to
                  && batch[b][i].value == if i < |batches[b].values| then batches[b].values[i] else 0
    {
      hide Shows;
      ApplyLogs(singles, batches);
      single, batch := OfSingles(singles), OfBatches(batches);
      SinglesInOrder(singles);
      forall b | 0 <= b < |batches| {
        BatchInOrder(batches[b], |batches[b].ids|);
      }
    }
  }

  lemma Snoc(movements: seq<Movement>, m: Movement)
    ensures forall token: nat :: LedgerOf(movements + [m], token) ==
              if m.token == token then AfterMovement(LedgerOf(movements, token), m) else LedgerOf(movements, token)
    ensures forall token: nat :: Minted(movements + [m], token) ==
              Minted(movements, token) + (if m.token == token && m.from == ZERO_ADDRESS then m.value else 0)
  {
    assert (movements + [m])[..|movements|] == movements;
  }

  /** Rebuild all ledgers from the logs. `single` and `batch` are what the logs say, applied in this
      order: each balance is the clamped sum of its changes, and so the net sum less the smallest
      prefix sum. */
  method RebuildLedgers(singles: seq<SingleLog>, batches: seq<BatchLog>)
    returns (balances: Balances, minted: map<nat, nat>, ghost single: seq<Movement>, ghost batch: seq<seq<Movement>>)
    ensures |single| == |singles| && |batch| == |batches|
    ensures forall k | 0 <= k < |singles| ::
              && single[k].token == singles[k].id && single[k].from == singles[k].from && single[k].to == singles[k].to
              && single[k].value == singles[k].value
    ensures forall b | 0 <= b < |batches| ::
              |batch[b]| == |batches[b].ids| && forall i | 0 <= i < |batch[b]| ::
                && batch[b][i].token == batches[b].ids[i] && batch[b][i].from == batches[b].from
                && batch[b][i].to == batches[b].to
                && batch[b][i].value == if i < |batches[b].values| then batches[b].values[i] else 0
    ensures single + Flat(batch) == Processed(singles, batches)
    ensures forall token: nat, holder: Address | holder != ZERO_ADDRESS ::
              var ds := Deltas(Processed(singles, batches), token, holder);
              Held(LedgerIn(balances, token), holder) == Net(ds) - Lowest(ds)
    ensures forall token: nat :: (if token in minted then minted[token] else 0) == Minted(single + Flat(batch), token)
    ensures forall token: nat ::
              Total(LedgerIn(balances, token)) ==
              (if token in minted then minted[token] else 0) - Burned(single + Flat(batch), token)
              + Forgiven(single + Flat(batch), token)
  {
    hide LedgerOf, Minted, Burned, Forgiven, Deltas, Flat, Total, Processed;
    var fold := new Fold();
    single, batch := fold.Run(singles, batches);
    balances, minted := fold.balances, fold.totalMinted;
    ghost var ms := single + Flat(batch);
    forall token: nat, holder: Address | holder != ZERO_ADDRESS
      ensures var ds := Deltas(ms, token, holder); Held(LedgerIn(balances, token), holder) == Net(ds) - Lowest(ds)
    {
      BalanceIsClamped(ms, token, holder);
      ClampedClosedForm(Deltas(ms, token, holder));
    }
    forall token: nat
      ensures Total(LedgerIn(balances, token)) ==
              (if token in minted then minted[token] else 0) - Burned(ms, token) + Forgiven(ms, token)
    {
      SupplyAccounted(ms, token);
    }
  }
}
