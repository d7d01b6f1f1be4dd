/** What happens to the row of an offer over time, as far as its settlement is concerned, and how
    often the offer is therefore settled. */
module OfferHistory {

  /** `Stored`: a row step wrote the row with an acceptance's transaction hash; `died` says that it
      should have settled and the process ended before it could. `Dropped`: retention deleted rows. */
  datatype Happening = Stored(id: nat, tx: nat, died: bool) | Dropped(ids: set<nat>)

  predicate Stores(h: Happening, id: nat) { h.Stored? && h.id == id }
  predicate Drops(h: Happening, id: nat) { h.Dropped? && id in h.ids }

  /** Whether the row holds the hash now. */
  function Holding(history: seq<Happening>, id: nat): bool {
    if history == [] then false
    else
      var last := history[|history| - 1];
      if Stores(last, id) then true
      else if Drops(last, id) then false
      else Holding(history[..|history| - 1], id)
  }

  /** A row step settles when it stores a hash the row did not hold. */
  function Settlements(history: seq<Happening>, id: nat): nat {
    if history == [] then 0
    else
      var init, last := history[..|history| - 1], history[|history| - 1];
      Settlements(init, id) + if Stores(last, id) && !Holding(init, id) && !last.died then 1 else 0
  }

  // ----- said directly -----

  /** Between these two places retention dropped the offer's row. */
  predicate DroppedBetween(history: seq<Happening>, j: int, k: int, id: nat) {
    exists d :: 0 <= d < |history| && j < d < k && Drops(history[d], id)
  }

  /** The step stores the hash for the first time since the beginning or since a drop of the row. */
  predicate Opens(history: seq<Happening>, k: nat, id: nat) {
    k < |history| && Stores(history[k], id) &&
    forall j | 0 <= j < k && Stores(history[j], id) :: DroppedBetween(history, j, k, id)
  }

  function Openings(history: seq<Happening>, id: nat): set<nat> {
    set k: nat | k < |history| && Opens(history, k, id) && !history[k].died
  }

  lemma {:induction false} HoldingIff(history: seq<Happening>, id: nat)
    ensures Holding(history, id) <==>
            exists j :: 0 <= j < |history| && Stores(history[j], id) && !DroppedBetween(history, j, |history|, id)
  {
    if history != [] {
      var n := |history| - 1;
      var init := history[..n];
      HoldingIff(init, id);
      if Stores(history[n], id) {
        assert !DroppedBetween(history, n, |history|, id);
      } else if Drops(history[n], id) {
        forall j | 0 <= j < |history| && Stores(history[j], id)
          ensures DroppedBetween(history, j, |history|, id)
        {
          assert Drops(history[n], id);
        }
      } else {
        forall j | 0 <= j < n && Stores(init[j], id)
          ensures DroppedBetween(history, j, |history|, id) <==> DroppedBetween(init, j, n, id)
        {
          DropInPrefix(history, j, n, id);
        }
      }
    }
  }

  lemma DropInPrefix(history: seq<Happening>, j: nat, n: nat, id: nat)
    requires n + 1 == |history| && !Drops(history[n], id)
    ensures DroppedBetween(history, j, |history|, id) <==> DroppedBetween(history[..n], j, n, id)
  {
    if DroppedBetween(history, j, |history|, id) {
      var d :| 0 <= d < |history| && j < d < |history| && Drops(history[d], id);
      assert Drops(history[..n][d], id);
    }
    if DroppedBetween(history[..n], j, n, id) {
      var d :| 0 <= d < n && j < d < n && Drops(history[..n][d], id);
      assert Drops(history[d], id);
    }
  }

  lemma OpensInPrefix(history: seq<Happening>, n: nat, k: nat, id: nat)
    requires k < n <= |history|
    ensures Opens(history, k, id) <==> Opens(history[..n], k, id)
  {
    forall j | 0 <= j < k
      ensures DroppedBetween(history, j, k, id) <==> DroppedBetween(history[..n], j, k, id)
    {
      if DroppedBetween(history, j, k, id) {
        var d :| 0 <= d < |history| && j < d < k && Drops(history[d], id);
        assert Drops(history[..n][d], id);
      }
      if DroppedBetween(history[..n], j, k, id) {
        var d :| 0 <= d < n && j < d < k && Drops(history[..n][d], id);
        assert Drops(history[d], id);
      }
    }
  }

  lemma OpeningsSnoc(history: seq<Happening>, id: nat)
    requires history != []
    ensures var n: nat := |history| - 1;
      && n !in Openings(history[..n], id)
      && Openings(history, id) == Openings(history[..n], id) + if Opens(history, n, id) && !history[n].died then {n} else {}
  {
    var n: nat := |history| - 1;
    forall k: nat | k < n
      ensures Opens(history, k, id) <==> Opens(history[..n], k, id)
    {
      OpensInPrefix(history, n, k, id);
    }
    hide Opens;
  }

  /** An offer is settled once for each step that stores its hash for the first time since the
      beginning or since a drop of its row, and is not cut off. */
  lemma {:induction false} SettledPerOpening(history: seq<Happening>, id: nat)
    ensures Settlements(history, id) == |Openings(history, id)|
  {
    hide Opens, Holding;
    if history == [] {
      assert Openings(history, id) == {};
    } else {
      hide Openings;
      SettledPerOpening(history[..|history| - 1], id);
      OpeningsSnoc(history, id);
      LastOpensIff(history, id);
      OpeningStores(history, |history| - 1, id);
    }
  }

  lemma OpeningStores(history: seq<Happening>, k: nat, id: nat)
    ensures Opens(history, k, id) ==> k < |history| && Stores(history[k], id)
  {}

  lemma LastOpensIff(history: seq<Happening>, id: nat)
    requires history != []
    ensures var n: nat := |history| - 1; Opens(history, n, id) <==> Stores(history[n], id) && !Holding(history[..n], id)
  {
    var n: nat := |history| - 1;
    HoldingIff(history[..n], id);
    if Stores(history[n], id) {
      forall j | 0 <= j < n
        ensures DroppedBetween(history, j, n, id) <==> DroppedBetween(history[..n], j, n, id)
      {
        DropInPrefix(history, j, n, id);
        if DroppedBetween(history, j, |history|, id) {
          var d :| 0 <= d < |history| && j < d < |history| && Drops(history[d], id);
          assert d < n;
        }
        if DroppedBetween(history, j, n, id) {
          var d :| 0 <= d < |history| && j < d < n && Drops(history[d], id);
          assert Drops(history[d], id);
        }
      }
    }
  }

  /** So it is settled twice exactly when it was settled, its row was dropped while it held the
      hash, and a later step stored the hash again and was not cut off. */
  lemma SettledTwiceIff(history: seq<Happening>, id: nat)
    ensures Settlements(history, id) >= 2 <==>
            exists j, k :: j in Openings(history, id) && k in Openings(history, id) && j < k && DroppedBetween(history, j, k, id)
  {
    hide Settlements, Openings, DroppedBetween;
    SettledPerOpening(history, id);
    var openings := Openings(history, id);
    if |openings| >= 2 {
      var j, k := TwoOf(openings);
      LaterOpening(history, j, k, id);
    }
    if exists j, k :: j in openings && k in openings && j < k && DroppedBetween(history, j, k, id) {
      var j, k :| j in openings && k in openings && j < k && DroppedBetween(history, j, k, id);
      assert openings == {j, k} + (openings - {j, k});
      assert |{j, k}| == 2;
    }
  }

  lemma TwoOf(s: set<nat>) returns (j: nat, k: nat)
    requires |s| >= 2
    ensures j in s && k in s && j < k
  {
    var x :| x in s;
    var others := s - {x};
    assert |others| >= 1;
    var y :| y in others;
    j, k := if x < y then x else y, if x < y then y else x;
  }

  lemma LaterOpening(history: seq<Happening>, j: nat, k: nat, id: nat)
    requires j in Openings(history, id) && k in Openings(history, id) && j < k
    ensures DroppedBetween(history, j, k, id)
  {}

  predicate NeverDropped(history: seq<Happening>, id: nat) {
    forall d | 0 <= d < |history| :: !Drops(history[d], id)
  }

  predicate NeverCut(history: seq<Happening>, id: nat) {
    forall k | 0 <= k < |history| && Stores(history[k], id) :: !history[k].died
  }

  predicate EverStored(history: seq<Happening>, id: nat) {
    exists k :: 0 <= k < |history| && Stores(history[k], id)
  }

  /** A row never dropped: settled at most once, and never only if no step stored the hash or the
      first that did was cut off. */
  lemma {:induction false} NeverDroppedIsOnce(history: seq<Happening>, id: nat)
    requires NeverDropped(history, id)
    ensures Settlements(history, id) <= 1 && (Holding(history, id) <==> EverStored(history, id))
    ensures !Holding(history, id) ==> Settlements(history, id) == 0
    ensures NeverCut(history, id) && EverStored(history, id) ==> Settlements(history, id) == 1
  {
    if history != [] {
      var n := |history| - 1;
      var init := history[..n];
      NeverDroppedIsOnce(init, id);
      assert !Drops(history[n], id);
      if EverStored(init, id) {
        var k :| 0 <= k < n && Stores(init[k], id);
        assert Stores(history[k], id);
      }
      if EverStored(history, id) && !Stores(history[n], id) {
        var k :| 0 <= k < |history| && Stores(history[k], id);
        assert Stores(init[k], id);
      }
    }
  }

  lemma SettlementsSnoc(history: seq<Happening>, h: Happening, id: nat)
    ensures Settlements(history + [h], id) ==
            Settlements(history, id) + if Stores(h, id) && !Holding(history, id) && !h.died then 1 else 0
    ensures Holding(history + [h], id) == (if Stores(h, id) then true else if Drops(h, id) then false else Holding(history, id))
  {
    assert (history + [h])[..|history|] == history;
  }

  /** A run whose steps were all whole and for different offers settles each offer it stored, unless
      the row held the hash already. */
  lemma {:induction false} RunSettles(before: seq<Happening>, added: seq<Happening>, id: nat)
    requires forall k | 0 <= k < |added| :: added[k].Stored? && !added[k].died
    requires forall j, k | 0 <= j < k < |added| :: added[j].id != added[k].id
    ensures Holding(before + added, id) <==> Holding(before, id) || EverStored(added, id)
    ensures Settlements(before + added, id) ==
            Settlements(before, id) + if EverStored(added, id) && !Holding(before, id) then 1 else 0
  {
    if added == [] {
      assert before + added == before;
    } else {
      var n := |added| - 1;
      RunSettles(before, added[..n], id);
      SettlementsSnoc(before + added[..n], added[n], id);
      assert before + added == (before + added[..n]) + [added[n]];
      StoredSnoc(added, id);
      if Stores(added[n], id) && EverStored(added[..n], id) {
        var k :| 0 <= k < n && Stores(added[..n][k], id);
        assert added[k].id == id;
      }
    }
  }

  lemma StoredSnoc(history: seq<Happening>, id: nat)
    requires history != []
    ensures EverStored(history, id) <==> EverStored(history[..|history| - 1], id) || Stores(history[|history| - 1], id)
  {
    var init := history[..|history| - 1];
    if EverStored(init, id) {
      var k :| 0 <= k < |init| && Stores(init[k], id);
      assert Stores(history[k], id);
    }
    if EverStored(history, id) && !Stores(history[|history| - 1], id) {
      var k :| 0 <= k < |history| && Stores(history[k], id);
      assert Stores(init[k], id);
    }
  }
}
