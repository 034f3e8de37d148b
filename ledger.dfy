/**
 * The bookkeeping every daily simulation loop shares. Visiting a position yields its id, its health
 * factor and whether it was liquidated. A day, and a whole run, keep three tallies over those
 * entries: the number of liquidations, the set of liquidated ids, and the finite health factors
 * that feed the averages (the `inf` of a debt-free position is left out of every average).
 */
module DayLedger {
  import opened Common
  import Lending

  /** One row of the daily price table. */
  datatype PriceRow = PriceRow(date: string, openPrice: real, closePrice: real)

  /** One visited position: its id, its health factor, and the liquidation verdict. */
  datatype Entry = Entry(id: string, healthFactor: Lending.HF, liquidated: bool)

  /** The entries of the visited positions, in visiting order; `None` marks a skipped position. */
  function Present(os: seq<Option<Entry>>): (es: seq<Entry>)
    ensures |es| <= |os|
  {
    if os == [] then []
    else
      var rest := Present(os[..|os| - 1]);
      match os[|os| - 1]
      case None => rest
      case Some(e) => rest + [e]
  }

  lemma PresentPush(os: seq<Option<Entry>>, o: Option<Entry>)
    ensures Present(os + [o]) == Present(os) + (if o.Some? then [o.value] else [])
  {
    assert (os + [o])[..|os + [o]| - 1] == os;
  }

  /**
   * When the visited entry at each place carries the id at the same place of `ids`, every entry
   * present carries one of the `ids`.
   */
  lemma {:induction false} PresentIds(os: seq<Option<Entry>>, ids: seq<string>)
    requires |os| == |ids|
    requires forall i :: 0 <= i < |os| && os[i].Some? ==> os[i].value.id == ids[i]
    ensures forall k :: 0 <= k < |Present(os)| ==> exists i :: 0 <= i < |ids| && ids[i] == Present(os)[k].id
  {
    if os != [] {
      var init := os[..|os| - 1];
      var initIds := ids[..|ids| - 1];
      PresentIds(init, initIds);
      var es := Present(os);
      var rest := Present(init);
      forall k | 0 <= k < |es|
        ensures exists i :: 0 <= i < |ids| && ids[i] == es[k].id
      {
        if k < |rest| {
          assert es[k] == rest[k];
          var i :| 0 <= i < |initIds| && initIds[i] == rest[k].id;
          assert ids[i] == initIds[i];
        } else {
          assert os[|os| - 1].Some? && es[k] == os[|os| - 1].value;
          assert ids[|ids| - 1] == es[k].id;
        }
      }
    } else {
      assert Present(os) == [];
    }
  }

  /** Entries present with pairwise different ids, when the visited places have pairwise different ids. */
  lemma {:induction false} PresentDistinct(os: seq<Option<Entry>>, ids: seq<string>)
    requires |os| == |ids|
    requires forall i :: 0 <= i < |os| && os[i].Some? ==> os[i].value.id == ids[i]
    requires forall i, j :: 0 <= i < j < |ids| ==> ids[i] != ids[j]
    ensures DistinctIds(Present(os))
  {
    if os != [] {
      var init := os[..|os| - 1];
      var initIds := ids[..|ids| - 1];
      PresentDistinct(init, initIds);
      PresentIds(init, initIds);
      var rest := Present(init);
      if os[|os| - 1].Some? {
        var es := Present(os);
        forall i, j | 0 <= i < j < |es|
          ensures es[i].id != es[j].id
        {
          assert es[i] == rest[i];
          if j < |rest| {
            assert es[j] == rest[j];
          } else {
            var k :| 0 <= k < |initIds| && initIds[k] == rest[i].id;
            assert ids[k] == initIds[k];
          }
        }
      }
    }
  }

  /** The liquidation counter: one per liquidated entry. */
  function LiquidationCount(es: seq<Entry>): (n: nat)
    ensures n <= |es|
  {
    if es == [] then 0
    else LiquidationCount(es[..|es| - 1]) + (if es[|es| - 1].liquidated then 1 else 0)
  }

  /** The set of liquidated ids (`liquidated_today`, `positions_ever_liquidated`). */
  function LiquidatedIds(es: seq<Entry>): set<string>
  {
    if es == [] then {}
    else LiquidatedIds(es[..|es| - 1]) + (if es[|es| - 1].liquidated then {es[|es| - 1].id} else {})
  }

  /** The finite health factors, in visiting order (`hf_values`, or the `hf_sum`/`hf_count` pair). */
  function FiniteHealthFactors(es: seq<Entry>): (hs: seq<real>)
    ensures |hs| <= |es|
  {
    if es == [] then []
    else
      var last := es[|es| - 1];
      FiniteHealthFactors(es[..|es| - 1]) + (if last.healthFactor.Fin? then [last.healthFactor.value] else [])
  }

  /** The average health factor of a day or a run: the mean, or `inf` when there is no sample. */
  function Average(hs: seq<real>): (avg: Lending.HF)
    ensures avg.Inf? <==> hs == []
    ensures avg.Fin? ==> avg.value * (|hs| as real) == Sum(hs)
  {
    match Mean(hs)
    case None => Lending.Inf
    case Some(m) => Lending.Fin(m)
  }

  /** A liquidated id is the id of some liquidated entry, and every liquidated entry's id is in the set. */
  lemma {:induction false} LiquidatedIdsExactly(es: seq<Entry>, x: string)
    ensures x in LiquidatedIds(es) <==> exists i :: 0 <= i < |es| && es[i].liquidated && es[i].id == x
  {
    if es != [] {
      var init := es[..|es| - 1];
      LiquidatedIdsExactly(init, x);
      if x in LiquidatedIds(init) {
        var i :| 0 <= i < |init| && init[i].liquidated && init[i].id == x;
        assert es[i] == init[i];
      }
      if exists i :: 0 <= i < |es| && es[i].liquidated && es[i].id == x {
        var i :| 0 <= i < |es| && es[i].liquidated && es[i].id == x;
        if i < |es| - 1 {
          assert init[i] == es[i];
        }
      }
    }
  }

  /** Each liquidation adds at most one id, so the set is never larger than the counter. */
  lemma {:induction false} LiquidatedIdsBound(es: seq<Entry>)
    ensures |LiquidatedIds(es)| <= LiquidationCount(es)
  {
    if es != [] {
      LiquidatedIdsBound(es[..|es| - 1]);
    }
  }

  /** The ids of a sequence of entries are pairwise different. */
  ghost predicate DistinctIds(es: seq<Entry>)
  {
    forall i, j :: 0 <= i < j < |es| ==> es[i].id != es[j].id
  }

  /** With pairwise different ids (the keys of a dictionary), the set is exactly as large as the counter. */
  lemma {:induction false} DistinctIdsCount(es: seq<Entry>)
    requires DistinctIds(es)
    ensures |LiquidatedIds(es)| == LiquidationCount(es)
  {
    if es != [] {
      var init := es[..|es| - 1];
      var last := es[|es| - 1];
      assert DistinctIds(init);
      DistinctIdsCount(init);
      if last.liquidated {
        LiquidatedIdsExactly(init, last.id);
        assert last.id !in LiquidatedIds(init);
      }
    }
  }

  /** The three tallies of a concatenation are the tallies of the parts, combined. */
  lemma {:induction false} LedgerAppend(es: seq<Entry>, fs: seq<Entry>)
    ensures LiquidationCount(es + fs) == LiquidationCount(es) + LiquidationCount(fs)
    ensures LiquidatedIds(es + fs) == LiquidatedIds(es) + LiquidatedIds(fs)
    ensures FiniteHealthFactors(es + fs) == FiniteHealthFactors(es) + FiniteHealthFactors(fs)
  {
    if fs != [] {
      var init := fs[..|fs| - 1];
      assert (es + fs)[..|es + fs| - 1] == es + init;
      assert (es + fs)[|es + fs| - 1] == fs[|fs| - 1];
      LedgerAppend(es, init);
    } else {
      assert es + fs == es;
    }
  }

  /** The tallies after one more entry: the form the loops' accumulators update. */
  lemma LedgerPush(es: seq<Entry>, e: Entry)
    ensures LiquidationCount(es + [e]) == LiquidationCount(es) + (if e.liquidated then 1 else 0)
    ensures LiquidatedIds(es + [e]) == LiquidatedIds(es) + (if e.liquidated then {e.id} else {})
    ensures FiniteHealthFactors(es + [e])
         == FiniteHealthFactors(es) + (if e.healthFactor.Fin? then [e.healthFactor.value] else [])
  {
    assert (es + [e])[..|es + [e]| - 1] == es;
  }

  /** If every finite health factor is at least `lo`, so is their average. */
  lemma AverageAtLeast(hs: seq<real>, lo: real, hi: real)
    requires forall i :: 0 <= i < |hs| ==> lo <= hs[i] <= hi
    ensures Average(hs).Fin? ==> lo <= Average(hs).value <= hi
  {
    if hs != [] {
      MeanBounds(hs, lo, hi);
    }
  }

  /**
   * The running tallies a loop keeps as separate variables (`total_liquidations`, the liquidated
   * set, `hf_sum`, `hf_count`), gathered into one value.
   */
  datatype Tally = Tally(liquidations: nat, liquidated: set<string>, hfSum: real, hfCount: nat)

  /** The tallies of some entries. */
  function Summed(es: seq<Entry>): Tally
  {
    Tally(LiquidationCount(es), LiquidatedIds(es), Sum(FiniteHealthFactors(es)), |FiniteHealthFactors(es)|)
  }

  /** Nothing tallied yet. */
  lemma SummedEmpty()
    ensures Summed([]) == Tally(0, {}, 0.0, 0)
  {
  }

  /**
   * The loop step for one entry: a finite health factor is added to the sum and counted; a
   * liquidation is counted and its id added to the set.
   */
  method TallyEntry(t: Tally, ghost es: seq<Entry>, e: Entry) returns (t': Tally)
    requires t == Summed(es)
    ensures t' == Summed(es + [e])
  {
    LedgerPush(es, e);
    t' := t;
    if e.healthFactor.Fin? {
      SumAppend(FiniteHealthFactors(es), e.healthFactor.value);
      t' := t'.(hfSum := t'.hfSum + e.healthFactor.value, hfCount := t'.hfCount + 1);
    } else {
      assert FiniteHealthFactors(es + [e]) == FiniteHealthFactors(es);
    }
    if e.liquidated {
      t' := t'.(liquidations := t'.liquidations + 1, liquidated := t'.liquidated + {e.id});
    } else {
      assert LiquidatedIds(es + [e]) == LiquidatedIds(es);
    }
  }

  /** `hf_sum / hf_count if hf_count > 0 else inf` is the average of the tallied health factors. */
  lemma AverageOfTally(es: seq<Entry>)
    ensures Average(FiniteHealthFactors(es))
         == if Summed(es).hfCount > 0 then Lending.Fin(Summed(es).hfSum / (Summed(es).hfCount as real))
            else Lending.Inf
  {
  }
}
