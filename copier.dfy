/** The polling trade copier of main.py: the processed-id set it owns, one
    poll cycle (check_for_new_trades), the copy of one fill (copy_trade) and
    the monitoring loop (start_monitoring), run over a finite sequence of
    cycles instead of forever. */
module Copier {
  import opened Trades
  import opened Dedup

  /** What the source session's fill listing returned in one cycle. */
  datatype Poll = Listed(fills: seq<Fill>) | ListingFailed

  /** One poll cycle as the outside world decides it: the listing, and the
      execution ids whose placeOrder call raises in this cycle. */
  datatype Cycle = Cycle(poll: Poll, rejected: set<string>)

  /** The processed set after a cycle that started from `seen`: every listed
      id is added, and a failed listing changes nothing. */
  function After(poll: Poll, seen: set<string>): (r: set<string>)
    ensures seen <= r
    ensures poll.Listed? ==> IdsOf(poll.fills) <= r
    ensures r - seen <= (if poll.Listed? then IdsOf(poll.fills) else {})
  {
    match poll
    case Listed(fills) => seen + IdsOf(fills)
    case ListingFailed => seen
  }

  /** The fills a cycle copies to the destination, in submission order. */
  function CycleCopies(c: Cycle, seen: set<string>): seq<Fill> {
    match c.poll
    case Listed(fills) => Placed(NewFills(fills, seen), c.rejected)
    case ListingFailed => []
  }

  /** The processed set after a run of cycles. */
  function RunProcessed(cycles: seq<Cycle>, seen: set<string>): (r: set<string>)
    ensures seen <= r
    ensures forall c | c in cycles && c.poll.Listed? :: IdsOf(c.poll.fills) <= r
    decreases |cycles|
  {
    if cycles == [] then seen
    else
      assert forall c | c in cycles[1..] :: c in cycles;
      RunProcessed(cycles[1..], After(cycles[0].poll, seen))
  }

  /** The fills a run of cycles copies to the destination, in submission order. */
  function RunCopies(cycles: seq<Cycle>, seen: set<string>): seq<Fill>
    decreases |cycles|
  {
    if cycles == [] then []
    else CycleCopies(cycles[0], seen) + RunCopies(cycles[1..], After(cycles[0].poll, seen))
  }

  /** One cycle copies each of its ids at most once, and only ids that were
      not processed before the cycle and are processed after it. */
  lemma CycleCopiesFresh(c: Cycle, seen: set<string>)
    ensures DistinctIds(CycleCopies(c, seen))
    ensures IdsOf(CycleCopies(c, seen)) <= After(c.poll, seen) - seen
  {
    if c.poll.Listed? {
      NewFillsSpec(c.poll.fills, seen);
      IdsOfPlaced(NewFills(c.poll.fills, seen), c.rejected);
      PlacedSpec(NewFills(c.poll.fills, seen), c.rejected);
    }
  }

  /** At most once: over any run of cycles, whatever listings fail and
      whatever submissions fail, no execution id is copied twice, and every
      copied id was unprocessed at the start and is processed at the end.
      Submission attempts are covered too: neither After nor NewFills reads
      `rejected`, so the same cycles with every `rejected` set to {} have
      the same processed sets, and their copies are exactly the fills for
      which placeOrder was called; no id is submitted twice either. */
  lemma {:induction false} AtMostOnce(cycles: seq<Cycle>, seen: set<string>)
    ensures DistinctIds(RunCopies(cycles, seen))
    ensures IdsOf(RunCopies(cycles, seen)) <= RunProcessed(cycles, seen) - seen
    decreases |cycles|
  {
    if cycles == [] {
      assert IdsOf([]) == {};
    } else {
      var c, rest := cycles[0], cycles[1..];
      var seen' := After(c.poll, seen);
      var first, later := CycleCopies(c, seen), RunCopies(rest, seen');
      CycleCopiesFresh(c, seen);
      AtMostOnce(rest, seen');
      DistinctAppend(first, later);
      IdsOfAppend(first, later);
    }
  }

  /** Every fill the successful listings of a run returned, cycle by cycle. */
  function Listings(cycles: seq<Cycle>): seq<Fill>
    decreases |cycles|
  {
    if cycles == [] then []
    else (if cycles[0].poll.Listed? then cycles[0].poll.fills else []) + Listings(cycles[1..])
  }

  /** Within a cycle, orders reach the destination in the order their fills
      have in the listing. */
  lemma CycleInOrder(c: Cycle, seen: set<string>)
    requires c.poll.Listed?
    ensures Subsequence(CycleCopies(c, seen), c.poll.fills)
  {
    var queued := NewFills(c.poll.fills, seen);
    NewFillsInOrder(c.poll.fills, seen);
    PlacedInOrder(queued, c.rejected);
    SubsequenceTrans(Placed(queued, c.rejected), queued, c.poll.fills);
  }

  /** Over a run, orders reach the destination in the order of the cycles
      and, within a cycle, in the order of its listing. */
  lemma {:induction false} RunInOrder(cycles: seq<Cycle>, seen: set<string>)
    ensures Subsequence(RunCopies(cycles, seen), Listings(cycles))
    decreases |cycles|
  {
    if cycles != [] {
      var c := cycles[0];
      RunInOrder(cycles[1..], After(c.poll, seen));
      if c.poll.Listed? {
        CycleInOrder(c, seen);
      }
      SubsequenceAppend(CycleCopies(c, seen), if c.poll.Listed? then c.poll.fills else [],
                        RunCopies(cycles[1..], After(c.poll, seen)), Listings(cycles[1..]));
    }
  }

  /** A fill listed in a successful cycle is never copied by a later cycle,
      whether or not its own copy was rejected or failed. */
  lemma NeverRetried(c: Cycle, later: seq<Cycle>, seen: set<string>)
    requires c.poll.Listed?
    ensures IdsOf(c.poll.fills) !! IdsOf(RunCopies(later, After(c.poll, seen)))
  {
    AtMostOnce(later, After(c.poll, seen));
  }

  /** Polling the same listing again, right after a successful cycle on it,
      queues nothing and so submits no order, whatever submissions fail. */
  lemma RepeatedListingCopiesNothing(fills: seq<Fill>, seen: set<string>, rejected: set<string>)
    ensures CycleCopies(Cycle(Listed(fills), rejected), After(Listed(fills), seen)) == []
  {
    NewFillsIdempotent(fills, seen);
  }

  /** A listing of one fill, checked against `seen`. */
  lemma SingleListing(f: Fill, seen: set<string>, rejected: set<string>)
    ensures IdsOf([f]) == {f.ExecId()}
    ensures NewFills([f], seen) == if f.ExecId() in seen then [] else [f]
    ensures Placed([f], rejected) == if Copyable(f) && f.ExecId() !in rejected then [f] else []
    ensures Copies([f]) == match OrderFor(f.contract, f.execution) case None => [] case Some(o) => [o]
  {
    IdsOfCons(f, []);
    assert [f] + [] == [f];
    assert [f][1..] == [];
  }

  /** A run of one or two cycles, unfolded. */
  lemma TwoCycles(c0: Cycle, c1: Cycle, seen: set<string>)
    ensures RunCopies([c0], seen) == CycleCopies(c0, seen)
    ensures RunProcessed([c0], seen) == After(c0.poll, seen)
    ensures RunCopies([c0, c1], seen) == CycleCopies(c0, seen) + CycleCopies(c1, After(c0.poll, seen))
    ensures RunProcessed([c0, c1], seen) == After(c1.poll, After(c0.poll, seen))
  {
    assert [c0][1..] == [];
    assert [c0, c1][1..] == [c1];
    assert CycleCopies(c0, seen) + [] == CycleCopies(c0, seen);
    var seen' := After(c0.poll, seen);
    assert CycleCopies(c1, seen') + [] == CycleCopies(c1, seen');
    assert RunCopies([c1], seen') == CycleCopies(c1, seen');
    assert RunProcessed([c1], seen') == After(c1.poll, seen');
    assert RunCopies([c0, c1], seen) == CycleCopies(c0, seen) + RunCopies([c1], seen');
  }

  /** A bought fill listed on two consecutive cycles is copied once, as a
      buy order of the same size for the same instrument. */
  lemma BoughtFillScenario()
    ensures var e1 := Fill(Contract("ABC"), Execution("E1", "BOT", 100.0));
            var cycles := [Cycle(Listed([e1]), {}), Cycle(Listed([e1]), {})];
            Copies(RunCopies(cycles, {})) == [Order(Contract("ABC"), Buy, 100.0)] &&
            RunProcessed(cycles, {}) == {"E1"}
  {
    var e1 := Fill(Contract("ABC"), Execution("E1", "BOT", 100.0));
    TwoCycles(Cycle(Listed([e1]), {}), Cycle(Listed([e1]), {}), {});
    SingleListing(e1, {}, {});
    SingleListing(e1, {"E1"}, {});
  }

  /** A sold fill is copied as a sell order of the same size. */
  lemma SoldFillScenario()
    ensures var e2 := Fill(Contract("ABC"), Execution("E2", "SLD", 50.0));
            Copies(RunCopies([Cycle(Listed([e2]), {})], {})) == [Order(Contract("ABC"), Sell, 50.0)] &&
            RunProcessed([Cycle(Listed([e2]), {})], {}) == {"E2"}
  {
    var e2 := Fill(Contract("ABC"), Execution("E2", "SLD", 50.0));
    TwoCycles(Cycle(Listed([e2]), {}), Cycle(ListingFailed, {}), {});
    SingleListing(e2, {}, {});
  }

  /** A fill with an unknown side places no order but is processed. */
  lemma UnknownSideScenario()
    ensures var e3 := Fill(Contract("ABC"), Execution("E3", "XYZ", 10.0));
            RunCopies([Cycle(Listed([e3]), {})], {}) == [] &&
            RunProcessed([Cycle(Listed([e3]), {})], {}) == {"E3"}
  {
    var e3 := Fill(Contract("ABC"), Execution("E3", "XYZ", 10.0));
    TwoCycles(Cycle(Listed([e3]), {}), Cycle(ListingFailed, {}), {});
    SingleListing(e3, {}, {});
  }

  /** A fill whose submission raised is not copied on the next cycle either. */
  lemma FailedSubmissionScenario()
    ensures var e1 := Fill(Contract("ABC"), Execution("E1", "BOT", 100.0));
            RunCopies([Cycle(Listed([e1]), {"E1"}), Cycle(Listed([e1]), {})], {}) == []
  {
    var e1 := Fill(Contract("ABC"), Execution("E1", "BOT", 100.0));
    TwoCycles(Cycle(Listed([e1]), {"E1"}), Cycle(Listed([e1]), {}), {});
    SingleListing(e1, {}, {"E1"});
    SingleListing(e1, {"E1"}, {});
  }

  /** One step of the queueing loop of check_for_new_trades: marking the
      fill at `i` processed and queueing it when it was unseen keeps the
      queue and the set on course for NewFills. */
  lemma QueueStep(fills: seq<Fill>, i: nat, queued: seq<Fill>, seen0: set<string>, seen: set<string>)
    requires i < |fills|
    requires seen == seen0 + IdsOf(fills[..i])
    requires queued + NewFills(fills[i..], seen) == NewFills(fills, seen0)
    ensures seen + {fills[i].ExecId()} == seen0 + IdsOf(fills[..i + 1])
    ensures (if fills[i].ExecId() in seen then queued else queued + [fills[i]])
              + NewFills(fills[i + 1..], seen + {fills[i].ExecId()}) == NewFills(fills, seen0)
  {
    MarkStep(fills, i);
    var f := fills[i];
    var rest := NewFills(fills[i + 1..], seen + {f.ExecId()});
    assert fills[i..] == [f] + fills[i + 1..];
    if f.ExecId() in seen {
      assert seen + {f.ExecId()} == seen;
      assert NewFills(fills[i..], seen) == rest;
    } else {
      assert NewFills(fills[i..], seen) == [f] + rest;
      AppendAssoc(queued, [f], rest);
    }
  }

  lemma MarkStep(fills: seq<Fill>, i: nat)
    requires i < |fills|
    ensures IdsOf(fills[..i + 1]) == IdsOf(fills[..i]) + {fills[i].ExecId()}
  {
    assert fills[..i + 1] == fills[..i] + [fills[i]];
    IdsOfAppend(fills[..i], [fills[i]]);
    SingleListing(fills[i], {}, {});
  }

  /** One step of the copying loop of check_for_new_trades. */
  lemma PlaceStep(fills: seq<Fill>, j: nat, rejected: set<string>)
    requires j < |fills|
    ensures Placed(fills[j..], rejected) ==
              (if Copyable(fills[j]) && fills[j].ExecId() !in rejected then [fills[j]] else [])
              + Placed(fills[j + 1..], rejected)
  {
    assert fills[j..][0] == fills[j] && fills[j..][1..] == fills[j + 1..];
  }

  /** One step of the monitoring loop. */
  lemma RunStep(cycles: seq<Cycle>, k: nat, seen: set<string>)
    requires k < |cycles|
    ensures RunProcessed(cycles[k..], seen) == RunProcessed(cycles[k + 1..], After(cycles[k].poll, seen))
    ensures RunCopies(cycles[k..], seen) ==
              CycleCopies(cycles[k], seen) + RunCopies(cycles[k + 1..], After(cycles[k].poll, seen))
  {
    assert cycles[k..][0] == cycles[k] && cycles[k..][1..] == cycles[k + 1..];
  }

  /** The destination's accepted orders are the copies of `copied`, and
      every copied fill has a known side, a distinct id and a processed id. */
  ghost predicate CopyLog(copied: seq<Fill>, orders: seq<Order>, processed: set<string>) {
    (forall f | f in copied :: Copyable(f)) &&
    orders == Copies(copied) &&
    DistinctIds(copied) &&
    IdsOf(copied) <= processed
  }

  /** A cycle extends a consistent log to a consistent log. */
  lemma CycleKeepsLog(copied: seq<Fill>, c: Cycle, seen: set<string>)
    requires CopyLog(copied, Copies(copied), seen)
    ensures CopyLog(copied + CycleCopies(c, seen), Copies(copied) + Copies(CycleCopies(c, seen)), After(c.poll, seen))
  {
    var copies := CycleCopies(c, seen);
    CycleCopiesFresh(c, seen);
    DistinctAppend(copied, copies);
    IdsOfAppend(copied, copies);
    CopiesAppend(copied, copies);
    if c.poll.Listed? {
      PlacedSpec(NewFills(c.poll.fills, seen), c.rejected);
    }
  }

  /** The copier object: the set of processed execution ids is its only
      state. The destination session's accepted orders, and the fill each of
      them copies, are kept as ghost state so that contracts can speak of
      them. */
  class TradeCopier {
    var processed: set<string>
    ghost var destOrders: seq<Order>
    ghost var copied: seq<Fill>

    ghost predicate Valid()
      reads this
    {
      CopyLog(copied, destOrders, processed)
    }

    /** A new copier has processed nothing, so a restart replays every fill
        of the day once more. */
    constructor ()
      ensures Valid()
      ensures processed == {} && destOrders == [] && copied == []
    {
      processed := {};
      destOrders := [];
      copied := [];
    }

    /** copy_trade: translate the execution into a market order and submit it
        to the destination. An unknown side submits nothing; a submission
        that raises (`placeFails`) is swallowed and leaves the destination as
        it was. This is a step of CheckForNewTrades, not an entry point: on
        its own it may copy an unprocessed or repeated id, so it does not
        keep Valid(). */
    method CopyTrade(contract: Contract, execution: Execution, placeFails: bool)
      modifies this
      ensures processed == old(processed)
      ensures OrderFor(contract, execution).None? || placeFails ==>
                destOrders == old(destOrders) && copied == old(copied)
      ensures OrderFor(contract, execution).Some? && !placeFails ==>
                destOrders == old(destOrders) + [OrderFor(contract, execution).value] &&
                copied == old(copied) + [Fill(contract, execution)]
    {
      var order := OrderFor(contract, execution);
      if order.None? {
        return;
      }
      if placeFails {
        return;
      }
      destOrders := destOrders + [order.value];
      copied := copied + [Fill(contract, execution)];
    }

    /** check_for_new_trades: list the fills, queue the unseen ones (marking
        each id processed as soon as it is met), then copy each queued fill.
        A failed listing does nothing. */
    method CheckForNewTrades(poll: Poll, rejected: set<string>)
      requires Valid()
      modifies this
      ensures Valid()
      ensures processed == After(poll, old(processed))
      ensures copied == old(copied) + CycleCopies(Cycle(poll, rejected), old(processed))
      ensures destOrders == old(destOrders) + Copies(CycleCopies(Cycle(poll, rejected), old(processed)))
    {
      if poll.ListingFailed? {
        return;
      }
      var newFills := FindNewFills(poll.fills);
      ProcessNewFills(newFills, rejected);
      CycleKeepsLog(old(copied), Cycle(poll, rejected), old(processed));
      CopiesAppend(old(copied), Placed(newFills, rejected));
    }

    /** The first loop of check_for_new_trades: walk the listing in order,
        queue each fill whose id is unprocessed and mark that id processed
        before the next fill is looked at. It only adds ids, so it keeps
        Valid(). */
    method FindNewFills(currentFills: seq<Fill>) returns (newFills: seq<Fill>)
      requires Valid()
      modifies this`processed
      ensures Valid()
      ensures processed == old(processed) + IdsOf(currentFills)
      ensures newFills == NewFills(currentFills, old(processed))
    {
      newFills := [];
      for i := 0 to |currentFills|
        invariant processed == old(processed) + IdsOf(currentFills[..i])
        invariant newFills + NewFills(currentFills[i..], processed) == NewFills(currentFills, old(processed))
      {
        var fill := currentFills[i];
        QueueStep(currentFills, i, newFills, old(processed), processed);
        if fill.ExecId() !in processed {
          newFills := newFills + [fill];
          processed := processed + {fill.ExecId()};
        }
      }
      assert currentFills[..|currentFills|] == currentFills;
      assert currentFills[|currentFills|..] == [];
    }

    /** The second loop of check_for_new_trades: copy each queued fill in
        order; `rejected` holds the ids whose placeOrder call raises. This
        is a step of CheckForNewTrades: Valid() holds again only once the
        queue came from FindNewFills (see CycleKeepsLog). */
    method ProcessNewFills(newFills: seq<Fill>, rejected: set<string>)
      modifies this
      ensures processed == old(processed)
      ensures copied == old(copied) + Placed(newFills, rejected)
      ensures destOrders == old(destOrders) + Copies(Placed(newFills, rejected))
    {
      for j := 0 to |newFills|
        invariant processed == old(processed)
        invariant copied + Placed(newFills[j..], rejected) == old(copied) + Placed(newFills, rejected)
        invariant destOrders + Copies(Placed(newFills[j..], rejected)) ==
                  old(destOrders) + Copies(Placed(newFills, rejected))
      {
        var fill := newFills[j];
        ghost var step := if Copyable(fill) && fill.ExecId() !in rejected then [fill] else [];
        ghost var rest := Placed(newFills[j + 1..], rejected);
        PlaceStep(newFills, j, rejected);
        CopiesAppend(step, rest);
        ghost var copiedBefore, ordersBefore := copied, destOrders;
        CopyTrade(fill.contract, fill.execution, fill.ExecId() in rejected);
        assert copied == copiedBefore + step;
        assert destOrders == ordersBefore + Copies(step);
        AppendAssoc(copiedBefore, step, rest);
        AppendAssoc(ordersBefore, Copies(step), Copies(rest));
      }
      assert newFills[|newFills|..] == [];
    }

    /** start_monitoring: run check_for_new_trades once per cycle, in order. */
    method StartMonitoring(cycles: seq<Cycle>)
      requires Valid()
      modifies this
      ensures Valid()
      ensures processed == RunProcessed(cycles, old(processed))
      ensures copied == old(copied) + RunCopies(cycles, old(processed))
      ensures destOrders == old(destOrders) + Copies(RunCopies(cycles, old(processed)))
    {
      for k := 0 to |cycles|
        invariant Valid()
        invariant RunProcessed(cycles[k..], processed) == RunProcessed(cycles, old(processed))
        invariant copied + RunCopies(cycles[k..], processed) == old(copied) + RunCopies(cycles, old(processed))
      {
        RunStep(cycles, k, processed);
        ghost var copiedBefore, seen := copied, processed;
        CheckForNewTrades(cycles[k].poll, cycles[k].rejected);
        AppendAssoc(copiedBefore, CycleCopies(cycles[k], seen), RunCopies(cycles[k + 1..], processed));
      }
      assert cycles[|cycles|..] == [];
      assert copied == old(copied) + RunCopies(cycles, old(processed));
      CopiesAppend(old(copied), RunCopies(cycles, old(processed)));
    }
  }
}
