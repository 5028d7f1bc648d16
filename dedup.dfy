/** The deduplication step of check_for_new_trades (main.py): which fills of
    one cumulative listing are new, given the execution ids already processed,
    and which of those end up as submitted orders. */
module Dedup {
  import opened Trades

  /** The execution ids that occur in a run of fills. */
  function IdsOf(fills: seq<Fill>): set<string> {
    set f | f in fills :: f.ExecId()
  }

  /** No execution id occurs twice. */
  predicate DistinctIds(fills: seq<Fill>) {
    forall i, j | 0 <= i < j < |fills| :: fills[i].ExecId() != fills[j].ExecId()
  }

  /** `a` is `b` with some elements left out and the rest kept in order. */
  predicate Subsequence(a: seq<Fill>, b: seq<Fill>)
    decreases |b|
  {
    if a == [] then true
    else if b == [] then false
    else (a[0] == b[0] && Subsequence(a[1..], b[1..])) || Subsequence(a, b[1..])
  }

  lemma IdsOfCons(f: Fill, fills: seq<Fill>)
    ensures IdsOf([f] + fills) == {f.ExecId()} + IdsOf(fills)
  {
    assert forall g | g in [f] + fills :: g == f || g in fills;
  }

  lemma IdsOfHead(fills: seq<Fill>)
    requires fills != []
    ensures fills[0].ExecId() in IdsOf(fills)
  {
    assert fills[0] in fills;
  }

  lemma IdsOfAppend(a: seq<Fill>, b: seq<Fill>)
    ensures IdsOf(a + b) == IdsOf(a) + IdsOf(b)
  {
    assert forall g | g in a + b :: g in a || g in b;
  }

  lemma AppendAssoc<T>(a: seq<T>, b: seq<T>, c: seq<T>)
    ensures (a + b) + c == a + (b + c)
  {
  }

  /** Fills can be concatenated without repeating an id exactly when each
      part is free of repeats and the parts share no id. */
  lemma DistinctAppend(a: seq<Fill>, b: seq<Fill>)
    requires DistinctIds(a) && DistinctIds(b) && IdsOf(a) !! IdsOf(b)
    ensures DistinctIds(a + b)
  {
    forall i, j | 0 <= i < j < |a + b|
      ensures (a + b)[i].ExecId() != (a + b)[j].ExecId()
    {
      if j < |a| {
        assert (a + b)[i] == a[i] && (a + b)[j] == a[j];
      } else if i < |a| {
        assert (a + b)[i] == a[i] && a[i] in a && a[i].ExecId() in IdsOf(a);
        assert (a + b)[j] == b[j - |a|] && b[j - |a|] in b && b[j - |a|].ExecId() in IdsOf(b);
      } else {
        assert (a + b)[i] == b[i - |a|] && (a + b)[j] == b[j - |a|];
      }
    }
  }

  /** The fills the first loop of check_for_new_trades queues as new: walking
      the listing in order, a fill is queued when its id has not been seen,
      and its id is marked seen at once. */
  function NewFills(listing: seq<Fill>, seen: set<string>): (r: seq<Fill>)
    ensures |r| <= |listing|
    decreases |listing|
  {
    if listing == [] then []
    else
      var f := listing[0];
      if f.ExecId() in seen then NewFills(listing[1..], seen)
      else [f] + NewFills(listing[1..], seen + {f.ExecId()})
  }

  /** A fill is queued only if it is in the listing and its id was unseen;
      every unseen id of the listing is queued; no id is queued twice, even
      when the listing repeats it. */
  lemma {:induction false} NewFillsSpec(listing: seq<Fill>, seen: set<string>)
    ensures forall f | f in NewFills(listing, seen) :: f in listing && f.ExecId() !in seen
    ensures IdsOf(NewFills(listing, seen)) == IdsOf(listing) - seen
    ensures DistinctIds(NewFills(listing, seen))
    decreases |listing|
  {
    if listing != [] {
      var f := listing[0];
      assert listing == [f] + listing[1..];
      IdsOfCons(f, listing[1..]);
      if f.ExecId() in seen {
        NewFillsSpec(listing[1..], seen);
      } else {
        var rest := NewFills(listing[1..], seen + {f.ExecId()});
        NewFillsSpec(listing[1..], seen + {f.ExecId()});
        IdsOfCons(f, rest);
        assert forall g | g in rest :: g.ExecId() in IdsOf(rest);
      }
    }
  }

  /** The fills whose copy reaches the destination, in order: a known side,
      and a placeOrder call that did not fail (`rejected` holds the ids whose
      submission raised). */
  function Placed(fills: seq<Fill>, rejected: set<string>): seq<Fill>
    decreases |fills|
  {
    if fills == [] then []
    else
      var f := fills[0];
      (if Copyable(f) && f.ExecId() !in rejected then [f] else []) + Placed(fills[1..], rejected)
  }

  /** Placed keeps exactly the fills with a known side and an accepted
      submission, and keeps ids distinct. */
  lemma {:induction false} PlacedSpec(fills: seq<Fill>, rejected: set<string>)
    ensures forall f | f in Placed(fills, rejected) :: f in fills && Copyable(f) && f.ExecId() !in rejected
    ensures forall f | f in fills && Copyable(f) && f.ExecId() !in rejected :: f in Placed(fills, rejected)
    ensures DistinctIds(fills) ==> DistinctIds(Placed(fills, rejected))
    decreases |fills|
  {
    if fills != [] {
      var f := fills[0];
      var rest := Placed(fills[1..], rejected);
      PlacedSpec(fills[1..], rejected);
      assert fills == [f] + fills[1..];
      assert DistinctIds(fills) ==> DistinctIds(fills[1..]);
      if Copyable(f) && f.ExecId() !in rejected {
        assert DistinctIds(fills) ==> forall g | g in rest :: g.ExecId() != f.ExecId();
      }
    }
  }

  lemma IdsOfPlaced(fills: seq<Fill>, rejected: set<string>)
    ensures IdsOf(Placed(fills, rejected)) <= IdsOf(fills)
  {
    PlacedSpec(fills, rejected);
  }

  /** New fills keep the relative order they have in the listing. */
  lemma {:induction false} NewFillsInOrder(listing: seq<Fill>, seen: set<string>)
    ensures Subsequence(NewFills(listing, seen), listing)
    decreases |listing|
  {
    if listing != [] {
      var f := listing[0];
      if f.ExecId() in seen {
        NewFillsInOrder(listing[1..], seen);
        SubsequenceSkip(NewFills(listing[1..], seen), f, listing[1..]);
      } else {
        NewFillsInOrder(listing[1..], seen + {f.ExecId()});
      }
    }
  }

  lemma SubsequenceSkip(a: seq<Fill>, f: Fill, b: seq<Fill>)
    requires Subsequence(a, b)
    ensures Subsequence(a, [f] + b)
  {
    assert ([f] + b)[1..] == b;
  }

  /** Leaving out elements twice is leaving them out once. */
  lemma {:induction false} SubsequenceTrans(a: seq<Fill>, b: seq<Fill>, c: seq<Fill>)
    requires Subsequence(a, b) && Subsequence(b, c)
    ensures Subsequence(a, c)
    decreases |c|
  {
    if a != [] {
      if Subsequence(b, c[1..]) {
        SubsequenceTrans(a, b, c[1..]);
      } else if a[0] == b[0] && Subsequence(a[1..], b[1..]) {
        SubsequenceTrans(a[1..], b[1..], c[1..]);
      } else {
        SubsequenceTrans(a, b[1..], c[1..]);
      }
    }
  }

  /** Any prefix of `b` may be left out. */
  lemma {:induction false} SubsequencePrefix(a: seq<Fill>, p: seq<Fill>, b: seq<Fill>)
    requires Subsequence(a, b)
    ensures Subsequence(a, p + b)
    decreases |p|
  {
    if p != [] {
      SubsequencePrefix(a, p[1..], b);
      SubsequenceSkip(a, p[0], p[1..] + b);
      assert [p[0]] + (p[1..] + b) == p + b;
    } else {
      assert p + b == b;
    }
  }

  /** Subsequences of consecutive parts form a subsequence of the whole. */
  lemma {:induction false} SubsequenceAppend(a1: seq<Fill>, b1: seq<Fill>, a2: seq<Fill>, b2: seq<Fill>)
    requires Subsequence(a1, b1) && Subsequence(a2, b2)
    ensures Subsequence(a1 + a2, b1 + b2)
    decreases |b1|
  {
    if a1 == [] {
      assert a1 + a2 == a2;
      SubsequencePrefix(a2, b1, b2);
    } else {
      assert (a1 + a2)[0] == a1[0] && (a1 + a2)[1..] == a1[1..] + a2;
      assert (b1 + b2)[0] == b1[0] && (b1 + b2)[1..] == b1[1..] + b2;
      if a1[0] == b1[0] && Subsequence(a1[1..], b1[1..]) {
        SubsequenceAppend(a1[1..], b1[1..], a2, b2);
      } else {
        SubsequenceAppend(a1, b1[1..], a2, b2);
      }
    }
  }

  /** The fills whose copy reaches the destination keep the relative order
      they have in the queue. */
  lemma {:induction false} PlacedInOrder(fills: seq<Fill>, rejected: set<string>)
    ensures Subsequence(Placed(fills, rejected), fills)
    decreases |fills|
  {
    if fills != [] {
      var f, rest := fills[0], Placed(fills[1..], rejected);
      PlacedInOrder(fills[1..], rejected);
      if Copyable(f) && f.ExecId() !in rejected {
        assert ([f] + rest)[1..] == rest;
      } else {
        assert [] + rest == rest;
        SubsequenceSkip(rest, f, fills[1..]);
        assert [f] + fills[1..] == fills;
      }
    }
  }

  /** Dedup over two consecutive runs of fills: the second run is checked
      against the ids of the first as well. */
  lemma {:induction false} NewFillsAppend(a: seq<Fill>, b: seq<Fill>, seen: set<string>)
    ensures NewFills(a + b, seen) == NewFills(a, seen) + NewFills(b, seen + IdsOf(a))
    decreases |a|
  {
    if a == [] {
      assert a + b == b && NewFills(a, seen) == [];
      assert seen + IdsOf(a) == seen;
    } else {
      var f, tail := a[0], a[1..];
      assert a + b == [f] + (tail + b);
      assert a == [f] + tail;
      IdsOfCons(f, tail);
      var seen' := if f.ExecId() in seen then seen else seen + {f.ExecId()};
      NewFillsAppend(tail, b, seen');
      assert seen' + IdsOf(tail) == seen + IdsOf(a);
    }
  }

  /** Running the check a second time on the same listing queues nothing. */
  lemma NewFillsIdempotent(listing: seq<Fill>, seen: set<string>)
    ensures NewFills(listing, seen + IdsOf(listing)) == []
  {
    NewFillsSpec(listing, seen + IdsOf(listing));
    var r := NewFills(listing, seen + IdsOf(listing));
    if r != [] {
      IdsOfHead(r);
    }
  }

  /** A listing that repeats an earlier listing `previous` and adds one fill
      `f` with a new id (anywhere in the listing) yields exactly that fill. */
  lemma OneMoreFill(previous: seq<Fill>, listing: seq<Fill>, seen: set<string>, f: Fill)
    requires f in listing
    requires f.ExecId() !in seen + IdsOf(previous)
    requires IdsOf(listing) <= IdsOf(previous) + {f.ExecId()}
    requires forall g | g in listing && g.ExecId() == f.ExecId() :: g == f
    ensures NewFills(listing, seen + IdsOf(previous)) == [f]
  {
    var r := NewFills(listing, seen + IdsOf(previous));
    NewFillsSpec(listing, seen + IdsOf(previous));
    assert f.ExecId() in IdsOf(listing);
    assert IdsOf(r) == {f.ExecId()};
    assert r != [];
    IdsOfHead(r);
    if |r| > 1 {
      IdsOfHead(r[1..]);
    }
  }
}
