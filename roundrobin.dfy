/** The value-level side of instance selection (ServiceDiscoveryManager.java):
    filtering the available instances of one service, the fallback to every
    registered instance, and the round-robin pick `cursor mod count`. */
module RoundRobin {

  /** No URL occurs twice: the instances of a service are the keys of a map. */
  predicate NoDuplicates(xs: seq<string>)
    decreases |xs|
  {
    xs == [] || (xs[0] !in xs[1..] && NoDuplicates(xs[1..]))
  }

  /** Two positions of a list without duplicates hold different URLs. */
  lemma {:induction false} NoDuplicatesDistinct(xs: seq<string>, i: nat, j: nat)
    requires NoDuplicates(xs) && i < j < |xs|
    ensures xs[i] != xs[j]
  {
    if i == 0 {
      assert xs[j] == xs[1..][j - 1];
    } else {
      NoDuplicatesDistinct(xs[1..], i - 1, j - 1);
    }
  }

  /** The last element of a list without duplicates does not occur before it. */
  lemma NoDuplicatesLast(xs: seq<string>)
    requires NoDuplicates(xs) && xs != []
    ensures xs[|xs| - 1] !in xs[..|xs| - 1]
  {
    var n := |xs| - 1;
    if xs[n] in xs[..n] {
      var i :| 0 <= i < n && xs[..n][i] == xs[n];
      NoDuplicatesDistinct(xs, i, n);
    }
  }

  /** The elements of a list, as a set. */
  function Elems(xs: seq<string>): set<string>
  {
    set u | u in xs
  }

  /** Appending an element not yet present keeps a list free of duplicates. */
  lemma {:induction false} NoDuplicatesAppend(xs: seq<string>, x: string)
    requires NoDuplicates(xs) && x !in xs
    ensures NoDuplicates(xs + [x])
  {
    if xs != [] {
      assert (xs + [x])[1..] == xs[1..] + [x];
      NoDuplicatesAppend(xs[1..], x);
    }
  }

  /** A prefix of a list without duplicates has none either. */
  lemma {:induction false} NoDuplicatesPrefix(xs: seq<string>, n: nat)
    requires NoDuplicates(xs) && n <= |xs|
    ensures NoDuplicates(xs[..n])
  {
    if n > 0 {
      assert xs[..n][1..] == xs[1..][..n - 1];
      NoDuplicatesPrefix(xs[1..], n - 1);
    }
  }

  /** The instances flagged available, in iteration order: the stream
      `filter(Map.Entry::getValue).map(Map.Entry::getKey)`. */
  function AvailableOf(instances: seq<string>, flags: map<string, bool>): (r: seq<string>)
    ensures forall u :: u in r <==> u in instances && u in flags && flags[u]
    ensures |r| <= |instances|
    ensures NoDuplicates(instances) ==> NoDuplicates(r)
  {
    if instances == [] then []
    else
      var rest := AvailableOf(instances[1..], flags);
      if instances[0] in flags && flags[instances[0]] then
        assert NoDuplicates(instances) ==> instances[0] !in instances[1..];
        [instances[0]] + rest
      else
        rest
  }

  /** The elements of `xs` that are not in `gone`, in order. */
  function Without(xs: seq<string>, gone: set<string>): (r: seq<string>)
    ensures forall u :: u in r <==> u in xs && u !in gone
    ensures |r| <= |xs|
  {
    if xs == [] then []
    else if xs[0] in gone then Without(xs[1..], gone)
    else [xs[0]] + Without(xs[1..], gone)
  }

  /** The list `getNextInstance` picks from: the available instances, or every
      registered instance when none is available. */
  function Candidates(instances: seq<string>, flags: map<string, bool>): seq<string>
  {
    var available := AvailableOf(instances, flags);
    if available == [] then instances else available
  }

  /** The position `cursor mod count`, by repeated subtraction. */
  function Slot(cursor: nat, count: nat): (i: nat)
    requires count > 0
    ensures i < count
  {
    if cursor < count then cursor else Slot(cursor - count, count)
  }

  /** `Slot` is the remainder `cursor % count` (Java's and Dafny's `%` agree
      on non-negative operands). */
  lemma {:induction false} SlotIsMod(cursor: nat, count: nat)
    requires count > 0
    ensures Slot(cursor, count) == cursor % count
  {
    if cursor < count {
      ModUnique(cursor, 0, cursor, count);
    } else {
      SlotIsMod(cursor - count, count);
      var q := (cursor - count) / count;
      assert cursor - count == q * count + (cursor - count) % count;
      ModUnique(cursor, q + 1, (cursor - count) % count, count);
    }
  }

  /** The element at `cursor mod count`. */
  function Pick(candidates: seq<string>, cursor: nat): string
    requires |candidates| > 0
  {
    candidates[Slot(cursor, |candidates|)]
  }

  /** The `n` picks made with cursors `cursor`, `cursor + 1`, ...
      over a candidate list that does not change in between. */
  function Picks(candidates: seq<string>, cursor: nat, n: nat): (r: seq<string>)
    requires |candidates| > 0
    ensures |r| == n
  {
    seq(n, j requires 0 <= j < n => Pick(candidates, cursor + j))
  }

  /** A selected instance is always a registered one, and an available one
      whenever at least one is available. */
  lemma SelectionIsRegistered(instances: seq<string>, flags: map<string, bool>, cursor: nat)
    requires |instances| > 0
    ensures Pick(Candidates(instances, flags), cursor) in instances
    ensures AvailableOf(instances, flags) != [] ==>
              var u := Pick(Candidates(instances, flags), cursor); u in flags && flags[u]
    ensures AvailableOf(instances, flags) == [] ==>
              Pick(Candidates(instances, flags), cursor) == instances[cursor % |instances|]
  {
    var c := Candidates(instances, flags);
    SlotIsMod(cursor, |c|);
    assert c[cursor % |c|] in c;
  }

  /** Euclidean division is unique. */
  lemma ModUnique(a: int, q: int, t: int, n: int)
    requires n > 0 && 0 <= t < n && a == q * n + t
    ensures a % n == t
  {
    var d := a / n;
    assert a == d * n + a % n;
    var k := q - d;
    assert k * n == q * n - d * n by { MulSub(q, d, n); }
    assert k * n == a % n - t;
    if k > 0 {
      MulAtLeast(k, n);
    } else if k < 0 {
      MulAtLeast(-k, n);
      assert (-k) * n == -(k * n) by { MulNeg(k, n); }
    }
  }

  lemma MulSub(q: int, d: int, n: int)
    ensures (q - d) * n == q * n - d * n
  {
  }

  lemma MulNeg(k: int, n: int)
    ensures (-k) * n == -(k * n)
  {
  }

  lemma {:induction false} MulAtLeast(k: nat, n: nat)
    requires k >= 1
    ensures k * n >= n
  {
    if k > 1 {
      MulAtLeast(k - 1, n);
      assert k * n == (k - 1) * n + n;
    }
  }

  /** Adding `j < n` to a cursor moves its residue by `j`, wrapping once at most. */
  lemma ModShift(c: nat, j: nat, n: nat)
    requires n > 0 && j < n
    ensures (c + j) % n == if c % n + j < n then c % n + j else c % n + j - n
  {
    var q := c / n;
    assert c == q * n + c % n;
    if c % n + j < n {
      ModUnique(c + j, q, c % n + j, n);
    } else {
      assert c + j == (q + 1) * n + (c % n + j - n);
      ModUnique(c + j, q + 1, c % n + j - n, n);
    }
  }

  /** `|candidates|` consecutive picks walk the candidate list once, starting
      at `cursor mod count` and wrapping around: a rotation of the list. */
  lemma {:induction false} RoundRobinRotation(candidates: seq<string>, cursor: nat)
    requires |candidates| > 0
    ensures var r := cursor % |candidates|;
            Picks(candidates, cursor, |candidates|) == candidates[r..] + candidates[..r]
  {
    var n := |candidates|;
    var r := cursor % n;
    var rot := candidates[r..] + candidates[..r];
    var ps := Picks(candidates, cursor, n);
    forall j | 0 <= j < n
      ensures ps[j] == rot[j]
    {
      ModShift(cursor, j, n);
      SlotIsMod(cursor + j, n);
      SlotIsMod(cursor, n);
    }
  }

  /** In a list without duplicates every element occurs exactly once. */
  lemma {:induction false} NoDuplicatesMultiplicity(xs: seq<string>)
    requires NoDuplicates(xs)
    ensures forall u :: multiset(xs)[u] == if u in xs then 1 else 0
  {
    if xs != [] {
      var tail := xs[1..];
      assert NoDuplicates(tail);
      NoDuplicatesMultiplicity(tail);
      assert xs == [xs[0]] + tail;
      assert xs[0] !in tail;
      forall u
        ensures multiset(xs)[u] == if u in xs then 1 else 0
      {
        assert multiset(xs) == multiset{xs[0]} + multiset(tail);
      }
    }
  }

  /** Fairness: over a candidate list of `k` distinct instances that does not
      change in between, `k` consecutive selections return each instance
      exactly once and nothing else. */
  lemma RoundRobinVisitsEachOnce(candidates: seq<string>, cursor: nat)
    requires |candidates| > 0 && NoDuplicates(candidates)
    ensures forall u ::
              multiset(Picks(candidates, cursor, |candidates|))[u] == if u in candidates then 1 else 0
  {
    var r := cursor % |candidates|;
    RoundRobinRotation(candidates, cursor);
    assert candidates[..r] + candidates[r..] == candidates;
    assert multiset(candidates[r..] + candidates[..r]) == multiset(candidates[..r] + candidates[r..]);
    NoDuplicatesMultiplicity(candidates);
  }

  /** Marking one instance unavailable removes exactly that instance from the
      available list and keeps the order of the others. */
  lemma {:induction false} AvailableAfterMarkFailed(instances: seq<string>, flags: map<string, bool>, u: string)
    ensures AvailableOf(instances, flags[u := false]) == Without(AvailableOf(instances, flags), {u})
  {
    if instances != [] {
      AvailableAfterMarkFailed(instances[1..], flags, u);
    }
  }

  /** Removing one more element is removing the union. */
  lemma {:induction false} WithoutOneMore(xs: seq<string>, gone: set<string>, u: string)
    ensures Without(Without(xs, gone), {u}) == Without(xs, gone + {u})
  {
    if xs != [] {
      WithoutOneMore(xs[1..], gone, u);
    }
  }

  /** Removing elements that do not occur changes nothing. */
  lemma {:induction false} WithoutAbsent(xs: seq<string>, gone: set<string>)
    requires forall u :: u in gone ==> u !in xs
    ensures Without(xs, gone) == xs
  {
    if xs != [] {
      WithoutAbsent(xs[1..], gone);
    }
  }

  /** Removing one element that occurs once shortens the list by one. */
  lemma {:induction false} WithoutOneSize(xs: seq<string>, u: string)
    requires NoDuplicates(xs) && u in xs
    ensures |Without(xs, {u})| == |xs| - 1
  {
    var tail := xs[1..];
    assert NoDuplicates(tail);
    if xs[0] == u {
      assert u !in tail;
      WithoutAbsent(tail, {u});
    } else {
      WithoutOneSize(tail, u);
    }
  }

  /** Removing `|gone|` distinct elements of a list without duplicates leaves
      exactly `|xs| - |gone|` of them. */
  lemma {:induction false} WithoutSize(xs: seq<string>, gone: seq<string>)
    requires NoDuplicates(xs) && NoDuplicates(gone)
    requires forall g :: g in gone ==> g in xs
    ensures |Without(xs, Elems(gone))| == |xs| - |gone|
  {
    if gone == [] {
      WithoutAbsent(xs, {});
      assert Elems(gone) == {};
    } else {
      var init := gone[..|gone| - 1];
      var last := gone[|gone| - 1];
      NoDuplicatesPrefix(gone, |gone| - 1);
      NoDuplicatesLast(gone);
      WithoutSize(xs, init);
      var before := Elems(init);
      assert Elems(gone) == before + {last} by {
        assert gone == init + [last];
      }
      WithoutOneMore(xs, before, last);
      WithoutNoDuplicates(xs, before);
      assert last !in before;
      WithoutOneSize(Without(xs, before), last);
    }
  }

  /** Appending an element adds it to the element set. */
  lemma ElemsAppend(xs: seq<string>, x: string)
    ensures Elems(xs + [x]) == Elems(xs) + {x}
  {
    assert forall u :: u in xs + [x] <==> u in xs || u == x;
  }

  /** Removing one more element that is still present shortens a filtered
      list without duplicates by one. */
  lemma WithoutOneLess(xs: seq<string>, gone: set<string>, u: string)
    requires NoDuplicates(xs) && u in Without(xs, gone)
    ensures |Without(xs, gone + {u})| == |Without(xs, gone)| - 1
  {
    WithoutOneMore(xs, gone, u);
    WithoutNoDuplicates(xs, gone);
    WithoutOneSize(Without(xs, gone), u);
  }

  /** Removing one more remaining element keeps "each removed element used
      up one element of the list". */
  lemma WithoutStep(xs: seq<string>, gone: seq<string>, u: string)
    requires NoDuplicates(xs) && u in Without(xs, Elems(gone))
    requires |Without(xs, Elems(gone))| + |gone| == |xs|
    ensures |Without(xs, Elems(gone + [u]))| + |gone + [u]| == |xs|
  {
    ElemsAppend(gone, u);
    WithoutOneLess(xs, Elems(gone), u);
  }

  /** Filtering keeps a list free of duplicates. */
  lemma {:induction false} WithoutNoDuplicates(xs: seq<string>, gone: set<string>)
    requires NoDuplicates(xs)
    ensures NoDuplicates(Without(xs, gone))
  {
    if xs != [] {
      var tail := xs[1..];
      assert NoDuplicates(tail);
      WithoutNoDuplicates(tail, gone);
      assert xs[0] !in tail;
    }
  }
}
