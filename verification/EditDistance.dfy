/** Levenshtein distance as the benchmark normalizers compute it, against edit scripts. */
module EditDistance {

  /** One step of an edit script. */
  datatype Edit<T> =
    | Replace(old_: T, new_: T)
    | Delete(old_: T)
    | Insert(new_: T)

  function Differs<T(==)>(x: T, y: T): nat { if x == y then 0 else 1 }

  function Least(x: nat, y: nat, z: nat): nat {
    if x <= y && x <= z then x else if y <= z then y else z
  }

  function Front<T>(s: seq<T>): seq<T>
    requires s != []
  {
    s[..|s| - 1]
  }

  function Last<T>(s: seq<T>): T
    requires s != []
  {
    s[|s| - 1]
  }

  // ----- Edit scripts -----

  function Source<T>(script: seq<Edit<T>>): seq<T> {
    if script == [] then []
    else
      Source(Front(script)) + if Last(script).Insert? then [] else [Last(script).old_]
  }

  function Target<T>(script: seq<Edit<T>>): seq<T> {
    if script == [] then []
    else
      Target(Front(script)) + if Last(script).Delete? then [] else [Last(script).new_]
  }

  /** Replacing a unit by itself is free; every other step costs one. */
  function EditCost<T(==)>(edit: Edit<T>): nat {
    if edit.Replace? then Differs(edit.old_, edit.new_) else 1
  }

  function Cost<T(==)>(script: seq<Edit<T>>): nat {
    if script == [] then 0
    else
      Cost(Front(script)) + EditCost(Last(script))
  }

  ghost predicate Transforms<T>(script: seq<Edit<T>>, a: seq<T>, b: seq<T>) {
    Source(script) == a && Target(script) == b
  }

  /** d is the least cost of a script turning a into b. */
  ghost predicate LeastCost<T(!new)>(a: seq<T>, b: seq<T>, d: nat) {
    && (exists script :: Transforms(script, a, b) && Cost(script) == d)
    && (forall script :: Transforms(script, a, b) ==> d <= Cost(script))
  }

  // ----- The recurrence -----

  /** The Levenshtein recurrence on the last units. */
  function Distance<T(==)>(a: seq<T>, b: seq<T>): nat {
    if a == [] then |b|
    else if b == [] then |a|
    else
      Least(Distance(a, Front(b)) + 1, Distance(Front(a), b) + 1,
            Distance(Front(a), Front(b)) + Differs(Last(a), Last(b)))
  }

  ghost predicate Achieves<T>(script: seq<Edit<T>>, a: seq<T>, b: seq<T>, cost: nat) {
    Transforms(script, a, b) && Cost(script) == cost
  }

  lemma Extend<T>(script: seq<Edit<T>>, last: Edit<T>, a: seq<T>, b: seq<T>, cost: nat)
    requires last.Insert? || (a != [] && Last(a) == last.old_)
    requires last.Delete? || (b != [] && Last(b) == last.new_)
    requires Achieves(script, if last.Insert? then a else Front(a), if last.Delete? then b else Front(b), cost)
    ensures Achieves(script + [last], a, b, cost + EditCost(last))
  {
    assert Front(script + [last]) == script;
  }

  lemma {:induction false} Witness<T>(a: seq<T>, b: seq<T>, cost: nat) returns (script: seq<Edit<T>>)
    requires cost == Distance(a, b)
    ensures Achieves(script, a, b, cost)
    decreases |a| + |b|
  {
    if a == [] && b == [] {
      script := [];
    } else {
      var step := BestStep(a, b, cost);
      var front := Witness(if step.Insert? then a else Front(a), if step.Delete? then b else Front(b),
                           cost - EditCost(step));
      Extend(front, step, a, b, cost - EditCost(step));
      script := front + [step];
    }
  }

  lemma BestStep<T>(a: seq<T>, b: seq<T>, cost: nat) returns (step: Edit<T>)
    requires cost == Distance(a, b) && (a != [] || b != [])
    ensures step.Insert? || (a != [] && Last(a) == step.old_)
    ensures step.Delete? || (b != [] && Last(b) == step.new_)
    ensures cost == Distance(if step.Insert? then a else Front(a), if step.Delete? then b else Front(b))
        + EditCost(step)
  {
    if a == [] || (b != [] && cost == Distance(a, Front(b)) + 1) {
      step := Insert(Last(b));
    } else if b == [] || cost == Distance(Front(a), b) + 1 {
      step := Delete(Last(a));
    } else {
      step := Replace(Last(a), Last(b));
    }
  }

  lemma NoBetterStep<T>(a: seq<T>, b: seq<T>, step: Edit<T>)
    requires step.Insert? || (a != [] && Last(a) == step.old_)
    requires step.Delete? || (b != [] && Last(b) == step.new_)
    ensures Distance(a, b) <= Distance(if step.Insert? then a else Front(a), if step.Delete? then b else Front(b))
        + EditCost(step)
  {
  }

  lemma Peel<T>(script: seq<Edit<T>>, a: seq<T>, b: seq<T>) returns (last: Edit<T>, a': seq<T>, b': seq<T>)
    requires script != [] && Transforms(script, a, b)
    ensures last == Last(script)
    ensures last.Insert? || (a != [] && Last(a) == last.old_)
    ensures last.Delete? || (b != [] && Last(b) == last.new_)
    ensures a' == (if last.Insert? then a else Front(a)) && b' == (if last.Delete? then b else Front(b))
    ensures Transforms(Front(script), a', b')
  {
    last := Last(script);
    a', b' := Source(Front(script)), Target(Front(script));
  }

  lemma {:induction false} NoCheaperScript<T>(script: seq<Edit<T>>, a: seq<T>, b: seq<T>)
    requires Transforms(script, a, b)
    ensures Distance(a, b) <= Cost(script)
    decreases |script|
  {
    if script != [] {
      var last, a', b' := Peel(script, a, b);
      NoCheaperScript(Front(script), a', b');
      NoBetterStep(a, b, last);
    }
  }

  /** The recurrence is the least cost over all edit scripts. */
  lemma DistanceIsLeastCost<T(!new)>(a: seq<T>, b: seq<T>)
    ensures LeastCost(a, b, Distance(a, b))
  {
    var script := Witness(a, b, Distance(a, b));
    forall s | Transforms(s, a, b) ensures Distance(a, b) <= Cost(s) {
      NoCheaperScript(s, a, b);
    }
  }

  lemma LeastCostUnique<T(!new)>(a: seq<T>, b: seq<T>, d: nat)
    requires LeastCost(a, b, d)
    ensures d == Distance(a, b)
  {
    DistanceIsLeastCost(a, b);
  }

  // ----- The metric laws -----

  lemma {:induction false} Symmetric<T>(a: seq<T>, b: seq<T>)
    ensures Distance(a, b) == Distance(b, a)
    decreases |a| + |b|
  {
    if a != [] && b != [] {
      Symmetric(a, Front(b));
      Symmetric(Front(a), b);
      Symmetric(Front(a), Front(b));
    }
  }

  lemma {:induction false} ZeroIffEqual<T>(a: seq<T>, b: seq<T>)
    ensures Distance(a, b) == 0 <==> a == b
    decreases |a| + |b|
  {
    if a != [] && b != [] {
      ZeroIffEqual(Front(a), Front(b));
      assert a == Front(a) + [Last(a)] && b == Front(b) + [Last(b)];
    }
  }

  /** One more element on either side costs at most one more. */
  lemma Steps<T>(a: seq<T>, b: seq<T>)
    ensures a != [] ==> Distance(a, b) <= Distance(Front(a), b) + 1
    ensures b != [] ==> Distance(a, b) <= Distance(a, Front(b)) + 1
    ensures a != [] && b != [] ==> Distance(a, b) <= Distance(Front(a), Front(b)) + Differs(Last(a), Last(b))
  {
    if a != [] && b == [] { assert Distance(Front(a), b) == |a| - 1; }
    if a == [] && b != [] { assert Distance(a, Front(b)) == |b| - 1; }
  }

  lemma {:induction false} Triangle<T>(a: seq<T>, b: seq<T>, c: seq<T>)
    ensures Distance(a, c) <= Distance(a, b) + Distance(b, c)
    decreases |a| + |b| + |c|
  {
    Steps(a, c);
    if a != [] && Distance(a, b) == Distance(Front(a), b) + 1 {
      Triangle(Front(a), b, c);
    } else if c != [] && Distance(b, c) == Distance(b, Front(c)) + 1 {
      Triangle(a, b, Front(c));
    } else if b != [] {
      var insertsB := a == [] || Distance(a, b) == Distance(a, Front(b)) + 1;
      var deletesB := c == [] || Distance(b, c) == Distance(Front(b), c) + 1;
      if insertsB && deletesB {
        Triangle(a, Front(b), c);
      } else if insertsB {
        Triangle(a, Front(b), Front(c));
      } else if deletesB {
        Triangle(Front(a), Front(b), c);
      } else {
        Triangle(Front(a), Front(b), Front(c));
      }
    }
  }

  /** Least script cost is a metric: zero exactly on equal sequences, symmetric, and triangular. */
  lemma LeastCostIsMetric<T(!new)>(a: seq<T>, b: seq<T>, c: seq<T>, ab: nat, ba: nat, bc: nat, ac: nat)
    requires LeastCost(a, b, ab) && LeastCost(b, a, ba) && LeastCost(b, c, bc) && LeastCost(a, c, ac)
    ensures ab == 0 <==> a == b
    ensures ab == ba
    ensures ac <= ab + bc
  {
    LeastCostUnique(a, b, ab);
    LeastCostUnique(b, a, ba);
    LeastCostUnique(b, c, bc);
    LeastCostUnique(a, c, ac);
    ZeroIffEqual(a, b);
    Symmetric(a, b);
    Triangle(a, b, c);
  }

  // ----- The two-row computation -----

  /** The first n cells of table row i. */
  ghost predicate Row<T>(a: seq<T>, b: seq<T>, i: nat, n: nat, row: seq<nat>) {
    && i <= |a| && n <= |b| + 1 && |row| == n
    && forall j :: 0 <= j < n ==> row[j] == Distance(a[..i], b[..j])
  }

  lemma RowStart<T>(a: seq<T>, b: seq<T>, i: nat)
    requires i <= |a|
    ensures Row(a, b, i, 1, [i])
  {
  }

  lemma RowStep<T>(a: seq<T>, b: seq<T>, i: nat, n: nat, previous: seq<nat>, current: seq<nat>)
    requires 0 < i && 0 < n <= |b|
    requires Row(a, b, i - 1, |b| + 1, previous) && Row(a, b, i, n, current)
    ensures Row(a, b, i, n + 1, current + [Least(current[n - 1] + 1, previous[n] + 1,
                                                 previous[n - 1] + Differs(a[i - 1], b[n - 1]))])
  {
    assert Front(a[..i]) == a[..i - 1] && Front(b[..n]) == b[..n - 1];
    assert previous[n] == Distance(a[..i - 1], b[..n]) && previous[n - 1] == Distance(a[..i - 1], b[..n - 1]);
    assert current[n - 1] == Distance(a[..i], b[..n - 1]);
  }

  lemma FirstRow<T>(a: seq<T>, b: seq<T>, row: seq<nat>)
    requires |row| == |b| + 1 && forall j :: 0 <= j < |row| ==> row[j] == j
    ensures Row(a, b, 0, |b| + 1, row)
  {
  }

  lemma LastCell<T(!new)>(a: seq<T>, b: seq<T>, row: seq<nat>)
    requires Row(a, b, |a|, |b| + 1, row)
    ensures LeastCost(a, b, row[|b|]) && LeastCost(b, a, row[|b|])
  {
    assert a[..|a|] == a && b[..|b|] == b;
    DistanceIsLeastCost(a, b);
    DistanceIsLeastCost(b, a);
    Symmetric(a, b);
  }

  /** One row of the table at a time, with the shorter sequence along the row. */
  method EditDistance<T(==, !new)>(reference: seq<T>, hypothesis: seq<T>) returns (distance: nat)
    ensures LeastCost(reference, hypothesis, distance)
  {
    var a, b := reference, hypothesis;
    if |a| < |b| {
      a, b := b, a;
    }
    var previous: seq<nat> := seq(|b| + 1, i requires 0 <= i => i);
    FirstRow(a, b, previous);
    for row := 1 to |a| + 1
      invariant Row(a, b, row - 1, |b| + 1, previous)
    {
      var current: seq<nat> := [row];
      RowStart(a, b, row);
      for column := 1 to |b| + 1
        invariant Row(a, b, row, column, current)
      {
        RowStep(a, b, row, column, previous, current);
        current := current + [Least(current[|current| - 1] + 1, previous[column] + 1,
                                    previous[column - 1] + Differs(a[row - 1], b[column - 1]))];
      }
      previous := current;
    }
    distance := previous[|previous| - 1];
    LastCell(a, b, previous);
  }

  lemma RateZero<T(!new)>(reference: seq<T>, hypothesis: seq<T>, d: nat)
    requires LeastCost(reference, hypothesis, d) && reference != []
    ensures d as real / |reference| as real == 0.0 <==> reference == hypothesis
    ensures d as real / |reference| as real * |reference| as real == d as real
  {
    LeastCostUnique(reference, hypothesis, d);
    ZeroIffEqual(reference, hypothesis);
    Ratio(d, |reference|);
  }

  lemma Ratio(d: nat, n: nat)
    requires n > 0
    ensures d as real / n as real == 0.0 <==> d == 0
    ensures d as real / n as real * n as real == d as real
  {
  }

  /** The error rate against an empty reference is 0 or 1; otherwise distance per reference unit. */
  method ErrorRate<T(==, !new)>(reference: seq<T>, hypothesis: seq<T>) returns (rate: real)
    ensures rate == 0.0 <==> reference == hypothesis
    ensures reference == [] && hypothesis != [] ==> rate == 1.0
    ensures reference != [] ==>
      exists d: nat :: LeastCost(reference, hypothesis, d) && rate * |reference| as real == d as real
  {
    if reference == [] {
      rate := if hypothesis == [] then 0.0 else 1.0;
    } else {
      var d := EditDistance(reference, hypothesis);
      rate := d as real / |reference| as real;
      RateZero(reference, hypothesis, d);
    }
  }
}
