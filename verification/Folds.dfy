/** Running a list of steps from a state, listing what each step asks for, and filtering. */
module Folds {
  function Fold<A, B>(step: (A, B) -> A, a: A, steps: seq<B>): A {
    if steps == [] then a
    else
      var n := |steps| - 1;
      step(Fold(step, a, steps[..n]), steps[n])
  }

  lemma FoldOneMore<A, B>(step: (A, B) -> A, a: A, steps: seq<B>, b: B)
    ensures Fold(step, a, steps + [b]) == step(Fold(step, a, steps), b)
  {
    assert (steps + [b])[..|steps|] == steps;
  }

  lemma {:induction false} FoldConcat<A, B>(step: (A, B) -> A, a: A, first: seq<B>, second: seq<B>)
    ensures Fold(step, a, first + second) == Fold(step, Fold(step, a, first), second)
  {
    if second == [] {
      assert first + second == first;
    } else {
      var n := |second| - 1;
      FoldConcat(step, a, first, second[..n]);
      FoldOneMore(step, a, first + second[..n], second[n]);
      assert first + second[..n] + [second[n]] == first + second;
    }
  }

  predicate CarriesOn<A, B>(step: (A, B) -> A, a: A, p: (seq<B>, A) -> bool, front: seq<B>, b: B) {
    p(front, Fold(step, a, front)) ==> p(front + [b], step(Fold(step, a, front), b))
  }

  /** What every further step keeps holds after all of them. */
  lemma {:induction false} FoldKeeps<A, B(!new)>(step: (A, B) -> A, a: A, p: (seq<B>, A) -> bool, steps: seq<B>)
    requires p([], a) && forall front, b :: CarriesOn(step, a, p, front, b)
    ensures p(steps, Fold(step, a, steps))
  {
    if steps != [] {
      var n := |steps| - 1;
      FoldKeeps(step, a, p, steps[..n]);
      assert CarriesOn(step, a, p, steps[..n], steps[n]) && steps[..n] + [steps[n]] == steps;
    }
  }

  function Flat<A, B>(f: A -> seq<B>, list: seq<A>): seq<B> {
    if list == [] then []
    else
      var n := |list| - 1;
      Flat(f, list[..n]) + f(list[n])
  }

  lemma FlatMore<A, B>(f: A -> seq<B>, list: seq<A>, a: A)
    ensures Flat(f, list + [a]) == Flat(f, list) + f(a)
  {
    assert (list + [a])[..|list|] == list;
  }

  lemma FlatTwo<A, B>(f: A -> seq<B>, a: A, b: A)
    ensures Flat(f, [a, b]) == f(a) + f(b)
  {
    assert [a, b][..1] == [a] && [a][..0] == [];
    assert Flat(f, [a]) == [] + f(a);
  }

  lemma {:induction false} FlatConcat<A, B>(f: A -> seq<B>, a: seq<A>, b: seq<A>)
    ensures Flat(f, a + b) == Flat(f, a) + Flat(f, b)
  {
    if b == [] {
      assert a + b == a;
    } else {
      var n := |b| - 1;
      FlatConcat(f, a, b[..n]);
      FlatMore(f, a + b[..n], b[n]);
      FlatMore(f, b[..n], b[n]);
      assert a + b[..n] + [b[n]] == a + b && b[..n] + [b[n]] == b;
    }
  }

  lemma {:induction false} FlatMembers<A, B>(f: A -> seq<B>, list: seq<A>, b: B)
    ensures b in Flat(f, list) <==> exists a <- list :: b in f(a)
  {
    if list != [] {
      var n := |list| - 1;
      FlatMembers(f, list[..n], b);
      assert forall a :: a in list <==> a == list[n] || a in list[..n];
    }
  }

  /** The lists `f` gives for 0 up to `n`, one after another. */
  function Collect<B>(f: nat -> seq<B>, n: nat): seq<B> {
    if n == 0 then [] else Collect(f, n - 1) + f(n - 1)
  }

  lemma {:induction false} CollectMembers<B>(f: nat -> seq<B>, n: nat, b: B)
    ensures b in Collect(f, n) <==> exists i: nat :: i < n && b in f(i)
  {
    if n > 0 {
      CollectMembers(f, n - 1, b);
      assert b in Collect(f, n) <==> b in Collect(f, n - 1) || b in f(n - 1);
    }
  }

  lemma {:induction false} CollectIs<B>(f: nat -> seq<B>, g: nat -> seq<B>, n: nat)
    requires g(0) == [] && forall k: nat :: g(k + 1) == g(k) + f(k)
    ensures g(n) == Collect(f, n)
  {
    if n > 0 {
      CollectIs(f, g, n - 1);
      assert g(n - 1 + 1) == g(n - 1) + f(n - 1);
    }
  }

  /** Where an element is in one of the lists at most. */
  lemma CollectWhere<B>(f: nat -> seq<B>, n: nat, b: B, anywhere: bool, at: int)
    requires forall i: nat :: b in f(i) <==> anywhere && at == i
    ensures b in Collect(f, n) <==> anywhere && 0 <= at < n
  {
    CollectMembers(f, n, b);
    if anywhere && 0 <= at < n {
      assert b in f(at);
    }
  }

  predicate KeptAt<B>(f: nat -> seq<B>, p: seq<B> -> bool, k: nat) {
    p(Collect(f, k)) ==> p(Collect(f, k) + f(k))
  }

  lemma {:induction false} CollectKeeps<B>(f: nat -> seq<B>, n: nat, p: seq<B> -> bool)
    requires p([]) && forall k: nat :: KeptAt(f, p, k)
    ensures p(Collect(f, n))
  {
    if n > 0 {
      CollectKeeps(f, n - 1, p);
      assert KeptAt(f, p, n - 1);
    }
  }

  predicate Leads<A(==)>(at: nat -> A, step: (A, nat) -> A, k: nat) { at(k + 1) == step(at(k), k) }

  predicate Carries<A>(step: (A, nat) -> A, p: (nat, A) -> bool, k: nat, a: A) { p(k, a) ==> p(k + 1, step(a, k)) }

  /** What every step keeps holds after all of them. */
  lemma {:induction false} StepByStep<A(!new)>(at: nat -> A, step: (A, nat) -> A, p: (nat, A) -> bool, n: nat)
    requires p(0, at(0)) && forall k: nat | k < n :: Leads(at, step, k)
    requires forall k: nat, a | k < n :: Carries(step, p, k, a)
    ensures p(n, at(n))
  {
    if n > 0 {
      StepByStep(at, step, p, n - 1);
      assert Leads(at, step, n - 1) && Carries(step, p, n - 1, at(n - 1));
    }
  }

  /** `f` done `n` times. */
  function Iterate<A>(f: A -> A, a: A, n: nat): A {
    if n == 0 then a else Iterate(f, f(a), n - 1)
  }

  lemma {:induction false} IterateMore<A>(f: A -> A, a: A, m: nat, n: nat)
    ensures Iterate(f, a, m + n) == Iterate(f, Iterate(f, a, m), n)
  {
    if m > 0 {
      IterateMore(f, f(a), m - 1, n);
    }
  }

  function Filter<A>(keep: A -> bool, list: seq<A>): seq<A> {
    if list == [] then []
    else if keep(list[0]) then [list[0]] + Filter(keep, list[1..])
    else Filter(keep, list[1..])
  }

  lemma {:induction false} FilterConcat<A>(keep: A -> bool, a: seq<A>, b: seq<A>)
    ensures Filter(keep, a + b) == Filter(keep, a) + Filter(keep, b)
  {
    if a == [] {
      assert a + b == b;
    } else {
      assert (a + b)[1..] == a[1..] + b && (a + b)[0] == a[0];
      FilterConcat(keep, a[1..], b);
      var x, y := Filter(keep, a[1..]), Filter(keep, b);
      assert [a[0]] + (x + y) == [a[0]] + x + y;
    }
  }

  lemma {:induction false} FilterMembers<A>(keep: A -> bool, list: seq<A>, x: A)
    ensures x in Filter(keep, list) <==> x in list && keep(x)
  {
    if list != [] {
      FilterMembers(keep, list[1..], x);
      assert x in list <==> x == list[0] || x in list[1..];
    }
  }

  lemma {:induction false} FilterNone<A>(keep: A -> bool, list: seq<A>)
    requires forall j :: 0 <= j < |list| ==> !keep(list[j])
    ensures Filter(keep, list) == []
  {
    if list != [] {
      FilterNone(keep, list[1..]);
    }
  }

  lemma FilterAround<A>(keep: A -> bool, list: seq<A>, i: nat)
    requires i < |list| && keep(list[i])
    ensures Filter(keep, list) == Filter(keep, list[..i]) + [list[i]] + Filter(keep, list[i + 1..])
  {
    var rest := list[i..];
    assert list == list[..i] + rest && rest[1..] == list[i + 1..] && rest[0] == list[i];
    FilterConcat(keep, list[..i], rest);
    assert Filter(keep, rest) == [list[i]] + Filter(keep, rest[1..]);
  }

  /** Filtering keeps one entry alone if and only if it is the only one to keep. */
  lemma KeepsOne<A>(keep: A -> bool, list: seq<A>, i: nat)
    requires i < |list| && keep(list[i])
    ensures Filter(keep, list) == [list[i]] <==> forall j :: 0 <= j < |list| && j != i ==> !keep(list[j])
  {
    FilterAround(keep, list, i);
    if forall j :: 0 <= j < |list| && j != i ==> !keep(list[j]) {
      FilterNone(keep, list[..i]);
      FilterNone(keep, list[i + 1..]);
    } else {
      var j :| 0 <= j < |list| && j != i && keep(list[j]);
      AnotherKept(keep, if j < i then list[..i] else list[i + 1..], if j < i then j else j - i - 1);
    }
  }

  lemma AnotherKept<A>(keep: A -> bool, part: seq<A>, j: nat)
    requires j < |part| && keep(part[j])
    ensures Filter(keep, part) != []
  {
    FilterMembers(keep, part, part[j]);
  }

  predicate KeepsAt<A>(keep: A -> bool, list: seq<A>, i: int) { 0 <= i < |list| && keep(list[i]) }

  predicate Rises(at: seq<nat>) { forall j, k :: 0 <= j < k < |at| ==> at[j] < at[k] }

  /** `kept` are the entries from `low` on that pass, in their order, which is at these places. */
  predicate PlacesOf<A(==)>(keep: A -> bool, list: seq<A>, low: nat, kept: seq<A>, at: seq<nat>) {
    && Rises(at) && |at| == |kept|
    && (forall j :: 0 <= j < |at| ==> low <= at[j] && KeepsAt(keep, list, at[j]) && list[at[j]] == kept[j])
    && forall i: nat | low <= i < |list| :: KeepsAt(keep, list, i) ==> i in at
  }

  lemma PlacesMoved<A>(keep: A -> bool, list: seq<A>, kept: seq<A>, later: seq<nat>) returns (at: seq<nat>)
    requires list != [] && PlacesOf(keep, list[1..], 0, kept, later)
    ensures PlacesOf(keep, list, 1, kept, at)
  {
    at := seq(|later|, j requires 0 <= j < |later| => later[j] + 1);
    forall i: nat | 1 <= i < |list| && KeepsAt(keep, list, i) ensures i in at {
      assert KeepsAt(keep, list[1..], i - 1);
      var j :| 0 <= j < |later| && later[j] == i - 1;
      assert at[j] == i;
    }
  }

  lemma PlaceAhead<A>(keep: A -> bool, list: seq<A>, kept: seq<A>, later: seq<nat>, at: seq<nat>)
    requires list != [] && PlacesOf(keep, list, 1, kept, later) && keep(list[0]) && at == [0] + later
    ensures PlacesOf(keep, list, 0, [list[0]] + kept, at)
  {
    forall i: nat | i < |list| && KeepsAt(keep, list, i) ensures i in at {
      assert i == 0 || i in later;
    }
  }

  /** Filtering keeps exactly the entries that pass, in their order. */
  lemma {:induction false} FilterPlaces<A>(keep: A -> bool, list: seq<A>) returns (at: seq<nat>)
    ensures PlacesOf(keep, list, 0, Filter(keep, list), at)
  {
    if list == [] {
      at := [];
    } else {
      var later := FilterPlaces(keep, list[1..]);
      later := PlacesMoved(keep, list, Filter(keep, list[1..]), later);
      if keep(list[0]) {
        at := [0] + later;
        PlaceAhead(keep, list, Filter(keep, list[1..]), later, at);
      } else {
        at := later;
      }
    }
  }

  /** What is new in a log is all of one origin, and in its order. */
  predicate NewOf<B, T(==)>(from: (B, T) -> bool, sooner: (B, T, T) -> bool, log: seq<T>, b: B, log': seq<T>) {
    && log <= log' && (forall j: nat | |log| <= j < |log'| :: from(b, log'[j]))
    && forall j, k :: |log| <= j < k < |log'| ==> sooner(b, log'[j], log'[k])
  }

  /** A step keeps what is needed, and what it adds to the log is its own. */
  predicate StepLogs<A, B, T(==)>(step: (A, B) -> A, logOf: A -> seq<T>, from: (B, T) -> bool,
                                  sooner: (B, T, T) -> bool, fit: A -> bool, a: A, b: B) {
    fit(a) ==> fit(step(a, b)) && NewOf(from, sooner, logOf(a), b, logOf(step(a, b)))
  }

  /** Entry `j` of what is new is of the step `i`. */
  predicate StepOf<B, T>(from: (B, T) -> bool, steps: seq<B>, t: T, i: nat) { i < |steps| && from(steps[i], t) }

  /** Of two entries, the one of the earlier step comes first, and of one step the one it puts first. */
  predicate InTurn<B, T>(sooner: (B, T, T) -> bool, steps: seq<B>, t: T, t': T, i: nat, i': nat) {
    i <= i' && i < |steps| && (i == i' ==> sooner(steps[i], t, t'))
  }

  /** Entry by entry of what is new in a log, which of the steps it is of; they come one after another. */
  predicate StepsOf<B, T(==)>(from: (B, T) -> bool, sooner: (B, T, T) -> bool, steps: seq<B>, log: seq<T>,
                              log': seq<T>, at: seq<nat>) {
    && log <= log' && |at| == |log'| - |log|
    && (forall j: nat | j < |at| :: StepOf(from, steps, log'[|log| + j], at[j]))
    && forall j, k :: 0 <= j < k < |at| ==> InTurn(sooner, steps, log'[|log| + j], log'[|log| + k], at[j], at[k])
  }

  /** The steps that two entries are of. */
  lemma TurnsAt<B, T>(from: (B, T) -> bool, sooner: (B, T, T) -> bool, steps: seq<B>, log: seq<T>, log': seq<T>,
                      at: seq<nat>, j: nat, k: nat)
    returns (c: nat, c': nat)
    requires StepsOf(from, sooner, steps, log, log', at) && |log| <= j <= k < |log'|
    ensures StepOf(from, steps, log'[j], c) && StepOf(from, steps, log'[k], c') && c <= c'
    ensures if j == k then c == c' else InTurn(sooner, steps, log'[j], log'[k], c, c')
  {
    var x, y := j - |log|, k - |log|;
    c, c' := at[x], at[y];
    assert StepOf(from, steps, log'[|log| + x], c) && StepOf(from, steps, log'[|log| + y], c');
    if x < y {
      assert InTurn(sooner, steps, log'[|log| + x], log'[|log| + y], c, c');
    }
  }

  lemma StepsOfMore<B, T>(from: (B, T) -> bool, sooner: (B, T, T) -> bool, front: seq<B>, b: B, steps: seq<B>,
                          log: seq<T>, log1: seq<T>, log2: seq<T>, at: seq<nat>, at': seq<nat>)
    requires StepsOf(from, sooner, front, log, log1, at) && NewOf(from, sooner, log1, b, log2)
    requires steps == front + [b] && at' == at + seq(|log2| - |log1|, _ => |front|)
    ensures StepsOf(from, sooner, steps, log, log2, at')
  {
    forall j: nat | j < |at'| ensures StepOf(from, steps, log2[|log| + j], at'[j]) {
      if j < |at| {
        assert StepOf(from, front, log1[|log| + j], at[j]);
      }
    }
    forall j, k | 0 <= j < k < |at'|
      ensures InTurn(sooner, steps, log2[|log| + j], log2[|log| + k], at'[j], at'[k])
    {
      if k < |at| {
        assert InTurn(sooner, front, log1[|log| + j], log1[|log| + k], at[j], at[k]);
      } else if j < |at| {
        assert StepOf(from, front, log1[|log| + j], at[j]);
      }
    }
  }

  lemma {:induction false} FoldLogs<A(!new), B, T>(step: (A, B) -> A, a: A, steps: seq<B>, logOf: A -> seq<T>,
      from: (B, T) -> bool, sooner: (B, T, T) -> bool, fit: A -> bool)
    returns (at: seq<nat>)
    requires fit(a) && forall a', b | b in steps :: StepLogs(step, logOf, from, sooner, fit, a', b)
    ensures fit(Fold(step, a, steps)) && StepsOf(from, sooner, steps, logOf(a), logOf(Fold(step, a, steps)), at)
  {
    if steps == [] {
      at := [];
    } else {
      var front, b := steps[..|steps| - 1], steps[|steps| - 1];
      var a1, a2 := Fold(step, a, front), Fold(step, a, steps);
      at := FoldLogs(step, a, front, logOf, from, sooner, fit);
      assert StepLogs(step, logOf, from, sooner, fit, a1, b);
      var at' := at + seq(|logOf(a2)| - |logOf(a1)|, _ => |front|);
      StepsOfMore(from, sooner, front, b, steps, logOf(a), logOf(a1), logOf(a2), at, at');
      at := at';
    }
  }
}
