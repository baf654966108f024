/**
 Working off a plan against what is done already: an entry is skipped when its turn comes and
 it is done, executed otherwise, and done from then on.
 */
module Worklist {
  /** The plan entries that are not done when their turn comes. */
  ghost function Missing<T(!new)>(plan: seq<T>, done: iset<T>): seq<T>
    decreases |plan|
  {
    if plan == [] then []
    else if plan[0] in done then Missing(plan[1..], done)
    else [plan[0]] + Missing(plan[1..], done + iset{plan[0]})
  }

  ghost function Members<T(!new)>(keys: seq<T>): iset<T> { iset k | k in keys }

  /** The entries that were not done at the start, in plan order. */
  ghost function Undone<T(!new)>(plan: seq<T>, done: iset<T>): seq<T> {
    if plan == [] then []
    else (if plan[0] in done then [] else [plan[0]]) + Undone(plan[1..], done)
  }

  predicate Distinct<T(==)>(plan: seq<T>) {
    forall i, j :: 0 <= i < j < |plan| ==> plan[i] != plan[j]
  }

  lemma {:induction false} MissingMembers<T(!new)>(plan: seq<T>, done: iset<T>, key: T)
    ensures key in Missing(plan, done) <==> key in plan && key !in done
    decreases |plan|
  {
    if plan != [] {
      if plan[0] in done {
        MissingMembers(plan[1..], done, key);
      } else {
        MissingMembers(plan[1..], done + iset{plan[0]}, key);
      }
      assert key in plan <==> key == plan[0] || key in plan[1..];
    }
  }

  /** No run is executed twice. */
  lemma {:induction false} MissingDistinct<T(!new)>(plan: seq<T>, done: iset<T>)
    ensures Distinct(Missing(plan, done))
    decreases |plan|
  {
    if plan != [] {
      if plan[0] in done {
        MissingDistinct(plan[1..], done);
      } else {
        MissingDistinct(plan[1..], done + iset{plan[0]});
        MissingMembers(plan[1..], done + iset{plan[0]}, plan[0]);
      }
    }
  }

  lemma {:induction false} MissingConcat<T(!new)>(a: seq<T>, b: seq<T>, done: iset<T>)
    ensures Missing(a + b, done) == Missing(a, done) + Missing(b, done + Members(a))
    decreases |a|
  {
    if a == [] {
      assert a + b == b && done + Members(a) == done;
    } else {
      assert (a + b)[1..] == a[1..] + b;
      var done' := if a[0] in done then done else done + iset{a[0]};
      MissingConcat(a[1..], b, done');
      assert done' + Members(a[1..]) == done + Members(a) by {
        assert forall k :: k in a <==> k == a[0] || k in a[1..];
      }
    }
  }

  /** Two plans one after the other are one plan. */
  lemma MissingTwice<T(!new)>(a: seq<T>, b: seq<T>, done: iset<T>, then': iset<T>)
    requires then' == done + Members(a)
    ensures Missing(a, done) + Missing(b, then') == Missing(a + b, done)
    ensures then' + Members(b) == done + Members(a + b)
  {
    MissingConcat(a, b, done);
  }

  /** Two plans of which, after `done`, the same is executed and becomes done. */
  ghost predicate Same<T(!new)>(p: seq<T>, p': seq<T>, done: iset<T>) {
    Missing(p, done) == Missing(p', done) && done + Members(p) == done + Members(p')
  }

  lemma SameTwice<T(!new)>(a: seq<T>, a': seq<T>, b: seq<T>, b': seq<T>, done: iset<T>)
    requires Same(a, a', done) && Same(b, b', done + Members(a))
    ensures Same(a + b, a' + b', done)
  {
    MissingTwice(a, b, done, done + Members(a));
    MissingTwice(a', b', done, done + Members(a'));
  }

  /** A run less to execute. */
  lemma {:induction false} MissingLess<T(!new)>(plan: seq<T>, done: iset<T>, t: T)
    requires t in plan && t !in done
    ensures |Missing(plan, done)| == 1 + |Missing(plan, done + iset{t})|
    decreases |plan|
  {
    var first, rest := plan[0], plan[1..];
    if first == t {
    } else if first in done {
      MissingLess(rest, done, t);
    } else {
      MissingLess(rest, done + iset{first}, t);
      assert done + iset{first} + iset{t} == done + iset{t} + iset{first};
    }
  }

  /** Planned runs that are not done, none twice, leave the others to execute. */
  lemma {:induction false} DistinctLeave<T(!new)>(plan: seq<T>, done: iset<T>, some: seq<T>)
    requires Distinct(some) && forall t <- some :: t in plan && t !in done
    ensures |Missing(plan, done)| == |some| + |Missing(plan, done + Members(some))|
    decreases |some|
  {
    if some == [] {
      assert done + Members(some) == done;
    } else {
      var n := |some| - 1;
      var front, t := some[..n], some[n];
      assert forall u <- front :: u in some && u != t;
      DistinctLeave(plan, done, front);
      MissingLess(plan, done + Members(front), t);
      assert done + Members(front) + iset{t} == done + Members(some);
    }
  }

  lemma DistinctFit<T(!new)>(plan: seq<T>, done: iset<T>, some: seq<T>)
    requires Distinct(some) && forall t <- some :: t in plan && t !in done
    ensures |some| <= |Missing(plan, done)|
  {
    DistinctLeave(plan, done, some);
  }

  // ----- interruption -----

  /** A sweep killed after `j` recorded runs, and started again with the same plan. */
  lemma {:induction false} ResumeContinues<T(!new)>(plan: seq<T>, done: iset<T>, j: nat)
    requires j <= |Missing(plan, done)|
    ensures Missing(plan, done + Members(Missing(plan, done)[..j])) == Missing(plan, done)[j..]
    decreases |plan|
  {
    var all := Missing(plan, done);
    if j == 0 {
      assert done + Members(all[..0]) == done;
    } else if plan[0] in done {
      ResumeContinues(plan[1..], done, j);
    } else {
      var rest := Missing(plan[1..], done + iset{plan[0]});
      assert all[..j] == [plan[0]] + rest[..j - 1];
      ResumeContinues(plan[1..], done + iset{plan[0]}, j - 1);
      assert done + Members(all[..j]) == done + iset{plan[0]} + Members(rest[..j - 1]);
    }
  }

  /** The recorded runs of sessions killed after `cuts[0]`, `cuts[1]`, ... runs, and of one that ends. */
  ghost function Recorded<T(!new)>(plan: seq<T>, done: iset<T>, cuts: seq<nat>): seq<T>
    decreases |cuts|
  {
    var all := Missing(plan, done);
    if cuts == [] then all
    else
      var part := all[..if cuts[0] < |all| then cuts[0] else |all|];
      part + Recorded(plan, done + Members(part), cuts[1..])
  }

  /** Kills change nothing about what gets recorded: the same runs, once each, in the same order. */
  lemma {:induction false} KillsAreHarmless<T(!new)>(plan: seq<T>, done: iset<T>, cuts: seq<nat>)
    ensures Recorded(plan, done, cuts) == Missing(plan, done)
    decreases |cuts|
  {
    if cuts != [] {
      var all := Missing(plan, done);
      var j := if cuts[0] < |all| then cuts[0] else |all|;
      ResumeContinues(plan, done, j);
      KillsAreHarmless(plan, done + Members(all[..j]), cuts[1..]);
      assert all[..j] + all[j..] == all;
    }
  }

  lemma {:induction false} NothingMissing<T(!new)>(plan: seq<T>, done: iset<T>)
    requires Members(plan) <= done
    ensures Missing(plan, done) == []
    decreases |plan|
  {
    if plan != [] {
      assert plan[0] in Members(plan);
      assert Members(plan[1..]) <= done by { assert forall k <- plan[1..] :: k in plan; }
      NothingMissing(plan[1..], done);
    }
  }

  /** Only the last entry can be missing when all before it are done. */
  lemma MissingLast<T(!new)>(earlier: seq<T>, t: T, done: iset<T>)
    requires Members(earlier) <= done
    ensures Missing(earlier + [t], done) == Missing([t], done)
    ensures done + Members(earlier + [t]) == done + iset{t}
  {
    NothingMissing(earlier, done);
    MissingConcat(earlier, [t], done);
    assert done + Members(earlier) == done;
  }

  lemma {:induction false} MissingPlusForeign<T(!new)>(plan: seq<T>, done: iset<T>, more: iset<T>)
    requires forall t <- plan :: t !in more
    ensures Missing(plan, done + more) == Missing(plan, done)
    decreases |plan|
  {
    if plan != [] {
      var t := plan[0];
      assert t in plan && forall u <- plan[1..] :: u in plan;
      MissingPlusForeign(plan[1..], done, more);
      MissingPlusForeign(plan[1..], done + iset{t}, more);
      assert done + more + iset{t} == done + iset{t} + more;
    }
  }

  /** Without repetitions, what is executed is what was not done at the start. */
  lemma {:induction false} MissingIsUndone<T(!new)>(plan: seq<T>, done: iset<T>)
    requires Distinct(plan)
    ensures Missing(plan, done) == Undone(plan, done)
  {
    if plan != [] {
      MissingIsUndone(plan[1..], done);
      assert forall t <- plan[1..] :: t != plan[0];
      MissingPlusForeign(plan[1..], done, iset{plan[0]});
    }
  }

  lemma {:induction false} SkipDone<T(!new)>(plan: seq<T>, done: iset<T>, n: nat)
    requires n <= |plan| && forall i :: 0 <= i < n ==> plan[i] in done
    ensures Missing(plan, done) == Missing(plan[n..], done)
    decreases n
  {
    if n > 0 {
      SkipDone(plan[1..], done, n - 1);
      assert plan[1..][n - 1..] == plan[n..];
    }
  }

  // ----- when the first execution undoes some of what was done -----

  /** Until something is executed `done` counts, from then on only `kept` and what was executed. */
  ghost function Worked<T(!new)>(plan: seq<T>, done: iset<T>, kept: iset<T>): seq<T> {
    if plan == [] then []
    else if plan[0] in done then Worked(plan[1..], done, kept)
    else [plan[0]] + Missing(plan[1..], kept + iset{plan[0]})
  }

  lemma {:induction false} WorkedNothing<T(!new)>(plan: seq<T>, done: iset<T>, kept: iset<T>)
    ensures Worked(plan, done, kept) == [] <==> Members(plan) <= done
  {
    if plan != [] {
      WorkedNothing(plan[1..], done, kept);
      assert Members(plan) == Members(plan[1..]) + iset{plan[0]};
    }
  }

  lemma {:induction false} WorkedAllKept<T(!new)>(plan: seq<T>, done: iset<T>)
    ensures Worked(plan, done, done) == Missing(plan, done)
  {
    if plan != [] {
      WorkedAllKept(plan[1..], done);
    }
  }

  lemma MissingCovers<T(!new)>(plan: seq<T>, done: iset<T>)
    ensures done + Members(plan) == done + Members(Missing(plan, done))
  {
    forall t ensures t in done + Members(plan) <==> t in done + Members(Missing(plan, done)) {
      MissingMembers(plan, done, t);
    }
  }

  lemma {:induction false} WorkedWithin<T(!new)>(plan: seq<T>, done: iset<T>, kept: iset<T>, t: T)
    requires t in Worked(plan, done, kept)
    ensures t in plan && (t in kept ==> t !in done)
  {
    if plan[0] in done {
      WorkedWithin(plan[1..], done, kept, t);
    } else if t != plan[0] {
      MissingMembers(plan[1..], kept + iset{plan[0]}, t);
    }
  }

  /** A second plan goes on from what the first one left. */
  lemma {:induction false} WorkedConcat<T(!new)>(a: seq<T>, b: seq<T>, done: iset<T>, kept: iset<T>)
    ensures
      var w := Worked(a, done, kept);
      Worked(a + b, done, kept) == if w == [] then Worked(b, done, kept) else w + Missing(b, kept + Members(w))
  {
    if a == [] {
      assert a + b == b;
    } else {
      assert (a + b)[1..] == a[1..] + b;
      if a[0] in done {
        WorkedConcat(a[1..], b, done, kept);
      } else {
        var then' := kept + iset{a[0]};
        MissingConcat(a[1..], b, then');
        MissingCovers(a[1..], then');
        assert kept + Members(Worked(a, done, kept)) == then' + Members(Missing(a[1..], then'));
      }
    }
  }

  /** Behind the first entry to be executed, nothing that is done is undone. */
  ghost predicate NoneUndone<T(!new)>(plan: seq<T>, done: iset<T>, kept: iset<T>) {
    plan == [] ||
    (if plan[0] in done then NoneUndone(plan[1..], done, kept)
     else forall t <- plan[1..] :: t in done ==> t in kept)
  }

  lemma {:induction false} MissingAgree<T(!new)>(plan: seq<T>, a: iset<T>, b: iset<T>)
    requires forall t <- plan :: t in a <==> t in b
    ensures Missing(plan, a) == Missing(plan, b)
    decreases |plan|
  {
    if plan != [] {
      assert plan[0] in plan && forall t <- plan[1..] :: t in plan;
      MissingAgree(plan[1..], a, b);
      MissingAgree(plan[1..], a + iset{plan[0]}, b + iset{plan[0]});
    }
  }

  /** So what is executed is what was missing if and only if nothing comes back undone. */
  lemma {:induction false} WorkedIsMissing<T(!new)>(plan: seq<T>, done: iset<T>, kept: iset<T>)
    requires kept <= done
    ensures Worked(plan, done, kept) == Missing(plan, done) <==> NoneUndone(plan, done, kept)
  {
    if plan != [] {
      if plan[0] in done {
        WorkedIsMissing(plan[1..], done, kept);
      } else {
        var a, b, rest := kept + iset{plan[0]}, done + iset{plan[0]}, plan[1..];
        if NoneUndone(plan, done, kept) {
          MissingAgree(rest, a, b);
        } else {
          var t :| t in rest && t in done && t !in kept;
          MissingMembers(rest, a, t);
          MissingMembers(rest, b, t);
          assert ([plan[0]] + Missing(rest, a))[1..] == Missing(rest, a);
          assert ([plan[0]] + Missing(rest, b))[1..] == Missing(rest, b);
        }
      }
    }
  }

  lemma {:induction false} NoneUndonePrefix<T(!new)>(a: seq<T>, b: seq<T>, done: iset<T>, kept: iset<T>)
    requires NoneUndone(a + b, done, kept)
    ensures NoneUndone(a, done, kept)
  {
    if a != [] {
      assert (a + b)[0] == a[0] && (a + b)[1..] == a[1..] + b;
      if a[0] in done {
        NoneUndonePrefix(a[1..], b, done, kept);
      }
    }
  }

  /** A run that comes back undone is executed although it was done. */
  lemma {:induction false} UndoneIsWorked<T(!new)>(plan: seq<T>, done: iset<T>, kept: iset<T>) returns (t: T)
    requires !NoneUndone(plan, done, kept)
    ensures t in Worked(plan, done, kept) && t in done
  {
    if plan[0] in done {
      t := UndoneIsWorked(plan[1..], done, kept);
    } else {
      t :| t in plan[1..] && t in done && t !in kept;
      MissingMembers(plan[1..], kept + iset{plan[0]}, t);
    }
  }

  lemma {:induction false} WorkedDistinct<T(!new)>(plan: seq<T>, done: iset<T>, kept: iset<T>)
    ensures Distinct(Worked(plan, done, kept))
  {
    if plan != [] {
      if plan[0] in done {
        WorkedDistinct(plan[1..], done, kept);
      } else {
        MissingDistinct(plan[1..], kept + iset{plan[0]});
        MissingMembers(plan[1..], kept + iset{plan[0]}, plan[0]);
      }
    }
  }

  /** Nothing was missing, or whatever the first execution undid was executed again behind it. */
  ghost predicate Settled<T(!new)>(plan: seq<T>, done: iset<T>, kept: iset<T>) {
    var w := Worked(plan, done, kept);
    w == [] || forall t <- plan :: t in kept || t in w
  }

  /** Then all of the plan is done. */
  lemma SettledIsDone<T(!new)>(plan: seq<T>, done: iset<T>, kept: iset<T>, done': iset<T>)
    requires
      var w := Worked(plan, done, kept);
      if w == [] then done' == done else done' == kept + Members(w)
    ensures (forall t <- plan :: t in done') <==> Settled(plan, done, kept)
  {
    var w := Worked(plan, done, kept);
    WorkedNothing(plan, done, kept);
    if w == [] {
      assert forall t <- plan :: t in Members(plan);
    } else {
      assert forall t :: t in done' <==> t in kept || t in w;
    }
  }

  /** The same plan once more executes nothing if and only if the first time settled it. */
  lemma AgainIff<T(!new)>(plan: seq<T>, again: seq<T>, done: iset<T>, kept: iset<T>, done': iset<T>, kept': iset<T>)
    requires forall t :: t in again <==> t in plan
    requires
      var w := Worked(plan, done, kept);
      if w == [] then done' == done else done' == kept + Members(w)
    ensures Worked(again, done', kept') == [] <==> Settled(plan, done, kept)
  {
    SettledIsDone(plan, done, kept, done');
    WorkedNothing(again, done', kept');
    assert Members(again) <= done' <==> forall t <- plan :: t in done';
  }
}
