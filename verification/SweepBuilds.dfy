/** How many images a sweep builds. */
module SweepBuilds {
  import opened Options
  import opened Worklist
  import opened Sweeps

  lemma {:induction false} SweptConcat(s: Session, call: Call, a: seq<(string, nat)>, b: seq<(string, nat)>,
      bench: Bench)
    ensures Swept(s, call, a + b, bench) == Swept(Swept(s, call, a, bench), call, b, bench)
    decreases |a|
  {
    if a == [] {
      assert a + b == b;
    } else {
      assert (a + b)[1..] == a[1..] + b;
      SweptConcat(Visit(s, call, a[0], bench), call, a[1..], b, bench);
    }
  }

  ghost function DoneAt(s: Session, call: Call): iset<Key> {
    DoneSet(s.df, call.KeyAt("", 0).off.Keys)
  }

  ghost function LastingAt(s: Session, call: Call): iset<Key> {
    Lasting(s.df, call.KeyAt("", 0).off.Keys)
  }

  // ----- the reps of one value -----

  /** Some rep of the value is still to be run. */
  ghost predicate Needs(call: Call, done: iset<Key>, v: string, reps: nat) {
    exists r: nat :: 1 <= r <= reps && call.KeyAt(v, r) !in done
  }

  predicate OfValue(plan: seq<(string, nat)>, v: string) { forall e <- plan :: e.0 == v }

  lemma {:induction false} RepsOfValue(v: string, reps: nat)
    ensures OfValue(RepsOf(v, reps), v)
  {
    if reps > 0 {
      RepsOfValue(v, reps - 1);
    }
  }

  /** While the tree holds the value's image, nothing is built. */
  lemma {:induction false} ImageStays(s: Session, call: Call, v: string, plan: seq<(string, nat)>, bench: Bench)
    requires OfValue(plan, v) && s.built == Some(call.CfgAt(v))
    ensures Swept(s, call, plan, bench).builds == s.builds && Swept(s, call, plan, bench).built == s.built
    decreases |plan|
  {
    if plan != [] {
      assert plan[0] in plan && forall e <- plan[1..] :: e in plan;
      ImageStays(Visit(s, call, plan[0], bench), call, v, plan[1..], bench);
    }
  }

  /** From `s` to `s'` one image was built, for the first run, or nothing happened. */
  predicate BuiltFor(s: Session, s': Session, cfg: Cfg, needs: bool) {
    if needs then s'.built == Some(cfg) && s'.builds == s.builds + [cfg] else s' == s
  }

  lemma {:induction false} OneBuild(s: Session, call: Call, v: string, plan: seq<(string, nat)>, bench: Bench)
    requires OfValue(plan, v) && s.built != Some(call.CfgAt(v))
    ensures BuiltFor(s, Swept(s, call, plan, bench), call.CfgAt(v), !(Members(KeysOf(call, plan)) <= DoneAt(s, call)))
    decreases |plan|
  {
    if plan != [] {
      var key, rest := call.KeyAt(plan[0].0, plan[0].1), KeysOf(call, plan[1..]);
      assert plan[0] in plan && forall e <- plan[1..] :: e in plan;
      assert key in DoneAt(s, call) <==> Done(s.df, key);
      assert Members(KeysOf(call, plan)) == Members(rest) + iset{key};
      if Done(s.df, key) {
        OneBuild(s, call, v, plan[1..], bench);
      } else {
        ImageStays(Visit(s, call, plan[0], bench), call, v, plan[1..], bench);
      }
    }
  }

  lemma NeedsIs(call: Call, done: iset<Key>, v: string, reps: nat)
    ensures Needs(call, done, v, reps) <==> !(Members(KeysOf(call, RepsOf(v, reps))) <= done)
  {
    forall r: nat | 1 <= r <= reps ensures call.KeyAt(v, r) in KeysOf(call, RepsOf(v, reps)) {
      KeysOfReps(call, v, reps, call.KeyAt(v, r));
    }
    if key :| key in KeysOf(call, RepsOf(v, reps)) && key !in done {
      KeysOfReps(call, v, reps, key);
    }
  }

  /** On any CSV all reps of one value share one image, built when one of them is missing. */
  lemma OneValue(s: Session, call: Call, v: string, reps: nat, bench: Bench)
    requires s.built != Some(call.CfgAt(v))
    ensures BuiltFor(s, Swept(s, call, RepsOf(v, reps), bench), call.CfgAt(v), Needs(call, DoneAt(s, call), v, reps))
  {
    RepsOfValue(v, reps);
    OneBuild(s, call, v, RepsOf(v, reps), bench);
    NeedsIs(call, DoneAt(s, call), v, reps);
  }

  // ----- a value-major sweep -----

  /** A run of the value is among these. */
  predicate Among(call: Call, v: string, w: seq<Key>) { exists key <- w :: key.value == v }

  function Builds(call: Call, values: seq<string>, w: seq<Key>): nat {
    if values == [] then 0
    else (if Among(call, values[0], w) then 1 else 0) + Builds(call, values[1..], w)
  }

  lemma {:induction false} KeysHaveValue(call: Call, v: string, plan: seq<(string, nat)>, key: Key)
    requires OfValue(plan, v) && key in KeysOf(call, plan)
    ensures key.value == v
  {
    assert plan[0] in plan && forall e <- plan[1..] :: e in plan;
    if key in KeysOf(call, plan[1..]) {
      KeysHaveValue(call, v, plan[1..], key);
    }
  }

  lemma {:induction false} KeysHaveValues(call: Call, values: seq<string>, reps: nat, key: Key)
    requires key in KeysOf(call, ValueMajor(values, reps))
    ensures key.value in values
  {
    if values != [] {
      KeysOfConcat(call, RepsOf(values[0], reps), ValueMajor(values[1..], reps));
      if key in KeysOf(call, RepsOf(values[0], reps)) {
        RepsOfValue(values[0], reps);
        KeysHaveValue(call, values[0], RepsOf(values[0], reps), key);
      } else {
        KeysHaveValues(call, values[1..], reps, key);
      }
    }
  }

  lemma {:induction false} BuildsOthers(call: Call, values: seq<string>, a: seq<Key>, b: seq<Key>)
    requires forall key <- a :: key.value !in values
    ensures Builds(call, values, a + b) == Builds(call, values, b)
  {
    if values != [] {
      var v := values[0];
      assert v in values && forall u <- values[1..] :: u in values;
      BuildsOthers(call, values[1..], a, b);
      assert forall key :: key in a + b <==> key in a || key in b;
    }
  }

  lemma BlockAmong(call: Call, v: string, rest: seq<string>, a: seq<Key>, b: seq<Key>)
    requires v !in rest && (forall key <- a :: key.value == v) && forall key <- b :: key.value in rest
    ensures Builds(call, [v] + rest, a + b) == (if a != [] then 1 else 0) + Builds(call, rest, b)
  {
    BuildsOthers(call, rest, a, b);
    assert ([v] + rest)[1..] == rest;
    assert forall key :: key in a + b <==> key in a || key in b;
    if a != [] {
      assert a[0] in a + b;
    }
  }

  /**
   On any CSV a value-major sweep over distinct values builds once for each value of which it
   executes a run.
   */
  lemma {:induction false} BuildsPerValue(s: Session, call: Call, values: seq<string>, bench: Bench)
    requires call.axis != INSTANCE && Distinct(values) && s.df.Valid() && Faithful(bench, call.axis)
    requires forall v <- values :: s.built != Some(call.CfgAt(v))
    ensures |Swept(s, call, ValueMajor(values, call.reps), bench).builds|
         == |s.builds| + Builds(call, values,
             Worked(KeysOf(call, ValueMajor(values, call.reps)), DoneAt(s, call), LastingAt(s, call)))
    decreases |values|
  {
    if values != [] {
      var v, rest := values[0], values[1..];
      var s1 := Swept(s, call, RepsOf(v, call.reps), bench);
      assert v in values;
      OneValue(s, call, v, call.reps, bench);
      NeedsIs(call, DoneAt(s, call), v, call.reps);
      SweepFromAny(s, call, RepsOf(v, call.reps), bench);
      forall u <- rest ensures s1.built != Some(call.CfgAt(u)) {
        assert u in values && call.CfgAt(u)[call.axis] == u && call.CfgAt(v)[call.axis] == v;
      }
      BuildsPerValue(s1, call, rest, bench);
      SweptConcat(s, call, RepsOf(v, call.reps), ValueMajor(rest, call.reps), bench);
      BlockBuilds(s, s1, call, v, rest);
    }
  }

  /** The first value's block and the others' share no run. */
  lemma BlockBuilds(s: Session, s1: Session, call: Call, v: string, rest: seq<string>)
    requires v !in rest && WorkedFrom(s, s1, call.KeyAt("", 0).off.Keys, KeysOf(call, RepsOf(v, call.reps)))
    ensures
      var block, others := KeysOf(call, RepsOf(v, call.reps)), KeysOf(call, ValueMajor(rest, call.reps));
      Builds(call, [v] + rest, Worked(KeysOf(call, ValueMajor([v] + rest, call.reps)), DoneAt(s, call),
          LastingAt(s, call)))
      == (if Members(block) <= DoneAt(s, call) then 0 else 1)
         + Builds(call, rest, Worked(others, DoneAt(s1, call), LastingAt(s1, call)))
  {
    var knobs := call.KeyAt("", 0).off.Keys;
    var block, others := KeysOf(call, RepsOf(v, call.reps)), KeysOf(call, ValueMajor(rest, call.reps));
    var a, b := Worked(block, DoneAt(s, call), LastingAt(s, call)),
        Worked(others, DoneAt(s1, call), LastingAt(s1, call));
    assert ([v] + rest)[1..] == rest;
    KeysOfConcat(call, RepsOf(v, call.reps), ValueMajor(rest, call.reps));
    FromOf(s, s1, knobs, block);
    WorkedTwice(block, others, DoneAt(s, call), LastingAt(s, call), DoneAt(s1, call), LastingAt(s1, call));
    WorkedNothing(block, DoneAt(s, call), LastingAt(s, call));
    forall key <- a ensures key.value == v {
      WorkedWithin(block, DoneAt(s, call), LastingAt(s, call), key);
      RepsOfValue(v, call.reps);
      KeysHaveValue(call, v, RepsOf(v, call.reps), key);
    }
    forall key <- b ensures key.value in rest {
      WorkedWithin(others, DoneAt(s1, call), LastingAt(s1, call), key);
      KeysHaveValues(call, rest, call.reps, key);
    }
    BlockAmong(call, v, rest, a, b);
  }

  /** Where every done run lasts, these are the values with a missing rep. */
  lemma {:induction false} BuildsAreNeeds(call: Call, values: seq<string>, done: iset<Key>, w: seq<Key>)
    requires forall v <- values :: Among(call, v, w) <==> Needs(call, done, v, call.reps)
    ensures Builds(call, values, w) == Needed(call, done, values)
  {
    if values != [] {
      assert values[0] in values && forall v <- values[1..] :: v in values;
      BuildsAreNeeds(call, values[1..], done, w);
    }
  }

  ghost function Needed(call: Call, done: iset<Key>, values: seq<string>): nat {
    if values == [] then 0
    else (if Needs(call, done, values[0], call.reps) then 1 else 0) + Needed(call, done, values[1..])
  }

  lemma AmongMissing(call: Call, values: seq<string>, done: iset<Key>, v: string)
    requires v in values
    ensures Among(call, v, Missing(KeysOf(call, ValueMajor(values, call.reps)), done))
        <==> Needs(call, done, v, call.reps)
  {
    var keys := KeysOf(call, ValueMajor(values, call.reps));
    var w := Missing(keys, done);
    if key :| key in w && key.value == v {
      MissingMembers(keys, done, key);
      KeysOfValues(call, values, call.reps, key);
    }
    if r: nat :| 1 <= r <= call.reps && call.KeyAt(v, r) !in done {
      KeysOfValues(call, values, call.reps, call.KeyAt(v, r));
      MissingMembers(keys, done, call.KeyAt(v, r));
      assert call.KeyAt(v, r) in w;
    }
  }

  /** On a CSV whose done runs all last, one build for each value with a missing rep. */
  lemma BuildsPerMissing(s: Session, call: Call, values: seq<string>, bench: Bench)
    requires call.axis != INSTANCE && Distinct(values) && Faithful(bench, call.axis)
    requires Ready(s.df, call.KeyAt("", 0).off.Keys) && forall v <- values :: s.built != Some(call.CfgAt(v))
    ensures |Swept(s, call, ValueMajor(values, call.reps), bench).builds|
         == |s.builds| + Needed(call, DoneAt(s, call), values)
  {
    var keys, done := KeysOf(call, ValueMajor(values, call.reps)), DoneAt(s, call);
    BuildsPerValue(s, call, values, bench);
    assert LastingAt(s, call) == done;
    WorkedAllKept(keys, done);
    forall v <- values ensures Among(call, v, Missing(keys, done)) <==> Needs(call, done, v, call.reps) {
      AmongMissing(call, values, done, v);
    }
    BuildsAreNeeds(call, values, done, Missing(keys, done));
  }

  // ----- sweeping instances -----

  /** Sweeping instances builds at most once, and only when a run is missing. */
  lemma {:induction false} BuildsOnce(s: Session, call: Call, plan: seq<(string, nat)>, bench: Bench)
    requires call.axis == INSTANCE && s.built == None
    ensures
      var s' := Swept(s, call, plan, bench);
      |s'.builds| == |s.builds| + (if |s'.ran| == |s.ran| then 0 else 1)
    decreases |plan|
  {
    if plan != [] {
      var s1 := Visit(s, call, plan[0], bench);
      if s1 == s {
        BuildsOnce(s, call, plan[1..], bench);
      } else {
        BuiltStays(s1, call, plan[1..], bench);
      }
    }
  }

  lemma {:induction false} BuiltStays(s: Session, call: Call, plan: seq<(string, nat)>, bench: Bench)
    requires call.axis == INSTANCE && s.built == Some(call.base)
    ensures Swept(s, call, plan, bench).builds == s.builds && |Swept(s, call, plan, bench).ran| >= |s.ran|
    decreases |plan|
  {
    if plan != [] {
      BuiltStays(Visit(s, call, plan[0], bench), call, plan[1..], bench);
    }
  }
}
