/** The COMPLETE / INCOMPLETE line of the Linux S3 client, read off a finished pool run. */
module PoolVerdict {
  import opened Sums
  import opened BlockPool

  function Received(): Outcome -> int { (o: Outcome) => o.received }
  function Cleans(): Outcome -> int { (o: Outcome) => One(o.clean) }
  function Shortfall(blockSize: nat): Outcome -> int { (o: Outcome) => blockSize - o.received }

  /** The three checks of the verdict; `stub` is the mode that counts ciphertext. */
  predicate Complete(cfg: Config, blockSize: nat, stub: bool, outs: seq<Outcome>) {
    var total := Sum(Received(), outs);
    var expected := |outs| * blockSize;
    && Sum(Cleans(), outs) == |outs| && |outs| > 0
    && |outs| == cfg.workers * cfg.BlocksPerWorker()
    && (if stub then total >= expected else total == expected)
  }

  predicate AllClean(outs: seq<Outcome>) { forall o <- outs :: o.clean }

  lemma {:induction false} CleanCount(outs: seq<Outcome>)
    ensures Sum(Cleans(), outs) == |outs| <==> AllClean(outs)
  {
    if outs != [] {
      SumBounds(Cleans(), outs[1..], 0, 1);
      CleanCount(outs[1..]);
      assert forall o :: o in outs <==> o == outs[0] || o in outs[1..];
    }
  }

  lemma {:induction false} ShortfallSum(blockSize: nat, outs: seq<Outcome>)
    ensures Sum(Shortfall(blockSize), outs) == |outs| * blockSize - Sum(Received(), outs)
  {
    if outs != [] {
      ShortfallSum(blockSize, outs[1..]);
      assert |outs| * blockSize == |outs[1..]| * blockSize + blockSize;
    }
  }

  /** After a finished run the coverage check cannot fail: the verdict is the other two. */
  lemma VerdictOfRun(cfg: Config, run: seq<State>, blockSize: nat, stub: bool)
    requires cfg.Valid() && Run(cfg, run) && Stuck(run[|run| - 1])
    ensures
      var outs := AllOutcomes(run[|run| - 1].workers);
      Complete(cfg, blockSize, stub, outs) <==>
        && AllClean(outs)
        && (if stub then Sum(Received(), outs) >= cfg.Total() * blockSize
            else Sum(Received(), outs) == cfg.Total() * blockSize)
  {
    RunsComplete(cfg, run);
    VerdictOfCovered(cfg, AllOutcomes(run[|run| - 1].workers), blockSize, stub);
  }

  lemma VerdictOfCovered(cfg: Config, outs: seq<Outcome>, blockSize: nat, stub: bool)
    requires |outs| == cfg.Total() == cfg.workers * cfg.BlocksPerWorker() && cfg.Total() > 0
    ensures Complete(cfg, blockSize, stub, outs) <==>
        && AllClean(outs)
        && (if stub then Sum(Received(), outs) >= cfg.Total() * blockSize
            else Sum(Received(), outs) == cfg.Total() * blockSize)
  {
    CleanCount(outs);
  }

  /**
   COMPLETE compares totals only. It certifies every block exact precisely when no
   connection delivered more than it was asked for.
   */
  lemma ByteExactness(cfg: Config, blockSize: nat, outs: seq<Outcome>)
    requires Complete(cfg, blockSize, false, outs)
    ensures (forall o <- outs :: o.received == blockSize) <==> (forall o <- outs :: o.received <= blockSize)
  {
    ShortfallSum(blockSize, outs);
    if forall o <- outs :: o.received <= blockSize {
      forall o <- outs ensures o.received == blockSize {
        var i :| 0 <= i < |outs| && outs[i] == o;
        SumTerm(Shortfall(blockSize), outs, i);
      }
    }
  }

  /** A surplus on one connection hides a shortfall on another. */
  lemma SurplusMasksShortfall(blockSize: nat) returns (cfg: Config, outs: seq<Outcome>)
    requires blockSize > 0
    ensures Complete(cfg, blockSize, false, outs) && exists o <- outs :: o.received < blockSize
  {
    cfg := Config(1, 2, 2);
    var a, b := Outcome(0, blockSize + 1, true, false), Outcome(1, blockSize - 1, true, false);
    outs := [a, b];
    assert b in outs;
    assert outs[1..] == [b] && Sum(Received(), [b]) == blockSize - 1;
    CleanCount(outs);
  }
}
