/**
 Putting a coverage dump together from console logs: numbered lines printed more than once
 and read in lossy snapshots are merged, joined, base64-decoded and expanded.
 */
module CovDecode {
  import opened Bytes
  import opened Options
  import Base64
  import ZeroRuns

  /** What one console line is to the decoder. */
  datatype Entry = Line(index: nat, payload: string) | Begin(raw: nat) | End(lines: nat) | Noise

  type Log = seq<Entry>

  datatype Error = NoCompleteDump | LinesMissing | BadBase64 | TruncatedRun | WrongLength

  datatype Result = Ok(bytes: seq<byte>) | Err(error: Error)

  // ----- the merge, as a value -----

  /** The first payload seen for an index stays. */
  function Keep(lines: map<nat, string>, e: Entry): map<nat, string> {
    if e.Line? && e.index !in lines then lines[e.index := e.payload] else lines
  }

  function MergeLog(lines: map<nat, string>, log: Log): map<nat, string>
    decreases |log|
  {
    if log == [] then lines else MergeLog(Keep(lines, log[0]), log[1..])
  }

  function Merge(logs: seq<Log>): map<nat, string> {
    if logs == [] then map[] else MergeLog(Merge(logs[..|logs| - 1]), logs[|logs| - 1])
  }

  /** The first BEGIN of a log. */
  function BeginOf(log: Log): Option<nat> {
    if log == [] then None else if log[0].Begin? then Some(log[0].raw) else BeginOf(log[1..])
  }

  function EndOf(log: Log): Option<nat> {
    if log == [] then None else if log[0].End? then Some(log[0].lines) else EndOf(log[1..])
  }

  /** The last log that has one decides. */
  function Want(logs: seq<Log>): Option<nat> {
    if logs == [] then None
    else var w := BeginOf(logs[|logs| - 1]);
      if w.Some? then w else Want(logs[..|logs| - 1])
  }

  function Stop(logs: seq<Log>): Option<nat> {
    if logs == [] then None
    else var e := EndOf(logs[|logs| - 1]);
      if e.Some? then e else Stop(logs[..|logs| - 1])
  }

  function JoinTo(lines: map<nat, string>, end: nat): string
    requires forall i :: 0 <= i < end ==> i in lines
  {
    if end == 0 then "" else JoinTo(lines, end - 1) + lines[end - 1]
  }

  /** The outcome for a merged dump. */
  function Assemble(lines: map<nat, string>, want: Option<nat>, end: Option<nat>): Result {
    if want.None? || end.None? then Err(NoCompleteDump)
    else if exists i :: 0 <= i < end.value && i !in lines then Err(LinesMissing)
    else match Base64.Decode(JoinTo(lines, end.value))
      case None => Err(BadBase64)
      case Some(rle) =>
        match ZeroRuns.Decoded(rle)
        case None => Err(TruncatedRun)
        case Some(out) => if |out| != want.value then Err(WrongLength) else Ok(out)
  }

  method Decode(logs: seq<Log>) returns (r: Result)
    ensures r == Assemble(Merge(logs), Want(logs), Stop(logs))
  {
    var lines: map<nat, string> := map[];
    var want: Option<nat>, end: Option<nat> := None, None;
    for k := 0 to |logs|
      invariant lines == Merge(logs[..k]) && want == Want(logs[..k]) && end == Stop(logs[..k])
    {
      assert logs[..k + 1][..k] == logs[..k];
      var log := logs[k];
      for j := 0 to |log|
        invariant MergeLog(lines, log[j..]) == Merge(logs[..k + 1])
      {
        if log[j].Line? && log[j].index !in lines {
          lines := lines[log[j].index := log[j].payload];
        }
      }
      if BeginOf(log).Some? {
        want := BeginOf(log);
      }
      if EndOf(log).Some? {
        end := EndOf(log);
      }
    }
    assert logs[..|logs|] == logs;
    if want.None? || end.None? {
      return Err(NoCompleteDump);
    }
    var text := "";
    for i := 0 to end.value
      invariant forall k :: 0 <= k < i ==> k in lines
      invariant text == JoinTo(lines, i)
    {
      if i !in lines {
        return Err(LinesMissing);
      }
      text := text + lines[i];
    }
    var rle := Base64.Decode(text);
    if rle.None? {
      return Err(BadBase64);
    }
    var out := ZeroRuns.Decode(rle.value);
    if out.None? {
      return Err(TruncatedRun);
    }
    if |out.value| != want.value {
      return Err(WrongLength);
    }
    return Ok(out.value);
  }

  // ----- logs of one dump -----

  /** The lines a guest prints for a dump: the base64 text of its zero-run coding, cut up. */
  ghost predicate Prints(raw: seq<byte>, payloads: seq<string>) {
    exists tokens :: (forall t <- tokens :: ZeroRuns.Legal(t)) && PrintsAs(raw, payloads, tokens)
  }

  ghost predicate PrintsAs(raw: seq<byte>, payloads: seq<string>, tokens: seq<ZeroRuns.Token>)
    requires forall t <- tokens :: ZeroRuns.Legal(t)
  {
    ZeroRuns.Expand(tokens) == raw && Joined(payloads) == Base64.Encode(ZeroRuns.Code(tokens))
  }

  function Joined(payloads: seq<string>): string {
    if payloads == [] then "" else Joined(payloads[..|payloads| - 1]) + payloads[|payloads| - 1]
  }

  /** An entry that agrees with the dump. */
  predicate Faithful(e: Entry, raw: seq<byte>, payloads: seq<string>) {
    match e
    case Line(i, p) => i < |payloads| ==> p == payloads[i]
    case Begin(n) => n == |raw|
    case End(n) => n == |payloads|
    case Noise => true
  }

  predicate AllFaithful(logs: seq<Log>, raw: seq<byte>, payloads: seq<string>) {
    forall log <- logs :: forall e <- log :: Faithful(e, raw, payloads)
  }

  predicate Shows(logs: seq<Log>, i: nat) {
    exists log <- logs :: ShowsIn(log, i)
  }

  predicate ShowsIn(log: Log, i: nat) { exists e <- log :: e.Line? && e.index == i }

  /** Both counts and every line reached at least one log. */
  predicate Covers(logs: seq<Log>, n: nat) {
    && HasBegin(logs) && HasEnd(logs)
    && (forall i :: 0 <= i < n ==> Shows(logs, i))
  }

  lemma {:induction false} MergeLogKeys(lines: map<nat, string>, log: Log, i: nat)
    ensures i in MergeLog(lines, log) <==> i in lines || ShowsIn(log, i)
    decreases |log|
  {
    if log != [] {
      MergeLogKeys(Keep(lines, log[0]), log[1..], i);
      assert forall e :: e in log <==> e == log[0] || e in log[1..];
    }
  }

  lemma {:induction false} MergeKeys(logs: seq<Log>, i: nat)
    ensures i in Merge(logs) <==> Shows(logs, i)
  {
    if logs != [] {
      var front, last := logs[..|logs| - 1], logs[|logs| - 1];
      MergeKeys(front, i);
      MergeLogKeys(Merge(front), last, i);
      assert forall log :: log in logs <==> log == last || log in front;
      assert Shows(logs, i) <==> Shows(front, i) || ShowsIn(last, i);
    }
  }

  predicate Agree(lines: map<nat, string>, payloads: seq<string>) {
    forall i :: i in lines && i < |payloads| ==> lines[i] == payloads[i]
  }

  lemma {:induction false} MergeLogAgrees(lines: map<nat, string>, log: Log, raw: seq<byte>, payloads: seq<string>)
    requires Agree(lines, payloads) && forall e <- log :: Faithful(e, raw, payloads)
    ensures Agree(MergeLog(lines, log), payloads)
    decreases |log|
  {
    if log != [] {
      assert log[0] in log;
      assert forall e <- log[1..] :: e in log;
      MergeLogAgrees(Keep(lines, log[0]), log[1..], raw, payloads);
    }
  }

  lemma {:induction false} MergeAgrees(logs: seq<Log>, raw: seq<byte>, payloads: seq<string>)
    requires AllFaithful(logs, raw, payloads)
    ensures Agree(Merge(logs), payloads)
  {
    if logs != [] {
      var front, last := logs[..|logs| - 1], logs[|logs| - 1];
      assert last in logs && forall log <- front :: log in logs;
      MergeAgrees(front, raw, payloads);
      MergeLogAgrees(Merge(front), last, raw, payloads);
    }
  }

  lemma {:induction false} CountsOf(log: Log, raw: seq<byte>, payloads: seq<string>)
    requires forall e <- log :: Faithful(e, raw, payloads)
    ensures BeginOf(log) == if exists e <- log :: e.Begin? then Some(|raw|) else None
    ensures EndOf(log) == if exists e <- log :: e.End? then Some(|payloads|) else None
  {
    if log != [] {
      assert log[0] in log;
      assert forall e :: e in log <==> e == log[0] || e in log[1..];
      CountsOf(log[1..], raw, payloads);
    }
  }

  predicate HasBegin(logs: seq<Log>) { exists log <- logs :: exists e <- log :: e.Begin? }

  predicate HasEnd(logs: seq<Log>) { exists log <- logs :: exists e <- log :: e.End? }

  lemma {:induction false} CountsAgree(logs: seq<Log>, raw: seq<byte>, payloads: seq<string>)
    requires AllFaithful(logs, raw, payloads)
    ensures Want(logs) == if HasBegin(logs) then Some(|raw|) else None
    ensures Stop(logs) == if HasEnd(logs) then Some(|payloads|) else None
  {
    if logs != [] {
      var front, last := logs[..|logs| - 1], logs[|logs| - 1];
      assert last in logs && forall log <- front :: log in logs;
      CountsOf(last, raw, payloads);
      CountsAgree(front, raw, payloads);
      assert forall log :: log in logs <==> log == last || log in front;
      assert HasBegin(logs) <==> HasBegin(front) || exists e <- last :: e.Begin?;
      assert HasEnd(logs) <==> HasEnd(front) || exists e <- last :: e.End?;
    }
  }

  lemma {:induction false} JoinToIsJoined(lines: map<nat, string>, payloads: seq<string>)
    requires forall i :: 0 <= i < |payloads| ==> i in lines && lines[i] == payloads[i]
    ensures JoinTo(lines, |payloads|) == Joined(payloads)
  {
    if payloads != [] {
      JoinToIsJoined(lines, payloads[..|payloads| - 1]);
    }
  }

  /**
   Logs that agree with a dump decode to exactly that dump if together they show both counts
   and every line, in whatever order, overlap or repetition; otherwise decoding fails.
   */
  lemma DecodesExactly(logs: seq<Log>, raw: seq<byte>, payloads: seq<string>)
    requires Prints(raw, payloads) && AllFaithful(logs, raw, payloads)
    ensures
      var r := Assemble(Merge(logs), Want(logs), Stop(logs));
      if Covers(logs, |payloads|) then r == Ok(raw) else r.Err?
  {
    var lines := Merge(logs);
    forall i: nat ensures i in lines <==> Shows(logs, i) {
      MergeKeys(logs, i);
    }
    MergeAgrees(logs, raw, payloads);
    CountsAgree(logs, raw, payloads);
    if Covers(logs, |payloads|) {
      var tokens :| (forall t <- tokens :: ZeroRuns.Legal(t)) && PrintsAs(raw, payloads, tokens);
      JoinToIsJoined(lines, payloads);
      Base64.RoundTrip(ZeroRuns.Code(tokens));
      ZeroRuns.DecodeInvertsCode(tokens);
    }
  }

  /** Every byte string has lines to print it in, so the law above is about all of them. */
  lemma EveryDumpPrints(raw: seq<byte>) returns (payloads: seq<string>)
    ensures Prints(raw, payloads)
  {
    var tokens := ZeroRuns.Tokenise(raw);
    payloads := [Base64.Encode(ZeroRuns.Code(tokens))];
    assert payloads[..0] == [] && Joined(payloads) == payloads[0];
    assert PrintsAs(raw, payloads, tokens);
  }

  // ----- first come, first kept -----

  /** The first payload a log shows for an index, and the first over logs in order. */
  function FirstIn(log: Log, i: nat): Option<string> {
    if log == [] then None
    else if log[0].Line? && log[0].index == i then Some(log[0].payload) else FirstIn(log[1..], i)
  }

  function First(logs: seq<Log>, i: nat): Option<string> {
    if logs == [] then None
    else
      var earlier := First(logs[..|logs| - 1], i);
      if earlier.Some? then earlier else FirstIn(logs[|logs| - 1], i)
  }

  function Lookup(lines: map<nat, string>, i: nat): Option<string> {
    if i in lines then Some(lines[i]) else None
  }

  lemma {:induction false} MergeLogFirst(lines: map<nat, string>, log: Log, i: nat)
    ensures Lookup(MergeLog(lines, log), i) == if i in lines then Some(lines[i]) else FirstIn(log, i)
    decreases |log|
  {
    if log != [] {
      MergeLogFirst(Keep(lines, log[0]), log[1..], i);
    }
  }

  lemma {:induction false} MergeFirst(logs: seq<Log>, i: nat)
    ensures Lookup(Merge(logs), i) == First(logs, i)
  {
    if logs != [] {
      var front := logs[..|logs| - 1];
      MergeFirst(front, i);
      MergeLogFirst(Merge(front), logs[|logs| - 1], i);
    }
  }

  /** The counts that decide are the dump's. */
  predicate Counted(logs: seq<Log>, raw: seq<byte>, payloads: seq<string>) {
    Want(logs) == Some(|raw|) && Stop(logs) == Some(|payloads|)
  }

  predicate FirstsWhole(logs: seq<Log>, payloads: seq<string>) {
    forall i :: 0 <= i < |payloads| ==> First(logs, i) == Some(payloads[i])
  }

  /** Where every line's first payload is whole, the dump decodes, whatever later entries hold. */
  lemma WholeFirstsDecode(logs: seq<Log>, raw: seq<byte>, payloads: seq<string>)
    requires Prints(raw, payloads) && Counted(logs, raw, payloads) && FirstsWhole(logs, payloads)
    ensures Assemble(Merge(logs), Want(logs), Stop(logs)) == Ok(raw)
  {
    var lines := Merge(logs);
    forall i | 0 <= i < |payloads| ensures i in lines && lines[i] == payloads[i] {
      MergeFirst(logs, i);
    }
    var tokens :| (forall t <- tokens :: ZeroRuns.Legal(t)) && PrintsAs(raw, payloads, tokens);
    JoinToIsJoined(lines, payloads);
    Base64.RoundTrip(ZeroRuns.Code(tokens));
    ZeroRuns.DecodeInvertsCode(tokens);
  }

  /** Every line is shown, its first payload possibly cut short. */
  predicate FirstsCut(logs: seq<Log>, payloads: seq<string>) {
    forall i :: 0 <= i < |payloads| ==> First(logs, i).Some? && First(logs, i).value <= payloads[i]
  }

  lemma {:induction false} CutText(lines: map<nat, string>, payloads: seq<string>)
    requires forall i :: 0 <= i < |payloads| ==> i in lines && lines[i] <= payloads[i]
    ensures |JoinTo(lines, |payloads|)| <= |Joined(payloads)|
    ensures |JoinTo(lines, |payloads|)| == |Joined(payloads)| ==> JoinTo(lines, |payloads|) == Joined(payloads)
    ensures JoinTo(lines, |payloads|) == Joined(payloads)
       <==> forall i :: 0 <= i < |payloads| ==> lines[i] == payloads[i]
  {
    if payloads != [] {
      var n := |payloads| - 1;
      var front := payloads[..n];
      CutText(lines, front);
      assert lines[n] <= payloads[n];
      if forall i :: 0 <= i < |payloads| ==> lines[i] == payloads[i] {
        assert forall i :: 0 <= i < n ==> lines[i] == front[i];
      }
      if JoinTo(lines, n + 1) == Joined(payloads) {
        SameParts(JoinTo(lines, n), lines[n], Joined(front), payloads[n]);
        assert forall i :: 0 <= i < n ==> lines[i] == front[i] == payloads[i];
      }
    }
  }

  lemma SameParts(a: string, x: string, b: string, y: string)
    requires a + x == b + y && |a| <= |b| && |x| <= |y|
    ensures a == b && x == y
  {
    assert |a| == |b|;
    assert a == (a + x)[..|a|] && b == (b + y)[..|b|];
    assert x == (a + x)[|a|..] && y == (b + y)[|b|..];
  }

  /**
   A line cut short by the end of a snapshot counts if it comes first: the text put together
   is the dump's if and only if every line's first payload is whole.
   */
  lemma CutFirstsShow(logs: seq<Log>, payloads: seq<string>)
    requires FirstsCut(logs, payloads)
    ensures forall i :: 0 <= i < |payloads| ==> i in Merge(logs)
    ensures JoinTo(Merge(logs), |payloads|) == Joined(payloads) <==> FirstsWhole(logs, payloads)
    ensures !FirstsWhole(logs, payloads) ==> |JoinTo(Merge(logs), |payloads|)| < |Joined(payloads)|
  {
    var lines := Merge(logs);
    forall i | 0 <= i < |payloads| ensures i in lines && First(logs, i) == Some(lines[i]) {
      MergeFirst(logs, i);
    }
    CutText(lines, payloads);
  }

  // ----- which entries decide -----

  /** Entry `j` of log `k` is the first line with this index, over the logs in order. */
  predicate FirstAt(logs: seq<Log>, i: nat, k: int, j: int) {
    && 0 <= k < |logs| && 0 <= j < |logs[k]| && logs[k][j].Line? && logs[k][j].index == i
    && (forall j' :: 0 <= j' < j ==> !ShowsAt(logs[k], j', i))
    && forall k' :: 0 <= k' < k ==> !ShowsIn(logs[k'], i)
  }

  predicate ShowsAt(log: Log, j: int, i: nat)
    requires 0 <= j < |log|
  {
    log[j].Line? && log[j].index == i
  }

  lemma {:induction false} FirstInIs(log: Log, i: nat, j: int)
    requires 0 <= j < |log| && ShowsAt(log, j, i) && forall j' :: 0 <= j' < j ==> !ShowsAt(log, j', i)
    ensures FirstIn(log, i) == Some(log[j].payload)
  {
    if j > 0 {
      assert !ShowsAt(log, 0, i);
      forall j' | 0 <= j' < j - 1 ensures !ShowsAt(log[1..], j', i) {
        assert !ShowsAt(log, j' + 1, i);
      }
      FirstInIs(log[1..], i, j - 1);
    }
  }

  lemma {:induction false} FirstInNone(log: Log, i: nat)
    requires !ShowsIn(log, i)
    ensures FirstIn(log, i) == None
  {
    if log != [] {
      assert log[0] in log && forall e <- log[1..] :: e in log;
      FirstInNone(log[1..], i);
    }
  }

  lemma {:induction false} FirstNone(logs: seq<Log>, i: nat)
    requires forall k :: 0 <= k < |logs| ==> !ShowsIn(logs[k], i)
    ensures First(logs, i) == None
  {
    if logs != [] {
      FirstNone(logs[..|logs| - 1], i);
      FirstInNone(logs[|logs| - 1], i);
    }
  }

  /** What is merged for an index is the payload of its first line, wherever the logs have it. */
  lemma {:induction false} FirstIs(logs: seq<Log>, i: nat, k: int, j: int)
    requires FirstAt(logs, i, k, j)
    ensures i in Merge(logs) && Merge(logs)[i] == logs[k][j].payload
  {
    FirstPayload(logs, i, k, j);
    MergeFirst(logs, i);
  }

  lemma {:induction false} FirstPayload(logs: seq<Log>, i: nat, k: int, j: int)
    requires FirstAt(logs, i, k, j)
    ensures First(logs, i) == Some(logs[k][j].payload)
  {
    var n := |logs| - 1;
    if k < n {
      FirstPayload(logs[..n], i, k, j);
    } else {
      FirstNone(logs[..n], i);
      FirstInIs(logs[n], i, j);
    }
  }

  predicate BeginsAt(log: Log, j: int)
    requires 0 <= j < |log|
  {
    log[j].Begin?
  }

  predicate EndsAt(log: Log, j: int)
    requires 0 <= j < |log|
  {
    log[j].End?
  }

  predicate Begins(log: Log) { exists j :: 0 <= j < |log| && BeginsAt(log, j) }

  predicate Ends(log: Log) { exists j :: 0 <= j < |log| && EndsAt(log, j) }

  lemma {:induction false} BeginOfIs(log: Log, j: int)
    ensures !Begins(log) ==> BeginOf(log) == None
    ensures 0 <= j < |log| && BeginsAt(log, j) && (forall j' :: 0 <= j' < j ==> !BeginsAt(log, j')) ==>
      BeginOf(log) == Some(log[j].raw)
  {
    if log != [] && !BeginsAt(log, 0) {
      BeginOfIs(log[1..], j - 1);
      assert forall j' :: 0 <= j' < |log| - 1 ==> (BeginsAt(log[1..], j') <==> BeginsAt(log, j' + 1));
    }
  }

  lemma {:induction false} EndOfIs(log: Log, j: int)
    ensures !Ends(log) ==> EndOf(log) == None
    ensures 0 <= j < |log| && EndsAt(log, j) && (forall j' :: 0 <= j' < j ==> !EndsAt(log, j')) ==>
      EndOf(log) == Some(log[j].lines)
  {
    if log != [] && !EndsAt(log, 0) {
      EndOfIs(log[1..], j - 1);
      assert forall j' :: 0 <= j' < |log| - 1 ==> (EndsAt(log[1..], j') <==> EndsAt(log, j' + 1));
    }
  }

  /** The last log that has a BEGIN, and there the first. */
  predicate DecidesBegin(logs: seq<Log>, at: (int, int)) {
    && 0 <= at.0 < |logs| && 0 <= at.1 < |logs[at.0]| && BeginsAt(logs[at.0], at.1)
    && (forall j :: 0 <= j < at.1 ==> !BeginsAt(logs[at.0], j))
    && forall k :: at.0 < k < |logs| ==> !Begins(logs[k])
  }

  /** The size wanted is what that BEGIN says. */
  lemma {:induction false} WantIs(logs: seq<Log>, at: (int, int))
    requires DecidesBegin(logs, at)
    ensures Want(logs) == Some(logs[at.0][at.1].raw)
  {
    var n := |logs| - 1;
    BeginOfIs(logs[n], at.1);
    if at.0 < n {
      WantIs(logs[..n], at);
    }
  }

  lemma {:induction false} NothingWanted(logs: seq<Log>)
    requires forall k :: 0 <= k < |logs| ==> !Begins(logs[k])
    ensures Want(logs) == None
  {
    if logs != [] {
      BeginOfIs(logs[|logs| - 1], 0);
      NothingWanted(logs[..|logs| - 1]);
    }
  }

  /** The last log that has an END, and there the first. */
  predicate DecidesEnd(logs: seq<Log>, at: (int, int)) {
    && 0 <= at.0 < |logs| && 0 <= at.1 < |logs[at.0]| && EndsAt(logs[at.0], at.1)
    && (forall j :: 0 <= j < at.1 ==> !EndsAt(logs[at.0], j))
    && forall k :: at.0 < k < |logs| ==> !Ends(logs[k])
  }

  /** The number of lines is what that END says. */
  lemma {:induction false} StopIs(logs: seq<Log>, at: (int, int))
    requires DecidesEnd(logs, at)
    ensures Stop(logs) == Some(logs[at.0][at.1].lines)
  {
    var n := |logs| - 1;
    EndOfIs(logs[n], at.1);
    if at.0 < n {
      StopIs(logs[..n], at);
    }
  }

  lemma {:induction false} NothingStops(logs: seq<Log>)
    requires forall k :: 0 <= k < |logs| ==> !Ends(logs[k])
    ensures Stop(logs) == None
  {
    if logs != [] {
      EndOfIs(logs[|logs| - 1], 0);
      NothingStops(logs[..|logs| - 1]);
    }
  }

  /** The payloads of the lines, each from where it stands first. */
  predicate Firsts(logs: seq<Log>, at: seq<(int, int)>, payloads: seq<string>) {
    && |at| == |payloads|
    && forall i: nat :: i < |at| ==> FirstAt(logs, i, at[i].0, at[i].1) && logs[at[i].0][at[i].1].payload == payloads[i]
  }

  lemma {:induction false} FirstsJoin(logs: seq<Log>, at: seq<(int, int)>, payloads: seq<string>)
    requires Firsts(logs, at, payloads)
    ensures forall i :: 0 <= i < |at| ==> i in Merge(logs)
    ensures JoinTo(Merge(logs), |at|) == Joined(payloads)
  {
    forall i: nat | i < |at| ensures i in Merge(logs) && Merge(logs)[i] == payloads[i] {
      FirstIs(logs, i, at[i].0, at[i].1);
    }
    JoinToIsJoined(Merge(logs), payloads);
  }

  /** Without a BEGIN or an END anywhere there is no dump. */
  lemma NoDump(logs: seq<Log>)
    requires (forall k :: 0 <= k < |logs| ==> !Begins(logs[k])) || forall k :: 0 <= k < |logs| ==> !Ends(logs[k])
    ensures Assemble(Merge(logs), Want(logs), Stop(logs)) == Err(NoCompleteDump)
  {
    if forall k :: 0 <= k < |logs| ==> !Begins(logs[k]) {
      NothingWanted(logs);
    } else {
      NothingStops(logs);
    }
  }

  /** With both, lines are missing if and only if no log shows some line below the END's number. */
  lemma MissingIff(logs: seq<Log>, begin: (int, int), end: (int, int))
    requires DecidesBegin(logs, begin) && DecidesEnd(logs, end)
    ensures Assemble(Merge(logs), Want(logs), Stop(logs)) == Err(LinesMissing)
       <==> exists i: nat :: i < logs[end.0][end.1].lines && !Shows(logs, i)
  {
    WantIs(logs, begin);
    StopIs(logs, end);
    forall i: nat ensures i in Merge(logs) <==> Shows(logs, i) {
      MergeKeys(logs, i);
    }
    MissingInMerge(logs, Merge(logs), Want(logs), Stop(logs));
  }

  lemma MissingInMerge(logs: seq<Log>, lines: map<nat, string>, want: Option<nat>, end: Option<nat>)
    requires want.Some? && end.Some? && forall i: nat :: i in lines <==> Shows(logs, i)
    ensures Assemble(lines, want, end) == Err(LinesMissing) <==> exists i: nat :: i < end.value && !Shows(logs, i)
  {
  }

  predicate IsCode(tokens: seq<ZeroRuns.Token>, rle: seq<byte>) {
    (forall t <- tokens :: ZeroRuns.Legal(t)) && ZeroRuns.Code(tokens) == rle
  }

  /**
   Where every line is there, the joined first payloads fail as text, fail as runs, have another
   size than the BEGIN said, or are the dump.
   */
  lemma TextDecides(logs: seq<Log>, begin: (int, int), end: (int, int), at: seq<(int, int)>, payloads: seq<string>,
                    r: Result)
    requires r == Assemble(Merge(logs), Want(logs), Stop(logs)) && DecidesBegin(logs, begin) && DecidesEnd(logs, end)
    requires |at| == logs[end.0][end.1].lines && Firsts(logs, at, payloads)
    ensures
      match Base64.Decode(Joined(payloads))
      case None => r == Err(BadBase64)
      case Some(rle) =>
        if !exists tokens :: IsCode(tokens, rle) then r == Err(TruncatedRun)
        else
          exists tokens ::
            && IsCode(tokens, rle)
            && r == if |ZeroRuns.Expand(tokens)| != logs[begin.0][begin.1].raw then Err(WrongLength)
                    else Ok(ZeroRuns.Expand(tokens))
  {
    WantIs(logs, begin);
    StopIs(logs, end);
    FirstsJoin(logs, at, payloads);
    var text := Base64.Decode(Joined(payloads));
    if text.Some? {
      if ZeroRuns.Decoded(text.value).Some? {
        var tokens := ZeroRuns.OnlyCodesDecode(text.value);
        assert IsCode(tokens, text.value);
      } else if tokens :| IsCode(tokens, text.value) {
        ZeroRuns.DecodeInvertsCode(tokens);
      }
    }
  }
}
