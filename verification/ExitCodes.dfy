/** The exit codes of a worker and of the supervisor of several. */
module ExitCodes {
  import opened Options

  /** What a worker did: tasks processed, and failures counted. */
  datatype Work = Work(processed: nat, failed: nat)

  /** The exit code of one worker. */
  function ExitCode(work: Work, emptyCode: int, failedCode: int): int {
    if work.failed != 0 && failedCode != 0 then failedCode
    else if work.processed == 0 && emptyCode != 0 then emptyCode
    else 0
  }

  predicate Normal(code: int, emptyCode: int, failedCode: int) {
    code == 0 || code == emptyCode || code == failedCode
  }

  /** The first code no orderly worker exits with, or 0. */
  function FirstAbnormal(codes: seq<int>, emptyCode: int, failedCode: int): (code: int)
    ensures code == 0 || (code in codes && !Normal(code, emptyCode, failedCode))
    ensures code == 0 <==> forall c :: c in codes ==> Normal(c, emptyCode, failedCode)
  {
    if codes == [] then 0
    else if !Normal(codes[0], emptyCode, failedCode) then codes[0]
    else FirstAbnormal(codes[1..], emptyCode, failedCode)
  }

  /** The exit code of the supervisor. */
  function CombineExitCodes(codes: seq<int>, emptyCode: int, failedCode: int): int {
    if codes == [] then 0 else
    var abnormal := FirstAbnormal(codes, emptyCode, failedCode);
    if abnormal != 0 then (if abnormal > 0 then abnormal else 128 - abnormal)
    else if failedCode != 0 && failedCode in codes then failedCode
    else if emptyCode != 0 && (forall c :: c in codes ==> c == emptyCode) then emptyCode
    else 0
  }

  /** A worker that crashed or was killed is never reported as success. */
  lemma AbnormalIsReported(codes: seq<int>, emptyCode: int, failedCode: int, code: int)
    requires code in codes && !Normal(code, emptyCode, failedCode)
    ensures CombineExitCodes(codes, emptyCode, failedCode) != 0
    ensures var result := CombineExitCodes(codes, emptyCode, failedCode);
      exists k :: 0 <= k < |codes|
        && codes[k] != 0 && codes[k] != emptyCode && codes[k] != failedCode
        && (forall j :: 0 <= j < k ==> codes[j] == 0 || codes[j] == emptyCode || codes[j] == failedCode)
        && result == if codes[k] > 0 then codes[k] else 128 - codes[k]
  {
    FirstAbnormalIs(codes, emptyCode, failedCode);
    var k :| 0 <= k < |codes| && IsFirstAbnormal(codes, k, emptyCode, failedCode)
             && codes[k] == FirstAbnormal(codes, emptyCode, failedCode);
  }

  predicate IsFirstAbnormal(codes: seq<int>, k: nat, emptyCode: int, failedCode: int)
    requires k < |codes|
  {
    !Normal(codes[k], emptyCode, failedCode) && forall j :: 0 <= j < k ==> Normal(codes[j], emptyCode, failedCode)
  }

  lemma {:induction false} FirstAbnormalIs(codes: seq<int>, emptyCode: int, failedCode: int)
    requires FirstAbnormal(codes, emptyCode, failedCode) != 0
    ensures exists k :: 0 <= k < |codes| && IsFirstAbnormal(codes, k, emptyCode, failedCode)
                        && codes[k] == FirstAbnormal(codes, emptyCode, failedCode)
  {
    if !Normal(codes[0], emptyCode, failedCode) {
    } else {
      FirstAbnormalIs(codes[1..], emptyCode, failedCode);
      var k :| 0 <= k < |codes[1..]| && IsFirstAbnormal(codes[1..], k, emptyCode, failedCode)
               && codes[1..][k] == FirstAbnormal(codes, emptyCode, failedCode);
      assert codes[k + 1] == codes[1..][k] && forall j :: 0 < j < |codes| ==> codes[j] == codes[1..][j - 1];
    }
  }

  /** Of workers that all ended in order, one failure is enough to report one, and all have to be idle. */
  lemma OrderlyCombined(codes: seq<int>, emptyCode: int, failedCode: int)
    requires forall c :: c in codes ==> c == 0 || c == emptyCode || c == failedCode
    ensures var code := CombineExitCodes(codes, emptyCode, failedCode);
      if failedCode in codes then (failedCode != 0 ==> code == failedCode)
      else if 0 in codes || codes == [] then code == 0
      else code == emptyCode
  {
    assert FirstAbnormal(codes, emptyCode, failedCode) == 0;
    if codes != [] && failedCode !in codes && 0 !in codes {
      assert codes[0] == emptyCode;
    }
  }

  /**
   What several workers exit with, in what they did: the code for failures if
   any counted one, else the code for idleness if none processed a task, else 0.
   */
  lemma CombinedMeans(works: seq<Work>, emptyCode: int, failedCode: int)
    requires works != [] && (emptyCode != failedCode || emptyCode == 0)
    ensures var code := CombineExitCodes(Codes(works, emptyCode, failedCode), emptyCode, failedCode);
      var anyFailed := exists w :: w in works && w.failed > 0;
      var anyProcessed := exists w :: w in works && w.processed > 0;
      && (anyFailed && failedCode != 0 ==> code == failedCode)
      && (!(anyFailed && failedCode != 0) && !anyProcessed && emptyCode != 0 ==> code == emptyCode)
      && (!(anyFailed && failedCode != 0) && (anyProcessed || emptyCode == 0) ==> code == 0)
  {
    CombineIsTotal(works, emptyCode, failedCode);
    assert forall i :: 0 <= i < |works| ==> works[i] in works;
  }

  function Codes(works: seq<Work>, emptyCode: int, failedCode: int): (codes: seq<int>)
    ensures |codes| == |works|
    ensures forall i :: 0 <= i < |works| ==> codes[i] == ExitCode(works[i], emptyCode, failedCode)
  {
    seq(|works|, i requires 0 <= i < |works| => ExitCode(works[i], emptyCode, failedCode))
  }

  /** All the work of all the workers. */
  function Total(works: seq<Work>): (total: Work)
    ensures total.failed > 0 <==> exists i :: 0 <= i < |works| && works[i].failed > 0
    ensures total.processed > 0 <==> exists i :: 0 <= i < |works| && works[i].processed > 0
  {
    if works == [] then Work(0, 0) else
    var rest := Total(works[1..]);
    assert forall i :: 0 < i < |works| ==> works[i] == works[1..][i - 1];
    Work(works[0].processed + rest.processed, works[0].failed + rest.failed)
  }

  /** The supervisor exits as one worker would that did all the work. */
  ghost predicate CombinesAsOne(emptyCode: int, failedCode: int) {
    forall works: seq<Work> :: works != [] ==>
      CombineExitCodes(Codes(works, emptyCode, failedCode), emptyCode, failedCode)
      == ExitCode(Total(works), emptyCode, failedCode)
  }

  lemma CombineIsTotal(works: seq<Work>, emptyCode: int, failedCode: int)
    requires works != [] && (emptyCode != failedCode || emptyCode == 0)
    ensures CombineExitCodes(Codes(works, emptyCode, failedCode), emptyCode, failedCode)
         == ExitCode(Total(works), emptyCode, failedCode)
  {
    var codes := Codes(works, emptyCode, failedCode);
    assert FirstAbnormal(codes, emptyCode, failedCode) == 0;
    if failedCode != 0 && Total(works).failed > 0 {
      var i :| 0 <= i < |works| && works[i].failed > 0;
      assert codes[i] == failedCode;
    } else if Total(works).processed > 0 {
      var i :| 0 <= i < |works| && works[i].processed > 0;
      assert failedCode != 0 ==> forall j :: 0 <= j < |works| ==> works[j].failed == 0 && codes[j] != failedCode;
      assert codes[i] == 0 && codes[i] in codes;
    } else {
      assert forall c :: c in codes ==> c == emptyCode || emptyCode == 0;
    }
  }

  /** Exactly the choices of codes for which the number of workers makes no difference. */
  lemma CombinesExactlyWhenToldApart(emptyCode: int, failedCode: int)
    ensures CombinesAsOne(emptyCode, failedCode) <==> emptyCode != failedCode || emptyCode == 0
  {
    if emptyCode != failedCode || emptyCode == 0 {
      forall works: seq<Work> | works != []
        ensures CombineExitCodes(Codes(works, emptyCode, failedCode), emptyCode, failedCode)
             == ExitCode(Total(works), emptyCode, failedCode)
      {
        CombineIsTotal(works, emptyCode, failedCode);
      }
    } else {
      // One idle worker beside one that processed a task.
      var works := [Work(0, 0), Work(1, 0)];
      var codes := Codes(works, emptyCode, failedCode);
      assert codes[0] == failedCode;
      assert FirstAbnormal(codes, emptyCode, failedCode) == 0;
      assert works[1].processed > 0 && forall i :: 0 <= i < |works| ==> works[i].failed == 0;
    }
  }

  const SIGTERM: int := 15

  /**
   How a process of a slot ended. asked: it was told to stop, by a shutdown
   or because its slot is to retire; killed: it was not left to; at: when its
   exit was found.
   */
  datatype Ended = Ended(index: nat, code: int, asked: bool, killed: bool, at: real) {
    /** Of its own accord, on the signal it was sent: it had no handler for it yet. */
    predicate Stopped() {
      asked && !killed && code == -SIGTERM
    }

    function Recorded(): int {
      if Stopped() then 0 else code
    }

    /** No worker that was left to end in order, or that stopped as it was told, ends so. */
    predicate Crashed(emptyCode: int, failedCode: int) {
      !Normal(code, emptyCode, failedCode) && !Stopped()
    }
  }

  /** The codes of the processes, as they were found. */
  function FoundCodes(exits: seq<Ended>): (codes: seq<int>)
    ensures |codes| == |exits|
  {
    if exits == [] then [] else FoundCodes(exits[..|exits| - 1]) + [exits[|exits| - 1].code]
  }

  /** And as the supervisor records them. */
  function RecordedCodes(exits: seq<Ended>): (codes: seq<int>)
    ensures |codes| == |exits|
  {
    if exits == [] then [] else RecordedCodes(exits[..|exits| - 1]) + [exits[|exits| - 1].Recorded()]
  }

  lemma {:induction false} RecordedCodesAre(exits: seq<Ended>, k: nat)
    requires k < |exits|
    ensures RecordedCodes(exits)[k] == exits[k].Recorded()
  {
    if k == |exits| - 1 {
    } else {
      RecordedCodesAre(exits[..|exits| - 1], k);
    }
  }

  /** The process was asked to stop only if its slot was told to, or a shutdown was requested by then. */
  predicate HadReason(e: Ended, told: set<nat>, requestedAt: Option<real>) {
    e.asked ==> e.index in told || (requestedAt.Some? && requestedAt.value <= e.at)
  }

  predicate AllHadReason(exits: seq<Ended>, told: set<nat>, requestedAt: Option<real>) {
    exits != [] ==>
      HadReason(exits[|exits| - 1], told, requestedAt) && AllHadReason(exits[..|exits| - 1], told, requestedAt)
  }

  /** More slots are told to stop, and a shutdown is requested, at some time, once. */
  lemma {:induction false} AllHadReasonStill(exits: seq<Ended>, told: set<nat>, requestedAt: Option<real>,
                                             more: set<nat>, later: Option<real>)
    requires AllHadReason(exits, told, requestedAt)
    requires told <= more && (requestedAt.Some? ==> later == requestedAt)
    ensures AllHadReason(exits, more, later)
  {
    if exits == [] {
    } else {
      AllHadReasonStill(exits[..|exits| - 1], told, requestedAt, more, later);
    }
  }

  lemma {:induction false} AllHadReasonMeans(exits: seq<Ended>, told: set<nat>, requestedAt: Option<real>, k: nat)
    requires AllHadReason(exits, told, requestedAt) && k < |exits|
    ensures HadReason(exits[k], told, requestedAt)
  {
    if k == |exits| - 1 {
    } else {
      AllHadReasonMeans(exits[..|exits| - 1], told, requestedAt, k);
    }
  }

  lemma OneMoreEnded(exits: seq<Ended>, e: Ended, told: set<nat>, requestedAt: Option<real>)
    ensures FoundCodes(exits + [e]) == FoundCodes(exits) + [e.code]
    ensures RecordedCodes(exits + [e]) == RecordedCodes(exits) + [e.Recorded()]
    ensures AllHadReason(exits + [e], told, requestedAt)
       <==> AllHadReason(exits, told, requestedAt) && HadReason(e, told, requestedAt)
  {
    assert (exits + [e])[..|exits|] == exits;
  }

  /**
   Whatever process crashed, and whenever, the combined code is not 0: not
   for a signal that nobody sent, either.
   */
  lemma CrashIsReported(exits: seq<Ended>, emptyCode: int, failedCode: int, k: nat)
    requires k < |exits| && exits[k].Crashed(emptyCode, failedCode)
    ensures CombineExitCodes(RecordedCodes(exits), emptyCode, failedCode) != 0
  {
    RecordedCodesAre(exits, k);
    AbnormalIsReported(RecordedCodes(exits), emptyCode, failedCode, RecordedCodes(exits)[k]);
  }
}
