/** Input/obfuscator.cpp: the runtime the rewritten programs link against.
    Each worker owns a FIFO queue of (function id, parameter index) tasks
    and a load counter; `pushToThread` picks a lightly loaded worker,
    `execute` runs the front task of a worker's queue, an in-flight counter
    tracks tasks not yet finished, and `exit` stops the workers once that
    counter reaches zero. Threads, locks and condition variables are gone:
    every operation is one sequential step, and a wait that would block is a
    step that changes nothing. */
module TaskRuntime {
  import opened Common

  /** `OBFUSCATION_THREADS`. */
  const ObfuscationThreads: nat := 2

  /** The functions of the obfuscated program, in `FunctionID` order. */
  datatype FunctionId = FuncDii | FuncB | FuncEii | FuncC | FuncA

  /** The enumerator value of each function. */
  function EnumIndex(f: FunctionId): int
  {
    match f
    case FuncDii => 0
    case FuncB => 1
    case FuncEii => 2
    case FuncC => 3
    case FuncA => 4
  }

  /** The `switch` of `execute`: the function an id dispatches to, if any. */
  function FunctionOf(id: int): Option<FunctionId>
  {
    if id == 0 then Some(FuncDii)
    else if id == 1 then Some(FuncB)
    else if id == 2 then Some(FuncEii)
    else if id == 3 then Some(FuncC)
    else if id == 4 then Some(FuncA)
    else None
  }

  /** Dispatching on a function's enumerator calls that function, and an id
      outside the enumeration calls nothing. */
  lemma DispatchRoundTrip(f: FunctionId, id: int)
    ensures FunctionOf(EnumIndex(f)) == Some(f)
    ensures FunctionOf(id).Some? <==> 0 <= id <= 4
    ensures FunctionOf(id).Some? ==> EnumIndex(FunctionOf(id).value) == id
  {
  }

  /** A queued task: `pair<int, int>(funcId, param_index)`. */
  datatype Task = Task(funcId: int, paramIndex: int)

  // ---------------------------------------------------------------------
  // 32-bit load counters

  predicate IsInt32(x: int)
  {
    -0x8000_0000 <= x < 0x8000_0000
  }

  /** Two's-complement wrap-around of `atomic<int>::fetch_add`. */
  function Wrap32(x: int): (r: int)
    ensures IsInt32(r)
    ensures IsInt32(x) ==> r == x
    ensures (r - x) % 0x1_0000_0000 == 0
  {
    (x + 0x8000_0000) % 0x1_0000_0000 - 0x8000_0000
  }

  // ---------------------------------------------------------------------
  // The balancer, as a specification

  function Sum(values: seq<int>): int
  {
    if values == [] then 0 else Sum(values[..|values| - 1]) + values[|values| - 1]
  }

  /** `values[i] <= (sum / N) * 0.8`, stated exactly over the integers. */
  predicate Qualifies(values: seq<int>, i: nat)
    requires i < |values|
  {
    5 * (|values| * values[i]) <= 4 * Sum(values)
  }

  /** The indices below `k` whose load is under the threshold, in order. */
  function ThresholdUpTo(values: seq<int>, sum: int, k: nat): (r: seq<nat>)
    requires k <= |values|
    ensures forall j :: j in r ==> j < k
    ensures forall j :: 0 <= j < k ==> (j in r <==> 5 * (|values| * values[j]) <= 4 * sum)
  {
    if k == 0 then []
    else ThresholdUpTo(values, sum, k - 1) + (if 5 * (|values| * values[k - 1]) <= 4 * sum then [k - 1] else [])
  }

  /** The indices below `k` whose load is at most `m`, in order. */
  function AtMostUpTo(values: seq<int>, m: int, k: nat): (r: seq<nat>)
    requires k <= |values|
    ensures forall j :: j in r ==> j < k
    ensures forall j :: 0 <= j < k ==> (j in r <==> values[j] <= m)
  {
    if k == 0 then []
    else AtMostUpTo(values, m, k - 1) + (if values[k - 1] <= m then [k - 1] else [])
  }

  predicate SortedAsc(s: seq<int>)
  {
    forall i, j :: 0 <= i < j < |s| ==> s[i] <= s[j]
  }

  function InsertAsc(x: int, s: seq<int>): (r: seq<int>)
    ensures |r| == |s| + 1
  {
    if s == [] then [x]
    else if x <= s[0] then [x] + s
    else [s[0]] + InsertAsc(x, s[1..])
  }

  /** The ascending order `std::sort` produces. */
  function SortAsc(s: seq<int>): (r: seq<int>)
    ensures |r| == |s|
  {
    if s == [] then [] else InsertAsc(s[0], SortAsc(s[1..]))
  }

  lemma InsertAscSpec(x: int, s: seq<int>)
    requires SortedAsc(s)
    ensures SortedAsc(InsertAsc(x, s))
    ensures multiset(InsertAsc(x, s)) == multiset(s) + multiset{x}
  {
    InsertAscSorted(x, s);
    InsertAscPerm(x, s);
  }

  lemma {:induction false} InsertAscSorted(x: int, s: seq<int>)
    requires SortedAsc(s)
    ensures SortedAsc(InsertAsc(x, s))
  {
    if s == [] {
      assert InsertAsc(x, s) == [x];
    } else if x <= s[0] {
      SortedCons(x, s);
    } else {
      var tail := s[1..];
      assert SortedAsc(tail);
      InsertAscSorted(x, tail);
      InsertAscBound(x, tail, s[0]);
      SortedCons(s[0], InsertAsc(x, tail));
    }
  }

  lemma {:induction false} InsertAscPerm(x: int, s: seq<int>)
    ensures multiset(InsertAsc(x, s)) == multiset(s) + multiset{x}
  {
    if s == [] {
      assert InsertAsc(x, s) == [x];
    } else if x <= s[0] {
      assert multiset([x] + s) == multiset([x]) + multiset(s);
    } else {
      var tail := s[1..];
      InsertAscPerm(x, tail);
      assert s == [s[0]] + tail;
      assert multiset(s) == multiset([s[0]]) + multiset(tail);
      assert multiset([s[0]] + InsertAsc(x, tail)) == multiset([s[0]]) + multiset(InsertAsc(x, tail));
    }
  }

  /** Every element of the result is at least `b` when `x` and every
      element of `s` are. */
  lemma {:induction false} InsertAscBound(x: int, s: seq<int>, b: int)
    requires b <= x && forall k :: 0 <= k < |s| ==> b <= s[k]
    ensures forall k :: 0 <= k < |InsertAsc(x, s)| ==> b <= InsertAsc(x, s)[k]
  {
    if s != [] && x > s[0] {
      InsertAscBound(x, s[1..], b);
      var r := InsertAsc(x, s);
      assert r == [s[0]] + InsertAsc(x, s[1..]);
      forall k | 0 <= k < |r| ensures b <= r[k] {
        if k > 0 {
          assert r[k] == InsertAsc(x, s[1..])[k - 1];
        }
      }
    }
  }

  lemma SortedCons(h: int, t: seq<int>)
    requires SortedAsc(t) && forall k :: 0 <= k < |t| ==> h <= t[k]
    ensures SortedAsc([h] + t)
  {
    forall i, j | 0 <= i < j < |[h] + t| ensures ([h] + t)[i] <= ([h] + t)[j] {
      assert ([h] + t)[j] == t[j - 1];
      if i > 0 {
        assert ([h] + t)[i] == t[i - 1];
      }
    }
  }

  /** The sorted copy is ascending and holds the same loads. */
  lemma {:induction false} SortAscSpec(s: seq<int>)
    ensures SortedAsc(SortAsc(s))
    ensures multiset(SortAsc(s)) == multiset(s)
  {
    if s != [] {
      SortAscSpec(s[1..]);
      InsertAscSpec(s[0], SortAsc(s[1..]));
      assert s == [s[0]] + s[1..];
    }
  }

  /** `sortedValues[OBFUSCATION_THREADS / 2]`. */
  function Median(values: seq<int>): int
    requires |values| > 0
  {
    SortAsc(values)[|values| / 2]
  }

  /** The indices the pick is made among: those under the threshold, or, if
      there are none, those at or below the median. */
  function Candidates(values: seq<int>): seq<nat>
    requires |values| > 0
  {
    var under := ThresholdUpTo(values, Sum(values), |values|);
    if under != [] then under else AtMostUpTo(values, Median(values), |values|)
  }

  /** Some load is at most the median: the smallest one is. */
  lemma MedianBoundsMinimum(values: seq<int>)
    requires |values| > 0
    ensures exists i :: 0 <= i < |values| && values[i] <= Median(values)
  {
    SortAscSpec(values);
    var r := SortAsc(values);
    assert r[0] <= r[|values| / 2];
    assert r[0] in multiset(values);
    var i :| 0 <= i < |values| && values[i] == r[0];
  }

  /** The pick is always possible and always a valid worker index. */
  lemma CandidatesNonEmpty(values: seq<int>)
    requires |values| > 0
    ensures |Candidates(values)| > 0
    ensures forall j :: j in Candidates(values) ==> j < |values|
  {
    if ThresholdUpTo(values, Sum(values), |values|) == [] {
      MedianBoundsMinimum(values);
      var i :| 0 <= i < |values| && values[i] <= Median(values);
      assert i in AtMostUpTo(values, Median(values), |values|);
    }
  }

  /** The chosen worker's load is under the threshold whenever some
      worker's is; otherwise it is at most the median. */
  lemma CandidateLoadBound(values: seq<int>, i: nat)
    requires |values| > 0 && i in Candidates(values)
    ensures i < |values|
    ensures (exists j :: 0 <= j < |values| && Qualifies(values, j)) ==> Qualifies(values, i)
    ensures !(exists j :: 0 <= j < |values| && Qualifies(values, j)) ==> values[i] <= Median(values)
  {
    CandidatesNonEmpty(values);
    var under := ThresholdUpTo(values, Sum(values), |values|);
    if exists j :: 0 <= j < |values| && Qualifies(values, j) {
      var j :| 0 <= j < |values| && Qualifies(values, j);
      assert j in under;
    }
  }

  lemma {:induction false} SumConstant(values: seq<int>, v: int)
    requires forall i :: 0 <= i < |values| ==> values[i] == v
    ensures Sum(values) == |values| * v
  {
    if values != [] {
      SumConstant(values[..|values| - 1], v);
    }
  }

  /** Equal loads that are not positive are all under the threshold. */
  lemma AllEqualNonPositive(values: seq<int>)
    requires |values| > 0 && values[0] <= 0
    requires forall i :: 0 <= i < |values| ==> values[i] == values[0]
    ensures forall i :: 0 <= i < |values| ==> i in Candidates(values)
  {
    var n := |values|;
    var p := n * values[0];
    SumConstant(values, values[0]);
    assert p <= 0;
    forall i | 0 <= i < n
      ensures i in ThresholdUpTo(values, Sum(values), n)
    {
      assert n * values[i] == p;
    }
    assert 0 in ThresholdUpTo(values, Sum(values), n);
  }

  lemma {:induction false} NoneUnder(values: seq<int>, sum: int, k: nat)
    requires k <= |values|
    requires forall j :: 0 <= j < k ==> 5 * (|values| * values[j]) > 4 * sum
    ensures ThresholdUpTo(values, sum, k) == []
  {
    if k > 0 {
      NoneUnder(values, sum, k - 1);
    }
  }

  /** Equal positive loads are all above the threshold. */
  lemma EqualPositiveNoneUnder(values: seq<int>)
    requires |values| > 0 && values[0] > 0
    requires forall i :: 0 <= i < |values| ==> values[i] == values[0]
    ensures ThresholdUpTo(values, Sum(values), |values|) == []
  {
    var n := |values|;
    var p := n * values[0];
    SumConstant(values, values[0]);
    assert p > 0;
    forall j | 0 <= j < n
      ensures 5 * (n * values[j]) > 4 * Sum(values)
    {
      assert n * values[j] == p;
    }
    NoneUnder(values, Sum(values), n);
  }

  /** The median of equal loads is that load. */
  lemma EqualMedian(values: seq<int>)
    requires |values| > 0
    requires forall i :: 0 <= i < |values| ==> values[i] == values[0]
    ensures Median(values) == values[0]
  {
    SortAscSpec(values);
    assert Median(values) in multiset(values);
  }

  /** Equal positive loads are all at the median. */
  lemma AllEqualPositive(values: seq<int>)
    requires |values| > 0 && values[0] > 0
    requires forall i :: 0 <= i < |values| ==> values[i] == values[0]
    ensures forall i :: 0 <= i < |values| ==> i in Candidates(values)
  {
    EqualPositiveNoneUnder(values);
    EqualMedian(values);
  }

  /** When all loads are equal, including all zero, every worker is a
      candidate: through the threshold when the load is not positive, and
      through the median otherwise. */
  lemma AllEqualAllCandidates(values: seq<int>)
    requires |values| > 0
    requires forall i :: 0 <= i < |values| ==> values[i] == values[0]
    ensures forall i :: 0 <= i < |values| ==> i in Candidates(values)
  {
    if values[0] <= 0 {
      AllEqualNonPositive(values);
    } else {
      AllEqualPositive(values);
    }
  }

  /** The threshold scan of `getBalancedRandomIndex`. */
  method ThresholdIndices(values: seq<int>, sum: int) returns (candidateIndices: seq<nat>)
    ensures candidateIndices == ThresholdUpTo(values, sum, |values|)
  {
    candidateIndices := [];
    var i := 0;
    while i < |values|
      invariant 0 <= i <= |values|
      invariant candidateIndices == ThresholdUpTo(values, sum, i)
    {
      if 5 * (|values| * values[i]) <= 4 * sum {
        candidateIndices := candidateIndices + [i];
      }
      i := i + 1;
    }
  }

  /** The median scan of `getBalancedRandomIndex`. */
  method AtMostIndices(values: seq<int>, median: int) returns (candidateIndices: seq<nat>)
    ensures candidateIndices == AtMostUpTo(values, median, |values|)
  {
    candidateIndices := [];
    var i := 0;
    while i < |values|
      invariant 0 <= i <= |values|
      invariant candidateIndices == AtMostUpTo(values, median, i)
    {
      if values[i] <= median {
        candidateIndices := candidateIndices + [i];
      }
      i := i + 1;
    }
  }

  /** The candidate selection of `getBalancedRandomIndex` over the loads
      read and their sum; the uniform random pick is an unspecified choice
      among the candidates. */
  method ChooseWorker(values: seq<int>, sum: int) returns (idx: nat)
    requires |values| == ObfuscationThreads && sum == Sum(values)
    ensures idx < |values| && idx in Candidates(values)
  {
    var candidateIndices := ThresholdIndices(values, sum);
    if candidateIndices == [] {
      var sortedValues := SortAsc(values);
      var median := sortedValues[ObfuscationThreads / 2];
      candidateIndices := AtMostIndices(values, median);
    }
    assert candidateIndices == Candidates(values);
    CandidatesNonEmpty(values);
    var k :| 0 <= k < |candidateIndices|;
    idx := candidateIndices[k];
    assert idx in Candidates(values);
  }

  /** The summing loop of `getBalancedRandomIndex`: the loads read in
      order and their total. */
  method ReadLoads(a: array<int>) returns (values: seq<int>, sum: int)
    ensures values == a[..] && sum == Sum(values)
  {
    values := [];
    sum := 0;
    var i := 0;
    while i < a.Length
      invariant 0 <= i <= a.Length
      invariant values == a[..i] && sum == Sum(values)
    {
      SumSnoc(values, a[i]);
      values := values + [a[i]];
      sum := sum + a[i];
      assert a[..i + 1] == a[..i] + [a[i]];
      i := i + 1;
    }
    assert a[..i] == a[..];
  }

  lemma SumSnoc(values: seq<int>, x: int)
    ensures Sum(values + [x]) == Sum(values) + x
  {
    assert (values + [x])[..|values|] == values;
  }

  /** The number of queued tasks over all workers. */
  function TotalQueued(qs: seq<seq<Task>>): nat
  {
    if qs == [] then 0 else TotalQueued(qs[..|qs| - 1]) + |qs[|qs| - 1]|
  }

  lemma {:induction false} TotalQueuedUpdate(qs: seq<seq<Task>>, i: nat, q: seq<Task>)
    requires i < |qs|
    ensures TotalQueued(qs[i := q]) == TotalQueued(qs) - |qs[i]| + |q|
  {
    var last := |qs| - 1;
    if i == last {
      assert qs[i := q][..last] == qs[..last];
    } else {
      TotalQueuedUpdate(qs[..last], i, q);
      assert qs[i := q][..last] == qs[..last][i := q];
    }
  }

  /** No task queued anywhere means every queue is empty. */
  lemma {:induction false} TotalQueuedZero(qs: seq<seq<Task>>)
    requires TotalQueued(qs) == 0
    ensures forall i :: 0 <= i < |qs| ==> qs[i] == []
  {
    if qs != [] {
      TotalQueuedZero(qs[..|qs| - 1]);
      assert forall i :: 0 <= i < |qs| - 1 ==> qs[i] == qs[..|qs| - 1][i];
    }
  }

  lemma {:induction false} TotalQueuedEmpty(qs: seq<seq<Task>>)
    requires forall i :: 0 <= i < |qs| ==> qs[i] == []
    ensures TotalQueued(qs) == 0
  {
    if qs != [] {
      TotalQueuedEmpty(qs[..|qs| - 1]);
    }
  }

  /** What one iteration of a worker's loop does. */
  datatype WorkerStep = Waiting | Exited | Ran(task: Task, called: Option<FunctionId>)

  class Runtime {
    /** `queues[]`, one FIFO per worker. */
    const queues: array<seq<Task>>
    /** `vec[]`, one load counter per worker. */
    const loads: array<int>
    /** `g_inFlightTasks`. */
    var inFlight: int
    var stopThreads: bool

    /** Every queued task is in flight and every in-flight task is queued,
        and the load counters are 32-bit. */
    ghost predicate Valid()
      reads this, queues, loads
    {
      && queues.Length == ObfuscationThreads && loads.Length == ObfuscationThreads
      && (forall i :: 0 <= i < ObfuscationThreads ==> IsInt32(loads[i]))
      && inFlight == TotalQueued(queues[..])
    }

    /** Program start followed by `initialize`: empty queues, nothing in
        flight, and every load counter reset to zero. */
    constructor()
      ensures Valid()
      ensures fresh(queues) && fresh(loads)
      ensures forall i :: 0 <= i < ObfuscationThreads ==> loads[i] == 0 && queues[i] == []
      ensures inFlight == 0 && !stopThreads
    {
      queues := new seq<Task>[ObfuscationThreads](_ => []);
      loads := new int[ObfuscationThreads];
      inFlight := 0;
      stopThreads := false;
      new;
      var i := 0;
      while i < ObfuscationThreads
        invariant 0 <= i <= ObfuscationThreads
        invariant forall j :: 0 <= j < i ==> loads[j] == 0
        invariant forall j :: 0 <= j < ObfuscationThreads ==> queues[j] == []
        invariant inFlight == 0 && !stopThreads
      {
        loads[i] := 0;
        i := i + 1;
      }
      TotalQueuedEmpty(queues[..]);
    }

    /** `getBalancedRandomIndex`: some candidate of the current loads. */
    method GetBalancedRandomIndex() returns (idx: nat)
      requires Valid()
      ensures idx < ObfuscationThreads
      ensures idx in Candidates(loads[..])
    {
      var values, sum := ReadLoads(loads);
      idx := ChooseWorker(values, sum);
    }

    /** `pushToThread(funcId, line_no, param_index)`: the task goes to the
        back of exactly one queue, that worker's load grows by `line_no`
        with 32-bit wrap-around, and one more task is in flight; no other
        queue or counter changes. */
    method PushToThread(funcId: int, lineNo: int, paramIndex: int) returns (threadIdx: nat)
      requires Valid()
      modifies this, queues, loads
      ensures Valid()
      ensures threadIdx < ObfuscationThreads && threadIdx in Candidates(old(loads[..]))
      ensures queues[..] == old(queues[..])[threadIdx := old(queues[threadIdx]) + [Task(funcId, paramIndex)]]
      ensures loads[..] == old(loads[..])[threadIdx := Wrap32(old(loads[threadIdx]) + lineNo)]
      ensures inFlight == old(inFlight) + 1 && stopThreads == old(stopThreads)
    {
      threadIdx := GetBalancedRandomIndex();
      TotalQueuedUpdate(queues[..], threadIdx, queues[threadIdx] + [Task(funcId, paramIndex)]);
      queues[threadIdx] := queues[threadIdx] + [Task(funcId, paramIndex)];
      loads[threadIdx] := Wrap32(loads[threadIdx] + lineNo);
      inFlight := inFlight + 1;
    }

    /** `taskFinished`: one task fewer in flight; the waiters of `exit` are
        notified when none remains. */
    method TaskFinished() returns (notified: bool)
      modifies this
      ensures inFlight == old(inFlight) - 1 && stopThreads == old(stopThreads)
      ensures notified <==> inFlight == 0
    {
      inFlight := inFlight - 1;
      var remaining := inFlight;
      notified := remaining == 0;
    }

    /** `execute(thread_idx)`: nothing on an empty queue; otherwise the
        front task is removed, dispatched on its function id with its
        parameter index, and finished. */
    method Execute(threadIdx: nat) returns (task: Option<Task>, called: Option<FunctionId>)
      requires Valid() && threadIdx < ObfuscationThreads
      modifies this, queues
      ensures Valid()
      ensures stopThreads == old(stopThreads) && loads[..] == old(loads[..])
      ensures old(queues[threadIdx]) == [] ==>
        task.None? && called.None? && queues[..] == old(queues[..]) && inFlight == old(inFlight)
      ensures old(queues[threadIdx]) != [] ==>
        && task == Some(old(queues[threadIdx])[0])
        && called == FunctionOf(task.value.funcId)
        && queues[..] == old(queues[..])[threadIdx := old(queues[threadIdx])[1..]]
        && inFlight == old(inFlight) - 1
    {
      if queues[threadIdx] == [] {
        return None, None;
      }
      var funcInfo := queues[threadIdx][0];
      TotalQueuedUpdate(queues[..], threadIdx, queues[threadIdx][1..]);
      queues[threadIdx] := queues[threadIdx][1..];
      task := Some(funcInfo);
      called := FunctionOf(funcInfo.funcId);
      var _ := TaskFinished();
    }

    /** One iteration of `threadFunction(thread_idx)` after its wait: the
        worker waits while its queue is empty and no stop is requested,
        leaves the loop only when a stop is requested and its own queue is
        empty, and otherwise executes. */
    method WorkerIteration(threadIdx: nat) returns (step: WorkerStep)
      requires Valid() && threadIdx < ObfuscationThreads
      modifies this, queues
      ensures Valid()
      ensures step == Exited <==> old(stopThreads) && old(queues[threadIdx]) == []
      ensures step == Waiting <==> !old(stopThreads) && old(queues[threadIdx]) == []
      ensures step.Waiting? || step.Exited? ==> queues[..] == old(queues[..]) && inFlight == old(inFlight)
      ensures step.Ran? ==>
        && step.task == old(queues[threadIdx])[0]
        && queues[..] == old(queues[..])[threadIdx := old(queues[threadIdx])[1..]]
        && inFlight == old(inFlight) - 1
      ensures stopThreads == old(stopThreads) && loads[..] == old(loads[..])
    {
      if queues[threadIdx] == [] && !stopThreads {
        return Waiting;
      }
      if stopThreads && queues[threadIdx] == [] {
        return Exited;
      }
      var task, called := Execute(threadIdx);
      step := Ran(task.value, called);
    }

    /** `exit`: the stop flag is set only once nothing is in flight, and then
        every queue is empty, so every worker leaves its loop on its next
        iteration; while tasks remain the call waits and changes nothing. */
    method Exit() returns (stopped: bool)
      requires Valid()
      modifies this
      ensures Valid()
      ensures stopped <==> old(inFlight) == 0
      ensures stopped ==> stopThreads && forall i :: 0 <= i < ObfuscationThreads ==> queues[i] == []
      ensures !stopped ==> stopThreads == old(stopThreads)
      ensures inFlight == old(inFlight)
    {
      if inFlight != 0 {
        return false;
      }
      TotalQueuedZero(queues[..]);
      stopThreads := true;
      stopped := true;
    }
  }
}
