/** The retry loop that every wrapper function is made of (the macros TRY and DOIT of src/bindings.cpp). */
module Bindings {
  import opened Types
  import opened LockedDatasets

  const CPLE_FILE_IO: int := 3
  const CPLE_OPEN_FAILED: int := 4
  const ATTEMPTS_EXCEEDED: int := 100

  predicate KnownErrors(results: seq<Result>) {
    forall j :: 0 <= j < |results| && results[j].Failed? ==> results[j].errno < ATTEMPTS_EXCEEDED
  }

  /** What the environment does in one round: the clock, the datasets that `cache->get` returns, and
      how the operation ends, or would end, on each of them. */
  datatype Round = Round(now: Word, datasets: seq<LockedDataset>, results: seq<Result>)

  ghost predicate Proper(r: Round) {
    && |r.datasets| == |r.results|
    && KnownErrors(r.results)
    && forall j, k :: 0 <= j < k < |r.datasets| ==> r.datasets[j] != r.datasets[k]
  }

  /** The results of the first `k` rounds, in order. */
  function Flat(rounds: seq<Round>, k: nat): seq<Result>
    requires k <= |rounds|
  {
    if k == 0 then [] else Flat(rounds, k - 1) + rounds[k - 1].results
  }

  ghost function Shared(rounds: seq<Round>): set<LockedDataset> {
    set k, j | 0 <= k < |rounds| && 0 <= j < |rounds[k].datasets| :: rounds[k].datasets[j]
  }

  // ----- what a call answers -----

  /** The position of the first success. */
  predicate FirstDone(results: seq<Result>, p: nat) {
    p < |results| && results[p].Done? && forall j :: 0 <= j < p ==> !results[j].Done?
  }

  predicate NoneDone(results: seq<Result>) {
    forall j :: 0 <= j < |results| ==> !results[j].Done?
  }

  /** The time budget, in unsigned arithmetic; zero means that there is none. */
  predicate OutOfTime(nanos: Word, start: Word, now: Word) {
    nanos > 0 && (now - start) % WORD_SIZE > nanos
  }

  /** The first `k` rounds all ran and all failed. */
  ghost predicate Fruitless(nanos: Word, start: Word, rounds: seq<Round>, k: nat) {
    k <= |rounds| && forall j :: 0 <= j < k ==>
      !OutOfTime(nanos, start, rounds[j].now) && rounds[j].results != [] && NoneDone(rounds[j].results)
  }

  predicate MayTry(attempts: int, k: nat) {
    k < attempts || attempts <= 0
  }

  /** A success in round `k`, counting from zero, is reported only if another round would have been allowed. */
  function Reported(attempts: int, k: nat, touched: int): int {
    if k + 1 < attempts || attempts == 0 then touched else -ATTEMPTS_EXCEEDED
  }

  /** What the round after `k` fruitless ones answers, if it is the last. */
  ghost predicate EndsIn(attempts: int, nanos: Word, start: Word, rounds: seq<Round>, k: nat, answer: int)
    requires k < |rounds|
  {
    var r := rounds[k];
    if OutOfTime(nanos, start, r.now) then answer == -CPLE_FILE_IO
    else if r.results == [] then answer == -CPLE_OPEN_FAILED
    else exists p :: FirstDone(r.results, p) && answer == Reported(attempts, k, |Flat(rounds, k)| + p + 1)
  }

  /** The complete specification: the answer to a call, or `None` while it is still trying at the end of `rounds`. */
  ghost predicate Answers(known: bool, attempts: int, nanos: Word, start: Word, rounds: seq<Round>, answer: Option<int>) {
    if !known then answer == Some(-CPLE_OPEN_FAILED)
    else
      match answer
      case None => Fruitless(nanos, start, rounds, |rounds|) && MayTry(attempts, |rounds|)
      case Some(v) =>
        || (exists k :: 0 <= k < |rounds| && MayTry(attempts, k) && Fruitless(nanos, start, rounds, k) && EndsIn(attempts, nanos, start, rounds, k, v))
        || (0 < attempts <= |rounds| && Fruitless(nanos, start, rounds, attempts)
            && var last := rounds[attempts - 1].results; v == if last[|last| - 1].Busy? then -ATTEMPTS_EXCEEDED else Code(last[|last| - 1]))
  }

  // ----- the loops -----

  /** `cache->get` pins what it returns. */
  method PinAll(datasets: seq<LockedDataset>)
    requires forall j, k :: 0 <= j < k < |datasets| ==> datasets[j] != datasets[k]
    modifies datasets`uses
    ensures forall j :: 0 <= j < |datasets| ==> datasets[j].uses == old(datasets[j].uses) + 1
  {
    for i := 0 to |datasets|
      invariant forall j :: 0 <= j < |datasets| ==> datasets[j].uses == old(datasets[j].uses) + (if j < i then 1 else 0)
    {
      datasets[i].Inc();
    }
  }

  /** TRY: the operation on one dataset after the other until it succeeds; every reference is given back. */
  method TryAll(datasets: seq<LockedDataset>, results: seq<Result>, touched: nat, code: int)
    returns (done: bool, touched': nat, code': int)
    requires |datasets| == |results| && KnownErrors(results)
    requires forall j, k :: 0 <= j < k < |datasets| ==> datasets[j] != datasets[k]
    requires forall j :: 0 <= j < |datasets| ==> datasets[j].uses > 0
    modifies datasets`uses
    ensures forall j :: 0 <= j < |datasets| ==> datasets[j].uses == old(datasets[j].uses) - 1
    ensures done <==> !NoneDone(results)
    ensures done ==> code' == ATTEMPT_SUCCESSFUL && touched' > touched && FirstDone(results, touched' - touched - 1)
    ensures !done ==> touched' == touched + |results| && code' == if results == [] then code else Code(results[|results| - 1])
  {
    done, touched', code' := false, touched, code;
    for i := 0 to |datasets|
      invariant forall j :: 0 <= j < |datasets| ==> datasets[j].uses == old(datasets[j].uses) - (if j < i then 1 else 0)
      invariant !done ==> touched' == touched + i && code' == (if i == 0 then code else Code(results[i - 1]))
      invariant !done ==> forall j :: 0 <= j < i ==> !results[j].Done?
      invariant done ==> code' == ATTEMPT_SUCCESSFUL && touched' > touched && FirstDone(results, touched' - touched - 1)
    {
      if !done {
        touched' := touched' + 1;
        code' := Code(results[i]);
        if code' == ATTEMPT_SUCCESSFUL && code' != DATASET_LOCKED {
          done := true;
        }
      }
      datasets[i].Dec();
    }
  }

  /** The loop of DOIT before round `i`, nothing having succeeded. */
  ghost predicate Trying(attempts: int, nanos: Word, start: Word, rounds: seq<Round>, i: nat, touched: nat, code: int) {
    && Fruitless(nanos, start, rounds, i)
    && touched == |Flat(rounds, i)|
    && (attempts <= 0 || i <= attempts)
    && code == if i == 0 then 0 else Code(rounds[i - 1].results[|rounds[i - 1].results| - 1])
  }

  /** The loop of DOIT after a round, the last of `i`, that succeeded. */
  ghost predicate Won(attempts: int, nanos: Word, start: Word, rounds: seq<Round>, i: nat, touched: nat, code: int) {
    && 0 < i <= |rounds| && MayTry(attempts, i - 1)
    && Fruitless(nanos, start, rounds, i - 1)
    && !OutOfTime(nanos, start, rounds[i - 1].now) && rounds[i - 1].results != []
    && touched > |Flat(rounds, i - 1)| && FirstDone(rounds[i - 1].results, touched - |Flat(rounds, i - 1)| - 1)
    && code == ATTEMPT_SUCCESSFUL
  }

  function FinalAnswer(attempts: int, i: nat, touched: nat, code: int): int {
    if code == ATTEMPT_SUCCESSFUL && (i < attempts || (i > 0 && attempts == 0)) then touched
    else if code == ATTEMPT_SUCCESSFUL || code == DATASET_LOCKED then -ATTEMPTS_EXCEEDED
    else code
  }

  lemma WonAnswers(attempts: int, nanos: Word, start: Word, rounds: seq<Round>, i: nat, touched: nat, code: int)
    requires Won(attempts, nanos, start, rounds, i, touched, code)
    ensures Answers(true, attempts, nanos, start, rounds, Some(FinalAnswer(attempts, i, touched, code)))
  {
  }

  lemma ExhaustedAnswers(attempts: int, nanos: Word, start: Word, rounds: seq<Round>, i: nat, touched: nat, code: int)
    requires Trying(attempts, nanos, start, rounds, i, touched, code) && !MayTry(attempts, i)
    requires forall k :: 0 <= k < |rounds| ==> KnownErrors(rounds[k].results)
    ensures Answers(true, attempts, nanos, start, rounds, Some(FinalAnswer(attempts, i, touched, code)))
  {
  }

  lemma StoppedAnswers(attempts: int, nanos: Word, start: Word, rounds: seq<Round>, i: nat, touched: nat, code: int, answer: int)
    requires Trying(attempts, nanos, start, rounds, i, touched, code) && MayTry(attempts, i) && i < |rounds|
    requires EndsIn(attempts, nanos, start, rounds, i, answer)
    ensures Answers(true, attempts, nanos, start, rounds, Some(answer))
  {
  }

  /** One round: pin, try, give back. */
  method PlayRound(round: Round, touched: nat, code: int, ghost shared: set<LockedDataset>)
    returns (done: bool, touched': nat, code': int)
    requires Proper(round) && forall j :: 0 <= j < |round.datasets| ==> round.datasets[j] in shared
    modifies shared`uses
    ensures forall ld :: ld in shared ==> ld.uses == old(ld.uses)
    ensures done <==> !NoneDone(round.results)
    ensures done ==> code' == ATTEMPT_SUCCESSFUL && touched' > touched && FirstDone(round.results, touched' - touched - 1)
    ensures !done ==>
      touched' == touched + |round.results| && code' == if round.results == [] then code else Code(round.results[|round.results| - 1])
  {
    PinAll(round.datasets);
    done, touched', code' := TryAll(round.datasets, round.results, touched, code);
  }

  predicate NoLongerThan(rounds: seq<Round>, capacity: nat) {
    forall k :: 0 <= k < |rounds| ==> |rounds[k].results| <= capacity
  }

  lemma WorkIsBounded(attempts: int, rounds: seq<Round>, used: nat, tried: nat)
    requires used <= |rounds| && tried <= |Flat(rounds, used)| && (attempts > 0 ==> used <= attempts)
    ensures forall capacity: nat :: attempts > 0 && NoLongerThan(rounds, capacity) ==> tried <= attempts * capacity
  {
    forall capacity: nat | attempts > 0 && NoLongerThan(rounds, capacity) ensures tried <= attempts * capacity {
      FlatBounded(rounds, used, capacity);
      MoreTimes(used, attempts, capacity);
    }
  }

  lemma MoreTimes(a: nat, b: nat, n: nat)
    requires a <= b
    ensures a * n <= b * n
  {
    assert (b - a) * n >= 0;
    assert b * n == a * n + (b - a) * n;
  }

  lemma {:induction false} FlatBounded(rounds: seq<Round>, k: nat, capacity: nat)
    requires k <= |rounds| && NoLongerThan(rounds, capacity)
    ensures |Flat(rounds, k)| <= k * capacity
  {
    if k > 0 {
      FlatBounded(rounds, k - 1, capacity);
      assert k * capacity == (k - 1) * capacity + capacity;
    }
  }

  /** DOIT, run until it answers or until the behaviour `rounds` of the environment ends; `tried`
      counts the operations, of which there are at most so many as attempts times the datasets of a round. */
  method DoIt(known: bool, attempts: int, nanos: Word, start: Word, rounds: seq<Round>)
    returns (answer: Option<int>, ghost tried: nat)
    requires forall k :: 0 <= k < |rounds| ==> Proper(rounds[k])
    modifies Shared(rounds)`uses
    ensures Answers(known, attempts, nanos, start, rounds, answer)
    ensures forall ld :: ld in Shared(rounds) ==> ld.uses == old(ld.uses)
    ensures forall capacity: nat :: attempts > 0 && NoLongerThan(rounds, capacity) ==> tried <= attempts * capacity
    ensures answer.Some? && answer.value > 0 ==> answer.value == tried
  {
    tried := 0;
    if !known {
      return Some(-CPLE_OPEN_FAILED), tried;
    }
    var done, code, touched: nat := false, 0, 0;
    var i: nat := 0;
    while (i < attempts || attempts <= 0) && !done
      invariant i <= |rounds|
      invariant forall ld :: ld in Shared(rounds) ==> ld.uses == old(ld.uses)
      invariant if done then Won(attempts, nanos, start, rounds, i, touched, code) else Trying(attempts, nanos, start, rounds, i, touched, code)
      invariant touched <= |Flat(rounds, i)|
      decreases |rounds| - i, !done
    {
      tried := touched;
      WorkIsBounded(attempts, rounds, i, tried);
      if i == |rounds| {
        return None, tried;
      }
      var round := rounds[i];
      if nanos > 0 && (round.now - start) % WORD_SIZE > nanos {
        StoppedAnswers(attempts, nanos, start, rounds, i, touched, code, -CPLE_FILE_IO);
        return Some(-CPLE_FILE_IO), tried;
      }
      if |round.datasets| == 0 {
        StoppedAnswers(attempts, nanos, start, rounds, i, touched, code, -CPLE_OPEN_FAILED);
        return Some(-CPLE_OPEN_FAILED), tried;
      }
      done, touched, code := PlayRound(round, touched, code, Shared(rounds));
      i := i + 1;
    }
    tried := touched;
    WorkIsBounded(attempts, rounds, i, tried);
    if done {
      WonAnswers(attempts, nanos, start, rounds, i, touched, code);
    } else {
      ExhaustedAnswers(attempts, nanos, start, rounds, i, touched, code);
    }
    if code == ATTEMPT_SUCCESSFUL && (i < attempts || (i > 0 && attempts == 0)) {
      return Some(touched), tried;
    } else if code == ATTEMPT_SUCCESSFUL || code == DATASET_LOCKED {
      return Some(-ATTEMPTS_EXCEEDED), tried;
    } else {
      return Some(code), tried;
    }
  }

  // ----- what follows for a caller -----

  /** The specification leaves no choice. */
  lemma AnswerUnique(known: bool, attempts: int, nanos: Word, start: Word, rounds: seq<Round>, a: Option<int>, b: Option<int>)
    requires Answers(known, attempts, nanos, start, rounds, a) && Answers(known, attempts, nanos, start, rounds, b)
    ensures a == b
  {
  }

  /** No round decided: the answer is that of the last operation. */
  ghost predicate RanOut(attempts: int, rounds: seq<Round>, k: nat, v: int) {
    && 0 < k == attempts <= |rounds| && rounds[k - 1].results != []
    && var last := rounds[k - 1].results; v == if last[|last| - 1].Busy? then -ATTEMPTS_EXCEEDED else Code(last[|last| - 1])
  }

  lemma RanOutIsNegative(attempts: int, nanos: Word, start: Word, rounds: seq<Round>, k: nat, v: int)
    requires forall j :: 0 <= j < |rounds| ==> KnownErrors(rounds[j].results)
    ensures RanOut(attempts, rounds, k, v) && Fruitless(nanos, start, rounds, k) ==> v < 0
  {
  }

  /** The round in which a call answers, and whether that round itself decides. */
  lemma LastRound(attempts: int, nanos: Word, start: Word, rounds: seq<Round>, v: int) returns (k: nat, decided: bool)
    requires Answers(true, attempts, nanos, start, rounds, Some(v))
    ensures Fruitless(nanos, start, rounds, k)
    ensures decided ==> k < |rounds| && MayTry(attempts, k) && EndsIn(attempts, nanos, start, rounds, k, v)
    ensures !decided ==> RanOut(attempts, rounds, k, v)
  {
    if j :| 0 <= j < |rounds| && MayTry(attempts, j) && Fruitless(nanos, start, rounds, j) && EndsIn(attempts, nanos, start, rounds, j, v) {
      k, decided := j, true;
    } else {
      k, decided := attempts, false;
    }
  }

  lemma {:induction false} FlatMonotone(rounds: seq<Round>, j: nat, k: nat)
    requires j <= k <= |rounds|
    ensures |Flat(rounds, j)| <= |Flat(rounds, k)| && Flat(rounds, k)[..|Flat(rounds, j)|] == Flat(rounds, j)
    decreases k
  {
    if j < k {
      FlatMonotone(rounds, j, k - 1);
    }
  }

  lemma {:induction false} FruitlessFlat(nanos: Word, start: Word, rounds: seq<Round>, k: nat)
    requires Fruitless(nanos, start, rounds, k)
    ensures NoneDone(Flat(rounds, k))
  {
    if k > 0 {
      FruitlessFlat(nanos, start, rounds, k - 1);
    }
  }

  /** The `v`-th operation of all is the first that succeeded, and it belongs to round `k`, which is not the last one allowed. */
  ghost predicate SucceededIn(attempts: int, rounds: seq<Round>, k: nat, v: int)
    requires k < |rounds|
  {
    && (k + 1 < attempts || attempts == 0)
    && |Flat(rounds, k)| < v <= |Flat(rounds, k + 1)|
    && FirstDone(Flat(rounds, k + 1), v - 1)
  }

  /** A positive answer is the number of operations tried, counted over all rounds; the last of them,
      and no other, succeeded, in a round after which another would have been allowed. */
  lemma PositiveAnswer(known: bool, attempts: int, nanos: Word, start: Word, rounds: seq<Round>, v: int)
    requires Answers(known, attempts, nanos, start, rounds, Some(v)) && v > 0
    requires forall k :: 0 <= k < |rounds| ==> KnownErrors(rounds[k].results)
    ensures exists k :: 0 <= k < |rounds| && SucceededIn(attempts, rounds, k, v)
  {
    var k, decided := LastRound(attempts, nanos, start, rounds, v);
    RanOutIsNegative(attempts, nanos, start, rounds, k, v);
    if decided {
      var p :| FirstDone(rounds[k].results, p) && v == Reported(attempts, k, |Flat(rounds, k)| + p + 1);
      FruitlessFlat(nanos, start, rounds, k);
      var flat := Flat(rounds, k + 1);
      assert flat == Flat(rounds, k) + rounds[k].results;
      assert FirstDone(flat, v - 1);
      assert SucceededIn(attempts, rounds, k, v);
    }
  }

  /** A negative answer is one of three codes of the library, or the error of the very last operation. */
  lemma NegativeAnswer(known: bool, attempts: int, nanos: Word, start: Word, rounds: seq<Round>, v: int)
    requires Answers(known, attempts, nanos, start, rounds, Some(v)) && v <= 0
    requires forall k :: 0 <= k < |rounds| ==> KnownErrors(rounds[k].results)
    ensures v in {-CPLE_FILE_IO, -CPLE_OPEN_FAILED, -ATTEMPTS_EXCEEDED}
      || (0 < attempts <= |rounds| && -ATTEMPTS_EXCEEDED < v < 0
          && var flat := Flat(rounds, attempts); flat != [] && flat[|flat| - 1].Failed? && v == Code(flat[|flat| - 1]))
  {
  }

  /** The two sentinels of the operations never reach a caller, short of two thousand million operations. */
  lemma NeverSentinel(known: bool, attempts: int, nanos: Word, start: Word, rounds: seq<Round>, v: int)
    requires Answers(known, attempts, nanos, start, rounds, Some(v))
    requires forall k :: 0 <= k < |rounds| ==> KnownErrors(rounds[k].results)
    ensures v != DATASET_LOCKED
    ensures v == ATTEMPT_SUCCESSFUL ==> |Flat(rounds, |rounds|)| >= ATTEMPT_SUCCESSFUL
  {
    if v > 0 {
      PositiveAnswer(known, attempts, nanos, start, rounds, v);
      var k :| 0 <= k < |rounds| && SucceededIn(attempts, rounds, k, v);
      FlatMonotone(rounds, k + 1, |rounds|);
    } else {
      NegativeAnswer(known, attempts, nanos, start, rounds, v);
    }
  }

  /** A call that succeeds says so exactly if its round was not the last one allowed; with a negative
      number of attempts, or with one attempt, it never does. */
  lemma SuccessReportedIff(attempts: int, nanos: Word, start: Word, rounds: seq<Round>, k: nat, v: int)
    requires k < |rounds| && MayTry(attempts, k) && Fruitless(nanos, start, rounds, k)
    requires !OutOfTime(nanos, start, rounds[k].now) && !NoneDone(rounds[k].results)
    requires Answers(true, attempts, nanos, start, rounds, Some(v))
    ensures v > 0 <==> attempts == 0 || k + 1 < attempts
    ensures v <= 0 ==> v == -ATTEMPTS_EXCEEDED
  {
  }
}
