/** What a caller of the retry loop is told, case by case, in terms of the rounds alone. */
module RetryAnswers {
  import opened Types
  import opened LockedDatasets
  import opened Bindings

  /** The number of operations in some rounds. */
  function Count(rounds: seq<Round>): nat {
    if rounds == [] then 0 else |rounds[0].results| + Count(rounds[1..])
  }

  lemma {:induction false} CountAppends(rounds: seq<Round>, round: Round)
    ensures Count(rounds + [round]) == Count(rounds) + |round.results|
  {
    if rounds == [] {
      assert (rounds + [round])[1..] == [];
    } else {
      CountAppends(rounds[1..], round);
      assert (rounds + [round])[1..] == rounds[1..] + [round];
    }
  }

  lemma {:induction false} FlatCounts(rounds: seq<Round>, k: nat)
    requires k <= |rounds|
    ensures |Flat(rounds, k)| == Count(rounds[..k])
  {
    if k > 0 {
      FlatCounts(rounds, k - 1);
      CountAppends(rounds[..k - 1], rounds[k - 1]);
      assert rounds[..k] == rounds[..k - 1] + [rounds[k - 1]];
    }
  }

  lemma InBudget(nanos: Word, start: Word, now: Word)
    ensures nanos == 0 || 0 <= now - start <= nanos ==> !OutOfTime(nanos, start, now)
    ensures nanos > 0 && now - start > nanos ==> OutOfTime(nanos, start, now)
    ensures nanos > 0 && now < start && now + 0x1_0000_0000_0000_0000 - start > nanos ==> OutOfTime(nanos, start, now)
  {
    if now >= start {
      assert (now - start) % WORD_SIZE == now - start;
    } else {
      assert (now - start) % WORD_SIZE == now - start + WORD_SIZE;
    }
  }

  /** Rounds within the budget that had datasets, and in which every operation failed, decide nothing. */
  lemma FailedRounds(nanos: Word, start: Word, rounds: seq<Round>, k: nat)
    requires k <= |rounds|
    requires forall j :: 0 <= j < k ==> nanos == 0 || 0 <= rounds[j].now - start <= nanos
    requires forall j :: 0 <= j < k ==> |rounds[j].results| > 0
    requires forall j, i :: 0 <= j < k && 0 <= i < |rounds[j].results| ==> rounds[j].results[i] != Done
    ensures Fruitless(nanos, start, rounds, k)
  {
    forall j | 0 <= j < k ensures !OutOfTime(nanos, start, rounds[j].now) {
      InBudget(nanos, start, rounds[j].now);
    }
  }

  /** The first success, within the budget: the number of operations tried if another round would have
      been allowed, and -100 otherwise. */
  lemma SucceedsInTime(
    attempts: int, nanos: Word, start: Word, rounds: seq<Round>, k: nat, p: nat, answer: Option<int>)
    requires Answers(true, attempts, nanos, start, rounds, answer) && k < |rounds| && (k < attempts || attempts <= 0)
    requires forall j :: 0 <= j <= k ==> nanos == 0 || 0 <= rounds[j].now - start <= nanos
    requires forall j :: 0 <= j < k ==> |rounds[j].results| > 0
    requires forall j, i :: 0 <= j < k && 0 <= i < |rounds[j].results| ==> rounds[j].results[i] != Done
    requires p < |rounds[k].results| && rounds[k].results[p] == Done && forall i :: 0 <= i < p ==> rounds[k].results[i] != Done
    ensures answer == Some(if attempts == 0 || k + 1 < attempts then Count(rounds[..k]) + p + 1 else -100)
  {
    FailedRounds(nanos, start, rounds, k);
    InBudget(nanos, start, rounds[k].now);
    FlatCounts(rounds, k);
    assert FirstDone(rounds[k].results, p);
    Decides(attempts, nanos, start, rounds, k, Reported(attempts, k, |Flat(rounds, k)| + p + 1), answer);
  }

  /** The first round that is permitted and begins after the budget is spent, by a clock that may even have gone back: -3. */
  lemma OverrunsBudget(attempts: int, nanos: Word, start: Word, rounds: seq<Round>, k: nat, answer: Option<int>)
    requires Answers(true, attempts, nanos, start, rounds, answer) && k < |rounds| && (k < attempts || attempts <= 0)
    requires forall j :: 0 <= j < k ==> nanos == 0 || 0 <= rounds[j].now - start <= nanos
    requires forall j :: 0 <= j < k ==> |rounds[j].results| > 0
    requires forall j, i :: 0 <= j < k && 0 <= i < |rounds[j].results| ==> rounds[j].results[i] != Done
    requires nanos > 0
    requires rounds[k].now - start > nanos || (rounds[k].now < start && rounds[k].now + 0x1_0000_0000_0000_0000 - start > nanos)
    ensures answer == Some(-3)
  {
    FailedRounds(nanos, start, rounds, k);
    InBudget(nanos, start, rounds[k].now);
    Decides(attempts, nanos, start, rounds, k, -3, answer);
  }

  /** A permitted round within the budget for which the cache has no datasets: -4. */
  lemma FindsNothing(attempts: int, nanos: Word, start: Word, rounds: seq<Round>, k: nat, answer: Option<int>)
    requires Answers(true, attempts, nanos, start, rounds, answer) && k < |rounds| && (k < attempts || attempts <= 0)
    requires forall j :: 0 <= j <= k ==> nanos == 0 || 0 <= rounds[j].now - start <= nanos
    requires forall j :: 0 <= j < k ==> |rounds[j].results| > 0
    requires forall j, i :: 0 <= j < k && 0 <= i < |rounds[j].results| ==> rounds[j].results[i] != Done
    requires |rounds[k].results| == 0
    ensures answer == Some(-4)
  {
    FailedRounds(nanos, start, rounds, k);
    InBudget(nanos, start, rounds[k].now);
    Decides(attempts, nanos, start, rounds, k, -4, answer);
  }

  /** All the attempts made, in time and in vain: -100 if the last dataset was busy, and otherwise its error, -10 standing for none. */
  lemma RunsOutOfAttempts(attempts: nat, nanos: Word, start: Word, rounds: seq<Round>, answer: Option<int>)
    requires Answers(true, attempts, nanos, start, rounds, answer) && 0 < attempts <= |rounds|
    requires forall j :: 0 <= j < attempts ==> nanos == 0 || 0 <= rounds[j].now - start <= nanos
    requires forall j :: 0 <= j < attempts ==> |rounds[j].results| > 0
    requires forall j, i :: 0 <= j < attempts && 0 <= i < |rounds[j].results| ==> rounds[j].results[i] != Done
    ensures var results := rounds[attempts - 1].results;
      match results[|results| - 1]
      case Busy => answer == Some(-100)
      case Failed(errno) => answer == Some(if errno == 0 then -10 else 0 - errno)
      case Done => false
  {
    FailedRounds(nanos, start, rounds, attempts);
    NothingDecides(attempts, nanos, start, rounds, attempts);
  }

  /** No answer yet, as long as every round is in time and in vain and another one is permitted. */
  lemma KeepsTrying(attempts: int, nanos: Word, start: Word, rounds: seq<Round>, answer: Option<int>)
    requires Answers(true, attempts, nanos, start, rounds, answer) && (|rounds| < attempts || attempts <= 0)
    requires forall j :: 0 <= j < |rounds| ==> nanos == 0 || 0 <= rounds[j].now - start <= nanos
    requires forall j :: 0 <= j < |rounds| ==> |rounds[j].results| > 0
    requires forall j, i :: 0 <= j < |rounds| && 0 <= i < |rounds[j].results| ==> rounds[j].results[i] != Done
    ensures answer == None
  {
    FailedRounds(nanos, start, rounds, |rounds|);
    NothingDecides(attempts, nanos, start, rounds, |rounds|);
  }

  /** A token that is not in the table: -4. */
  lemma UnknownToken(attempts: int, nanos: Word, start: Word, rounds: seq<Round>, answer: Option<int>)
    requires Answers(false, attempts, nanos, start, rounds, answer)
    ensures answer == Some(-4)
  {
  }

  /** A round that decides is the only one to do so. */
  lemma Decides(attempts: int, nanos: Word, start: Word, rounds: seq<Round>, k: nat, v: int, answer: Option<int>)
    requires Answers(true, attempts, nanos, start, rounds, answer)
    requires k < |rounds| && MayTry(attempts, k) && Fruitless(nanos, start, rounds, k) && EndsIn(attempts, nanos, start, rounds, k, v)
    ensures answer == Some(v)
  {
    AnswerUnique(true, attempts, nanos, start, rounds, answer, Some(v));
  }

  lemma NothingDecides(attempts: int, nanos: Word, start: Word, rounds: seq<Round>, n: nat)
    requires Fruitless(nanos, start, rounds, n)
    ensures forall k, v :: 0 <= k < n ==> !EndsIn(attempts, nanos, start, rounds, k, v)
  {
  }
}
