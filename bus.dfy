/** The driver's view of the outside world: every foreign call it makes (a
    register read or write over SMBus, getting or switching the sensor clock)
    is an Event appended to a log, and what the call returned is given by an
    oracle indexed by the event's position in that log. */
module Bus {

  datatype Event =
    | Read(reg: int)                  // i2c_smbus_read_word_swapped
    | Write(reg: int, value: bv16)    // i2c_smbus_write_word_swapped
    | ClockGet                        // devm_clk_get
    | ClockEnable                     // clk_prepare_enable
    | ClockDisable                    // clk_disable_unprepare

  /** answer(i) is the return value of the foreign call logged at position i;
      a negative value is an error code. */
  type Oracle = nat -> int

  /** The calls at positions [start, start + n) all succeeded. */
  predicate Answered(answer: Oracle, start: nat, n: nat) {
    forall i :: start <= i < start + n ==> answer(i) >= 0
  }

  /** A successful run is a successful call followed by a successful run. */
  lemma AnsweredCons(answer: Oracle, start: nat, n: nat)
    requires 1 <= n
    ensures Answered(answer, start, n) <==> answer(start) >= 0 && Answered(answer, start + 1, n - 1)
  {
    if answer(start) >= 0 && Answered(answer, start + 1, n - 1) {
      forall i | start <= i < start + n
        ensures answer(i) >= 0
      {
        if i > start {
          assert start + 1 <= i < start + 1 + (n - 1);
        }
      }
    }
  }

  /** ... and a successful run followed by a successful call. */
  lemma AnsweredSnoc(answer: Oracle, start: nat, n: nat)
    ensures Answered(answer, start, n + 1) <==> Answered(answer, start, n) && answer(start + n) >= 0
  {
    if Answered(answer, start, n) && answer(start + n) >= 0 {
      forall i | start <= i < start + n + 1
        ensures answer(i) >= 0
      {
        if i == start + n {
        } else {
          assert start <= i < start + n;
        }
      }
    }
  }

  /** Outcome of issuing `n` register writes from log position `start`, each one
      only if the previous ones succeeded: how many were issued and the error
      returned (0 when none failed). */
  datatype Run = Run(issued: nat, ret: int)

  function FirstFailure(answer: Oracle, start: nat, n: nat): (r: Run)
    ensures r.issued <= n && r.ret <= 0
    ensures r.ret == 0 <==> Answered(answer, start, n)
    ensures r.ret == 0 ==> r.issued == n
    ensures r.ret < 0 ==> 1 <= r.issued && answer(start + r.issued - 1) == r.ret
    ensures r.ret < 0 ==> Answered(answer, start, r.issued - 1)
    decreases n
  {
    if n == 0 then Run(0, 0)
    else if answer(start) < 0 then
      AnsweredCons(answer, start, n);
      Run(1, answer(start))
    else
      var rest := FirstFailure(answer, start + 1, n - 1);
      AnsweredCons(answer, start, n);
      if rest.ret < 0 then
        AnsweredCons(answer, start, rest.issued);
        Run(rest.issued + 1, rest.ret)
      else
        Run(rest.issued + 1, rest.ret)
  }

  /** The first failing call is the one at position start + k when all
      before it succeeded. */
  lemma {:induction false} FirstFailureAt(answer: Oracle, start: nat, n: nat, k: nat)
    requires k < n && Answered(answer, start, k) && answer(start + k) < 0
    ensures FirstFailure(answer, start, n) == Run(k + 1, answer(start + k))
    decreases k
  {
    if k > 0 {
      AnsweredCons(answer, start, k);
      FirstFailureAt(answer, start + 1, n - 1, k - 1);
    }
  }

  /** Logging the next event of a sequence after a prefix of it. */
  lemma PrefixStep(log: seq<Event>, es: seq<Event>, k: nat)
    requires k < |es|
    ensures log + es[..k] + [es[k]] == log + es[..k + 1]
  {
    assert es[..k] + [es[k]] == es[..k + 1];
  }

  /** Logging three events one at a time. */
  lemma LogThree(log: seq<Event>, a: Event, b: Event, c: Event)
    ensures log + [a] + [b] + [c] == log + [a, b, c]
  {
    assert [a] + [b] + [c] == [a, b, c];
    LogAppend(log, [a], [b]);
    LogAppend(log, [a] + [b], [c]);
  }

  /** Logging two runs of events one after the other. */
  lemma LogAppend(log: seq<Event>, a: seq<Event>, b: seq<Event>)
    ensures log + a + b == log + (a + b)
  {
  }

  /** The log of foreign calls, with the oracle that answers them. */
  class Log {
    var events: seq<Event>
    const answer: Oracle

    constructor (answer: Oracle)
      ensures events == [] && this.answer == answer
    {
      this.events := [];
      this.answer := answer;
    }

    /** Issues one foreign call and returns what the outside world answered. */
    method Issue(e: Event) returns (ret: int)
      modifies this
      ensures events == old(events) + [e]
      ensures ret == answer(|old(events)|)
    {
      ret := answer(|events|);
      events := events + [e];
    }

    /** Issues event k of the sequence `es` once the k events before it were
        issued after `log` and all succeeded. */
    method IssueNext(ghost log: seq<Event>, es: seq<Event>, k: nat) returns (ret: int)
      requires k < |es|
      requires events == log + es[..k] && Answered(answer, |log|, k)
      modifies this
      ensures events == log + es[..k + 1] && ret == answer(|log| + k)
      ensures ret >= 0 ==> Answered(answer, |log|, k + 1)
      ensures ret < 0 ==> FirstFailure(answer, |log|, |es|) == Run(k + 1, ret)
    {
      ret := Issue(es[k]);
      PrefixStep(log, es, k);
      if ret < 0 {
        FirstFailureAt(answer, |log|, |es|, k);
      } else {
        AnsweredSnoc(answer, |log|, k);
      }
    }
  }
}
