/** The period gate in front of every re-randomization: an attempt passes only when a
    full period has gone by since the cycle count stored by the last one that passed. */
module RateGate {
  import opened Words
  import opened Spa

  /** The unsigned comparison of cycle counts: a period is 32 million cycles. */
  predicate PeriodElapsed(last: int, now: int) {
    Wrap(now - last) >= CYCLES_PER_RANDOMIZATION
  }

  /** A cycle counter never goes back, and has not wrapped. */
  predicate Ticking(start: int, clocks: seq<int>) {
    && IsWord(start)
    && (forall i :: 0 <= i < |clocks| ==> start <= clocks[i] < WORD_SPAN)
    && (forall i, j :: 0 <= i < j < |clocks| ==> clocks[i] <= clocks[j])
  }

  /** The cycle counts of the calls that pass the gate, when calls come at `clocks`
      and `last` is the stored count; each one that passes is stored. */
  function Attempts(last: int, clocks: seq<int>): seq<int>
    decreases |clocks|
  {
    if clocks == [] then []
    else if PeriodElapsed(last, clocks[0]) then [clocks[0]] + Attempts(clocks[0], clocks[1..])
    else Attempts(last, clocks[1..])
  }

  /** The i-th of `a` comes at least i + 1 periods after `last`. */
  predicate Spaced(last: int, a: seq<int>) {
    && (forall i :: 0 <= i < |a| ==> a[i] - last >= (i + 1) * 32_000_000)
    && (forall i, j :: 0 <= i < j < |a| ==> a[j] - a[i] >= (j - i) * 32_000_000)
  }

  /** Any two attempts are as many periods apart as there are attempts between them. */
  lemma {:induction false} AttemptsSpaced(last: int, clocks: seq<int>)
    requires Ticking(last, clocks)
    ensures Spaced(last, Attempts(last, clocks))
    decreases |clocks|
  {
    if clocks != [] {
      if PeriodElapsed(last, clocks[0]) {
        var now, rest := clocks[0], Attempts(clocks[0], clocks[1..]);
        AttemptsSpaced(now, clocks[1..]);
        assert now - last >= 32_000_000;
        SpacedOn(last, now, rest);
      } else {
        AttemptsSpaced(last, clocks[1..]);
      }
    }
  }

  lemma SpacedOn(last: int, now: int, rest: seq<int>)
    requires now - last >= 32_000_000 && Spaced(now, rest)
    ensures Spaced(last, [now] + rest)
  {
    var a := [now] + rest;
    forall i | 0 <= i < |a|
      ensures a[i] - last >= (i + 1) * 32_000_000
    {
      assert i > 0 ==> a[i] == rest[i - 1];
    }
    forall i, j | 0 <= i < j < |a|
      ensures a[j] - a[i] >= (j - i) * 32_000_000
    {
      assert a[j] == rest[j - 1] && (i > 0 ==> a[i] == rest[i - 1]);
    }
  }

  /** A window of `span` cycles holds at most span / period + 1 attempts. */
  lemma AttemptsInWindow(last: int, clocks: seq<int>, first: nat, final: nat, span: int)
    requires Ticking(last, clocks)
    requires first <= final < |Attempts(last, clocks)|
    requires Attempts(last, clocks)[final] - Attempts(last, clocks)[first] <= span
    ensures final - first + 1 <= span / 32_000_000 + 1
  {
    hide Attempts;
    AttemptsSpaced(last, clocks);
    var gaps := final - first;
    assert gaps * 32_000_000 <= span;
  }

  /** The stored count before a sequence of calls, and those stored by its attempts. */
  function Stored(last: int, clocks: seq<int>): seq<int> {
    [last] + Attempts(last, clocks)
  }

  /** A call that is not an attempt came less than a period after an attempt, or after
      the stored count: nothing else is rejected. */
  lemma {:induction false} RejectedOnlyWhenEarly(last: int, clocks: seq<int>, i: nat)
    requires Ticking(last, clocks) && i < |clocks|
    ensures clocks[i] in Attempts(last, clocks)
         || exists t :: t in Stored(last, clocks[..i]) && clocks[i] - t < 32_000_000
    decreases |clocks|
  {
    var next := if PeriodElapsed(last, clocks[0]) then clocks[0] else last;
    if i == 0 {
      if PeriodElapsed(last, clocks[0]) {
        assert clocks[0] == Attempts(last, clocks)[0];
      } else {
        assert clocks[0] - last < 32_000_000;
        assert last in Stored(last, clocks[..i]);
      }
    } else {
      var before := clocks[..i];
      assert before[1..] == clocks[1..][..i - 1];
      RejectedOnlyWhenEarly(next, clocks[1..], i - 1);
      if clocks[i] !in Attempts(last, clocks) {
        var t :| t in Stored(next, before[1..]) && clocks[i] - t < 32_000_000;
        assert t in Stored(last, before);
      }
    }
  }
}
