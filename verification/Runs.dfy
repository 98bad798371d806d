/** Runs of a state machine given by its step function: what every step keeps holds at the end of every run. */
module Runs {

  /** The state after the calls, served in order. */
  function After<S, C>(next: (S, C) -> S, s: S, calls: seq<C>): S
    decreases |calls|
  {
    if calls == [] then s
    else next(After(next, s, calls[..|calls| - 1]), calls[|calls| - 1])
  }

  /** Each call is one that can be made in the state it meets. */
  ghost predicate LegalRun<S, C>(next: (S, C) -> S, legal: (S, C) -> bool, s: S, calls: seq<C>) {
    forall k :: 0 <= k < |calls| ==> legal(After(next, s, calls[..k]), calls[k])
  }

  ghost predicate Keeps<S(!new), C(!new)>(next: (S, C) -> S, legal: (S, C) -> bool, fact: S -> bool) {
    forall s: S, c: C :: fact(s) && legal(s, c) ==> fact(next(s, c))
  }

  /** fact is kept by the steps that start in states of the invariant. */
  ghost predicate KeepsUnder<S(!new), C(!new)>(next: (S, C) -> S, legal: (S, C) -> bool,
                                               kept: S -> bool, fact: S -> bool) {
    forall s: S, c: C :: kept(s) && fact(s) && legal(s, c) ==> fact(next(s, c))
  }

  lemma PrefixLegal<S, C>(next: (S, C) -> S, legal: (S, C) -> bool, s: S, calls: seq<C>, k: nat)
    requires LegalRun(next, legal, s, calls) && k <= |calls|
    ensures LegalRun(next, legal, s, calls[..k])
  {
    forall i | 0 <= i < k ensures calls[..k][..i] == calls[..i] {}
  }

  lemma AfterOneMore<S, C>(next: (S, C) -> S, s: S, calls: seq<C>, k: nat)
    requires k < |calls|
    ensures After(next, s, calls[..k + 1]) == next(After(next, s, calls[..k]), calls[k])
  {
    assert calls[..k + 1][..k] == calls[..k];
  }

  lemma {:induction false} InvariantAlong<S(!new), C(!new)>(next: (S, C) -> S, legal: (S, C) -> bool,
                                                           kept: S -> bool, s: S, calls: seq<C>)
    requires kept(s) && Keeps(next, legal, kept) && LegalRun(next, legal, s, calls)
    ensures kept(After(next, s, calls))
    decreases |calls|
  {
    if calls == [] {
    } else {
      PrefixLegal(next, legal, s, calls, |calls| - 1);
      InvariantAlong(next, legal, kept, s, calls[..|calls| - 1]);
    }
  }

  lemma {:induction false} OnceTrueStaysTrue<S(!new), C(!new)>(
    next: (S, C) -> S, legal: (S, C) -> bool, kept: S -> bool, fact: S -> bool, s: S, calls: seq<C>, k: nat)
    requires kept(s) && Keeps(next, legal, kept) && KeepsUnder(next, legal, kept, fact)
    requires LegalRun(next, legal, s, calls) && k <= |calls| && fact(After(next, s, calls[..k]))
    ensures fact(After(next, s, calls))
    decreases |calls|
  {
    if k == |calls| {
      assert calls[..k] == calls;
    } else {
      var before := calls[..|calls| - 1];
      assert before[..k] == calls[..k];
      PrefixLegal(next, legal, s, calls, |calls| - 1);
      InvariantAlong(next, legal, kept, s, before);
      OnceTrueStaysTrue(next, legal, kept, fact, s, before, k);
    }
  }

  /** A run may be continued by one more call, and by any further run. */
  lemma OneMoreLegal<S, C>(next: (S, C) -> S, legal: (S, C) -> bool, s: S, calls: seq<C>, c: C)
    requires LegalRun(next, legal, s, calls) && legal(After(next, s, calls), c)
    ensures LegalRun(next, legal, s, calls + [c])
    ensures After(next, s, calls + [c]) == next(After(next, s, calls), c)
  {
    assert (calls + [c])[..|calls|] == calls;
    forall k | 0 <= k < |calls| ensures (calls + [c])[..k] == calls[..k] {}
  }

  lemma LastCall<S, C>(next: (S, C) -> S, legal: (S, C) -> bool, s: S, init: seq<C>, last: C)
    requires LegalRun(next, legal, s, init + [last])
    ensures LegalRun(next, legal, s, init) && legal(After(next, s, init), last)
    ensures After(next, s, init + [last]) == next(After(next, s, init), last)
  {
    var calls := init + [last];
    assert calls[..|init|] == init;
    PrefixLegal(next, legal, s, calls, |init|);
    assert legal(After(next, s, calls[..|init|]), calls[|init|]);
  }

  lemma {:induction false} RunsCompose<S, C>(next: (S, C) -> S, legal: (S, C) -> bool, s: S, calls: seq<C>,
                                             more: seq<C>)
    requires LegalRun(next, legal, s, calls) && LegalRun(next, legal, After(next, s, calls), more)
    ensures LegalRun(next, legal, s, calls + more)
    ensures After(next, s, calls + more) == After(next, After(next, s, calls), more)
    decreases |more|
  {
    if more == [] {
      assert calls + more == calls;
    } else {
      var init, last := more[..|more| - 1], more[|more| - 1];
      assert more == init + [last];
      LastCall(next, legal, After(next, s, calls), init, last);
      RunsCompose(next, legal, s, calls, init);
      OneMoreLegal(next, legal, s, calls + init, last);
      assert calls + more == (calls + init) + [last];
    }
  }

  /** What is false at the start and true at the end became true at some call. */
  lemma {:induction false} BecameTrue<S, C>(next: (S, C) -> S, fact: S -> bool, s: S, calls: seq<C>) returns (m: nat)
    requires !fact(s) && fact(After(next, s, calls))
    ensures m < |calls| && !fact(After(next, s, calls[..m])) && fact(After(next, s, calls[..m + 1]))
    decreases |calls|
  {
    var init := calls[..|calls| - 1];
    if fact(After(next, s, init)) {
      m := BecameTrue(next, fact, s, init);
      assert init[..m] == calls[..m] && init[..m + 1] == calls[..m + 1];
    } else {
      m := |calls| - 1;
      assert calls[..m + 1] == calls;
    }
  }
}
