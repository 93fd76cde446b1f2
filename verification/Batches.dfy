/** The validator loop of the upgrade is resumable: however it is cut into batches, it does what one
    pass would do. */
module Batches {
  import opened Base
  import opened Sums
  import opened Model
  import opened Ledger
  import opened Instructions
  import opened Machine
  import opened Books
  import opened BooksSteps
  import opened Invariant

  /** The calls of the instruction with these batch sizes, one after another. */
  function Calls(sizes: seq<u32>): (steps: seq<Step>)
    ensures |steps| == |sizes|
    ensures forall k :: 0 <= k < |sizes| ==> steps[k] == DoFinalizeUpgrade(sizes[k])
  {
    seq(|sizes|, k requires 0 <= k < |sizes| => DoFinalizeUpgrade(sizes[k]))
  }

  function Total(sizes: seq<u32>): nat {
    if sizes == [] then 0 else sizes[0] + Total(sizes[1..])
  }

  /** What a validator becomes when the loop visits it. */
  function Visit(v: ValidatorRecord): ValidatorRecord {
    v.(active := v.upgrading, upgrading := 0)
  }

  /** A pass over a + b validators is a pass over a of them and then over b more, in success and in
      failure. */
  lemma {:induction false} PassSplits(validators: seq<ValidatorRecord>, visited: nat, left: nat, a: nat, b: nat)
    ensures var first := FinalizeFrom(validators, visited, left, a);
      FinalizeFrom(validators, visited, left, a + b) ==
      if first.Success? then FinalizeFrom(first.value.0, first.value.1, first.value.2, b) else first
    decreases a
  {
    if visited < |validators| && a > 0 {
      var v := validators[visited];
      if v.upgrading <= v.active && v.active - v.upgrading <= left {
        PassSplits(validators[visited := Visit(v)], visited + 1, left - (v.active - v.upgrading), a - 1, b);
      }
    } else if visited >= |validators| {
      assert FinalizeFrom(validators, visited, left, b) == Success((validators, visited, left));
    }
  }

  /** A call after the last validator is refused and changes nothing. */
  lemma {:induction false} CallsWhenDone(s: System, sizes: seq<u32>)
    requires s.upgrader.Done?
    ensures Run(s, Calls(sizes)) == s
  {
    if sizes != [] {
      assert Calls(sizes)[1..] == Calls(sizes[1..]);
      CallsWhenDone(s, sizes[1..]);
    }
  }

  /** Any sequence of batches leaves the list and the phase of one pass of their total size. */
  lemma {:induction false} BatchesAreOnePass(s: System, sizes: seq<u32>)
    requires s.upgrader.IteratingValidators? && !s.cfg.paused && sizes != []
    requires s.upgrader.visited <= |s.validators|
    requires FinalizeBatch(s, Total(sizes)).Success?
    ensures Run(s, Calls(sizes)) == FinalizeBatch(s, Total(sizes)).value
    decreases |sizes|
  {
    var max, rest := sizes[0], Total(sizes[1..]);
    assert Calls(sizes)[1..] == Calls(sizes[1..]);
    PassSplits(s.validators, s.upgrader.visited, s.upgrader.balanceLeft, max, rest);
    FinalizeFromIs(s.validators, s.upgrader.visited, s.upgrader.balanceLeft, max);
    hide FinalizeFrom;
    var (validators, visited, left) :=
      FinalizeFrom(s.validators, s.upgrader.visited, s.upgrader.balanceLeft, max).value;
    if visited == |validators| {
      NothingLeft(validators, visited, left, rest);
      CallsWhenDone(Next(s, DoFinalizeUpgrade(max)), sizes[1..]);
    } else if sizes[1..] == [] {
      NoMore(validators, visited, left);
    } else {
      var t := Next(s, DoFinalizeUpgrade(max));
      assert t == s.(validators := validators, upgrader := IteratingValidators(visited, left));
      BatchesAreOnePass(t, sizes[1..]);
    }
  }

  lemma NothingLeft(validators: seq<ValidatorRecord>, visited: nat, left: nat, max: nat)
    requires visited >= |validators|
    ensures FinalizeFrom(validators, visited, left, max) == Success((validators, visited, left))
  {
  }

  lemma NoMore(validators: seq<ValidatorRecord>, visited: nat, left: nat)
    ensures FinalizeFrom(validators, visited, left, 0) == Success((validators, visited, left))
  {
  }

  /** What a pass from s to t over at most `max` validators does. */
  ghost predicate Visited(s: System, t: System, max: nat)
    requires s.upgrader.IteratingValidators?
  {
    var seen := Min(s.upgrader.visited + max, |s.validators|);
    && |t.validators| == |s.validators|
    && (forall j :: 0 <= j < |s.validators| ==>
          t.validators[j] == if s.upgrader.visited <= j < seen then Visit(s.validators[j]) else s.validators[j])
    && (if seen == |s.validators| then t.upgrader.Done?
        else t.upgrader.IteratingValidators? && t.upgrader.visited == seen)
  }

  lemma PassVisits(s: System, max: nat)
    requires s.upgrader.IteratingValidators? && s.upgrader.visited <= |s.validators| && FinalizeBatch(s, max).Success?
    ensures Visited(s, FinalizeBatch(s, max).value, max)
  {
    FinalizeFromIs(s.validators, s.upgrader.visited, s.upgrader.balanceLeft, max);
    hide FinalizeFrom;
  }

  /** From balanced books every sequence of batches succeeds; each validator ahead of the cursor that
      the sizes reach is visited exactly once, the others not at all; and once the sizes reach the
      end the upgrade is done. */
  lemma BatchesVisitOnce(s: System, sizes: seq<u32>)
    requires Balanced(s) && s.upgrader.IteratingValidators? && !s.cfg.paused && sizes != []
    ensures Visited(s, Run(s, Calls(sizes)), Total(sizes)) && Balanced(Run(s, Calls(sizes)))
  {
    hide *;
    CursorInList(s);
    FinalizeBatchKeeps(s, Total(sizes));
    BatchesAreOnePass(s, sizes);
    PassVisits(s, Total(sizes));
  }

  lemma CursorInList(s: System)
    requires Balanced(s) && s.upgrader.IteratingValidators?
    ensures s.upgrader.visited <= |s.validators|
  {
  }

  /** Between two batches the list itself cannot change: both instructions on it are refused. */
  lemma ListIsFrozen(s: System, step: Step)
    requires !s.upgrader.Done? && (step.DoAddValidator? || step.DoRemoveValidator?)
    ensures Apply(s, step).Failure? && Next(s, step) == s
  {
  }
}
