/**
 Why the queue must be built for at least one element: `ReaderWriterQueue(0)` starts with a
 block of one slot, in which `(tail + 1) & sizeMask` never differs from `tail`. Such a
 block is skipped while it is the tail, but once the consumer has left it the producer
 reuses it: the element written there is lost and the consumer's assert fails.
 */
module SpscZeroSize {
  import opened Options
  import opened Bits
  import opened SpscBlock
  import opened SpscQueue
  import opened SpscMemory
  import opened SpscTheorems

  /** A run of the queue built for 0 elements (blocks of at most `m` slots) that ends in `last`. */
  ghost predicate Reaches(m: nat, run: seq<State<int>>, steps: seq<Step<int>>, last: State<int>) {
    IsRun(run, steps, 0, m) && run[|steps|] == last
  }

  lemma Extend(m: nat, run: seq<State<int>>, steps: seq<Step<int>>, last: State<int>, step: Step<int>, next: State<int>)
    returns (run': seq<State<int>>, steps': seq<Step<int>>)
    requires Reaches(m, run, steps, last) && Enabled(last, step) && Do(last, step) == next
    ensures Reaches(m, run', steps', next)
  {
    run', steps' := run + [next], steps + [step];
  }

  /** A queue built with `ReaderWriterQueue(0)`: one block of one slot. */
  function Start(m: nat): State<int> {
    State(
      [Block(0, 0, 0, 0, 0, [None])],
      0, 0, 1, m, PIdle(true), CIdle(Nothing), false,
      [0], 0, [Track([], 0, 0)], [], [])
  }

  /** No room, no other block: the producer allocates. */
  function Allocating(m: nat): State<int> {
    State(
      [Block(0, 0, 0, 0, 0, [None])],
      0, 0, 1, m, PAlloc(1), CIdle(Nothing), false,
      [0], 0, [Track([], 0, 0)], [], [])
  }

  /** The first element went to a new block of two slots. */
  function OneEnqueued(m: nat): State<int> {
    State(
      [Block(0, 0, 0, 0, 1, [None]),
       Block(0, 1, 1, 0, 0, [Some(1), None])],
      0, 1, 2, m, PIdle(true), CIdle(Nothing), false,
      [0, 1], 1, [Track([], 0, 0), Track([1], 1, 0)], [1], [])
  }

  /** The consumer finds its block empty and the tail elsewhere. */
  function Rechecking(m: nat): State<int> {
    State(
      [Block(0, 0, 0, 0, 1, [None]),
       Block(0, 1, 1, 0, 0, [Some(1), None])],
      0, 1, 2, m, PIdle(true), CRecheck(TryDequeue), false,
      [0, 1], 1, [Track([], 0, 0), Track([1], 1, 0)], [1], [])
  }

  /** The consumer is about to leave the one-slot block. */
  function LeavingBlock(m: nat): State<int> {
    State(
      [Block(0, 0, 0, 0, 1, [None]),
       Block(0, 1, 1, 0, 0, [Some(1), None])],
      0, 1, 2, m, PIdle(true), CLoadNextTail(TryDequeue, 1), false,
      [0, 1], 1, [Track([], 0, 0), Track([1], 1, 0)], [1], [])
  }

  /** The consumer has left the one-slot block. */
  function Advanced(m: nat): State<int> {
    State(
      [Block(0, 0, 0, 0, 1, [None]),
       Block(0, 1, 1, 0, 0, [Some(1), None])],
      1, 1, 2, m, PIdle(true), CTake(TryDequeue), false,
      [1, 0], 0, [Track([], 0, 0), Track([1], 1, 0)], [1], [])
  }

  /** The two-slot block is full and the one-slot block is free, so the producer takes it. */
  function ReusingBlock(m: nat): State<int> {
    State(
      [Block(0, 0, 0, 0, 1, [None]),
       Block(0, 1, 1, 0, 0, [Some(1), None])],
      1, 1, 2, m, PLoadNextFront(2), CTake(TryDequeue), false,
      [1, 0], 0, [Track([], 0, 0), Track([1], 1, 0)], [1], [])
  }

  /** The second element is in the one-slot block, not yet published. */
  function SecondWritten(m: nat): State<int> {
    State(
      [Block(0, 0, 0, 0, 1, [Some(2)]),
       Block(0, 1, 1, 0, 0, [Some(1), None])],
      1, 1, 2, m, PBumpNext(2), CTake(TryDequeue), false,
      [1, 0], 0, [Track([], 0, 0), Track([1], 1, 0)], [1], [])
  }

  /** The second element is in the one-slot block, whose `tail` cannot move: the call returned true. */
  function SecondLost(m: nat): State<int> {
    State(
      [Block(0, 0, 0, 0, 1, [Some(2)]),
       Block(0, 1, 1, 0, 0, [Some(1), None])],
      1, 0, 2, m, PIdle(true), CTake(TryDequeue), false,
      [1, 0], 1, [Track([2], 0, 0), Track([1], 1, 0)], [1, 2], [])
  }

  /** The first element is out. */
  function OneDequeued(m: nat): State<int> {
    State(
      [Block(0, 0, 0, 0, 1, [Some(2)]),
       Block(1, 1, 1, 0, 0, [None, None])],
      1, 0, 2, m, PIdle(true), CIdle(Took(1)), false,
      [1, 0], 1, [Track([2], 0, 0), Track([], 0, 1)], [1, 2], [1])
  }

  /** The consumer looks for the second element. */
  function RecheckingAgain(m: nat): State<int> {
    State(
      [Block(0, 0, 0, 0, 1, [Some(2)]),
       Block(1, 1, 1, 0, 0, [None, None])],
      1, 0, 2, m, PIdle(true), CRecheck(TryDequeue), false,
      [1, 0], 1, [Track([2], 0, 0), Track([], 0, 1)], [1, 2], [1])
  }

  /** The next block must be non-empty, but its `front` equals its `tail`. */
  function AssertFails(m: nat): State<int> {
    State(
      [Block(0, 0, 0, 0, 1, [Some(2)]),
       Block(1, 1, 1, 0, 0, [None, None])],
      1, 0, 2, m, PIdle(true), CAdvance(TryDequeue, 0), true,
      [1, 0], 1, [Track([2], 1, 0), Track([], 0, 1)], [1, 2], [1])
  }

  lemma ToAllocating(m: nat, run0: seq<State<int>>, steps0: seq<Step<int>>)
    returns (run: seq<State<int>>, steps: seq<Step<int>>)
    requires m >= 2 && Reaches(m, run0, steps0, Start(m))
    ensures Reaches(m, run, steps, Allocating(m))
  {
    hide Reaches, Flat;
    var s0 := Start(m);
    run, steps := run0, steps0;
    var s1 := s0.(prod := PLoadFront(1, true));
    run, steps := Extend(m, run, steps, s0, Enqueue(1, true), s1);
    var s2 := s1.(prod := PCheckNext(1, true, |Queue(s1)|));
    run, steps := Extend(m, run, steps, s1, Producer(true), s2);
    var s3 := s2.(prod := PAlloc(1));
    run, steps := Extend(m, run, steps, s2, Producer(true), s3);
    assert s3 == Allocating(m);
  }

  lemma ToOneEnqueued(m: nat, run0: seq<State<int>>, steps0: seq<Step<int>>)
    returns (run: seq<State<int>>, steps: seq<Step<int>>)
    requires m >= 2 && Reaches(m, run0, steps0, Allocating(m))
    ensures Reaches(m, run, steps, OneEnqueued(m))
  {
    hide Reaches, Flat;
    var s0 := Allocating(m);
    run, steps := run0, steps0;
    var s1 := s0.(blocks := [Block(0, 0, 0, 0, 0, [None]), Block(0, 1, 1, 0, 0, [Some(1), None])],
               largest := 2,
               prod := PLink(1, 1),
               tracks := [Track([], 0, 0), Track([1], 1, 0)]);
    run, steps := Extend(m, run, steps, s0, Producer(true), s1) by {
      var n := Do(s0, Producer(true));
      assert n.blocks[1].data == [Some(1), None];
      assert n.tracks[1].items == [1];
    }
    var s2 := s1.(blocks := s1.blocks[0 := Block(0, 0, 0, 0, 1, [None])], prod := PAdvance(1, 1), ring := [0, 1]);
    run, steps := Extend(m, run, steps, s1, Producer(true), s2);
    var s3 := s2.(tailBlock := 1, prod := PIdle(true), t := 1, enqueued := [1]);
    run, steps := Extend(m, run, steps, s2, Producer(true), s3);
    assert s3 == OneEnqueued(m);
  }

  lemma ToRechecking(m: nat, run0: seq<State<int>>, steps0: seq<Step<int>>)
    returns (run: seq<State<int>>, steps: seq<Step<int>>)
    requires m >= 2 && Reaches(m, run0, steps0, OneEnqueued(m))
    ensures Reaches(m, run, steps, Rechecking(m))
  {
    hide Reaches, Flat;
    var s0 := OneEnqueued(m);
    run, steps := run0, steps0;
    var s1 := s0.(cons := CLoadTail(TryDequeue));
    run, steps := Extend(m, run, steps, s0, Consume(TryDequeue), s1);
    var s2 := s1.(cons := CLoadTailBlock(TryDequeue, |Queue(s1)|));
    run, steps := Extend(m, run, steps, s1, Consumer, s2);
    var s3 := s2.(cons := CRecheck(TryDequeue));
    run, steps := Extend(m, run, steps, s2, Consumer, s3);
    assert s3 == Rechecking(m);
  }

  lemma ToLeavingBlock(m: nat, run0: seq<State<int>>, steps0: seq<Step<int>>)
    returns (run: seq<State<int>>, steps: seq<Step<int>>)
    requires m >= 2 && Reaches(m, run0, steps0, Rechecking(m))
    ensures Reaches(m, run, steps, LeavingBlock(m))
  {
    hide Reaches, Flat;
    var s0 := Rechecking(m);
    run, steps := run0, steps0;
    var s1 := s0.(cons := CLoadNext(TryDequeue));
    run, steps := Extend(m, run, steps, s0, Consumer, s1);
    var s2 := s1.(cons := CLoadNextTail(TryDequeue, 1));
    run, steps := Extend(m, run, steps, s1, Consumer, s2);
    assert s2 == LeavingBlock(m);
  }

  lemma ToAdvanced(m: nat, run0: seq<State<int>>, steps0: seq<Step<int>>)
    returns (run: seq<State<int>>, steps: seq<Step<int>>)
    requires m >= 2 && Reaches(m, run0, steps0, LeavingBlock(m))
    ensures Reaches(m, run, steps, Advanced(m))
  {
    hide Reaches, Flat;
    var s0 := LeavingBlock(m);
    run, steps := run0, steps0;
    var s1 := s0.(cons := CAdvance(TryDequeue, 1));
    run, steps := Extend(m, run, steps, s0, Consumer, s1);
    var s2 := s1.(frontBlock := 1, cons := CTake(TryDequeue), ring := [1, 0], t := 0);
    run, steps := Extend(m, run, steps, s1, Consumer, s2);
    assert s2 == Advanced(m);
  }

  lemma ToReusingBlock(m: nat, run0: seq<State<int>>, steps0: seq<Step<int>>)
    returns (run: seq<State<int>>, steps: seq<Step<int>>)
    requires m >= 2 && Reaches(m, run0, steps0, Advanced(m))
    ensures Reaches(m, run, steps, ReusingBlock(m))
  {
    hide Reaches, Flat;
    var s0 := Advanced(m);
    run, steps := run0, steps0;
    var s1 := s0.(prod := PLoadFront(2, false));
    run, steps := Extend(m, run, steps, s0, Enqueue(2, false), s1);
    var s2 := s1.(prod := PCheckNext(2, false, |Queue(s1)|));
    run, steps := Extend(m, run, steps, s1, Producer(true), s2);
    var s3 := s2.(prod := PLoadNextFront(2));
    run, steps := Extend(m, run, steps, s2, Producer(true), s3);
    assert s3 == ReusingBlock(m);
  }

  lemma ToSecondWritten(m: nat, run0: seq<State<int>>, steps0: seq<Step<int>>)
    returns (run: seq<State<int>>, steps: seq<Step<int>>)
    requires m >= 2 && Reaches(m, run0, steps0, ReusingBlock(m))
    ensures Reaches(m, run, steps, SecondWritten(m))
  {
    hide Reaches, Flat;
    var s0 := ReusingBlock(m);
    run, steps := run0, steps0;
    var s1 := s0.(prod := PWriteNext(2));
    run, steps := Extend(m, run, steps, s0, Producer(true), s1);
    var s2 := s1.(blocks := s1.blocks[0 := Block(0, 0, 0, 0, 1, [Some(2)])], prod := PBumpNext(2));
    run, steps := Extend(m, run, steps, s1, Producer(true), s2) by {
      var n := Do(s1, Producer(true));
      assert n.blocks[0].data == [Some(2)];
    }
    assert s2 == SecondWritten(m);
  }

  lemma ToSecondLost(m: nat, run0: seq<State<int>>, steps0: seq<Step<int>>)
    returns (run: seq<State<int>>, steps: seq<Step<int>>)
    requires m >= 2 && Reaches(m, run0, steps0, SecondWritten(m))
    ensures Reaches(m, run, steps, SecondLost(m))
  {
    hide Reaches, Flat;
    var s0 := SecondWritten(m);
    run, steps := run0, steps0;
    var s1 := s0.(prod := PAdvance(2, 0), tracks := s0.tracks[0 := Track([2], 0, 0)]);
    run, steps := Extend(m, run, steps, s0, Producer(true), s1) by {
      var n := Do(s0, Producer(true));
      assert n.tracks[0].items == [2];
    }
    var s2 := s1.(tailBlock := 0, prod := PIdle(true), t := 1, enqueued := [1, 2]);
    run, steps := Extend(m, run, steps, s1, Producer(true), s2);
    assert s2 == SecondLost(m);
  }

  lemma ToOneDequeued(m: nat, run0: seq<State<int>>, steps0: seq<Step<int>>)
    returns (run: seq<State<int>>, steps: seq<Step<int>>)
    requires m >= 2 && Reaches(m, run0, steps0, SecondLost(m))
    ensures Reaches(m, run, steps, OneDequeued(m))
  {
    hide Reaches, Flat;
    var s0 := SecondLost(m);
    run, steps := run0, steps0;
    var s1 := s0.(blocks := s0.blocks[1 := Block(0, 1, 1, 0, 0, [None, None])], cons := CStore(TryDequeue, 1));
    run, steps := Extend(m, run, steps, s0, Consumer, s1) by {
      var n := Do(s0, Consumer);
      assert n.blocks[1].data == [None, None];
    }
    var s2 := s1.(blocks := s1.blocks[1 := Block(1, 1, 1, 0, 0, [None, None])],
               cons := CIdle(Took(1)),
               tracks := s1.tracks[1 := Track([], 0, 1)],
               dequeued := [1]);
    run, steps := Extend(m, run, steps, s1, Consumer, s2) by {
      var n := Do(s1, Consumer);
      assert n.tracks[1].items == [];
    }
    assert s2 == OneDequeued(m);
  }

  lemma ToRecheckingAgain(m: nat, run0: seq<State<int>>, steps0: seq<Step<int>>)
    returns (run: seq<State<int>>, steps: seq<Step<int>>)
    requires m >= 2 && Reaches(m, run0, steps0, OneDequeued(m))
    ensures Reaches(m, run, steps, RecheckingAgain(m))
  {
    hide Reaches, Flat;
    var s0 := OneDequeued(m);
    run, steps := run0, steps0;
    var s1 := s0.(cons := CLoadTail(TryDequeue));
    run, steps := Extend(m, run, steps, s0, Consume(TryDequeue), s1);
    var s2 := s1.(cons := CLoadTailBlock(TryDequeue, |Queue(s1)|));
    run, steps := Extend(m, run, steps, s1, Consumer, s2);
    var s3 := s2.(cons := CRecheck(TryDequeue));
    run, steps := Extend(m, run, steps, s2, Consumer, s3);
    assert s3 == RecheckingAgain(m);
  }

  lemma ToAssertFails(m: nat, run0: seq<State<int>>, steps0: seq<Step<int>>)
    returns (run: seq<State<int>>, steps: seq<Step<int>>)
    requires m >= 2 && Reaches(m, run0, steps0, RecheckingAgain(m))
    ensures Reaches(m, run, steps, AssertFails(m))
  {
    hide Reaches, Flat;
    var s0 := RecheckingAgain(m);
    run, steps := run0, steps0;
    var s1 := s0.(cons := CLoadNext(TryDequeue));
    run, steps := Extend(m, run, steps, s0, Consumer, s1);
    var s2 := s1.(cons := CLoadNextTail(TryDequeue, 0));
    run, steps := Extend(m, run, steps, s1, Consumer, s2);
    var s3 := s2.(cons := CAdvance(TryDequeue, 0), faulted := true, tracks := s2.tracks[0 := Track([2], 1, 0)]);
    run, steps := Extend(m, run, steps, s2, Consumer, s3);
    assert s3 == AssertFails(m);
  }

  /** Built for 0 elements, the queue has a run in which an assert of `try_dequeue` fails. */
  lemma ZeroSizeFaults(m: nat) returns (run: seq<State<int>>, steps: seq<Step<int>>)
    requires m >= 2 && IsPow2(m)
    ensures IsRun(run, steps, 0, m) && run[|steps|].faulted
  {
    run, steps := [Start(m)], [];
    assert Layout(Start(m), 0, m, 1) by { LeastPow2One(); }
    assert Reaches(m, run, steps, Start(m));
    run, steps := ToAllocating(m, run, steps);
    run, steps := ToOneEnqueued(m, run, steps);
    run, steps := ToRechecking(m, run, steps);
    run, steps := ToLeavingBlock(m, run, steps);
    run, steps := ToAdvanced(m, run, steps);
    run, steps := ToReusingBlock(m, run, steps);
    run, steps := ToSecondWritten(m, run, steps);
    run, steps := ToSecondLost(m, run, steps);
    run, steps := ToOneDequeued(m, run, steps);
    run, steps := ToRecheckingAgain(m, run, steps);
    run, steps := ToAssertFails(m, run, steps);
  }

  /** The queue is safe in every interleaving exactly when it is built for at least one element. */
  lemma SafeExactly(size: nat, maxBlock: nat)
    requires maxBlock >= 2 && IsPow2(maxBlock)
    ensures (forall run: seq<State<int>>, steps: seq<Step<int>>, i: nat
               | IsRun(run, steps, size, maxBlock) && i <= |steps| :: !run[i].faulted)
       <==> size >= 1
  {
    hide Initial, Enabled, Do, Wf, Queue, InMemory, Shown;
    if size >= 1 {
      forall run: seq<State<int>>, steps: seq<Step<int>>, i: nat
        | IsRun(run, steps, size, maxBlock) && i <= |steps|
        ensures !run[i].faulted
      {
        Fifo(run, steps, size, maxBlock, i);
      }
    } else {
      var run, steps := ZeroSizeFaults(maxBlock);
    }
  }
}
