/** The seeded chunk shuffle of src/shuffle.rs: the vector is cut into
    `len / 5`-sized chunks, the chunks are permuted by swaps driven by a linear
    congruential generator, reassembled, and the result rotated left by one;
    this repeats a given number of times. */
module Shuffle {

  /** The source's `u64`. */
  type U64 = x: int | 0 <= x < 0x1_0000_0000_0000_0000

  const Multiplier: nat := 134775813
  const StateModulus: nat := 0x1_0000_0000
  const WordModulus: nat := 0x1_0000_0000_0000_0000
  const NrOfChunks: nat := 5

  lemma ModAddMultiple(a: nat, r: nat)
    ensures (a * 0x1_0000_0000 + r) % 0x1_0000_0000 == r % 0x1_0000_0000
  {
  }

  /** The u64 arithmetic collapses to arithmetic modulo 2^32, since 2^32 divides 2^64. */
  lemma WrappingCollapses(x: nat)
    ensures ((x % WordModulus + 1) % WordModulus) % StateModulus == (x + 1) % StateModulus
  {
    var y := x % WordModulus + 1;
    var q := y / WordModulus;
    assert y == q * WordModulus + y % WordModulus;
    ModAddMultiple(q * StateModulus, y % WordModulus);
    var p := x / WordModulus;
    assert x + 1 == p * WordModulus + y;
    ModAddMultiple(p * StateModulus, y);
  }

  /** One generator step as written:
      `state.wrapping_mul(134775813).wrapping_add(1) % 4294967296`. */
  function NextState(state: U64): (r: U64)
    ensures r < StateModulus
    ensures r == (state * Multiplier + 1) % StateModulus
  {
    WrappingCollapses(state * Multiplier);
    ((state * Multiplier % WordModulus + 1) % WordModulus) % StateModulus
  }

  /** `self.len() / nr_of_chunks`, the length passed to `chunks_mut`. */
  function ChunkSize(len: nat): (size: nat)
    ensures size * NrOfChunks <= len < (size + 1) * NrOfChunks
    ensures len >= NrOfChunks ==> size >= 1
  {
    len / NrOfChunks
  }

  /** `chunks_mut(size)`: consecutive slices of `size` elements, the last one
      possibly shorter. */
  function Chunks<T>(s: seq<T>, size: nat): (r: seq<seq<T>>)
    requires size > 0
    ensures |s| > 0 ==> |r| > 0
    decreases |s|
  {
    if s == [] then []
    else if |s| <= size then [s]
    else [s[..size]] + Chunks(s[size..], size)
  }

  /** The concatenation of a sequence of groups. */
  function Flatten<T>(groups: seq<seq<T>>): seq<T> {
    if groups == [] then [] else Flatten(groups[..|groups| - 1]) + groups[|groups| - 1]
  }

  lemma {:induction false} FlattenAppend<T>(xs: seq<seq<T>>, ys: seq<seq<T>>)
    ensures Flatten(xs + ys) == Flatten(xs) + Flatten(ys)
    decreases |ys|
  {
    if ys == [] {
      assert xs + ys == xs;
    } else {
      var n := |ys| - 1;
      assert (xs + ys)[..|xs + ys| - 1] == xs + ys[..n];
      FlattenAppend(xs, ys[..n]);
    }
  }

  /** The chunks tile the vector exactly. */
  lemma {:induction false} ChunksTile<T>(s: seq<T>, size: nat)
    requires size > 0
    ensures Flatten(Chunks(s, size)) == s
    decreases |s|
  {
    if s != [] {
      if |s| <= size {
        assert Flatten([s]) == Flatten([s][..0]) + s;
      } else {
        ChunksTile(s[size..], size);
        FlattenAppend([s[..size]], Chunks(s[size..], size));
        assert Flatten([s[..size]]) == Flatten([s[..size]][..0]) + s[..size];
        assert s == s[..size] + s[size..];
      }
    }
  }

  /** Every chunk holds exactly `size` elements except the last, which is
      non-empty and no longer. */
  lemma {:induction false} ChunkSizes<T>(s: seq<T>, size: nat)
    requires size > 0
    ensures forall c :: 0 <= c < |Chunks(s, size)| - 1 ==> |Chunks(s, size)[c]| == size
    ensures Chunks(s, size) != [] ==> 1 <= |Chunks(s, size)[|Chunks(s, size)| - 1]| <= size
    decreases |s|
  {
    if |s| > size {
      ChunkSizes(s[size..], size);
      var rest := Chunks(s[size..], size);
      assert Chunks(s, size) == [s[..size]] + rest;
      forall c | 0 <= c < |Chunks(s, size)| - 1 ensures |Chunks(s, size)[c]| == size {
        if c > 0 {
          assert Chunks(s, size)[c] == rest[c - 1];
        }
      }
    }
  }

  /** A sequence is its prefix, the element at `p`, and its suffix. */
  lemma SplitAt<G>(s: seq<G>, p: nat)
    requires p < |s|
    ensures s == s[..p] + [s[p]] + s[p + 1..]
  {
  }

  lemma FlattenAround<T>(front: seq<seq<T>>, x: seq<T>, back: seq<seq<T>>)
    ensures Flatten(front + [x] + back) == Flatten(front) + x + Flatten(back)
    ensures Flatten(front + back) == Flatten(front) + Flatten(back)
  {
    FlattenAppend(front + [x], back);
    FlattenAppend(front, [x]);
    FlattenAppend(front, back);
    assert Flatten([x]) == Flatten([x][..0]) + x;
  }

  /** Taking one group out of the concatenation takes out its elements. */
  lemma FlattenRemove<T>(ys: seq<seq<T>>, p: nat)
    requires p < |ys|
    ensures multiset(Flatten(ys)) == multiset(Flatten(ys[..p] + ys[p + 1..])) + multiset(ys[p])
  {
    var x, front, back := ys[p], ys[..p], ys[p + 1..];
    SplitAt(ys, p);
    FlattenAround(front, x, back);
    var f, b := Flatten(front), Flatten(back);
    assert multiset(f + x + b) == multiset(f) + multiset(x) + multiset(b);
  }

  /** Removing the element at `p` removes one copy of it. */
  lemma RemoveAt<G>(s: seq<G>, p: nat)
    requires p < |s|
    ensures multiset(s[..p] + s[p + 1..]) == multiset(s) - multiset{s[p]}
    ensures p == |s| - 1 ==> s[..p] + s[p + 1..] == s[..p]
  {
    SplitAt(s, p);
  }

  lemma {:induction false} FlattenPermutes<T>(xs: seq<seq<T>>, ys: seq<seq<T>>)
    requires multiset(xs) == multiset(ys)
    ensures multiset(Flatten(xs)) == multiset(Flatten(ys))
    decreases |xs|
  {
    if xs == [] {
      assert |multiset(ys)| == 0;
    } else {
      var n := |xs| - 1;
      var x := xs[n];
      assert x in multiset(ys);
      var p :| 0 <= p < |ys| && ys[p] == x;
      RemoveAt(ys, p);
      RemoveAt(xs, n);
      FlattenPermutes(xs[..n], ys[..p] + ys[p + 1..]);
      FlattenRemove(ys, p);
      FlattenRemove(xs, n);
    }
  }

  /** Reassembling the chunks of `s` in any permuted order yields a
      permutation of `s`. */
  lemma PermutedChunks<T>(s: seq<T>, size: nat, groups: seq<seq<T>>)
    requires size > 0 && multiset(groups) == multiset(Chunks(s, size))
    ensures multiset(Flatten(groups)) == multiset(s)
    ensures |Flatten(groups)| == |s|
  {
    ChunksTile(s, size);
    FlattenPermutes(groups, Chunks(s, size));
    assert |Flatten(groups)| == |multiset(Flatten(groups))|;
  }

  /** The inner loop from chunk `i` on: advance the generator, pick
      `j = state % groups.len()`, swap groups `i` and `j`.  Returns the final
      group order and generator state. */
  function SwapPass<G>(groups: seq<G>, state: U64, i: nat): (r: (seq<G>, U64))
    requires i <= |groups|
    ensures |r.0| == |groups|
    decreases |groups| - i
  {
    if i == |groups| then (groups, state)
    else
      var next := NextState(state);
      var j := next % |groups|;
      SwapPass(groups[i := groups[j]][j := groups[i]], next, i + 1)
  }

  lemma SwapKeepsElements<G>(s: seq<G>, i: nat, j: nat)
    requires i < |s| && j < |s|
    ensures multiset(s[i := s[j]][j := s[i]]) == multiset(s)
  {
    if i != j {
      assert multiset(s[i := s[j]]) == multiset(s) - multiset{s[i]} + multiset{s[j]};
    }
  }

  /** The swaps only reorder the groups. */
  lemma {:induction false} SwapPassPermutes<G>(groups: seq<G>, state: U64, i: nat)
    requires i <= |groups|
    ensures multiset(SwapPass(groups, state, i).0) == multiset(groups)
    decreases |groups| - i
  {
    if i < |groups| {
      var next := NextState(state);
      var j := next % |groups|;
      SwapKeepsElements(groups, i, j);
      SwapPassPermutes(groups[i := groups[j]][j := groups[i]], next, i + 1);
    }
  }

  /** `rotate_left(mid)`. */
  function RotateLeft<T>(s: seq<T>, mid: nat): (r: seq<T>)
    requires mid <= |s|
    ensures |r| == |s| && multiset(r) == multiset(s)
  {
    assert s == s[..mid] + s[mid..];
    s[mid..] + s[..mid]
  }

  /** Element `t` of the rotation is element `t + mid` of the input, wrapping
      around the end. */
  lemma RotateLeftAt<T>(s: seq<T>, mid: nat, t: nat)
    requires mid <= |s| && t < |s|
    ensures RotateLeft(s, mid)[t] == if t + mid < |s| then s[t + mid] else s[t + mid - |s|]
  {
  }

  /** One iteration of the outer loop on the vector `s`. */
  function Round<T>(s: seq<T>, state: U64): (r: (seq<T>, U64))
    requires |s| >= NrOfChunks
    ensures |r.0| == |s|
  {
    var pass := SwapPass(Chunks(s, ChunkSize(|s|)), state, 0);
    SwapPassPermutes(Chunks(s, ChunkSize(|s|)), state, 0);
    PermutedChunks(s, ChunkSize(|s|), pass.0);
    (RotateLeft(Flatten(pass.0), 1 % |s|), pass.1)
  }

  /** A round only reorders the vector. */
  lemma RoundPermutes<T>(s: seq<T>, state: U64)
    requires |s| >= NrOfChunks
    ensures multiset(Round(s, state).0) == multiset(s)
  {
    var chunks := Chunks(s, ChunkSize(|s|));
    SwapPassPermutes(chunks, state, 0);
    PermutedChunks(s, ChunkSize(|s|), SwapPass(chunks, state, 0).0);
  }

  /** `shuffle(seed, nr_of_iteration)`: the outer loop run `iterations`
      times, the generator state carried from one iteration to the next.
      A vector shorter than `NrOfChunks` gets chunk size 0, on which
      `chunks_mut` panics, so it may only be "shuffled" zero times. */
  function Shuffled<T>(s: seq<T>, state: U64, iterations: nat): (r: seq<T>)
    requires iterations == 0 || |s| >= NrOfChunks
    ensures |r| == |s|
    decreases iterations
  {
    if iterations == 0 then s
    else
      var next := Round(s, state);
      Shuffled(next.0, next.1, iterations - 1)
  }

  /** However many iterations run, the shuffle only reorders the vector. */
  lemma {:induction false} ShuffledPermutes<T>(s: seq<T>, state: U64, iterations: nat)
    requires iterations == 0 || |s| >= NrOfChunks
    ensures multiset(Shuffled(s, state, iterations)) == multiset(s)
    decreases iterations
  {
    if iterations > 0 {
      var next := Round(s, state);
      RoundPermutes(s, state);
      ShuffledPermutes(next.0, next.1, iterations - 1);
    }
  }

  /** `buffer[index..index + |group|].swap_with_slice(group)`, as far as
      `buffer` is concerned: it receives the group; the rest is left alone. */
  method CopyGroup<T>(group: seq<T>, buffer: array<T>, index: nat)
    requires index + |group| <= buffer.Length
    modifies buffer
    ensures buffer[..index] == old(buffer[..index])
    ensures buffer[index..index + |group|] == group
    ensures buffer[index + |group|..] == old(buffer[index + |group|..])
  {
    var t := 0;
    while t < |group|
      invariant t <= |group|
      invariant buffer[..index] == old(buffer[..index])
      invariant buffer[index..index + t] == group[..t]
      invariant buffer[index + t..] == old(buffer[index + t..])
    {
      buffer[index + t] := group[t];
      t := t + 1;
    }
  }

  lemma PrefixStep<G>(s: seq<G>, m: nat)
    requires m <= |s|
    ensures m < |s| ==> s[..m + 1][..m] == s[..m] && s[..m + 1][m] == s[m]
    ensures m < |s| ==> s[..m + 1] + s[m + 1..] == s
    ensures s[..|s|] == s
  {
  }

  /** The `for group in groups` loop: the groups, one after the other, written
      into `buffer`. */
  method Reassemble<T>(groups: seq<seq<T>>, buffer: array<T>)
    requires |Flatten(groups)| == buffer.Length
    modifies buffer
    ensures buffer[..] == Flatten(groups)
  {
    var index := 0;
    var m := 0;
    while m < |groups|
      invariant m <= |groups|
      invariant index == |Flatten(groups[..m])| <= buffer.Length
      invariant buffer[..index] == Flatten(groups[..m])
    {
      PrefixStep(groups, m);
      FlattenAppend(groups[..m + 1], groups[m + 1..]);
      CopyGroup(groups[m], buffer, index);
      assert buffer[..index + |groups[m]|] == buffer[..index] + buffer[index..index + |groups[m]|];
      index := index + |groups[m]|;
      m := m + 1;
    }
    PrefixStep(groups, |groups|);
  }

  /** `swap_with_slice` over the whole of two equally long vectors. */
  method SwapContents<T>(a: array<T>, b: array<T>)
    requires a != b && a.Length == b.Length
    modifies a, b
    ensures a[..] == old(b[..]) && b[..] == old(a[..])
  {
    var t := 0;
    while t < a.Length
      invariant t <= a.Length
      invariant a[..t] == old(b[..t]) && b[..t] == old(a[..t])
      invariant a[t..] == old(a[t..]) && b[t..] == old(b[t..])
    {
      a[t], b[t] := b[t], a[t];
      t := t + 1;
    }
  }

  /** `rotate_left(mid)` in place. */
  method RotateLeftInPlace<T>(a: array<T>, mid: nat)
    requires mid <= a.Length
    modifies a
    ensures a[..] == RotateLeft(old(a[..]), mid)
  {
    var s := a[..];
    var t := 0;
    while t < a.Length
      invariant t <= a.Length
      invariant forall q :: 0 <= q < t ==> a[q] == RotateLeft(s, mid)[q]
    {
      RotateLeftAt(s, mid, t);
      a[t] := if t + mid < a.Length then s[t + mid] else s[t + mid - a.Length];
      t := t + 1;
    }
  }

  /** `self.clone()`: a fresh vector with the same elements. */
  method CloneArray<T>(a: array<T>) returns (b: array<T>)
    ensures fresh(b) && b[..] == a[..]
  {
    b := new T[a.Length](i requires 0 <= i < a.Length reads a => a[i]);
  }

  /** The inner loop: for each group index `i`, advance the generator and
      swap group `i` with group `state % groups.len()`. */
  method PermuteGroups<T>(groups0: seq<seq<T>>, state: U64) returns (groups: seq<seq<T>>, state': U64)
    ensures (groups, state') == SwapPass(groups0, state, 0)
  {
    groups := groups0;
    state' := state;
    var i := 0;
    while i < |groups|
      invariant i <= |groups| == |groups0|
      invariant SwapPass(groups, state', i) == SwapPass(groups0, state, 0)
    {
      state' := NextState(state');
      var j := state' % |groups|;
      groups := groups[i := groups[j]][j := groups[i]];
      i := i + 1;
    }
  }

  /** One iteration of the outer loop on `a`, with `buffer` as scratch space. */
  method ShuffleRound<T>(a: array<T>, buffer: array<T>, state: U64) returns (state': U64)
    requires a != buffer && a.Length == buffer.Length && a.Length >= NrOfChunks
    modifies a, buffer
    ensures (a[..], state') == Round(old(a[..]), state)
  {
    var groups;
    groups, state' := PermuteGroups(Chunks(a[..], a.Length / NrOfChunks), state);
    SwapPassPermutes(Chunks(a[..], a.Length / NrOfChunks), state, 0);
    PermutedChunks(a[..], ChunkSize(a.Length), groups);
    Reassemble(groups, buffer);
    SwapContents(a, buffer);
    RotateLeftInPlace(a, 1 % a.Length);
  }

  /** One round, stated as progress through the remaining iterations. */
  method ShuffleStep<T>(a: array<T>, buffer: array<T>, state: U64, ghost remaining: nat) returns (state': U64)
    requires a != buffer && a.Length == buffer.Length && a.Length >= NrOfChunks && remaining > 0
    modifies a, buffer
    ensures Shuffled(a[..], state', remaining - 1) == Shuffled(old(a[..]), state, remaining)
  {
    ghost var before := a[..];
    state' := ShuffleRound(a, buffer, state);
    ghost var next := Round(before, state);
    assert a[..] == next.0 && state' == next.1;
  }

  /** `Shuffle for Vec<T>::shuffle`, in place on `a`.  The result is the
      deterministic function `Shuffled` of the input, the seed and the
      iteration count, and so a permutation of the input. */
  method ShuffleInPlace<T>(a: array<T>, seed: U64, nrOfIterations: nat)
    requires nrOfIterations == 0 || a.Length >= NrOfChunks
    modifies a
    ensures a[..] == Shuffled(old(a[..]), seed, nrOfIterations)
    ensures multiset(a[..]) == multiset(old(a[..]))
  {
    ghost var input := a[..];
    var state := seed;
    var buffer := CloneArray(a);
    assert a[..] == input;
    ghost var target := Shuffled(input, seed, nrOfIterations);
    var iteration := 0;
    while iteration < nrOfIterations
      invariant iteration <= nrOfIterations && buffer.Length == a.Length && buffer != a
      invariant Shuffled(a[..], state, nrOfIterations - iteration) == target
    {
      ghost var left := nrOfIterations - iteration;
      state := ShuffleStep(a, buffer, state, left);
      iteration := iteration + 1;
      assert nrOfIterations - iteration == left - 1;
    }
    ShuffledPermutes(input, seed, nrOfIterations);
  }
}
