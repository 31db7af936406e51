/** The search for the best sync candidates: a bounded min-heap over all positions, sorted in place at the end. */
module Candidates {
  import opened Waterfalls

  function Parent(i: nat): nat
    requires i > 0
  {
    (i - 1) / 2
  }

  /** Every cell below n scores at least its parent; cell hole's children are exempt. */
  predicate HeapExcept(s: seq<Candidate>, n: nat, hole: int)
    requires n <= |s|
  {
    forall i {:trigger Parent(i)} :: 0 < i < n && Parent(i) != hole ==> s[Parent(i)].score <= s[i].score
  }

  predicate Heap(s: seq<Candidate>, n: nat)
    requires n <= |s|
  {
    HeapExcept(s, n, -1)
  }

  /** The root of a heap scores least. */
  lemma {:induction false} RootIsLeast(s: seq<Candidate>, n: nat, i: nat)
    requires i < n <= |s| && Heap(s, n)
    ensures s[0].score <= s[i].score
  {
    if i > 0 {
      RootIsLeast(s, n, Parent(i));
    }
  }

  function Swapped(s: seq<Candidate>, i: nat, j: nat): (r: seq<Candidate>)
    requires i < |s| && j < |s|
    ensures |r| == |s|
  {
    s[i := s[j]][j := s[i]]
  }

  lemma SwapKeepsBag(s: seq<Candidate>, i: nat, j: nat)
    requires i < |s| && j < |s|
    ensures multiset(Swapped(s, i, j)) == multiset(s)
  {
  }

  lemma SwapKeepsPrefix(s: seq<Candidate>, n: nat, i: nat, j: nat)
    requires i < n <= |s| && j < n
    ensures multiset(Swapped(s, i, j)[..n]) == multiset(s[..n]) && Swapped(s, i, j)[n..] == s[n..]
  {
    assert Swapped(s, i, j)[..n] == Swapped(s[..n], i, j);
    SwapKeepsBag(s[..n], i, j);
  }

  /** s and t agree past n and hold the same candidates below n. */
  ghost predicate Rearranged(s: seq<Candidate>, t: seq<Candidate>, n: nat) {
    |s| == |t| && n <= |s| && multiset(s[..n]) == multiset(t[..n]) && s[n..] == t[n..]
  }

  lemma SwapRearranges(s: seq<Candidate>, t: seq<Candidate>, n: nat, i: nat, j: nat)
    requires Rearranged(s, t, n) && i < n && j < n
    ensures Rearranged(s, Swapped(t, i, j), n)
  {
    SwapKeepsPrefix(t, n, i, j);
  }

  /** The children of the hole do not score below the hole's parent. */
  predicate Bridged(s: seq<Candidate>, n: nat, hole: nat)
    requires n <= |s|
  {
    hole > 0 ==> forall i {:trigger Parent(i)} :: 0 < i < n && Parent(i) == hole && Parent(hole) < |s| ==>
      s[Parent(hole)].score <= s[i].score
  }

  function Smallest(s: seq<Candidate>, n: nat, current: nat): (r: nat)
    requires current < n <= |s|
    ensures r < n && (r == current || (r > 0 && Parent(r) == current))
    ensures s[r].score <= s[current].score && (r != current ==> s[r].score < s[current].score)
    ensures forall i {:trigger Parent(i)} :: 0 < i < n && Parent(i) == current ==> s[r].score <= s[i].score
  {
    var left, right := 2 * current + 1, 2 * current + 2;
    var a := if left < n && s[left].score < s[current].score then left else current;
    if right < n && s[right].score < s[a].score then right else a
  }

  /** Sifting down moves the hole to the smaller child and keeps the rest of the heap. */
  lemma SiftDown(s: seq<Candidate>, n: nat, current: nat)
    requires current < n <= |s| && HeapExcept(s, n, current) && Bridged(s, n, current)
    ensures var c := Smallest(s, n, current);
            if c == current then Heap(s, n)
            else HeapExcept(Swapped(s, c, current), n, c) && Bridged(Swapped(s, c, current), n, c)
  {
    var c := Smallest(s, n, current);
    if c != current {
      var t := Swapped(s, c, current);
      forall i | 0 < i < n && Parent(i) != c
        ensures t[Parent(i)].score <= t[i].score
      {
        if i != current && Parent(i) != current {
          assert s[Parent(i)].score <= s[i].score;
        }
      }
      forall i | 0 < i < n && Parent(i) == c
        ensures t[Parent(c)].score <= t[i].score
      {
        assert s[Parent(i)].score <= s[i].score;
      }
    }
  }

  method HeapifyDown(heap: array<Candidate>, heapSize: nat)
    requires heapSize <= heap.Length && HeapExcept(heap[..], heapSize, 0)
    modifies heap
    ensures Heap(heap[..], heapSize) && Rearranged(old(heap[..]), heap[..], heapSize)
  {
    hide HeapExcept, Bridged, Rearranged;
    ghost var s := heap[..];
    assert Bridged(s, heapSize, 0) && Rearranged(s, s, heapSize) && (heapSize == 0 ==> Heap(s, heapSize))
    by { RootHole(s, heapSize); }
    var current := 0;
    while heapSize > 0
      invariant heapSize > 0 ==> current < heapSize && HeapExcept(heap[..], heapSize, current)
      invariant heapSize > 0 ==> Bridged(heap[..], heapSize, current)
      invariant heapSize == 0 ==> Heap(heap[..], 0)
      invariant Rearranged(s, heap[..], heapSize)
      decreases heapSize - current
    {
      ghost var t := heap[..];
      SiftDown(t, heapSize, current);
      var left := 2 * current + 1;
      var right := left + 1;
      var smallest := current;
      if left < heapSize && heap[left].score < heap[smallest].score {
        smallest := left;
      }
      if right < heapSize && heap[right].score < heap[smallest].score {
        smallest := right;
      }
      if smallest == current {
        break;
      }
      SwapRearranges(s, t, heapSize, smallest, current);
      heap[smallest], heap[current] := heap[current], heap[smallest];
      assert heap[..] == Swapped(t, smallest, current);
      current := smallest;
    }
  }

  lemma RootHole(s: seq<Candidate>, n: nat)
    requires n <= |s|
    ensures Bridged(s, n, 0) && Rearranged(s, s, n) && (n == 0 ==> Heap(s, n))
  {
  }

  /** Every cell below n but cell late scores at least its parent. */
  predicate HeapBut(s: seq<Candidate>, n: nat, late: nat)
    requires n <= |s|
  {
    forall i {:trigger Parent(i)} :: 0 < i < n && i != late ==> s[Parent(i)].score <= s[i].score
  }

  lemma SiftUp(s: seq<Candidate>, n: nat, current: nat)
    requires 0 < current < n <= |s| && HeapBut(s, n, current) && Bridged(s, n, current)
    ensures s[Parent(current)].score <= s[current].score ==> Heap(s, n)
    ensures s[current].score < s[Parent(current)].score ==>
              var t := Swapped(s, Parent(current), current);
              HeapBut(t, n, Parent(current)) && Bridged(t, n, Parent(current))
  {
    var p := Parent(current);
    if s[current].score < s[p].score {
      var t := Swapped(s, p, current);
      forall i | 0 < i < n && i != p
        ensures t[Parent(i)].score <= t[i].score
      {
        if i != current {
          assert s[Parent(i)].score <= s[i].score;
        }
      }
      if p > 0 {
        forall i | 0 < i < n && Parent(i) == p
          ensures t[Parent(p)].score <= t[i].score
        {
          assert s[Parent(p)].score <= s[p].score;
          if i != current {
            assert s[Parent(i)].score <= s[i].score;
          }
        }
      }
    }
  }

  method HeapifyUp(heap: array<Candidate>, heapSize: nat)
    requires 0 < heapSize <= heap.Length && Heap(heap[..], heapSize - 1)
    modifies heap
    ensures Heap(heap[..], heapSize) && Rearranged(old(heap[..]), heap[..], heapSize)
  {
    hide HeapBut, Bridged, Rearranged, Heap;
    ghost var s := heap[..];
    LateLeaf(s, heapSize);
    var current := heapSize - 1;
    while current > 0
      invariant current < heapSize && HeapBut(heap[..], heapSize, current) && Bridged(heap[..], heapSize, current)
      invariant Rearranged(s, heap[..], heapSize)
    {
      ghost var t := heap[..];
      SiftUp(t, heapSize, current);
      var parent := (current - 1) / 2;
      if !(heap[current].score < heap[parent].score) {
        return;
      }
      SwapRearranges(s, t, heapSize, parent, current);
      heap[parent], heap[current] := heap[current], heap[parent];
      assert heap[..] == Swapped(t, parent, current);
      current := parent;
    }
    LateRoot(heap[..], heapSize);
  }

  lemma LateLeaf(s: seq<Candidate>, n: nat)
    requires 0 < n <= |s| && Heap(s, n - 1)
    ensures HeapBut(s, n, n - 1) && Bridged(s, n, n - 1) && Rearranged(s, s, n)
  {
  }

  lemma LateRoot(s: seq<Candidate>, n: nat)
    requires 0 < n <= |s| && HeapBut(s, n, 0)
    ensures Heap(s, n)
  {
  }

  // ----- the best of those seen -----

  /** The bag holds the best n of the candidates seen, each once. */
  ghost predicate Best(bag: multiset<Candidate>, seen: set<Candidate>, n: nat) {
    && |bag| <= n
    && (forall c :: bag[c] <= 1)
    && (forall c :: c in bag ==> c in seen)
    && (|bag| < n ==> forall c :: c in seen ==> c in bag)
    && (forall c, d :: c in bag && d in seen && d !in bag ==> d.score <= c.score)
  }

  lemma {:induction false} BagOfSet(bag: multiset<Candidate>, s: set<Candidate>)
    requires (forall c :: bag[c] <= 1) && (forall c :: c in bag <==> c in s)
    ensures |bag| == |s|
  {
    if s == {} {
      assert bag == multiset{};
    } else {
      var c :| c in s;
      BagOfSet(bag - multiset{c}, s - {c});
      assert bag == (bag - multiset{c}) + multiset{c};
    }
  }

  lemma BagInSet(bag: multiset<Candidate>, s: set<Candidate>)
    requires (forall c :: bag[c] <= 1) && (forall c :: c in bag ==> c in s)
    ensures |bag| <= |s|
  {
    var t := set c | c in s && c in bag;
    BagOfSet(bag, t);
    SubsetSize(t, s);
  }

  lemma SubsetSize(t: set<Candidate>, s: set<Candidate>)
    requires t <= s
    ensures |t| <= |s|
  {
    assert s == t + (s - t);
  }

  /** The best n of the seen are as many as there are, up to n. */
  lemma BestCount(bag: multiset<Candidate>, seen: set<Candidate>, n: nat)
    requires Best(bag, seen, n)
    ensures |bag| == if |seen| < n then |seen| else n
  {
    BagInSet(bag, seen);
    if |bag| < n {
      BagOfSet(bag, seen);
    }
  }

  lemma BestRejects(bag: multiset<Candidate>, seen: set<Candidate>, n: nat, c: Candidate)
    requires Best(bag, seen, n) && |bag| == n && c !in bag
    requires forall d :: d in bag ==> c.score <= d.score
    ensures Best(bag, seen + {c}, n)
  {
  }

  lemma BestAdds(bag: multiset<Candidate>, seen: set<Candidate>, n: nat, c: Candidate)
    requires Best(bag, seen, n) && |bag| < n && c !in seen
    ensures Best(bag + multiset{c}, seen + {c}, n)
  {
  }

  lemma BestReplaces(bag: multiset<Candidate>, seen: set<Candidate>, n: nat, worst: Candidate, c: Candidate)
    requires Best(bag, seen, n) && |bag| == n && c !in seen && worst in bag && worst.score < c.score
    requires forall d :: d in bag ==> worst.score <= d.score
    ensures Best(bag - multiset{worst} + multiset{c}, seen + {c}, n)
  {
  }

  /** Removes the least candidate: the last one takes its place and sifts down. */
  method RemoveRoot(heap: array<Candidate>, heapSize: nat) returns (newSize: nat)
    requires 0 < heapSize <= heap.Length && Heap(heap[..], heapSize)
    modifies heap
    ensures newSize == heapSize - 1 && Heap(heap[..], newSize)
    ensures multiset(heap[..newSize]) == multiset(old(heap[..heapSize])) - multiset{old(heap[0])}
  {
    hide Heap, HeapExcept, Rearranged;
    ghost var s := heap[..];
    newSize := heapSize - 1;
    heap[0] := heap[newSize];
    DropRoot(s, heapSize, heap[..]);
    ghost var t := heap[..];
    HeapifyDown(heap, newSize);
    RearrangedBag(t, heap[..], newSize);
  }

  /** Appends a candidate and sifts it up. */
  method Append(heap: array<Candidate>, heapSize: nat, candidate: Candidate) returns (newSize: nat)
    requires heapSize < heap.Length && Heap(heap[..], heapSize)
    modifies heap
    ensures newSize == heapSize + 1 && Heap(heap[..], newSize)
    ensures multiset(heap[..newSize]) == multiset(old(heap[..heapSize])) + multiset{candidate}
  {
    hide Heap, HeapExcept, Rearranged;
    ghost var s := heap[..];
    heap[heapSize] := candidate;
    AddLeaf(s, heapSize, candidate, heap[..]);
    newSize := heapSize + 1;
    ghost var t := heap[..];
    HeapifyUp(heap, newSize);
    RearrangedBag(t, heap[..], newSize);
  }

  /** Offers one more candidate to the bounded heap. */
  method Offer(heap: array<Candidate>, heapSize: nat, numCandidates: nat, candidate: Candidate,
               ghost seen: set<Candidate>) returns (newSize: nat)
    requires 0 < numCandidates <= heap.Length && heapSize <= numCandidates && Heap(heap[..], heapSize)
    requires Best(multiset(heap[..heapSize]), seen, numCandidates) && candidate !in seen
    modifies heap
    ensures newSize <= numCandidates && Heap(heap[..], newSize)
    ensures Best(multiset(heap[..newSize]), seen + {candidate}, numCandidates)
  {
    hide Heap, HeapExcept, Best, Rearranged;
    newSize := heapSize;
    ghost var s, bag := heap[..], multiset(heap[..heapSize]);
    BestDistinct(bag, seen, numCandidates);
    if heapSize == numCandidates {
      LeastOfBag(s, heapSize);
    }
    if newSize == numCandidates && candidate.score > heap[0].score {
      newSize := RemoveRoot(heap, newSize);
      BestReplaces(bag, seen, numCandidates, s[0], candidate);
    } else if newSize == numCandidates {
      BestRejects(bag, seen, numCandidates, candidate);
    } else {
      BestAdds(bag, seen, numCandidates, candidate);
    }
    if newSize < numCandidates {
      newSize := Append(heap, newSize, candidate);
    }
  }

  lemma BestDistinct(bag: multiset<Candidate>, seen: set<Candidate>, n: nat)
    requires Best(bag, seen, n)
    ensures |bag| <= n && forall c :: c in bag ==> c in seen
  {
  }

  lemma LeastOfBag(s: seq<Candidate>, n: nat)
    requires 0 < n <= |s| && Heap(s, n)
    ensures s[0] in multiset(s[..n]) && forall d :: d in multiset(s[..n]) ==> s[0].score <= d.score
  {
    assert s[..n][0] in s[..n];
    forall d | d in multiset(s[..n])
      ensures s[0].score <= d.score
    {
      var i :| 0 <= i < n && s[..n][i] == d;
      RootIsLeast(s, n, i);
    }
  }

  lemma DropRoot(s: seq<Candidate>, n: nat, t: seq<Candidate>)
    requires 0 < n <= |s| && Heap(s, n) && t == s[0 := s[n - 1]]
    ensures HeapExcept(t, n - 1, 0) && multiset(t[..n - 1]) == multiset(s[..n]) - multiset{s[0]}
  {
    assert s[..n] == s[..n - 1] + [s[n - 1]];
    if n > 1 {
      assert s[..n - 1] == [s[0]] + s[1..n - 1];
      assert t[..n - 1] == [s[n - 1]] + s[1..n - 1];
    }
  }

  lemma AddLeaf(s: seq<Candidate>, n: nat, c: Candidate, t: seq<Candidate>)
    requires n < |s| && Heap(s, n) && t == s[n := c]
    ensures Heap(t, n) && multiset(t[..n + 1]) == multiset(s[..n]) + multiset{c}
  {
    assert t[..n + 1] == s[..n] + [c];
  }

  lemma RearrangedBag(s: seq<Candidate>, t: seq<Candidate>, n: nat)
    requires Rearranged(s, t, n)
    ensures n <= |s| == |t| && multiset(t[..n]) == multiset(s[..n])
  {
  }

  // ----- the scan -----

  /** A sync score for every position: time offset, frequency offset, time and frequency subdivision. */
  type Scores = (int, nat, nat, nat) -> int

  predicate Eligible(wf: Waterfall, scores: Scores, minScore: int, c: Candidate) {
    && c.Fits(wf) && -10 <= c.timeOffset < 20
    && c.score == scores(c.timeOffset, c.freqOffset, c.timeSub, c.freqSub) && c.score >= minScore
  }

  predicate Before(c: Candidate, ts: nat, fs: nat, to: int, fo: nat) {
    || c.timeSub < ts
    || (c.timeSub == ts && c.freqSub < fs)
    || (c.timeSub == ts && c.freqSub == fs && c.timeOffset < to)
    || (c.timeSub == ts && c.freqSub == fs && c.timeOffset == to && c.freqOffset < fo)
  }

  /** The candidates seen when the scan stands at a position. */
  ghost predicate SeenUpTo(wf: Waterfall, scores: Scores, minScore: int, seen: set<Candidate>,
                           ts: nat, fs: nat, to: int, fo: nat)
  {
    forall c :: c in seen <==> Eligible(wf, scores, minScore, c) && Before(c, ts, fs, to, fo)
  }

  /** Descending order of the first n scores. */
  predicate Descending(s: seq<Candidate>, lo: nat, hi: nat)
    requires hi <= |s|
  {
    forall i, j :: lo <= i <= j < hi ==> s[j].score <= s[i].score
  }

  /** The in-place sort: the least of the heap goes behind the rest, until one is left. */
  method SortHeap(heap: array<Candidate>, heapSize: nat)
    requires heapSize <= heap.Length && Heap(heap[..], heapSize)
    modifies heap
    ensures Rearranged(old(heap[..]), heap[..], heapSize) && Descending(heap[..], 0, heapSize)
  {
    hide Heap, HeapExcept, Rearranged, Descending;
    ghost var s := heap[..];
    var lenUnsorted := heapSize;
    SortBegins(s, heapSize);
    while lenUnsorted > 1
      invariant 0 <= lenUnsorted <= heapSize && Heap(heap[..], lenUnsorted) && Rearranged(s, heap[..], heapSize)
      invariant Sorted(heap[..], lenUnsorted, heapSize)
    {
      ghost var t := heap[..];
      var tmp := heap[lenUnsorted - 1];
      heap[lenUnsorted - 1] := heap[0];
      heap[0] := tmp;
      assert heap[..] == Swapped(t, 0, lenUnsorted - 1);
      SwapRearranges(s, t, heapSize, 0, lenUnsorted - 1);
      SortStep(t, lenUnsorted, heapSize);
      lenUnsorted := lenUnsorted - 1;
      ghost var u := heap[..];
      HeapifyDown(heap, lenUnsorted);
      SortKept(s, u, heap[..], lenUnsorted, heapSize);
    }
    SortEnds(heap[..], lenUnsorted, heapSize);
  }

  /** The tail from n on is sorted and scores at most what is before it. */
  predicate Sorted(s: seq<Candidate>, n: nat, size: nat)
    requires n <= size <= |s|
  {
    Descending(s, n, size) && forall i, j :: 0 <= i < n <= j < size ==> s[j].score <= s[i].score
  }

  lemma SortBegins(s: seq<Candidate>, size: nat)
    requires size <= |s|
    ensures Sorted(s, size, size) && Rearranged(s, s, size)
  {
  }

  lemma SortStep(s: seq<Candidate>, n: nat, size: nat)
    requires 1 < n <= size <= |s| && Heap(s, n) && Sorted(s, n, size)
    ensures var t := Swapped(s, 0, n - 1); HeapExcept(t, n - 1, 0) && Sorted(t, n - 1, size)
  {
    forall i | 0 <= i < n
      ensures s[0].score <= s[i].score
    {
      RootIsLeast(s, n, i);
    }
  }

  lemma SortKept(s: seq<Candidate>, u: seq<Candidate>, v: seq<Candidate>, n: nat, size: nat)
    requires n <= size <= |u| && Rearranged(s, u, size) && Rearranged(u, v, n) && Sorted(u, n, size)
    ensures Sorted(v, n, size) && Rearranged(s, v, size)
  {
    forall k | n <= k < size
      ensures v[k] == u[k]
    {
      assert v[n..][k - n] == u[n..][k - n];
    }
    assert v[size..] == u[size..] by {
      assert v[size..] == v[n..][size - n..] && u[size..] == u[n..][size - n..];
    }
    assert v[..size] == v[..n] + v[n..size] && u[..size] == u[..n] + u[n..size];
    assert v[n..size] == u[n..size];
    forall i, j | 0 <= i < n <= j < size
      ensures v[j].score <= v[i].score
    {
      assert v[..n][i] in multiset(v[..n]);
      assert v[i] in multiset(u[..n]);
      var k :| 0 <= k < n && u[..n][k] == v[i];
    }
  }

  lemma SortEnds(s: seq<Candidate>, n: nat, size: nat)
    requires n <= 1 && n <= size <= |s| && Sorted(s, n, size)
    ensures Descending(s, 0, size)
  {
  }

  lemma NothingSeen(wf: Waterfall, scores: Scores, minScore: int)
    ensures SeenUpTo(wf, scores, minScore, {}, 0, 0, -10, 0)
    ensures Best(multiset{}, {}, 0) && forall n: nat :: Best(multiset{}, {}, n)
  {
  }

  /** Rows and subdivisions without positions left add nothing to what is seen. */
  lemma RowEnds(wf: Waterfall, scores: Scores, minScore: int, seen: set<Candidate>, ts: nat, fs: nat, to: int, fo: nat)
    requires SeenUpTo(wf, scores, minScore, seen, ts, fs, to, fo) && fo + wf.NumTones() > wf.numBins
    ensures SeenUpTo(wf, scores, minScore, seen, ts, fs, to + 1, 0)
  {
  }

  lemma OffsetsEnd(wf: Waterfall, scores: Scores, minScore: int, seen: set<Candidate>, ts: nat, fs: nat)
    requires SeenUpTo(wf, scores, minScore, seen, ts, fs, 20, 0)
    ensures SeenUpTo(wf, scores, minScore, seen, ts, fs + 1, -10, 0)
  {
  }

  lemma SubdivisionEnds(wf: Waterfall, scores: Scores, minScore: int, seen: set<Candidate>, ts: nat)
    requires SeenUpTo(wf, scores, minScore, seen, ts, wf.freqOsr, -10, 0)
    ensures SeenUpTo(wf, scores, minScore, seen, ts + 1, 0, -10, 0)
  {
  }

  /** The candidate at the scan's position is the only one the next step adds. */
  lemma SeenStep(wf: Waterfall, scores: Scores, minScore: int, seen: set<Candidate>, c: Candidate)
    requires c.Fits(wf) && -10 <= c.timeOffset < 20
    requires c.score == scores(c.timeOffset, c.freqOffset, c.timeSub, c.freqSub)
    requires SeenUpTo(wf, scores, minScore, seen, c.timeSub, c.freqSub, c.timeOffset, c.freqOffset)
    ensures c !in seen
    ensures SeenUpTo(wf, scores, minScore, if c.score < minScore then seen else seen + {c},
                     c.timeSub, c.freqSub, c.timeOffset, c.freqOffset + 1)
  {
  }

  /** Finds the best candidates, in descending order of score: all eligible ones or the best numCandidates. */
  method FindCandidates(wf: Waterfall, numCandidates: nat, heap: array<Candidate>, minScore: int, scores: Scores)
    returns (count: nat, ghost eligible: set<Candidate>)
    requires 0 < numCandidates <= heap.Length
    modifies heap
    ensures forall c :: c in eligible <==> Eligible(wf, scores, minScore, c)
    ensures count == if |eligible| < numCandidates then |eligible| else numCandidates
    ensures forall i, j :: 0 <= i < j < count ==> heap[i] != heap[j] && heap[j].score <= heap[i].score
    ensures forall i :: 0 <= i < count ==> heap[i] in eligible
    ensures forall c, i :: c in eligible && c !in heap[..count] && 0 <= i < count ==> c.score <= heap[i].score
  {
    hide Heap, HeapExcept, Best, SeenUpTo, Rearranged, Descending, Eligible, Before;
    var numTones := wf.NumTones();
    var heapSize := 0;
    ghost var seen: set<Candidate> := {};
    NothingSeen(wf, scores, minScore);
    assert heap[..0] == [];
    EmptyHeap(heap[..]);
    var timeSub := 0;
    while timeSub < wf.timeOsr
      invariant timeSub <= wf.timeOsr && SeenUpTo(wf, scores, minScore, seen, timeSub, 0, -10, 0)
      invariant Holds(heap[..], heapSize, numCandidates, seen)
    {
      var freqSub := 0;
      while freqSub < wf.freqOsr
        invariant freqSub <= wf.freqOsr && SeenUpTo(wf, scores, minScore, seen, timeSub, freqSub, -10, 0)
        invariant Holds(heap[..], heapSize, numCandidates, seen)
      {
        var timeOffset := -10;
        while timeOffset < 20
          invariant -10 <= timeOffset <= 20 && SeenUpTo(wf, scores, minScore, seen, timeSub, freqSub, timeOffset, 0)
          invariant Holds(heap[..], heapSize, numCandidates, seen)
        {
          heapSize, seen := ScanRow(wf, numCandidates, heap, heapSize, minScore, scores, timeSub, freqSub, timeOffset,
                                    numTones, seen);
          timeOffset := timeOffset + 1;
        }
        OffsetsEnd(wf, scores, minScore, seen, timeSub, freqSub);
        freqSub := freqSub + 1;
      }
      SubdivisionEnds(wf, scores, minScore, seen, timeSub);
      timeSub := timeSub + 1;
    }
    eligible := seen;
    AllSeen(wf, scores, minScore, seen);
    ghost var s := heap[..];
    SortHeap(heap, heapSize);
    count := heapSize;
    RearrangedBag(s, heap[..], heapSize);
    Result(heap[..], heapSize, numCandidates, seen);
  }

  /** The heap's state during the scan. */
  ghost predicate Holds(s: seq<Candidate>, size: nat, n: nat, seen: set<Candidate>) {
    size <= n <= |s| && Heap(s, size) && Best(multiset(s[..size]), seen, n)
  }

  lemma EmptyHeap(s: seq<Candidate>)
    ensures Heap(s, 0)
  {
  }

  /** The innermost loop: all frequency offsets at one time offset and subdivision. */
  method ScanRow(wf: Waterfall, numCandidates: nat, heap: array<Candidate>, heapSize: nat, minScore: int,
                 scores: Scores, timeSub: nat, freqSub: nat, timeOffset: int, numTones: nat,
                 ghost seen: set<Candidate>)
    returns (newSize: nat, ghost seen': set<Candidate>)
    requires 0 < numCandidates && timeSub < wf.timeOsr && freqSub < wf.freqOsr && -10 <= timeOffset < 20
    requires numTones == wf.NumTones()
    requires SeenUpTo(wf, scores, minScore, seen, timeSub, freqSub, timeOffset, 0)
    requires Holds(heap[..], heapSize, numCandidates, seen)
    modifies heap
    ensures SeenUpTo(wf, scores, minScore, seen', timeSub, freqSub, timeOffset + 1, 0)
    ensures Holds(heap[..], newSize, numCandidates, seen')
  {
    hide Heap, HeapExcept, Best, SeenUpTo, Eligible, Before;
    newSize, seen' := heapSize, seen;
    var freqOffset := 0;
    while freqOffset + numTones - 1 < wf.numBins
      invariant 0 <= freqOffset
      invariant SeenUpTo(wf, scores, minScore, seen', timeSub, freqSub, timeOffset, freqOffset)
      invariant Holds(heap[..], newSize, numCandidates, seen')
      decreases wf.numBins - freqOffset
    {
      var candidate := Candidate(scores(timeOffset, freqOffset, timeSub, freqSub), timeOffset, freqOffset,
                                 timeSub, freqSub);
      SeenStep(wf, scores, minScore, seen', candidate);
      if candidate.score >= minScore {
        newSize := Offer(heap, newSize, numCandidates, candidate, seen');
        seen' := seen' + {candidate};
      }
      freqOffset := freqOffset + 1;
    }
    RowEnds(wf, scores, minScore, seen', timeSub, freqSub, timeOffset, freqOffset);
  }

  lemma AllSeen(wf: Waterfall, scores: Scores, minScore: int, seen: set<Candidate>)
    requires SeenUpTo(wf, scores, minScore, seen, wf.timeOsr, 0, -10, 0)
    ensures forall c :: c in seen <==> Eligible(wf, scores, minScore, c)
  {
  }

  /** What the sorted heap says about all candidates seen. */
  lemma Result(s: seq<Candidate>, size: nat, n: nat, seen: set<Candidate>)
    requires size <= |s| && Best(multiset(s[..size]), seen, n) && Descending(s, 0, size)
    ensures size == if |seen| < n then |seen| else n
    ensures forall i, j :: 0 <= i < j < size ==> s[i] != s[j] && s[j].score <= s[i].score
    ensures forall i :: 0 <= i < size ==> s[i] in seen
    ensures forall c, i :: c in seen && c !in s[..size] && 0 <= i < size ==> c.score <= s[i].score
  {
    var t := s[..size];
    BestCount(multiset(t), seen, n);
    forall i, j | 0 <= i < j < size
      ensures s[i] != s[j]
    {
      assert t == t[..j] + t[j..];
      assert t[i] in multiset(t[..j]) by { assert t[..j][i] in t[..j]; }
      assert t[j] in multiset(t[j..]) by { assert t[j..][0] in t[j..]; }
      assert multiset(t) == multiset(t[..j]) + multiset(t[j..]);
    }
    forall i | 0 <= i < size
      ensures s[i] in multiset(t)
    {
      assert t[i] in t;
    }
  }
}
