/**
 PoV recovery: candidates whose block is unknown are recovered after a delay; a recovered block whose
 parent is still being recovered is parked until the parent is there.
 */
module PovRecovery {
  import opened Common

  /** Block hashes are symbolic: a hash commits to the parent hash and the rest of the block. */
  datatype Hash = Root(id: nat) | HashOf(parent: Hash, body: nat)
  datatype Block = Block(parent: Hash, body: nat)

  function BlockHash(b: Block): Hash { HashOf(b.parent, b.body) }

  /** What the parachain client says about a block. */
  datatype Status = Unknown | Known | Failed

  type Parked = map<Hash, seq<Block>>

  function Kids(w: Parked, h: Hash): seq<Block> { if h in w then w[h] else [] }

  ghost predicate WellKeyed(w: Parked) {
    forall h :: h in w ==> w[h] != [] && forall b :: b in w[h] ==> b.parent == h
  }

  function Hashes(bs: seq<Block>): (r: seq<Hash>)
    ensures |r| == |bs| && forall i :: 0 <= i < |r| ==> r[i] == BlockHash(bs[i])
  {
    seq(|bs|, i requires 0 <= i < |bs| => BlockHash(bs[i]))
  }

  lemma HashesAppend(a: seq<Block>, b: seq<Block>)
    ensures Hashes(a + b) == Hashes(a) + Hashes(b)
  {
  }

  lemma HashesCons(b: Block, bs: seq<Block>)
    ensures Hashes([b] + bs) == [BlockHash(b)] + Hashes(bs)
  {
  }

  // ------------------------------------------------------------------ parked descendants

  /** `k` is `root` or descends from it through blocks that are all parked. */
  predicate Reaches(w: Parked, root: Hash, k: Hash)
    decreases k
  {
    k == root || (k.HashOf? && Block(k.parent, k.body) in Kids(w, k.parent) && Reaches(w, root, k.parent))
  }

  ghost predicate ReachesAny(w: Parked, roots: seq<Hash>, k: Hash) { exists r :: r in roots && Reaches(w, r, k) }

  lemma {:induction false} ReachesThrough(w: Parked, root: Hash, mid: Hash, k: Hash)
    requires Reaches(w, root, mid) && Reaches(w, mid, k)
    ensures Reaches(w, root, k)
    decreases k
  {
    if k != mid { ReachesThrough(w, root, mid, k.parent); }
  }

  lemma {:induction false} ReachesMore(w: Parked, h: Hash, root: Hash, k: Hash)
    requires Reaches(w - {h}, root, k)
    ensures Reaches(w, root, k)
    decreases k
  {
    if k != root { ReachesMore(w, h, root, k.parent); }
  }

  /** Without the list under `h`, a descendant is still reached or it descends from `h`. */
  lemma {:induction false} ReachesLess(w: Parked, h: Hash, root: Hash, k: Hash)
    requires Reaches(w, root, k)
    ensures Reaches(w - {h}, root, k) || Reaches(w, h, k)
    decreases k
  {
    if k != root && k.parent != h { ReachesLess(w, h, root, k.parent); }
  }

  /** A proper parked descendant of `h` descends from one of the blocks parked under `h`. */
  lemma {:induction false} ReachesViaChild(w: Parked, h: Hash, k: Hash)
    requires Reaches(w, h, k) && k != h
    ensures h in w && exists c :: c in w[h] && Reaches(w - {h}, BlockHash(c), k)
    decreases k
  {
    if k.parent == h {
      assert Block(k.parent, k.body) in w[h] && Reaches(w - {h}, BlockHash(Block(k.parent, k.body)), k);
    } else {
      ReachesViaChild(w, h, k.parent);
      var c :| c in w[h] && Reaches(w - {h}, BlockHash(c), k.parent);
      assert Reaches(w - {h}, BlockHash(c), k);
    }
  }

  lemma {:induction false} NothingBelow(w: Parked, h: Hash, k: Hash)
    requires h !in w && Reaches(w, h, k)
    ensures k == h
  {
    if k != h { NothingBelow(w, h, k.parent); }
  }

  /** One turn of either worklist: taking `h` off and putting the blocks parked under it on changes nothing below. */
  lemma TurnKeepsReach(w: Parked, h: Hash, others: seq<Hash>, k: Hash)
    requires WellKeyed(w) && k in w
    ensures h !in w ==> (ReachesAny(w, [h] + others, k) <==> ReachesAny(w, others, k))
    ensures h in w && k != h ==> (ReachesAny(w, [h] + others, k) <==> ReachesAny(w - {h}, others + Hashes(w[h]), k))
  {
    if h !in w {
      if ReachesAny(w, [h] + others, k) {
        var r :| r in [h] + others && Reaches(w, r, k);
        if r == h { NothingBelow(w, h, k); }
      }
      if ReachesAny(w, others, k) {
        var r :| r in others && Reaches(w, r, k);
        assert r in [h] + others;
      }
    } else if k != h {
      if ReachesAny(w, [h] + others, k) { TurnForward(w, h, others, k); }
      TurnBackward(w, h, others, k);
    }
  }

  lemma TurnForward(w: Parked, h: Hash, others: seq<Hash>, k: Hash)
    requires h in w && k != h && ReachesAny(w, [h] + others, k)
    ensures ReachesAny(w - {h}, others + Hashes(w[h]), k)
  {
    var r :| r in [h] + others && Reaches(w, r, k);
    if r != h { ReachesLess(w, h, r, k); }
    if r in others && Reaches(w - {h}, r, k) {
      assert r in others + Hashes(w[h]);
    } else {
      ReachesViaChild(w, h, k);
      var c :| c in w[h] && Reaches(w - {h}, BlockHash(c), k);
      var i :| 0 <= i < |w[h]| && w[h][i] == c;
      assert Hashes(w[h])[i] == BlockHash(c);
      assert BlockHash(c) in others + Hashes(w[h]);
    }
  }

  lemma TurnBackward(w: Parked, h: Hash, others: seq<Hash>, k: Hash)
    requires WellKeyed(w) && h in w
    ensures ReachesAny(w - {h}, others + Hashes(w[h]), k) ==> ReachesAny(w, [h] + others, k)
  {
    if ReachesAny(w - {h}, others + Hashes(w[h]), k) {
      var r :| r in others + Hashes(w[h]) && Reaches(w - {h}, r, k);
      ReachesMore(w, h, r, k);
      if r in others {
        assert r in [h] + others;
      } else {
        var i :| 0 <= i < |w[h]| && Hashes(w[h])[i] == r;
        assert w[h][i] in w[h];
        assert Reaches(w, h, r);
        ReachesThrough(w, h, r, k);
        assert h in [h] + others;
      }
    }
  }

  /** Without the parked descendants of the roots. */
  ghost function Without(w: Parked, roots: seq<Hash>): Parked {
    map k | k in w && !ReachesAny(w, roots, k) :: w[k]
  }

  lemma TurnWithout(w: Parked, h: Hash, others: seq<Hash>)
    requires WellKeyed(w)
    ensures h !in w ==> Without(w, others) == Without(w, [h] + others)
    ensures h in w ==> Without(w - {h}, others + Hashes(w[h])) == Without(w, [h] + others)
  {
    forall k | k in w
      ensures h !in w ==> (ReachesAny(w, [h] + others, k) <==> ReachesAny(w, others, k))
      ensures h in w && k != h ==> (ReachesAny(w, [h] + others, k) <==> ReachesAny(w - {h}, others + Hashes(w[h]), k))
    {
      TurnKeepsReach(w, h, others, k);
    }
    if h in w {
      assert h in [h] + others && Reaches(w, h, h);
    }
  }

  // ------------------------------------------------------------------ the two worklists

  /** `clear_waiting_for_parent`: a stack of hashes whose parked children are dropped. */
  function ClearWaiting(stack: seq<Hash>, w: Parked): Parked
    decreases w.Keys, |stack|
  {
    if stack == [] then w
    else
      var n := |stack| - 1;
      if stack[n] in w then ClearWaiting(stack[..n] + Hashes(w[stack[n]]), w - {stack[n]})
      else ClearWaiting(stack[..n], w)
  }

  /** `import_block`: a queue of blocks; importing one releases the blocks parked under it. */
  function ImportQueue(queue: seq<Block>, w: Parked): (seq<Block>, Parked)
    decreases w.Keys, |queue|
  {
    if queue == [] then ([], w)
    else
      var h := BlockHash(queue[0]);
      var (rest, w') := if h in w then ImportQueue(queue[1..] + w[h], w - {h}) else ImportQueue(queue[1..], w);
      ([queue[0]] + rest, w')
  }

  lemma SameRoots(w: Parked, a: seq<Hash>, b: seq<Hash>)
    requires forall h :: h in a <==> h in b
    ensures Without(w, a) == Without(w, b)
  {
    forall k | k in w ensures ReachesAny(w, a, k) <==> ReachesAny(w, b, k) {
      if ReachesAny(w, a, k) { var r :| r in a && Reaches(w, r, k); assert r in b; }
      if ReachesAny(w, b, k) { var r :| r in b && Reaches(w, r, k); assert r in a; }
    }
  }

  /** Clearing removes exactly the lists parked under the given hashes and their parked descendants. */
  lemma {:induction false} ClearRemovesDescendants(stack: seq<Hash>, w: Parked)
    requires WellKeyed(w)
    ensures ClearWaiting(stack, w) == Without(w, stack)
    decreases w.Keys, |stack|
  {
    if stack == [] {
      assert Without(w, []) == w;
    } else {
      var n := |stack| - 1;
      var h, init := stack[n], stack[..n];
      assert stack == init + [h];
      SameRoots(w, stack, [h] + init);
      TurnWithout(w, h, init);
      if h in w {
        ClearRemovesDescendants(init + Hashes(w[h]), w - {h});
      } else {
        ClearRemovesDescendants(init, w);
      }
    }
  }

  /** Importing leaves no parked descendant of any imported block, and touches nothing else. */
  lemma {:induction false} ImportReleasesDescendants(queue: seq<Block>, w: Parked)
    requires WellKeyed(w)
    ensures ImportQueue(queue, w).1 == Without(w, Hashes(queue))
    decreases w.Keys, |queue|
  {
    if queue == [] {
      assert Without(w, []) == w;
    } else {
      var h := BlockHash(queue[0]);
      assert Hashes(queue) == [h] + Hashes(queue[1..]);
      TurnWithout(w, h, Hashes(queue[1..]));
      if h in w {
        assert Hashes(queue[1..] + w[h]) == Hashes(queue[1..]) + Hashes(w[h]);
        ImportReleasesDescendants(queue[1..] + w[h], w - {h});
      } else {
        ImportReleasesDescendants(queue[1..], w);
      }
    }
  }

  /** Every block of `rest` has its parent in `done` or earlier in `rest`. */
  ghost predicate ParentsEarlier(done: seq<Block>, rest: seq<Block>) {
    forall i :: 0 <= i < |rest| ==> rest[i].parent in Hashes(done) + Hashes(rest[..i])
  }

  ghost predicate ParentsIn(done: seq<Block>, queue: seq<Block>) {
    forall b :: b in queue ==> b.parent in Hashes(done)
  }

  /** A block moved from the end of one list to the front of the next leaves the hashes of both as they are. */
  lemma HashesShift(done: seq<Block>, b: Block, rest: seq<Block>)
    ensures Hashes(done + [b]) + Hashes(rest) == Hashes(done) + Hashes([b] + rest)
  {
    hide Hashes;
    HashesAppend(done, [b]);
    HashesAppend([b], rest);
    Associative(Hashes(done), Hashes([b]), Hashes(rest));
  }

  lemma ParentsEarlierHead(done: seq<Block>, b: Block, rest: seq<Block>)
    requires b.parent in Hashes(done) && ParentsEarlier(done + [b], rest)
    ensures ParentsEarlier(done, [b] + rest)
  {
    hide Hashes;
    var all := [b] + rest;
    forall i | 0 <= i < |all| ensures all[i].parent in Hashes(done) + Hashes(all[..i]) {
      if i > 0 {
        var before := rest[..i - 1];
        assert all[i] == rest[i - 1] && all[..i] == [b] + before;
        assert all[i].parent in Hashes(done + [b]) + Hashes(before);
        HashesShift(done, b, before);
      }
    }
  }

  lemma ParentsInGrow(done: seq<Block>, b: Block, queue: seq<Block>, w: Parked)
    requires WellKeyed(w) && ParentsIn(done, queue)
    ensures ParentsIn(done + [b], queue + Kids(w, BlockHash(b)))
  {
    assert Hashes(done + [b]) == Hashes(done) + [BlockHash(b)];
    forall c | c in queue + Kids(w, BlockHash(b)) ensures c.parent in Hashes(done + [b]) {}
  }

  lemma {:induction false} ImportKeepsOrder(done: seq<Block>, queue: seq<Block>, w: Parked)
    requires WellKeyed(w) && ParentsIn(done, queue)
    ensures ParentsEarlier(done, ImportQueue(queue, w).0)
    decreases w.Keys, |queue|
  {
    if queue != [] {
      var b := queue[0];
      var h := BlockHash(b);
      assert b in queue;
      assert ParentsIn(done, queue[1..]);
      ParentsInGrow(done, b, queue[1..], w);
      if h in w {
        ImportKeepsOrder(done + [b], queue[1..] + w[h], w - {h});
        ParentsEarlierHead(done, b, ImportQueue(queue[1..] + w[h], w - {h}).0);
      } else {
        assert queue[1..] + [] == queue[1..];
        ImportKeepsOrder(done + [b], queue[1..], w);
        ParentsEarlierHead(done, b, ImportQueue(queue[1..], w).0);
      }
    }
  }

  /**
   The batch of `import_block(block)`: it opens with the block, every later block has its parent
   earlier in the batch, and what stays parked is exactly what does not descend from the block.
   */
  lemma ImportBatch(block: Block, w: Parked)
    requires WellKeyed(w)
    ensures var (batch, w') := ImportQueue([block], w);
            && batch != [] && batch[0] == block && ParentsEarlier([block], batch[1..])
            && w' == Without(w, [BlockHash(block)])
  {
    ImportReleasesDescendants([block], w);
    assert Hashes([block]) == [BlockHash(block)];
    var h := BlockHash(block);
    assert [block][1..] == [];
    if h in w {
      ParentsInGrow([], block, [], w);
      assert [] + [block] == [block] && [] + w[h] == w[h];
      ImportKeepsOrder([block], w[h], w - {h});
    }
  }

  function Height(h: Hash): nat
    decreases h
  {
    if h.Root? then 0 else 1 + Height(h.parent)
  }

  /** The blocks ascend by height, within two neighbouring heights. */
  ghost predicate TwoGenerations(queue: seq<Block>) {
    forall i, j :: 0 <= i < j < |queue| ==>
      Height(queue[i].parent) <= Height(queue[j].parent) <= Height(queue[0].parent) + 1
  }

  ghost predicate ByHeight(least: nat, batch: seq<Block>) {
    && (forall i :: 0 <= i < |batch| ==> least <= Height(batch[i].parent))
    && (forall i, j :: 0 <= i < j < |batch| ==> Height(batch[i].parent) <= Height(batch[j].parent))
  }

  lemma NextGeneration(queue: seq<Block>, w: Parked)
    requires WellKeyed(w) && queue != [] && TwoGenerations(queue)
    ensures var q := queue[1..] + Kids(w, BlockHash(queue[0]));
            TwoGenerations(q) && (q != [] ==> Height(queue[0].parent) <= Height(q[0].parent))
  {
    var rest, kids := queue[1..], Kids(w, BlockHash(queue[0]));
    var q, low := rest + kids, Height(queue[0].parent);
    forall i | 0 <= i < |q|
      ensures low <= Height(q[i].parent) <= low + 1 && (i >= |rest| ==> Height(q[i].parent) == low + 1)
    {
      if i < |rest| { assert q[i] == queue[i + 1]; } else { assert q[i] == kids[i - |rest|] && q[i] in kids; }
    }
    forall i, j | 0 <= i < j < |q| ensures Height(q[i].parent) <= Height(q[j].parent) {
      if j < |rest| { assert q[i] == queue[i + 1] && q[j] == queue[j + 1]; }
    }
  }

  /** Blocks are imported generation by generation. */
  lemma {:induction false} ImportIsByHeight(queue: seq<Block>, w: Parked)
    requires WellKeyed(w) && TwoGenerations(queue)
    ensures ByHeight(if queue == [] then 0 else Height(queue[0].parent), ImportQueue(queue, w).0)
    decreases w.Keys, |queue|
  {
    if queue != [] {
      var h := BlockHash(queue[0]);
      NextGeneration(queue, w);
      hide TwoGenerations;
      if h in w {
        ImportIsByHeight(queue[1..] + w[h], w - {h});
      } else {
        assert queue[1..] + [] == queue[1..];
        ImportIsByHeight(queue[1..], w);
      }
      var q := queue[1..] + Kids(w, h);
      var rest := ImportQueue(queue, w).0[1..];
      assert q == [] ==> rest == [];
    }
  }

  /** The batch of one block ascends by height: a block's whole generation goes before any of its children. */
  lemma ImportGenerations(block: Block, w: Parked)
    requires WellKeyed(w)
    ensures var batch := ImportQueue([block], w).0;
            forall i, j :: 0 <= i < j < |batch| ==> Height(batch[i].parent) <= Height(batch[j].parent)
  {
    ImportIsByHeight([block], w);
  }

  lemma ReachesItself(w: Parked, h: Hash, others: seq<Hash>)
    ensures ReachesAny(w, [h] + others, h)
  {
    assert h in [h] + others && Reaches(w, h, h);
  }

  /** `b` is queued, or parked below a queued block. */
  ghost predicate Due(queue: seq<Block>, w: Parked, b: Block) {
    b in queue || (b in Kids(w, b.parent) && ReachesAny(w, Hashes(queue), b.parent))
  }

  lemma DueReleased(q: Block, rest: seq<Block>, w: Parked, b: Block)
    requires WellKeyed(w) && BlockHash(q) in w
    ensures Due([q] + rest, w, b) <==> b == q || Due(rest + w[BlockHash(q)], w - {BlockHash(q)}, b)
  {
    hide Hashes;
    hide ReachesAny;
    var h := BlockHash(q);
    HashesCons(q, rest);
    HashesAppend(rest, w[h]);
    assert b in [q] + rest <==> b == q || b in rest;
    assert b in rest + w[h] <==> b in rest || b in w[h];
    if b.parent == h {
      ReachesItself(w, h, Hashes(rest));
    } else if b.parent in w {
      TurnKeepsReach(w, h, Hashes(rest), b.parent);
    }
  }

  lemma DueUnreleased(q: Block, rest: seq<Block>, w: Parked, b: Block)
    requires WellKeyed(w) && BlockHash(q) !in w
    ensures Due([q] + rest, w, b) <==> b == q || Due(rest, w, b)
  {
    hide Hashes;
    hide ReachesAny;
    HashesCons(q, rest);
    assert b in [q] + rest <==> b == q || b in rest;
    if b.parent in w { TurnKeepsReach(w, BlockHash(q), Hashes(rest), b.parent); }
  }

  /** A block is in the batch exactly if it was queued or parked below a queued block. */
  lemma {:induction false} ImportContents(queue: seq<Block>, w: Parked, b: Block)
    requires WellKeyed(w)
    ensures b in ImportQueue(queue, w).0 <==> Due(queue, w, b)
    decreases w.Keys, |queue|
  {
    if queue == [] {
      assert Hashes([]) == [];
    } else {
      hide Due;
      var q, rest := queue[0], queue[1..];
      var h := BlockHash(q);
      assert queue == [q] + rest;
      if h in w {
        ImportContents(rest + w[h], w - {h}, b);
        DueReleased(q, rest, w, b);
      } else {
        ImportContents(rest, w, b);
        DueUnreleased(q, rest, w, b);
      }
    }
  }

  // ------------------------------------------------------------------ the event loop

  /**
   Candidates waiting for their timer (with their block number), outstanding timers, hashes marked as
   being recovered, outstanding recoveries, parked blocks, and the batches given to the import queue.
   */
  datatype State = State(pending: map<Hash, nat>, timers: multiset<Hash>, candidates: set<Hash>,
                         recoveries: multiset<Hash>, waiting: Parked, imported: seq<seq<Block>>)

  const Initial := State(map[], multiset{}, {}, multiset{}, map[], [])

  datatype Header = Header(hash: Hash, number: nat)

  datatype Event =
    | PendingCandidate(header: Option<Header>, finalizedNumber: nat, status: Status)
    | BlockImported(hash: Hash)
    | BlockFinalized(number: nat)
    | TimerFired(hash: Hash)
    | CandidateRecovered(hash: Hash, block: Option<Block>, parentStatus: Status)

  /** A timer fires only if it is outstanding, a recovery ends only if it is outstanding. */
  predicate Enabled(s: State, e: Event) {
    match e
    case TimerFired(h) => h in s.timers
    case CandidateRecovered(h, _, _) => h in s.recoveries
    case _ => true
  }

  /** The recovered block, if there is one, is the block of the candidate. */
  predicate Genuine(e: Event) {
    e.CandidateRecovered? && e.block.Some? ==> BlockHash(e.block.value) == e.hash
  }

  function Recovered(s: State, h: Hash, block: Option<Block>, parentStatus: Status): State {
    if block.None? || parentStatus.Failed? then s.(waiting := ClearWaiting([h], s.waiting))
    else
      var b := block.value;
      if parentStatus.Unknown? then
        if b.parent in s.candidates then s.(waiting := s.waiting[b.parent := Kids(s.waiting, b.parent) + [b]])
        else s.(waiting := ClearWaiting([h], s.waiting))
      else
        var (batch, w) := ImportQueue([b], s.waiting);
        s.(waiting := w, imported := s.imported + [batch])
  }

  function Step(s: State, e: Event): State
    requires Enabled(s, e)
  {
    match e
    case PendingCandidate(header, finalizedNumber, status) =>
      if header.None? || header.value.number <= finalizedNumber || !status.Unknown? then s
      else
        var h := header.value.hash;
        s.(pending := s.pending[h := header.value.number],
           timers := if h in s.pending then s.timers else s.timers + multiset{h})
    case BlockImported(h) => s.(pending := s.pending - {h})
    case BlockFinalized(n) => s.(pending := map h | h in s.pending && s.pending[h] > n :: s.pending[h])
    case TimerFired(h) =>
      var s' := s.(timers := s.timers - multiset{h});
      if h !in s.pending then s'
      else s'.(pending := s.pending - {h}, candidates := s.candidates + {h}, recoveries := s.recoveries + multiset{h})
    case CandidateRecovered(h, block, parentStatus) =>
      Recovered(s.(candidates := s.candidates - {h}, recoveries := s.recoveries - multiset{h}), h, block, parentStatus)
  }

  ghost predicate EnabledRun(s: State, events: seq<Event>)
    decreases |events|
  {
    events == [] || (Enabled(s, events[0]) && Genuine(events[0]) && EnabledRun(Step(s, events[0]), events[1..]))
  }

  function Run(s: State, events: seq<Event>): State
    requires EnabledRun(s, events)
    decreases |events|
  {
    if events == [] then s else Run(Step(s, events[0]), events[1..])
  }

  // ------------------------------------------------------------------ nothing is stranded

  /** `k` is being recovered, or it is parked under a hash of which that holds. */
  ghost predicate Anchored(w: Parked, cs: set<Hash>, k: Hash)
    decreases k
  {
    k in cs || (k.HashOf? && Block(k.parent, k.body) in Kids(w, k.parent) && Anchored(w, cs, k.parent))
  }

  ghost predicate AllAnchored(w: Parked, cs: set<Hash>) { forall k :: k in w ==> Anchored(w, cs, k) }

  ghost predicate Good(s: State) {
    && WellKeyed(s.waiting)
    && AllAnchored(s.waiting, s.candidates)
    && (forall h :: h in s.candidates ==> h in s.recoveries)
    && (forall h :: h in s.pending ==> h in s.timers)
  }

  lemma {:induction false} StillAnchored(w: Parked, cs: set<Hash>, h: Hash, k: Hash)
    requires Anchored(w, cs, k) && !ReachesAny(w, [h], k)
    ensures Anchored(Without(w, [h]), cs - {h}, k)
    decreases k
  {
    assert h in [h];
    if k in cs {
      assert k != h by { assert Reaches(w, h, h); }
    } else {
      var p := k.parent;
      assert Reaches(w, h, p) ==> Reaches(w, h, k);
      assert !ReachesAny(w, [h], p);
      StillAnchored(w, cs, h, p);
    }
  }

  /** Dropping or importing a candidate with its parked descendants leaves the others anchored. */
  lemma WithoutAnchored(w: Parked, cs: set<Hash>, h: Hash)
    requires WellKeyed(w) && AllAnchored(w, cs)
    ensures WellKeyed(Without(w, [h])) && AllAnchored(Without(w, [h]), cs - {h})
  {
    var w' := Without(w, [h]);
    forall k | k in w' ensures Anchored(w', cs - {h}, k) { StillAnchored(w, cs, h, k); }
  }

  lemma {:induction false} ParkedAnchored(w: Parked, cs: set<Hash>, b: Block, k: Hash)
    requires Anchored(w, cs, k) && b.parent in cs - {BlockHash(b)}
    ensures Anchored(w[b.parent := Kids(w, b.parent) + [b]], cs - {BlockHash(b)}, k)
    decreases k
  {
    if k in cs {
      if k == BlockHash(b) { assert Anchored(w[b.parent := Kids(w, b.parent) + [b]], cs - {BlockHash(b)}, b.parent); }
    } else {
      ParkedAnchored(w, cs, b, k.parent);
    }
  }

  lemma ParkGood(w: Parked, cs: set<Hash>, b: Block)
    requires WellKeyed(w) && AllAnchored(w, cs) && b.parent in cs - {BlockHash(b)}
    ensures var w' := w[b.parent := Kids(w, b.parent) + [b]]; WellKeyed(w') && AllAnchored(w', cs - {BlockHash(b)})
  {
    var w' := w[b.parent := Kids(w, b.parent) + [b]];
    forall k | k in w' ensures Anchored(w', cs - {BlockHash(b)}, k) {
      if k != b.parent { ParkedAnchored(w, cs, b, k); }
    }
  }

  lemma RecoveredGood(s: State, h: Hash, block: Option<Block>, parentStatus: Status)
    requires Good(s) && h in s.recoveries && (block.Some? ==> BlockHash(block.value) == h)
    ensures Good(Step(s, CandidateRecovered(h, block, parentStatus)))
  {
    hide ClearWaiting;
    hide ImportQueue;
    var w, cs := s.waiting, s.candidates;
    ClearRemovesDescendants([h], w);
    WithoutAnchored(w, cs, h);
    if block.Some? {
      ImportBatch(block.value, w);
      if block.value.parent in cs - {h} { ParkGood(w, cs, block.value); }
    }
    var s' := Step(s, CandidateRecovered(h, block, parentStatus));
    forall c | c in s'.candidates ensures c in s'.recoveries { assert c != h && c in s.recoveries; }
  }

  lemma StepGood(s: State, e: Event)
    requires Good(s) && Enabled(s, e) && Genuine(e)
    ensures Good(Step(s, e))
  {
    match e {
      case CandidateRecovered(h, block, parentStatus) => RecoveredGood(s, h, block, parentStatus);
      case TimerFired(h) =>
        var s' := Step(s, e);
        forall k | k in s'.waiting ensures Anchored(s'.waiting, s'.candidates, k) { MoreCandidates(s.waiting, s.candidates, s'.candidates, k); }
      case _ =>
    }
  }

  lemma {:induction false} MoreCandidates(w: Parked, cs: set<Hash>, cs': set<Hash>, k: Hash)
    requires Anchored(w, cs, k) && cs <= cs'
    ensures Anchored(w, cs', k)
    decreases k
  {
    if k !in cs { MoreCandidates(w, cs, cs', k.parent); }
  }

  lemma {:induction false} RunGood(s: State, events: seq<Event>)
    requires Good(s) && EnabledRun(s, events)
    ensures Good(Run(s, events))
    decreases |events|
  {
    if events != [] {
      hide Good;
      hide Step;
      StepGood(s, events[0]);
      RunGood(Step(s, events[0]), events[1..]);
    }
  }

  /** `a` is `k` or one of its ancestors. */
  predicate IsAncestor(a: Hash, k: Hash)
    decreases k
  {
    a == k || (k.HashOf? && IsAncestor(a, k.parent))
  }

  lemma {:induction false} AnchorIsAncestor(w: Parked, cs: set<Hash>, k: Hash)
    requires Anchored(w, cs, k)
    ensures exists a :: a in cs && IsAncestor(a, k)
    decreases k
  {
    if k in cs {
      assert IsAncestor(k, k);
    } else {
      AnchorIsAncestor(w, cs, k.parent);
      var a :| a in cs && IsAncestor(a, k.parent);
      assert IsAncestor(a, k);
    }
  }

  /**
   Nothing is stranded: after any run of events, in any order and with candidates recovered any number
   of times, every parked block has an ancestor whose recovery is still outstanding, and every pending
   candidate has an outstanding timer.
   */
  lemma NothingStranded(events: seq<Event>, h: Hash, b: Block)
    requires EnabledRun(Initial, events)
    ensures var s := Run(Initial, events);
            && (h in s.waiting && b in s.waiting[h] ==> b.parent == h && exists a :: a in s.recoveries && IsAncestor(a, h))
            && (h in s.pending ==> h in s.timers)
  {
    RunGood(Initial, events);
    var s := Run(Initial, events);
    if h in s.waiting {
      AnchorIsAncestor(s.waiting, s.candidates, h);
      var a :| a in s.candidates && IsAncestor(a, h);
      assert a in s.recoveries;
    }
  }

  /** Once no recovery is outstanding, no block is parked. */
  lemma QuietMeansEmpty(events: seq<Event>)
    requires EnabledRun(Initial, events) && Run(Initial, events).recoveries == multiset{}
    ensures Run(Initial, events).waiting == map[]
  {
    var s := Run(Initial, events);
    forall h | h in s.waiting ensures false {
      RunGood(Initial, events);
      NothingStranded(events, h, s.waiting[h][0]);
    }
  }

  lemma ReachesOne(w: Parked, root: Hash, k: Hash)
    ensures ReachesAny(w, [root], k) <==> Reaches(w, root, k)
  {
    hide Reaches;
    assert root in [root];
  }

  /**
   A recovery of `h` that delivers a block with an importable parent releases what is parked under `h`
   if and only if that block is the candidate's or a parked ancestor of it.
   */
  lemma RecoveryReleasesIff(s: State, h: Hash, b: Block)
    requires WellKeyed(s.waiting) && h in s.waiting && h in s.recoveries
    ensures h !in Step(s, CandidateRecovered(h, Some(b), Known)).waiting <==> Reaches(s.waiting, BlockHash(b), h)
  {
    hide ImportQueue;
    hide Reaches;
    hide ParentsEarlier;
    ImportBatch(b, s.waiting);
    ReachesOne(s.waiting, BlockHash(b), h);
  }

  /**
   Why the recovered block must be the candidate's: the last recovery of `h` leaves the block parked
   under `h` behind, although nothing is being recovered any more, if and only if it delivers another block.
   */
  lemma ForeignBlockStrands(child: Block, delivered: Block)
    ensures var h := child.parent;
            var s := State(map[], multiset{}, {h}, multiset{h}, map[h := [child]], []);
            var s' := Step(s, CandidateRecovered(h, Some(delivered), Known));
            Good(s) && s'.recoveries == multiset{} && (h in s'.waiting <==> BlockHash(delivered) != h)
  {
    var h := child.parent;
    var s := State(map[], multiset{}, {h}, multiset{h}, map[h := [child]], []);
    RecoveryReleasesIff(s, h, delivered);
    if h.HashOf? { assert h.parent != h; }
  }
}
