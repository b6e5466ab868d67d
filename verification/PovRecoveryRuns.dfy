/**
 What becomes of every candidate and every recovered block: who is recovered, what is parked, and that a
 parked block is imported with its parent unless the recovery of an ancestor fails.
 */
module PovRecoveryRuns {
  import opened Common
  import opened PovRecovery

  // ------------------------------------------------------------------ the life of a candidate

  /** The relay chain reports the block as pending, above what is finalized, and the client does not know it. */
  predicate Announces(e: Event, h: Hash) {
    e.PendingCandidate? && e.header.Some? && e.header.value.hash == h && e.header.value.number > e.finalizedNumber && e.status.Unknown?
  }

  /** The candidate stops being pending: it was imported, its height was finalized, or its recovery starts. */
  predicate Settles(s: State, e: Event, h: Hash) {
    || e == BlockImported(h) || e == TimerFired(h)
    || (e.BlockFinalized? && h in s.pending && s.pending[h] <= e.number)
  }

  predicate StartsRecovery(s: State, e: Event, h: Hash) { e == TimerFired(h) && h in s.pending }

  predicate EndsRecovery(e: Event, h: Hash) { e.CandidateRecovered? && e.hash == h }

  lemma PendingLife(s: State, e: Event, h: Hash)
    requires Enabled(s, e)
    ensures h in Step(s, e).pending <==> Announces(e, h) || (h in s.pending && !Settles(s, e, h))
  {
    hide Recovered;
    if e.CandidateRecovered? { RecoveredAside(s.(candidates := s.candidates - {e.hash}, recoveries := s.recoveries - multiset{e.hash}), e); }
  }

  lemma TimerLife(s: State, e: Event, h: Hash)
    requires Enabled(s, e)
    ensures Step(s, e).timers[h] == s.timers[h] + (if Announces(e, h) && h !in s.pending then 1 else 0) - (if e == TimerFired(h) then 1 else 0)
  {
    hide Recovered;
    if e.CandidateRecovered? { RecoveredAside(s.(candidates := s.candidates - {e.hash}, recoveries := s.recoveries - multiset{e.hash}), e); }
  }

  lemma RecoveryLife(s: State, e: Event, h: Hash)
    requires Enabled(s, e)
    ensures var s' := Step(s, e);
            && s'.recoveries[h] == s.recoveries[h] + (if StartsRecovery(s, e, h) then 1 else 0) - (if EndsRecovery(e, h) then 1 else 0)
            && (h in s'.candidates <==> StartsRecovery(s, e, h) || (h in s.candidates && !EndsRecovery(e, h)))
  {
    hide Recovered;
    if e.CandidateRecovered? { RecoveredAside(s.(candidates := s.candidates - {e.hash}, recoveries := s.recoveries - multiset{e.hash}), e); }
  }

  lemma RecoveredAside(s: State, e: Event)
    requires e.CandidateRecovered?
    ensures var s' := Recovered(s, e.hash, e.block, e.parentStatus);
            s'.pending == s.pending && s'.timers == s.timers && s'.candidates == s.candidates && s'.recoveries == s.recoveries
  {
    hide ClearWaiting;
    hide ImportQueue;
  }

  /**
   The life of a candidate, event by event: it becomes pending if and only if it is announced, and stays so
   until it settles; a timer is set if and only if it was not pending before; and its recovery starts if
   and only if its timer fires while it is pending.
   */
  lemma CandidateLife(s: State, e: Event, h: Hash)
    requires Enabled(s, e)
    ensures var s' := Step(s, e);
            && (h in s'.pending <==> Announces(e, h) || (h in s.pending && !Settles(s, e, h)))
            && s'.timers[h] == s.timers[h] + (if Announces(e, h) && h !in s.pending then 1 else 0) - (if e == TimerFired(h) then 1 else 0)
            && s'.recoveries[h] == s.recoveries[h] + (if StartsRecovery(s, e, h) then 1 else 0) - (if EndsRecovery(e, h) then 1 else 0)
            && (h in s'.candidates <==> StartsRecovery(s, e, h) || (h in s.candidates && !EndsRecovery(e, h)))
  {
    hide Step;
    hide Announces;
    hide Settles;
    PendingLife(s, e, h);
    TimerLife(s, e, h);
    RecoveryLife(s, e, h);
  }

  ghost predicate SettlesIn(s: State, events: seq<Event>, h: Hash)
    requires EnabledRun(s, events)
    decreases |events|
  {
    events != [] && ((h in s.pending && Settles(s, events[0], h)) || SettlesIn(Step(s, events[0]), events[1..], h))
  }

  /** A pending candidate stays pending, with a timer outstanding, until it settles. */
  lemma {:induction false} PendingUntilSettled(s: State, events: seq<Event>, h: Hash)
    requires Good(s) && EnabledRun(s, events) && h in s.pending
    ensures SettlesIn(s, events, h) || (h in Run(s, events).pending && h in Run(s, events).timers)
    decreases |events|
  {
    if events != [] {
      hide Good;
      hide Step;
      hide Settles;
      CandidateLife(s, events[0], h);
      StepGood(s, events[0]);
      if !Settles(s, events[0], h) { PendingUntilSettled(Step(s, events[0]), events[1..], h); }
    }
  }

  // ------------------------------------------------------------------ one recovered block

  /** The recovery brings nothing that can be imported or parked. */
  predicate Fails(s: State, e: Event) {
    e.CandidateRecovered? &&
    (e.block.None? || e.parentStatus.Failed? || (e.parentStatus.Unknown? && e.block.value.parent !in s.candidates - {e.hash}))
  }

  /** The block has to wait for its parent, which is another candidate that is being recovered. */
  predicate HasToWait(s: State, e: Event) {
    e.CandidateRecovered? && e.block.Some? && e.parentStatus.Unknown? && e.block.value.parent in s.candidates - {e.hash}
  }

  /** Only the list of `b`'s parent changes, and it gets `b` at its end. */
  ghost predicate Parks(w: Parked, w': Parked, b: Block) {
    Kids(w', b.parent) == Kids(w, b.parent) + [b] && forall k: Hash :: k != b.parent ==> Kids(w', k) == Kids(w, k)
  }

  /**
   What a recovery does with what is parked: it fails, and exactly what is parked below the candidate
   goes; or the block has to wait and is parked behind its siblings; or the block is imported, with
   exactly what is parked below it.
   */
  lemma RecoveryIsExact(s: State, e: Event)
    requires WellKeyed(s.waiting) && Enabled(s, e) && e.CandidateRecovered?
    ensures var s' := Step(s, e);
            if Fails(s, e) then s'.waiting == Without(s.waiting, [e.hash]) && s'.imported == s.imported
            else if HasToWait(s, e) then Parks(s.waiting, s'.waiting, e.block.value) && s'.imported == s.imported
            else
              && s'.waiting == Without(s.waiting, [BlockHash(e.block.value)])
              && |s'.imported| == |s.imported| + 1 && s.imported <= s'.imported
              && forall b :: b in s'.imported[|s.imported|] <==> Due([e.block.value], s.waiting, b)
  {
    hide ClearWaiting;
    hide ImportQueue;
    hide Due;
    ClearRemovesDescendants([e.hash], s.waiting);
    if e.block.Some? {
      ImportBatch(e.block.value, s.waiting);
      forall b ensures b in ImportQueue([e.block.value], s.waiting).0 <==> Due([e.block.value], s.waiting, b) {
        ImportContents([e.block.value], s.waiting, b);
      }
    }
  }

  // ------------------------------------------------------------------ over runs

  lemma {:induction false} ReachedIsDescendant(w: Parked, root: Hash, k: Hash)
    requires Reaches(w, root, k)
    ensures IsAncestor(root, k)
    decreases k
  {
    if k != root { ReachedIsDescendant(w, root, k.parent); }
  }

  lemma OtherEventsParkNothing(s: State, e: Event)
    requires Enabled(s, e) && !e.CandidateRecovered?
    ensures Step(s, e).waiting == s.waiting && Step(s, e).imported == s.imported
  {
  }

  /** What is parked below a hash goes with it, or stays. */
  lemma KidsWithout(w: Parked, h: Hash, p: Hash)
    ensures Kids(Without(w, [h]), p) == Kids(w, p) || Reaches(w, h, p)
  {
    hide Reaches;
    ReachesOne(w, h, p);
  }

  lemma DueBelow(q: Block, w: Parked, p: Hash, b: Block)
    requires WellKeyed(w) && b in Kids(w, p) && Reaches(w, BlockHash(q), p)
    ensures Due([q], w, b)
  {
    hide Reaches;
    assert Hashes([q]) == [BlockHash(q)];
    ReachesOne(w, BlockHash(q), p);
  }

  /** A parked block stays parked, or is imported now, or an ancestor's recovery fails now. */
  lemma ParkedStep(s: State, e: Event, p: Hash, b: Block)
    requires WellKeyed(s.waiting) && Enabled(s, e) && b in Kids(s.waiting, p)
    ensures var s' := Step(s, e);
            || b in Kids(s'.waiting, p)
            || (|s'.imported| == |s.imported| + 1 && b in s'.imported[|s.imported|])
            || (Fails(s, e) && IsAncestor(e.hash, p))
  {
    hide Step;
    hide WellKeyed;
    hide Reaches;
    hide Without;
    hide Due;
    if !e.CandidateRecovered? {
      OtherEventsParkNothing(s, e);
    } else {
      RecoveryIsExact(s, e);
      if Fails(s, e) {
        KidsWithout(s.waiting, e.hash, p);
        if Reaches(s.waiting, e.hash, p) { ReachedIsDescendant(s.waiting, e.hash, p); }
      } else if HasToWait(s, e) {
        assert p != e.block.value.parent ==> Kids(Step(s, e).waiting, p) == Kids(s.waiting, p);
      } else {
        KidsWithout(s.waiting, BlockHash(e.block.value), p);
        if Reaches(s.waiting, BlockHash(e.block.value), p) { DueBelow(e.block.value, s.waiting, p, b); }
      }
    }
  }

  /** Some batch handed over between `s` and `s'` contains the block. */
  ghost predicate ImportedSince(s: State, s': State, b: Block) {
    exists i :: |s.imported| <= i < |s'.imported| && b in s'.imported[i]
  }

  /** The recovery of an ancestor of `p`, or of `p`, fails in the run. */
  ghost predicate AncestorFails(s: State, events: seq<Event>, p: Hash)
    requires EnabledRun(s, events)
    decreases |events|
  {
    events != [] && ((Fails(s, events[0]) && IsAncestor(events[0].hash, p)) || AncestorFails(Step(s, events[0]), events[1..], p))
  }

  lemma ImportsOnlyGrow(s: State, e: Event)
    requires Enabled(s, e)
    ensures s.imported <= Step(s, e).imported
  {
    hide ClearWaiting;
    hide ImportQueue;
  }

  lemma {:induction false} RunImportsOnlyGrow(s: State, events: seq<Event>)
    requires EnabledRun(s, events)
    ensures s.imported <= Run(s, events).imported
    decreases |events|
  {
    hide Step;
    if events != [] {
      ImportsOnlyGrow(s, events[0]);
      RunImportsOnlyGrow(Step(s, events[0]), events[1..]);
    }
  }

  /** Over any run a parked block stays parked until it is imported or the recovery of an ancestor fails. */
  lemma {:induction false} ParkedUntil(s: State, events: seq<Event>, p: Hash, b: Block)
    requires Good(s) && EnabledRun(s, events) && b in Kids(s.waiting, p)
    ensures var s' := Run(s, events); b in Kids(s'.waiting, p) || ImportedSince(s, s', b) || AncestorFails(s, events, p)
    decreases |events|
  {
    if events != [] {
      var e, rest := events[0], events[1..];
      assert WellKeyed(s.waiting);
      hide Step;
      hide Fails;
      hide Kids;
      StepGood(s, e);
      hide Good;
      ParkedStep(s, e, p, b);
      ImportsOnlyGrow(s, e);
      var s1, s' := Step(s, e), Run(Step(s, e), rest);
      RunImportsOnlyGrow(s1, rest);
      if |s1.imported| == |s.imported| + 1 && b in s1.imported[|s.imported|] {
        assert s'.imported[|s.imported|] == s1.imported[|s.imported|];
      } else if b in Kids(s1.waiting, p) {
        ParkedUntil(s1, rest, p, b);
        if ImportedSince(s1, s', b) {
          var i :| |s1.imported| <= i < |s'.imported| && b in s'.imported[i];
          assert ImportedSince(s, s', b);
        }
      }
    }
  }

  /** A recovery of `p` that brings its block and can import it imports what is parked under `p`. */
  lemma ParentReleases(s: State, p: Hash, parent: Block, b: Block)
    requires WellKeyed(s.waiting) && p in s.recoveries && BlockHash(parent) == p && b in Kids(s.waiting, p)
    ensures ImportedSince(s, Step(s, CandidateRecovered(p, Some(parent), Known)), b)
  {
    hide Step;
    hide Due;
    hide Without;
    var e := CandidateRecovered(p, Some(parent), Known);
    RecoveryIsExact(s, e);
    DueBelow(parent, s.waiting, p, b);
    assert b in Step(s, e).imported[|s.imported|];
  }

  /**
   A recovered block is not lost. After any run, the block of a candidate is recovered while its parent is
   unknown but being recovered; anything may happen; then the parent's recovery brings the parent's block,
   which can be imported. By then the block has been handed to the import queue, unless the recovery of an
   ancestor failed in between.
   */
  lemma RecoveredBlockIsImported(before: seq<Event>, b: Block, between: seq<Event>, parent: Block)
    requires EnabledRun(Initial, before) && BlockHash(parent) == b.parent
    requires var s, e := Run(Initial, before), CandidateRecovered(BlockHash(b), Some(b), Unknown);
             && Enabled(s, e) && HasToWait(s, e) && EnabledRun(Step(s, e), between)
             && b.parent in Run(Step(s, e), between).recoveries
    ensures var s := Step(Run(Initial, before), CandidateRecovered(BlockHash(b), Some(b), Unknown));
            var s' := Step(Run(s, between), CandidateRecovered(b.parent, Some(parent), Known));
            ImportedSince(s, s', b) || AncestorFails(s, between, b.parent)
  {
    hide EnabledRun;
    hide Run;
    RunGood(Initial, before);
    var s0, e0, e1 := Run(Initial, before), CandidateRecovered(BlockHash(b), Some(b), Unknown), CandidateRecovered(b.parent, Some(parent), Known);
    StepGood(s0, e0);
    RecoveryIsExact(s0, e0);
    hide Step;
    var s1 := Step(s0, e0);
    assert b in Kids(s1.waiting, b.parent);
    RunGood(s1, between);
    ParkedUntil(s1, between, b.parent, b);
    var s2 := Run(s1, between);
    RunImportsOnlyGrow(s1, between);
    ImportsOnlyGrow(s2, e1);
    if b in Kids(s2.waiting, b.parent) {
      ParentReleases(s2, b.parent, parent, b);
      var i :| |s2.imported| <= i < |Step(s2, e1).imported| && b in Step(s2, e1).imported[i];
      assert ImportedSince(s1, Step(s2, e1), b);
    } else if ImportedSince(s1, s2, b) {
      var i :| |s1.imported| <= i < |s2.imported| && b in s2.imported[i];
      assert Step(s2, e1).imported[i] == s2.imported[i];
    }
  }
}
