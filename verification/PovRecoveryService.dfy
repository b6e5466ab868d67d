/** The PoV recovery service as it runs: collections as fields, event handlers as methods. */
module PovRecoveryService {
  import opened Common
  import opened PovRecovery

  class ActiveCandidateRecovery {
    var recoveries: multiset<Hash>
    var candidates: set<Hash>

    constructor ()
      ensures recoveries == multiset{} && candidates == {}
    {
      recoveries, candidates := multiset{}, {};
    }

    method RecoverCandidate(blockHash: Hash)
      modifies this
      ensures candidates == old(candidates) + {blockHash} && recoveries == old(recoveries) + multiset{blockHash}
    {
      candidates := candidates + {blockHash};
      recoveries := recoveries + multiset{blockHash};
    }

    predicate IsBeingRecovered(candidate: Hash)
      reads this
    {
      candidate in candidates
    }

    /** The outstanding recovery of `blockHash` has ended. */
    method RecoveryEnded(blockHash: Hash)
      requires blockHash in recoveries
      modifies this
      ensures candidates == old(candidates) - {blockHash} && recoveries == old(recoveries) - multiset{blockHash}
    {
      recoveries := recoveries - multiset{blockHash};
      candidates := candidates - {blockHash};
    }
  }

  class PoVRecovery {
    var pendingCandidates: map<Hash, nat>
    var nextCandidateToRecover: multiset<Hash>
    const active: ActiveCandidateRecovery
    var waitingForParent: Parked
    // The batches handed to the import queue so far.
    var imported: seq<seq<Block>>

    ghost function View(): State
      reads this, active
    {
      State(pendingCandidates, nextCandidateToRecover, active.candidates, active.recoveries, waitingForParent, imported)
    }

    constructor ()
      ensures View() == Initial && fresh(active)
    {
      pendingCandidates, nextCandidateToRecover, waitingForParent, imported := map[], multiset{}, map[], [];
      active := new ActiveCandidateRecovery();
    }

    method HandlePendingCandidate(header: Option<Header>, finalizedNumber: nat, status: Status)
      modifies this
      ensures View() == Step(old(View()), PendingCandidate(header, finalizedNumber, status))
    {
      if header.None? { return; }
      if header.value.number <= finalizedNumber { return; }
      var hash := header.value.hash;
      if !status.Unknown? { return; }
      var known := hash in pendingCandidates;
      pendingCandidates := pendingCandidates[hash := header.value.number];
      if known { return; }
      nextCandidateToRecover := nextCandidateToRecover + multiset{hash};
    }

    method HandleBlockImported(hash: Hash)
      modifies this`pendingCandidates
      ensures View() == Step(old(View()), BlockImported(hash))
    {
      pendingCandidates := pendingCandidates - {hash};
    }

    method HandleBlockFinalized(blockNumber: nat)
      modifies this`pendingCandidates
      ensures View() == Step(old(View()), BlockFinalized(blockNumber))
    {
      pendingCandidates := map h | h in pendingCandidates && pendingCandidates[h] > blockNumber :: pendingCandidates[h];
    }

    /** A timer has fired: recover the candidate unless it is no longer pending. */
    method RecoverCandidate(blockHash: Hash)
      requires blockHash in nextCandidateToRecover
      modifies this, active
      ensures View() == Step(old(View()), TimerFired(blockHash))
    {
      nextCandidateToRecover := nextCandidateToRecover - multiset{blockHash};
      if blockHash !in pendingCandidates { return; }
      pendingCandidates := pendingCandidates - {blockHash};
      active.RecoverCandidate(blockHash);
    }

    method ClearWaitingForParent(hash: Hash)
      modifies this`waitingForParent
      ensures waitingForParent == ClearWaiting([hash], old(waitingForParent))
      ensures WellKeyed(old(waitingForParent)) ==> waitingForParent == Without(old(waitingForParent), [hash])
    {
      if WellKeyed(waitingForParent) { ClearRemovesDescendants([hash], waitingForParent); }
      var blocksToDelete := [hash];
      while blocksToDelete != []
        invariant ClearWaiting(blocksToDelete, waitingForParent) == ClearWaiting([hash], old(waitingForParent))
        decreases waitingForParent.Keys, |blocksToDelete|
      {
        var n := |blocksToDelete| - 1;
        var delete := blocksToDelete[n];
        blocksToDelete := blocksToDelete[..n];
        if delete in waitingForParent {
          var childs := waitingForParent[delete];
          waitingForParent := waitingForParent - {delete};
          blocksToDelete := blocksToDelete + Hashes(childs);
        }
      }
    }

    /** Imports the block and, recursively, every block parked under it: parents before children. */
    method ImportBlock(block: Block)
      modifies this`waitingForParent, this`imported
      ensures var (batch, w) := ImportQueue([block], old(waitingForParent));
              waitingForParent == w && imported == old(imported) + [batch]
      ensures WellKeyed(old(waitingForParent)) ==>
                && waitingForParent == Without(old(waitingForParent), [BlockHash(block)])
                && var batch := imported[|old(imported)|]; batch != [] && batch[0] == block && ParentsEarlier([block], batch[1..])
    {
      if WellKeyed(waitingForParent) { ImportBatch(block, waitingForParent); }
      var blocks := [block];
      var incomingBlocks: seq<Block> := [];
      assert [] + ImportQueue(blocks, waitingForParent).0 == ImportQueue(blocks, waitingForParent).0;
      while blocks != []
        invariant var (rest, w) := ImportQueue(blocks, waitingForParent);
                  ImportQueue([block], old(waitingForParent)) == (incomingBlocks + rest, w)
        invariant imported == old(imported)
        decreases waitingForParent.Keys, |blocks|
      {
        ghost var rest0 := ImportQueue(blocks, waitingForParent).0;
        var next := blocks[0];
        blocks := blocks[1..];
        var blockHash := BlockHash(next);
        if blockHash in waitingForParent {
          var waiting := waitingForParent[blockHash];
          waitingForParent := waitingForParent - {blockHash};
          blocks := blocks + waiting;
        }
        assert rest0 == [next] + ImportQueue(blocks, waitingForParent).0;
        Associative(incomingBlocks, [next], ImportQueue(blocks, waitingForParent).0);
        incomingBlocks := incomingBlocks + [next];
      }
      assert incomingBlocks + [] == incomingBlocks;
      imported := imported + [incomingBlocks];
    }

    method HandleCandidateRecovered(blockHash: Hash, block: Option<Block>, parentStatus: Status)
      requires blockHash in active.recoveries
      modifies this, active
      ensures View() == Step(old(View()), CandidateRecovered(blockHash, block, parentStatus))
    {
      hide ImportQueue;
      hide ClearWaiting;
      active.RecoveryEnded(blockHash);
      if block.None? {
        ClearWaitingForParent(blockHash);
        return;
      }
      var parent := block.value.parent;
      match parentStatus {
        case Unknown =>
          if active.IsBeingRecovered(parent) {
            waitingForParent := waitingForParent[parent := Kids(waitingForParent, parent) + [block.value]];
          } else {
            ClearWaitingForParent(blockHash);
          }
        case Failed => ClearWaitingForParent(blockHash);
        case Known => ImportBlock(block.value);
      }
    }
  }
}
