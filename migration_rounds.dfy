/**
 * The self-continuing chain, on table values: a planning round enqueues one
 * transfer per group, the transfers (at higher priority) all run before the
 * next round plans again, and the chain stops at the first round that finds
 * no group.
 */
module MigrationRounds {
  import opened Common
  import opened Records
  import opened ChecksumFixup
  import opened BatchPlanner
  import opened GroupTransfer

  /** A group the transfer job does not skip: both columns truthy. */
  predicate KeyReady(k: GroupKey) {
    Truthy(k.checksum) && Truthy(k.storeFname)
  }

  /** Every group the planner can return is one the transfer job accepts. */
  ghost predicate Migratable(t: seq<Attachment>, storage: string) {
    forall k :: k in CandidateKeys(t, storage) ==> KeyReady(k)
  }

  /** The collaborator leaves the first member in the target object store. */
  predicate MovesInto(m: Moved, storage: string) {
    m.vals.storeFname.Some? && StoragePrefix(storage) <= m.vals.storeFname.value
  }

  ghost predicate AllMovesInto(mv: GroupKey -> Moved, storage: string) {
    forall k :: MovesInto(mv(k), storage)
  }

  /** One transfer job for a planned group, with the row lock free. */
  function TransferStep(t: seq<Attachment>, k: GroupKey, m: Moved): seq<Attachment> {
    TransferJob(t, k.checksum, k.storeFname, true, m).table
  }

  /** The transfer jobs of one batch, run in queue order. */
  function ApplyTransfers(t: seq<Attachment>, ks: seq<GroupKey>, mv: GroupKey -> Moved): seq<Attachment>
    decreases |ks|
  {
    if ks == [] then t else ApplyTransfers(TransferStep(t, ks[0], mv(ks[0])), ks[1..], mv)
  }

  /** The table after one planning round and all the transfers it enqueued. */
  function AfterRound(t: seq<Attachment>, storage: string, limit: nat, mv: GroupKey -> Moved): seq<Attachment> {
    ApplyTransfers(t, ReadGroup(t, storage, limit), mv)
  }

  /** A transfer leaves untouched every row that is not in its group. */
  lemma TransferStepFrame(t: seq<Attachment>, k: GroupKey, m: Moved)
    ensures |TransferStep(t, k, m)| == |t|
    ensures forall i :: 0 <= i < |t| && !(KeyReady(k) && KeyOf(t[i]) == k && t[i].kind == Binary) ==>
      TransferStep(t, k, m)[i] == t[i]
  {
  }

  /** A successful transfer into the target store removes exactly its own group from the backlog. */
  lemma TransferRemovesKey(t: seq<Attachment>, storage: string, k: GroupKey, m: Moved)
    requires KeyReady(k) && MovesInto(m, storage)
    ensures CandidateKeys(TransferStep(t, k, m), storage) == CandidateKeys(t, storage) - {k}
  {
    var c, f := k.checksum.value, k.storeFname.value;
    var r := TransferStep(t, k, m);
    TransferRewritesGroup(t, c, f, m);
    forall x | x in CandidateKeys(r, storage)
      ensures x in CandidateKeys(t, storage) - {k}
    {
      var i :| 0 <= i < |r| && IsCandidate(r[i], storage) && KeyOf(r[i]) == x;
      assert !IsMember(t[i], c, f);
      assert r[i] == t[i];
    }
    forall x | x in CandidateKeys(t, storage) - {k}
      ensures x in CandidateKeys(r, storage)
    {
      var i :| 0 <= i < |t| && IsCandidate(t[i], storage) && KeyOf(t[i]) == x;
      assert !IsMember(t[i], c, f);
      assert r[i] == t[i];
    }
  }

  /** A batch of distinct ready groups into the target store removes exactly those groups. */
  lemma {:induction false} ApplyTransfersRemovesKeys(t: seq<Attachment>, storage: string,
                                                     ks: seq<GroupKey>, mv: GroupKey -> Moved)
    requires Distinct(ks)
    requires forall k :: k in ks ==> k in CandidateKeys(t, storage)
    requires Migratable(t, storage) && AllMovesInto(mv, storage)
    ensures CandidateKeys(ApplyTransfers(t, ks, mv), storage) == CandidateKeys(t, storage) - Elements(ks)
    decreases |ks|
  {
    if ks != [] {
      var k := ks[0];
      var t1 := TransferStep(t, k, mv(k));
      assert MovesInto(mv(k), storage);
      TransferRemovesKey(t, storage, k, mv(k));
      var rest := ks[1..];
      assert Distinct(rest);
      assert forall x :: x in rest ==> x != k && x in ks;
      ApplyTransfersRemovesKeys(t1, storage, rest, mv);
      assert Elements(ks) == {k} + Elements(rest) by {
        assert ks == [k] + rest;
      }
    }
  }

  /**
   * One round of a migratable backlog takes min(limit, K) groups off it and
   * leaves the table migratable.
   */
  lemma RoundProgress(t: seq<Attachment>, storage: string, limit: nat, mv: GroupKey -> Moved)
    requires limit > 0 && Migratable(t, storage) && AllMovesInto(mv, storage)
    ensures Migratable(AfterRound(t, storage, limit, mv), storage)
    ensures |CandidateKeys(AfterRound(t, storage, limit, mv), storage)| ==
      |CandidateKeys(t, storage)| - Min(limit, |CandidateKeys(t, storage)|)
  {
    var ks := ReadGroup(t, storage, limit);
    ApplyTransfersRemovesKeys(t, storage, ks, mv);
    DistinctCard(ks);
    assert Elements(ks) <= CandidateKeys(t, storage);
  }

  /** The number of planning rounds that return a positive count. */
  ghost function RoundsToDrain(t: seq<Attachment>, storage: string, limit: nat, mv: GroupKey -> Moved): nat
    requires limit > 0 && Migratable(t, storage) && AllMovesInto(mv, storage)
    decreases |CandidateKeys(t, storage)|
  {
    if ReadGroup(t, storage, limit) == [] then 0
    else
      RoundProgress(t, storage, limit, mv);
      1 + RoundsToDrain(AfterRound(t, storage, limit, mv), storage, limit, mv)
  }

  /** ceil(K / L) is one more than ceil((K - min(L, K)) / L) when K > 0. */
  lemma CeilingStep(k: nat, l: nat)
    requires l > 0 && k > 0
    ensures CeilDiv(k, l) == 1 + CeilDiv(k - Min(l, k), l)
  {
    if k <= l {
      DivUnique(k + l - 1, l, 1);
      DivUnique(l - 1, l, 0);
    } else {
      var q := (k - 1) / l;
      assert q * l <= k - 1 < q * l + l;
      DivUnique(k + l - 1, l, q + 1);
      DivUnique(k - l + l - 1, l, q);
    }
  }

  /**
   * Backlog exhaustion: K groups (distinct (checksum, store_fname) pairs) in
   * batches of L take ceil(K / L) rounds with a positive count, after which
   * the next round returns 0 and the chain deactivates its cron.
   */
  lemma {:induction false} RoundsToDrainIsCeiling(t: seq<Attachment>, storage: string, limit: nat, mv: GroupKey -> Moved)
    requires limit > 0 && Migratable(t, storage) && AllMovesInto(mv, storage)
    ensures RoundsToDrain(t, storage, limit, mv) == CeilDiv(|CandidateKeys(t, storage)|, limit)
    decreases |CandidateKeys(t, storage)|
  {
    var k := |CandidateKeys(t, storage)|;
    if ReadGroup(t, storage, limit) == [] {
      assert k == 0;
      DivUnique(limit - 1, limit, 0);
    } else {
      RoundProgress(t, storage, limit, mv);
      var t' := AfterRound(t, storage, limit, mv);
      RoundsToDrainIsCeiling(t', storage, limit, mv);
      CeilingStep(k, limit);
    }
  }

  /** With 40 distinct groups and a chunk size of 10, four rounds have work before the chain stops. */
  lemma FortyGroupsTakeFourRounds(t: seq<Attachment>, storage: string, mv: GroupKey -> Moved)
    requires |CandidateKeys(t, storage)| == 40 && Migratable(t, storage) && AllMovesInto(mv, storage)
    ensures RoundsToDrain(t, storage, 10, mv) == 4
  {
    RoundsToDrainIsCeiling(t, storage, 10, mv);
  }

  /**
   * A group the transfer job skips (NULL or empty checksum, or empty
   * store_fname) survives any batch of transfers, so every later round still
   * returns a positive count and the chain never deactivates its cron.
   */
  lemma {:induction false} UnreadyKeyPersists(t: seq<Attachment>, storage: string, ks: seq<GroupKey>,
                                              mv: GroupKey -> Moved, k: GroupKey, limit: nat)
    requires k in CandidateKeys(t, storage) && !KeyReady(k)
    ensures k in CandidateKeys(ApplyTransfers(t, ks, mv), storage)
    ensures ReadGroup(ApplyTransfers(t, ks, mv), storage, limit) != []
    decreases |ks|
  {
    if ks != [] {
      var t1 := TransferStep(t, ks[0], mv(ks[0]));
      TransferStepFrame(t, ks[0], mv(ks[0]));
      var i :| 0 <= i < |t| && IsCandidate(t[i], storage) && KeyOf(t[i]) == k;
      assert t1[i] == t[i];
      assert k in CandidateKeys(t1, storage);
      UnreadyKeyPersists(t1, storage, ks[1..], mv, k, limit);
    } else {
      var r := ReadGroup(t, storage, limit);
      assert |CandidateKeys(t, storage)| > 0;
    }
  }

  /**
   * Checksum repair makes a stuck row migratable: a candidate with a NULL
   * checksum and a filestore-shaped name gets a ready group key and stays a candidate.
   */
  lemma FixupReadiesStuckRow(t: seq<Attachment>, storage: string, i: nat)
    requires i < |t| && IsCandidate(t[i], storage) && t[i].checksum.None?
    requires IsFilestoreName(t[i].storeFname.value)
    ensures IsCandidate(FixupTable(t)[i], storage)
    ensures KeyReady(KeyOf(FixupTable(t)[i]))
  {
  }
}
