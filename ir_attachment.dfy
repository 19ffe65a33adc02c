/**
 * The ir.attachment model extension that migrates filestore attachments to
 * an object store through queue jobs: the table, the job queue and the cron
 * flag it changes, and its five methods.
 */
module MoveQueueJob {
  import opened Common
  import opened Records
  import opened ChecksumFixup
  import opened BatchPlanner
  import opened GroupTransfer

  /** Transfer jobs run before the next planning job, which has the larger (later) priority. */
  const TransferPriority := 5
  const PlanPriority := 999
  /** The chunk size when `ir_attachment.transfer.chunk.size` is not set. */
  const DefaultChunkSize := 100

  datatype Job =
    | PlanBatch
    | TransferGroup(checksum: Option<string>, storeFname: Option<string>)

  datatype QueuedJob = QueuedJob(job: Job, priority: int)

  /** One transfer job at priority 5 for each planned group, in plan order. */
  function TransferJobs(ks: seq<GroupKey>): seq<QueuedJob> {
    seq(|ks|, j requires 0 <= j < |ks| => QueuedJob(TransferGroup(ks[j].checksum, ks[j].storeFname), TransferPriority))
  }

  /** Every transfer job a batch enqueues runs before the planning job that follows it. */
  lemma TransfersPrecedeNextPlan(ks: seq<GroupKey>)
    ensures |TransferJobs(ks)| == |ks|
    ensures forall j :: 0 <= j < |ks| ==> TransferJobs(ks)[j].priority < PlanPriority
  {
  }

  /**
   * How the limited job ends; MissingCount is the TypeError of `None > 0` when
   * the planner finds its storage disabled.
   */
  datatype JobOutcome = NotObjectStorage | Rescheduled | CronDeactivated | MissingCount

  class IrAttachment {
    /** The ir_attachment table, in the order `search` returns rows. */
    var attachments: seq<Attachment>
    /** Jobs delayed with `with_delay`, in enqueue order. */
    var queue: seq<QueuedJob>
    /** The `active` flag of the cron that starts the chain. */
    var cronActive: bool
    /** Old filestore paths handed to `clean_fs`, in order. */
    var cleaned: seq<string>

    /** The `storage_location` context key, if any. */
    const contextLocation: Option<string>
    /** What `_storage()` returns. */
    const configuredLocation: string
    /** What `_get_stores()` returns. */
    const stores: set<string>
    /** The storages for which `is_storage_disabled` holds. */
    const disabledStores: set<string>
    /** The `ir_attachment.transfer.chunk.size` parameter, already parsed. */
    const chunkSizeParam: Option<nat>

    constructor (attachments: seq<Attachment>, cronActive: bool, contextLocation: Option<string>,
                 configuredLocation: string, stores: set<string>, disabledStores: set<string>,
                 chunkSizeParam: Option<nat>)
      ensures this.attachments == attachments && this.cronActive == cronActive
      ensures queue == [] && cleaned == []
      ensures this.contextLocation == contextLocation && this.configuredLocation == configuredLocation
      ensures this.stores == stores && this.disabledStores == disabledStores
      ensures this.chunkSizeParam == chunkSizeParam
    {
      this.attachments := attachments;
      this.cronActive := cronActive;
      this.queue := [];
      this.cleaned := [];
      this.contextLocation := contextLocation;
      this.configuredLocation := configuredLocation;
      this.stores := stores;
      this.disabledStores := disabledStores;
      this.chunkSizeParam := chunkSizeParam;
    }

    /** `context.get('storage_location') or _storage()`. */
    function Location(): string {
      if Truthy(contextLocation) then contextLocation.value else configuredLocation
    }

    /** The chunk size, `'100'` by default. */
    function ChunkSize(): nat {
      match chunkSizeParam
      case None => DefaultChunkSize
      case Some(n) => n
    }

    /** `with_delay(priority=p)`: append one job to the queue. */
    method Enqueue(job: Job, priority: int)
      modifies this
      ensures queue == old(queue) + [QueuedJob(job, priority)]
      ensures attachments == old(attachments) && cronActive == old(cronActive) && cleaned == old(cleaned)
    {
      queue := queue + [QueuedJob(job, priority)];
    }

    /**
     * The checksum repair UPDATE: every binary row with a NULL checksum and a
     * filestore-shaped store_fname gets `substr(store_fname, 4, 40)`.
     */
    method FixupChecksumValues()
      modifies this
      ensures attachments == FixupTable(old(attachments))
      ensures queue == old(queue) && cronActive == old(cronActive) && cleaned == old(cleaned)
    {
      attachments := FixupTable(attachments);
    }

    /** The install-time migration is switched off: it changes nothing. */
    method ForceStorageToObjectStorage(newCr: bool := false)
      ensures unchanged(this)
    {
    }

    /**
     * Plan one batch: unless the storage is disabled, enqueue one transfer job
     * at priority 5 per (checksum, store_fname) group of at most `limit`
     * groups, and return how many.
     */
    method ForceStorageToObjectStorageLimited(limit: nat := 100) returns (count: Option<nat>)
      modifies this
      ensures attachments == old(attachments) && cronActive == old(cronActive) && cleaned == old(cleaned)
      ensures Location() in disabledStores ==> count == None && queue == old(queue)
      ensures Location() !in disabledStores ==>
        var ks := ReadGroup(old(attachments), Location(), limit);
        count == Some(|ks|) && queue == old(queue) + TransferJobs(ks)
    {
      var storage := Location();
      if storage in disabledStores {
        return None;
      }
      var groupData := ReadGroup(attachments, storage, limit);
      for i := 0 to |groupData|
        invariant attachments == old(attachments) && cronActive == old(cronActive) && cleaned == old(cleaned)
        invariant queue == old(queue) + TransferJobs(groupData[..i])
      {
        assert TransferJobs(groupData[..i + 1]) == TransferJobs(groupData[..i]) + TransferJobs([groupData[i]]);
        Enqueue(TransferGroup(groupData[i].checksum, groupData[i].storeFname), TransferPriority);
      }
      count := Some(|groupData|);
    }

    /**
     * The cron-started job: outside an object store it does nothing; otherwise
     * it plans a batch of the configured chunk size and, if the batch was not
     * empty, re-enqueues itself at priority 999, else deactivates the cron.
     */
    method JobForceStorageToObjectStorageLimited() returns (outcome: JobOutcome)
      modifies this
      ensures attachments == old(attachments) && cleaned == old(cleaned)
      ensures Location() !in stores ==>
        outcome == NotObjectStorage && queue == old(queue) && cronActive == old(cronActive)
      ensures Location() in stores && Location() in disabledStores ==>
        outcome == MissingCount && queue == old(queue) && cronActive == old(cronActive)
      ensures Location() in stores && Location() !in disabledStores ==>
        var ks := ReadGroup(old(attachments), Location(), ChunkSize());
        && (|ks| > 0 ==>
              && outcome == Rescheduled
              && queue == old(queue) + TransferJobs(ks) + [QueuedJob(PlanBatch, PlanPriority)]
              && cronActive == old(cronActive))
        && (|ks| == 0 ==> outcome == CronDeactivated && queue == old(queue) && !cronActive)
    {
      var location := Location();
      if location !in stores {
        return NotObjectStorage;
      }
      var limit := ChunkSize();
      var count := ForceStorageToObjectStorageLimited(limit);
      if count.None? {
        return MissingCount;
      }
      if count.value > 0 {
        Enqueue(PlanBatch, PlanPriority);
        outcome := Rescheduled;
      } else {
        cronActive := false;
        outcome := CronDeactivated;
      }
    }

    /**
     * The object-store collaborator `_move_attachment_to_store` on row `i`:
     * it rewrites that row and returns the old filestore path.
     */
    method MoveAttachmentToStore(i: nat, m: Moved) returns (path: string)
      requires i < |attachments|
      modifies this
      ensures attachments == old(attachments)[i := Assign(old(attachments)[i], m.vals)]
      ensures path == m.oldPath
      ensures queue == old(queue) && cronActive == old(cronActive) && cleaned == old(cleaned)
    {
      attachments := attachments[i := Assign(attachments[i], m.vals)];
      path := m.oldPath;
    }

    /** `clean_fs(paths)`: the old filestore files are deleted. */
    method CleanFs(paths: seq<string>)
      modifies this
      ensures cleaned == old(cleaned) + paths
      ensures attachments == old(attachments) && queue == old(queue) && cronActive == old(cronActive)
    {
      cleaned := cleaned + paths;
    }

    /**
     * One transfer job for the group (checksum, store_fname). `lockFree` says
     * whether `FOR UPDATE NOWAIT` gets its locks; `m` is what the object-store
     * collaborator does to the first member.
     */
    method TransferToObjectStorage(checksum: Option<string>, storeFname: Option<string>,
                                   lockFree: bool, m: Moved) returns (outcome: TransferOutcome)
      modifies this
      ensures var r := TransferJob(old(attachments), checksum, storeFname, lockFree, m);
        outcome == r.outcome && attachments == r.table && cleaned == old(cleaned) + r.cleaned
      ensures queue == old(queue) && cronActive == old(cronActive)
    {
      if !Truthy(storeFname) {
        return SkippedEmptyStoreFname(checksum);
      } else if !Truthy(checksum) {
        return SkippedEmptyChecksum(storeFname);
      }
      if !lockFree {
        return LockNotAvailable;
      }
      var members := Search(attachments, checksum.value, storeFname.value);
      if members == [] {
        return NothingFound;
      }
      var path := MoveAttachmentToStore(members[0], m);
      var first := attachments[members[0]];
      attachments := GroupWrite(attachments, members, WrittenVals(first, checksum.value));
      CleanFs([path]);
      outcome := Done(|members|);
    }
  }
}
