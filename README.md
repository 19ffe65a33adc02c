# Attachment migration to an object store, in Dafny

This project models the controller in `base_attachment_move_queue_job`. It
extends Odoo's `ir.attachment` model and moves binary attachments out of
the local filestore into an object store (S3, Swift, ...). The work runs in
small batches of queue jobs. The model has four parts:

- **Checksum repair** (`_fixup_checksum_values`). One SQL `UPDATE` fills a
  NULL `checksum` of a binary row from its filestore name
  `xy/<40 hex digits>`, using `substr(store_fname, 4, 40)`.
- **Batch planner** (`_force_storage_to_object_storage_limited`). It selects
  the binary rows whose `store_fname` is set and does not yet start with
  `<storage>://`, whatever their `res_field`. It groups them by the pair
  `(checksum, store_fname)`, keeps at most `limit` groups, enqueues one
  priority-5 transfer job per group and returns the number of groups.
- **Self-continuation** (`job_force_storage_to_object_storage_limited`). It
  does nothing outside an object store. Otherwise it plans a batch of the
  configured chunk size (100 by default). If the count is positive it
  re-enqueues itself at priority 999; if the count is 0 it deactivates its cron.
- **Group transfer** (`_transfer_to_object_storage`). It skips a group with an
  empty `store_fname`, then one with an empty `checksum`. It locks the rows
  and finds the binary rows of the group. It moves the first row's bytes
  through the object-store collaborator, copies that row's new `store_fname`,
  `mimetype` and `db_datas` onto the whole group in one write, cleans the old
  path and returns a message with the count.

The table is a `seq<Attachment>` in the order the ORM's `search` returns
rows. The job queue is a `seq<QueuedJob>` to which `with_delay` appends. The
cron is a boolean field, and the paths given to `clean_fs` are a sequence.
All of these live in the class `MoveQueueJob.IrAttachment`. Its methods
change that state and say the new state in terms of pure functions on table
values: `FixupTable`, `ReadGroup` and `TransferJob`. The properties are
lemmas about those functions. `MigrationRounds` chains the operations
together. It proves that a backlog of K groups, planned in batches of L,
takes ceil(K/L) rounds with a positive count before the round that
deactivates the cron. It also proves that one group the transfer job always
skips (a NULL or empty checksum, or an empty `store_fname`) keeps the chain
alive forever. Checksum repair rescues only part of these rows: a binary
row with a NULL checksum and a filestore-shaped `store_fname`. A row with
an empty-string checksum, a NULL checksum on a name of another shape, or an
empty `store_fname` stays stuck, and the chain never stops.

Files: `common.dfy` (Option, distinct sequences, arithmetic helpers),
`records.dfy` (the attachment row), `checksum_fixup.dfy`,
`batch_planner.dfy`, `group_transfer.dfy`, `migration_rounds.dfy`,
`ir_attachment.dfy` (the class).

### Behaviour of this version of the controller

- Groups are keyed by the pair `(checksum, store_fname)`, not by checksum
  alone. The code passes both columns to `read_group` (lines 91-100) and to
  the search of the transfer (lines 131-139).
- A group whose checksum is NULL is returned by the planner: read_group
  reports it as `False`. The transfer then skips it. The model shows that
  such a group is planned again in every round.
- `clean_fs` is called directly after the write (line 158). It is not a
  post-commit action.
- A lock that is not available is an uncaught error that aborts the job
  (line 126). It is not a per-group skip inside a batch. There is no
  per-group savepoint and no catch of serialization failures.

## Model

| member | source | states |
|---|---|---|
| `ChecksumFixup.Substr` | base_attachment_move_queue_job/models/ir_attachment.py:28 | PostgreSQL `substr` with a 1-based start: at most `count` characters, and exactly the slice starting at position `from` when that slice lies inside the string |
| `ChecksumFixup.IsFilestoreName` | base_attachment_move_queue_job/models/ir_attachment.py:31 | the anchored, case-sensitive pattern `^[0-9a-f]{2}/[0-9a-f]{40}$`; its consequences for the repaired checksum are stated by `RepairedChecksumShape` and `FilestoreNameRoundTrip` |
| `ChecksumFixup.NeedsRepair` | base_attachment_move_queue_job/models/ir_attachment.py:29-32 | the WHERE clause: NULL checksum, store_fname set and filestore-shaped, type binary; `FixupTableSpec` proves these are exactly the rows that change |
| `ChecksumFixup.FixupTable` | base_attachment_move_queue_job/models/ir_attachment.py:26-33 | the table after the UPDATE; its properties (only matching rows change, only in checksum, idempotence) are stated by `FixupTableSpec` and `FixupIdempotent` |
| `ChecksumFixup.RepairedChecksumShape` | base_attachment_move_queue_job/models/ir_attachment.py:28-31 | for a name matching `^[0-9a-f]{2}/[0-9a-f]{40}$`, `substr(name, 4, 40)` is the 40 characters after the slash, all lower-case hex |
| `ChecksumFixup.FixupTableSpec` | base_attachment_move_queue_job/models/ir_attachment.py:26-33 | the UPDATE keeps the table's length; a binary row with a NULL checksum and a filestore-shaped name gets the 40 hex digits after the slash as its checksum and nothing else changes; every other row is unchanged |
| `ChecksumFixup.FixupIdempotent` | base_attachment_move_queue_job/models/ir_attachment.py:26-33 | running the repair a second time changes nothing |
| `ChecksumFixup.FilestoreNameRoundTrip` | base_attachment_move_queue_job/models/ir_attachment.py:21-23 | the name `c[:2]/c` built from a 40-digit hex checksum matches the pattern and repairs back to `c`; a matching name whose directory is its checksum's first two digits is rebuilt from the repaired checksum |
| `MoveQueueJob.IrAttachment.FixupChecksumValues` | base_attachment_move_queue_job/models/ir_attachment.py:17-33 | the table becomes `FixupTable` of the old table; the queue, the cron flag and the cleaned paths are unchanged |
| `MoveQueueJob.IrAttachment.ForceStorageToObjectStorage` | base_attachment_move_queue_job/models/ir_attachment.py:36-45 | the install-time migration changes nothing |
| `BatchPlanner.IsCandidate` | base_attachment_move_queue_job/models/ir_attachment.py:82-89 | the planner domain: binary, store_fname set, not prefixed by `<storage>://`, any `res_field`; `CandidateIgnoresResField`, `GroupKeys` and `ReadGroup` state what follows from it |
| `BatchPlanner.CandidateIgnoresResField` | base_attachment_move_queue_job/models/ir_attachment.py:77-89 | changing `res_field` never changes whether a row is a migration candidate |
| `BatchPlanner.GroupKeys` | base_attachment_move_queue_job/models/ir_attachment.py:91-100 | the grouped pairs contain no duplicates, and a pair is among them exactly when some candidate row (binary, `store_fname` set, not prefixed by `<storage>://`) carries it |
| `BatchPlanner.ReadGroup` | base_attachment_move_queue_job/models/ir_attachment.py:91-100 | the pairs returned are distinct pairs of candidate rows; there are min(limit, K) of them for K distinct candidate pairs (K with no limit); all K are returned when K <= limit |
| `MoveQueueJob.TransferJobs` | base_attachment_move_queue_job/models/ir_attachment.py:102-106 | one priority-5 transfer job per planned group, in plan order; `TransfersPrecedeNextPlan` and the planner method state its use |
| `MoveQueueJob.TransfersPrecedeNextPlan` | base_attachment_move_queue_job/models/ir_attachment.py:59-61 | a batch enqueues one job per group, and each runs at priority 5, below the 999 of the next planning job |
| `MoveQueueJob.IrAttachment.Enqueue` | base_attachment_move_queue_job/models/ir_attachment.py:105-106 | one job with its priority is appended to the queue and nothing else changes |
| `MoveQueueJob.IrAttachment.ForceStorageToObjectStorageLimited` | base_attachment_move_queue_job/models/ir_attachment.py:70-107 | with the storage disabled it returns None and enqueues nothing; otherwise it appends exactly one priority-5 transfer job per planned group, in plan order, and returns the number of groups; the table, the cron flag and the cleaned paths never change |
| `MoveQueueJob.IrAttachment.JobForceStorageToObjectStorageLimited` | base_attachment_move_queue_job/models/ir_attachment.py:48-67 | outside an object store nothing changes; a disabled storage makes the count None, so the comparison raises and nothing changes; a positive count leaves the transfer jobs plus one priority-999 planning job on the queue and the cron untouched; a count of 0 enqueues nothing and deactivates the cron |
| `GroupTransfer.Search` | base_attachment_move_queue_job/models/ir_attachment.py:131-139 | the indices returned are increasing, each is a binary row with exactly this checksum and store_fname, and every such row is among them |
| `GroupTransfer.SearchCount` | base_attachment_move_queue_job/models/ir_attachment.py:140-146 | the number of records found is the number of rows in the group |
| `GroupTransfer.GroupWrite` | base_attachment_move_queue_job/models/ir_attachment.py:156 | one write of the same values onto every listed row; `TransferRewritesGroup` states its effect within a transfer |
| `GroupTransfer.TransferJob` | base_attachment_move_queue_job/models/ir_attachment.py:109-159 | the whole transfer job on a table value; `TransferGuards`, `TransferRewritesGroup` and `TransferThenNothingLeft` state its properties |
| `GroupTransfer.TransferGuards` | base_attachment_move_queue_job/models/ir_attachment.py:111-129 | an empty store_fname is skipped first, an empty checksum next, and a held lock aborts; none of them changes the table or cleans a path |
| `GroupTransfer.TransferRewritesGroup` | base_attachment_move_queue_job/models/ir_attachment.py:131-159 | with the lock free: an empty group reports "No attachments found" and writes nothing; otherwise every member gets the first member's post-move store_fname, mimetype and db_datas and keeps its checksum, every other row is unchanged, the old path is cleaned and the count is the group's size |
| `GroupTransfer.TransferThenNothingLeft` | base_attachment_move_queue_job/models/ir_attachment.py:131-156 | when the move changes the store_fname, no row of the group is left, and the same job run again finds nothing |
| `GroupTransfer.Decimal` | base_attachment_move_queue_job/models/ir_attachment.py:159 | the count is printed as a non-empty string of decimal digits |
| `GroupTransfer.DecimalValue` | base_attachment_move_queue_job/models/ir_attachment.py:159 | the printed digits read back as the count itself |
| `GroupTransfer.DecimalInjective` | base_attachment_move_queue_job/models/ir_attachment.py:159 | different counts print as different strings |
| `GroupTransfer.Message` | base_attachment_move_queue_job/models/ir_attachment.py:111-159 | the message starts with "Skipping atts with empty store_fname and checksum " exactly for the empty-store_fname skip, with "Skipping atts with empty checkup and store_fname " exactly for the empty-checksum skip, and with "Transfer done, " exactly for a done transfer; an empty group gives "No attachments found to transfer" |
| `GroupTransfer.MessageDoneInjective` | base_attachment_move_queue_job/models/ir_attachment.py:159 | the "Transfer done" message determines the count it reports |
| `MoveQueueJob.IrAttachment.MoveAttachmentToStore` | base_attachment_move_queue_job/models/ir_attachment.py:147 | the collaborator rewrites only the first member's row and returns the old path |
| `MoveQueueJob.IrAttachment.CleanFs` | base_attachment_move_queue_job/models/ir_attachment.py:158 | the old path is appended to the cleaned paths and nothing else changes |
| `MoveQueueJob.IrAttachment.TransferToObjectStorage` | base_attachment_move_queue_job/models/ir_attachment.py:109-159 | the outcome, the new table and the cleaned paths are those of `TransferJob` on the old table; the queue and the cron flag are unchanged |
| `MigrationRounds.TransferStepFrame` | base_attachment_move_queue_job/models/ir_attachment.py:148-156 | a transfer changes no row outside its group, and changes nothing at all for a group it skips |
| `MigrationRounds.TransferRemovesKey` | base_attachment_move_queue_job/models/ir_attachment.py:131-156 | a transfer into the target store removes exactly its own pair from the planner's groups |
| `MigrationRounds.ApplyTransfersRemovesKeys` | base_attachment_move_queue_job/models/ir_attachment.py:102-106 | running a batch's transfer jobs removes exactly the batch's pairs from the backlog |
| `MigrationRounds.RoundProgress` | base_attachment_move_queue_job/models/ir_attachment.py:91-107 | one planning round and its transfers take min(limit, K) groups off a backlog of K and keep it migratable |
| `MigrationRounds.RoundsToDrainIsCeiling` | base_attachment_move_queue_job/models/ir_attachment.py:57-67 | K groups in batches of L take ceil(K/L) rounds with a positive count; the next round returns 0 and deactivates the cron |
| `MigrationRounds.FortyGroupsTakeFourRounds` | base_attachment_move_queue_job/models/ir_attachment.py:57-67 | 40 distinct groups with chunk size 10 take four rounds with a positive count |
| `MigrationRounds.UnreadyKeyPersists` | base_attachment_move_queue_job/models/ir_attachment.py:111-122 | a candidate group whose checksum or store_fname is empty survives any batch of transfers, so every later round still plans a group |
| `MigrationRounds.FixupReadiesStuckRow` | base_attachment_move_queue_job/models/ir_attachment.py:17-33 | after checksum repair, a candidate row with a NULL checksum and a filestore-shaped name is still a candidate and its group is no longer skipped |

## Left out

- Row locking with `FOR UPDATE NOWAIT` (lines 126-129) is concurrency with other transactions. It is the parameter `lockFree`. A lock that is not free ends the job with no change (`LockNotAvailable`).
- `_move_attachment_to_store` and `clean_fs` are foreign calls into object-store and filesystem I/O. The first is a `Moved` value: the row values it leaves and the path it returns. The second appends to `cleaned`. Errors raised by either are not modelled.
- Storage configuration (`_storage()`, `_get_stores()`, `is_storage_disabled`) is constant fields of the class.
- Parsing the chunk size with `int()`, and its `ValueError`, are left out. The chunk size is an already parsed natural number. A negative limit cannot be expressed.
- The ORM and SQL machinery (`read_group`, `search`, `env.clear()`, the `_search` override that makes the `res_field` disjunction necessary, and the write guard that `super(...).write` bypasses) is plain filters and updates over the row sequence.
- `BatchPlanner.ReadGroup`: it is weaker than the source on ordering. SQL sorts the groups by `checksum, store_fname` under the database collation, which decides which groups come first under the limit. The model returns them in the order of their first row. A limit of 0 means no LIMIT clause, as the ORM treats a falsy limit.
- `BatchPlanner.IsCandidate`: the `=like '<storage>://%'` test is a prefix test. LIKE wildcards (`_`, `%`) inside a storage name are not modelled.
- The queue_job engine (execution, retries, channels) and the cron lookup through `env.ref` are left out. Enqueueing appends to a list. The cron is a boolean field.
- `MigrationRounds` runs the transfer jobs of a batch in queue order before the next planning job. This is what the priorities 5 and 999 aim at. Jobs from overlapping chains are not modelled.
- Logging and logged text are left out. The returned strings are modelled. `%s` of a NULL group column prints `False`.
- `__manifest__.py` of both modules is metadata with no logic.
