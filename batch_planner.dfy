/**
 * The batch planner's query: which attachments still live outside the target
 * object store, and the read_group over (checksum, store_fname) that turns
 * them into at most `limit` transfer groups.
 */
module BatchPlanner {
  import opened Common
  import opened Records

  /** The store_fname prefix of an attachment already in `storage`. */
  function StoragePrefix(storage: string): string {
    storage + "://"
  }

  /**
   * The search domain: binary, store_fname set, store_fname not `=like`
   * `<storage>://%`, and `res_field = False OR res_field != False`.
   */
  predicate IsCandidate(a: Attachment, storage: string) {
    && a.kind == Binary
    && a.storeFname.Some?
    && !(StoragePrefix(storage) <= a.storeFname.value)
    // Always true: the disjunction only stops the ORM's search override from
    // adding `res_field = False`, and that override is not part of this model.
    && (a.resField.None? || a.resField.Some?)
  }

  /** The read_group buckets that exist over the candidate rows. */
  ghost function CandidateKeys(t: seq<Attachment>, storage: string): set<GroupKey> {
    set i | 0 <= i < |t| && IsCandidate(t[i], storage) :: KeyOf(t[i])
  }

  /** Whether a row is bound to a field value has no bearing on eligibility. */
  lemma CandidateIgnoresResField(a: Attachment, storage: string, rf: Option<string>)
    ensures IsCandidate(a.(resField := rf), storage) == IsCandidate(a, storage)
  {
  }

  lemma CandidateKeysSnoc(t: seq<Attachment>, storage: string)
    requires |t| > 0
    ensures CandidateKeys(t, storage) ==
      CandidateKeys(t[..|t| - 1], storage) +
      (if IsCandidate(t[|t| - 1], storage) then {KeyOf(t[|t| - 1])} else {})
  {
  }

  /** The buckets in order of their first row, each once. */
  function GroupKeys(t: seq<Attachment>, storage: string): (ks: seq<GroupKey>)
    ensures Distinct(ks)
    ensures forall k :: k in ks <==> k in CandidateKeys(t, storage)
    decreases |t|
  {
    if t == [] then []
    else
      var n := |t| - 1;
      var ks0 := GroupKeys(t[..n], storage);
      CandidateKeysSnoc(t, storage);
      if IsCandidate(t[n], storage) && KeyOf(t[n]) !in ks0 then ks0 + [KeyOf(t[n])] else ks0
  }

  /**
   * `read_group(domain, ['checksum', 'store_fname'], ..., lazy=False, limit=limit)`
   * projected onto its (checksum, store_fname) pairs. A limit of 0 means no LIMIT.
   */
  function ReadGroup(t: seq<Attachment>, storage: string, limit: nat): (ks: seq<GroupKey>)
    ensures Distinct(ks)
    ensures forall k :: k in ks ==> k in CandidateKeys(t, storage)
    ensures |ks| == if limit == 0 then |CandidateKeys(t, storage)| else Min(limit, |CandidateKeys(t, storage)|)
    ensures limit == 0 || |CandidateKeys(t, storage)| <= limit ==> Elements(ks) == CandidateKeys(t, storage)
  {
    var all := GroupKeys(t, storage);
    assert Elements(all) == CandidateKeys(t, storage);
    DistinctCard(all);
    if limit == 0 || |all| <= limit then all else all[..limit]
  }
}
