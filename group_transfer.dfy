/**
 * One transfer job: find every binary attachment of a (checksum, store_fname)
 * group, move the first one's bytes to the object store, copy its new
 * location onto the whole group in a single write, and clean the old path.
 */
module GroupTransfer {
  import opened Common
  import opened Records

  /** The search domain of a transfer: binary rows of exactly this group, bound or not. */
  predicate IsMember(a: Attachment, c: string, f: string) {
    && a.kind == Binary
    && a.checksum == Some(c)
    && a.storeFname == Some(f)
    // Always true: the disjunction only stops the ORM's search override from
    // adding `res_field = False`, and that override is not part of this model.
    && (a.resField.None? || a.resField.Some?)
  }

  /** The row indices `search` returns, in table order. */
  function Search(t: seq<Attachment>, c: string, f: string): (ix: seq<nat>)
    ensures forall j :: 0 <= j < |ix| ==> ix[j] < |t| && IsMember(t[ix[j]], c, f)
    ensures forall i :: 0 <= i < |t| && IsMember(t[i], c, f) ==> i in ix
    ensures forall j, k :: 0 <= j < k < |ix| ==> ix[j] < ix[k]
    decreases |t|
  {
    if t == [] then []
    else
      var n := |t| - 1;
      var ix0 := Search(t[..n], c, f);
      if IsMember(t[n], c, f) then ix0 + [n] else ix0
  }

  /** The number of rows in the group. */
  ghost function MemberCount(t: seq<Attachment>, c: string, f: string): nat {
    |set i | 0 <= i < |t| && IsMember(t[i], c, f)|
  }

  /** One write of `v` onto every row listed in `ix`. */
  function GroupWrite(t: seq<Attachment>, ix: seq<nat>, v: Vals): seq<Attachment> {
    seq(|t|, i requires 0 <= i < |t| => if i in ix then Assign(t[i], v) else t[i])
  }

  /**
   * What the object-store collaborator does to the first member: the values it
   * leaves in that row and the old filestore path it returns.
   */
  datatype Moved = Moved(vals: Vals, oldPath: string)

  /** The values copied from the first member onto the group; the checksum is the job's own. */
  function WrittenVals(first: Attachment, c: string): Vals {
    Vals(first.storeFname, first.mimetype, first.dbDatas, Some(c))
  }

  /** A member row after a successful transfer: it carries the moved location and content column. */
  function Migrated(a: Attachment, v: Vals): Attachment {
    a.(storeFname := v.storeFname, mimetype := v.mimetype, dbDatas := v.dbDatas)
  }

  /** How a transfer job ends. LockNotAvailable is the uncaught error of FOR UPDATE NOWAIT. */
  datatype TransferOutcome =
    | SkippedEmptyStoreFname(checksum: Option<string>)
    | SkippedEmptyChecksum(storeFname: Option<string>)
    | LockNotAvailable
    | NothingFound
    | Done(count: nat)

  /** The outcome, the table afterwards and the paths handed to clean_fs. */
  datatype TransferResult = TransferResult(outcome: TransferOutcome, table: seq<Attachment>, cleaned: seq<string>)

  /** The whole transfer job on a table value. */
  function TransferJob(t: seq<Attachment>, checksum: Option<string>, storeFname: Option<string>,
                       lockFree: bool, m: Moved): TransferResult
  {
    if !Truthy(storeFname) then TransferResult(SkippedEmptyStoreFname(checksum), t, [])
    else if !Truthy(checksum) then TransferResult(SkippedEmptyChecksum(storeFname), t, [])
    else if !lockFree then TransferResult(LockNotAvailable, t, [])
    else
      var c, f := checksum.value, storeFname.value;
      var ix := Search(t, c, f);
      if ix == [] then TransferResult(NothingFound, t, [])
      else
        var moved := t[ix[0] := Assign(t[ix[0]], m.vals)];
        TransferResult(Done(|ix|), GroupWrite(moved, ix, WrittenVals(moved[ix[0]], c)), [m.oldPath])
  }

  /**
   * A group with an empty store_fname or an empty checksum is skipped, the
   * store_fname test first, and a held lock aborts; none of them touch the table.
   */
  lemma TransferGuards(t: seq<Attachment>, checksum: Option<string>, storeFname: Option<string>,
                       lockFree: bool, m: Moved)
    ensures !Truthy(storeFname) ==>
      TransferJob(t, checksum, storeFname, lockFree, m) == TransferResult(SkippedEmptyStoreFname(checksum), t, [])
    ensures Truthy(storeFname) && !Truthy(checksum) ==>
      TransferJob(t, checksum, storeFname, lockFree, m) == TransferResult(SkippedEmptyChecksum(storeFname), t, [])
    ensures Truthy(storeFname) && Truthy(checksum) && !lockFree ==>
      TransferJob(t, checksum, storeFname, lockFree, m) == TransferResult(LockNotAvailable, t, [])
  {
  }

  /** The indices a search returns are exactly the group, so their number is its size. */
  lemma SearchCount(t: seq<Attachment>, c: string, f: string)
    ensures |Search(t, c, f)| == MemberCount(t, c, f)
  {
    var ix := Search(t, c, f);
    assert Distinct(ix) by {
      forall j, k | 0 <= j < k < |ix| ensures ix[j] != ix[k] {
      }
    }
    DistinctCard(ix);
    assert Elements(ix) == set i | 0 <= i < |t| && IsMember(t[i], c, f);
  }

  /**
   * A transfer with the lock free rewrites every member with the first
   * member's post-move store_fname, mimetype and db_datas, keeps its checksum,
   * leaves every other row as it was, cleans the returned path and reports
   * the group's size; an empty group is reported and nothing is written.
   */
  lemma TransferRewritesGroup(t: seq<Attachment>, c: string, f: string, m: Moved)
    requires c != "" && f != ""
    ensures var r := TransferJob(t, Some(c), Some(f), true, m);
      && |r.table| == |t|
      && (MemberCount(t, c, f) == 0 ==> r == TransferResult(NothingFound, t, []))
      && (MemberCount(t, c, f) > 0 ==> r.outcome == Done(MemberCount(t, c, f)) && r.cleaned == [m.oldPath])
      && (forall i :: 0 <= i < |t| && IsMember(t[i], c, f) ==> r.table[i] == Migrated(t[i], m.vals))
      && (forall i :: 0 <= i < |t| && !IsMember(t[i], c, f) ==> r.table[i] == t[i])
  {
    var ix := Search(t, c, f);
    SearchCount(t, c, f);
    if ix != [] {
      var moved := t[ix[0] := Assign(t[ix[0]], m.vals)];
      var v := WrittenVals(moved[ix[0]], c);
      assert v == Vals(m.vals.storeFname, m.vals.mimetype, m.vals.dbDatas, Some(c));
      var r := GroupWrite(moved, ix, v);
      forall i | 0 <= i < |t| && IsMember(t[i], c, f)
        ensures r[i] == Migrated(t[i], m.vals)
      {
        assert i in ix;
      }
      forall i | 0 <= i < |t| && !IsMember(t[i], c, f)
        ensures r[i] == t[i]
      {
        assert i !in ix;
      }
    }
  }

  /**
   * When the moved location differs from the group's old store_fname, running
   * the same job again finds nothing: no member row is left behind.
   */
  lemma TransferThenNothingLeft(t: seq<Attachment>, c: string, f: string, m: Moved, m': Moved)
    requires c != "" && f != ""
    requires m.vals.storeFname != Some(f)
    ensures var r := TransferJob(t, Some(c), Some(f), true, m);
      MemberCount(r.table, c, f) == 0 &&
      TransferJob(r.table, Some(c), Some(f), true, m').outcome == NothingFound
  {
  }

  /** Decimal digits of a natural number, as Python's `%s` prints an int. */
  function Decimal(n: nat): (s: string)
    ensures |s| > 0
    ensures forall i :: 0 <= i < |s| ==> '0' <= s[i] <= '9'
  {
    var d := [('0' as int + n % 10) as char];
    if n < 10 then d else Decimal(n / 10) + d
  }

  /** The number a string of decimal digits denotes, read left to right. */
  function DigitsValue(s: string): int
    decreases |s|
  {
    if s == [] then 0 else 10 * DigitsValue(s[..|s| - 1]) + (s[|s| - 1] as int - '0' as int)
  }

  /** Printing a count and reading it back gives the count. */
  lemma {:induction false} DecimalValue(n: nat)
    ensures DigitsValue(Decimal(n)) == n
  {
    var d := [('0' as int + n % 10) as char];
    if n >= 10 {
      DecimalValue(n / 10);
      var s := Decimal(n / 10) + d;
      assert s[..|s| - 1] == Decimal(n / 10);
    }
  }

  /** Different counts print differently. */
  lemma DecimalInjective(a: nat, b: nat)
    ensures Decimal(a) == Decimal(b) ==> a == b
  {
    DecimalValue(a);
    DecimalValue(b);
  }

  /** `%s` of a group column read by read_group, where NULL comes back as False. */
  function Show(v: Option<string>): string {
    match v
    case None => "False"
    case Some(s) => s
  }

  /** A string that starts with `p` does not start with a `q` that differs from `p` at position `k`. */
  lemma CharExcludes(p: string, q: string, s: string, k: nat)
    requires k < |p| && k < |q| && p[k] != q[k] && p <= s
    ensures !(q <= s)
  {
    assert s[k] == p[k];
  }

  const SkipFnamePrefix := "Skipping atts with empty store_fname and checksum "
  const SkipChecksumPrefix := "Skipping atts with empty checkup and store_fname "
  const NothingFoundText := "No attachments found to transfer"
  const DonePrefix := "Transfer done, "

  /** The string the job returns; a held lock raises instead, so it has none. */
  function Message(o: TransferOutcome): (msg: string)
    requires !o.LockNotAvailable?
    ensures o.SkippedEmptyStoreFname? || o.SkippedEmptyChecksum? <==> "Skipping atts with empty " <= msg
    ensures o.SkippedEmptyStoreFname? <==> SkipFnamePrefix <= msg
    ensures o.SkippedEmptyChecksum? <==> SkipChecksumPrefix <= msg
    ensures o.Done? <==> DonePrefix <= msg
    ensures o.NothingFound? ==> msg == NothingFoundText
  {
    var skip := "Skipping atts with empty ";
    assert skip[0] == 'S' && DonePrefix[0] == 'T' && NothingFoundText[0] == 'N';
    assert SkipFnamePrefix[0] == 'S' && SkipFnamePrefix[25] == 's';
    assert SkipChecksumPrefix[0] == 'S' && SkipChecksumPrefix[25] == 'c';
    match o
    case SkippedEmptyStoreFname(c) =>
      var msg := SkipFnamePrefix + Show(c);
      assert skip <= SkipFnamePrefix;
      CharExcludes(skip, DonePrefix, msg, 0);
      CharExcludes(SkipFnamePrefix, SkipChecksumPrefix, msg, 25);
      msg
    case SkippedEmptyChecksum(f) =>
      var msg := SkipChecksumPrefix + Show(f);
      assert skip <= SkipChecksumPrefix;
      CharExcludes(skip, DonePrefix, msg, 0);
      CharExcludes(SkipChecksumPrefix, SkipFnamePrefix, msg, 25);
      msg
    case NothingFound =>
      CharExcludes(NothingFoundText, skip, NothingFoundText, 0);
      CharExcludes(NothingFoundText, DonePrefix, NothingFoundText, 0);
      CharExcludes(NothingFoundText, SkipFnamePrefix, NothingFoundText, 0);
      CharExcludes(NothingFoundText, SkipChecksumPrefix, NothingFoundText, 0);
      NothingFoundText
    case Done(n) =>
      var msg := DonePrefix + Decimal(n) + " attachments moved";
      CharExcludes(DonePrefix, skip, msg, 0);
      CharExcludes(DonePrefix, SkipFnamePrefix, msg, 0);
      CharExcludes(DonePrefix, SkipChecksumPrefix, msg, 0);
      msg
  }

  /** The done message determines the count it reports. */
  lemma MessageDoneInjective(a: nat, b: nat)
    ensures Message(Done(a)) == Message(Done(b)) ==> a == b
  {
    if Message(Done(a)) == Message(Done(b)) {
      var sa, sb := Decimal(a), Decimal(b);
      var tail := " attachments moved";
      assert Message(Done(a)) == DonePrefix + sa + tail;
      assert Message(Done(b)) == DonePrefix + sb + tail;
      assert |sa| == |sb|;
      assert sa == Message(Done(a))[|DonePrefix|..|DonePrefix| + |sa|];
      assert sb == Message(Done(b))[|DonePrefix|..|DonePrefix| + |sb|];
      DecimalInjective(a, b);
    }
  }
}
