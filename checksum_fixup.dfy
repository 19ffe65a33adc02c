/**
 * Checksum repair: the bulk UPDATE that fills a NULL checksum of a binary
 * attachment from its filestore name `xy/<40 hex digits>`.
 */
module ChecksumFixup {
  import opened Common
  import opened Records

  /** `[0-9a-f]`: PostgreSQL's `~` is case-sensitive, so upper-case digits do not match. */
  predicate IsHexDigit(ch: char) {
    ('0' <= ch <= '9') || ('a' <= ch <= 'f')
  }

  predicate IsHexString(s: string) {
    forall i :: 0 <= i < |s| ==> IsHexDigit(s[i])
  }

  /** The anchored pattern `^[0-9a-f]{2}/[0-9a-f]{40}$`. */
  predicate IsFilestoreName(s: string) {
    && |s| == 43
    && IsHexDigit(s[0]) && IsHexDigit(s[1])
    && s[2] == '/'
    && IsHexString(s[3..])
  }

  function Clamp(x: int, lo: int, hi: int): int
    requires lo <= hi
  {
    if x < lo then lo else if x > hi then hi else x
  }

  /**
   * PostgreSQL `substr(s, from, count)`: the characters at 1-based positions
   * from .. from + count - 1, clipped to the string.
   */
  function Substr(s: string, from: int, count: nat): (r: string)
    ensures |r| <= count
    ensures 1 <= from && from - 1 + count <= |s| ==> r == s[from - 1 .. from - 1 + count]
  {
    var lo := Clamp(from - 1, 0, |s|);
    var hi := Clamp(from - 1 + count, lo, |s|);
    s[lo..hi]
  }

  /** The checksum the UPDATE writes: `substr(store_fname, 4, 40)`. */
  function ChecksumFromFname(fname: string): string {
    Substr(fname, 4, 40)
  }

  /** The WHERE clause of the repair. */
  predicate NeedsRepair(a: Attachment) {
    && a.checksum.None?
    && a.storeFname.Some?
    && IsFilestoreName(a.storeFname.value)
    && a.kind == Binary
  }

  function RepairRow(a: Attachment): Attachment {
    if NeedsRepair(a) then a.(checksum := Some(ChecksumFromFname(a.storeFname.value))) else a
  }

  /** The table after the UPDATE statement. */
  function FixupTable(t: seq<Attachment>): seq<Attachment> {
    seq(|t|, i requires 0 <= i < |t| => RepairRow(t[i]))
  }

  /** The repaired checksum is the 40 lower-case hex digits after the slash. */
  lemma RepairedChecksumShape(fname: string)
    requires IsFilestoreName(fname)
    ensures ChecksumFromFname(fname) == fname[3..]
    ensures |ChecksumFromFname(fname)| == 40 && IsHexString(ChecksumFromFname(fname))
  {
  }

  /**
   * Exactly the rows matching the WHERE clause change, only in their checksum,
   * and each receives a 40-digit lower-case hex checksum.
   */
  lemma FixupTableSpec(t: seq<Attachment>)
    ensures |FixupTable(t)| == |t|
    ensures forall i :: 0 <= i < |t| && NeedsRepair(t[i]) ==>
      && FixupTable(t)[i] == t[i].(checksum := Some(t[i].storeFname.value[3..]))
      && |FixupTable(t)[i].checksum.value| == 40
      && IsHexString(FixupTable(t)[i].checksum.value)
    ensures forall i :: 0 <= i < |t| && !NeedsRepair(t[i]) ==> FixupTable(t)[i] == t[i]
  {
    forall i | 0 <= i < |t| && NeedsRepair(t[i]) {
      RepairedChecksumShape(t[i].storeFname.value);
    }
  }

  /** A repaired row no longer matches the WHERE clause, so a second run changes nothing. */
  lemma FixupIdempotent(t: seq<Attachment>)
    ensures FixupTable(FixupTable(t)) == FixupTable(t)
  {
  }

  /** The filestore name of content whose checksum is `c`: `c[:2] + '/' + c`. */
  function FilestoreName(c: string): string
    requires |c| >= 2
  {
    c[..2] + "/" + c
  }

  /**
   * The repair inverts the filestore naming: a name built from a 40-digit hex
   * checksum matches the pattern and repairs back to that checksum; and a
   * matching name whose directory is the checksum's first two digits is
   * rebuilt from its repaired checksum.
   */
  lemma FilestoreNameRoundTrip(c: string, fname: string)
    ensures |c| == 40 && IsHexString(c) ==>
      IsFilestoreName(FilestoreName(c)) && ChecksumFromFname(FilestoreName(c)) == c
    ensures IsFilestoreName(fname) && fname[..2] == fname[3..5] ==>
      FilestoreName(ChecksumFromFname(fname)) == fname
  {
    if |c| == 40 && IsHexString(c) {
      var s := FilestoreName(c);
      assert s[3..] == c;
      assert s[0] == c[0] && s[1] == c[1];
    }
    if IsFilestoreName(fname) && fname[..2] == fname[3..5] {
      RepairedChecksumShape(fname);
      var c' := ChecksumFromFname(fname);
      assert c'[..2] == fname[3..5];
      assert fname == fname[..2] + "/" + fname[3..];
    }
  }
}
