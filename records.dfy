/** The rows of the ir_attachment table that the migration reads and writes. */
module Records {
  import opened Common

  type Bytes = seq<bv8>

  /** The attachment's `type` selection: stored content or an external URL. */
  datatype Kind = Binary | Url

  /**
   * One ir_attachment row, reduced to the columns the migration uses.
   * A NULL column is None.
   */
  datatype Attachment = Attachment(
    kind: Kind,
    checksum: Option<string>,
    storeFname: Option<string>,
    mimetype: Option<string>,
    dbDatas: Option<Bytes>,
    resField: Option<string>)

  /** A read_group bucket over the columns (checksum, store_fname). */
  datatype GroupKey = GroupKey(checksum: Option<string>, storeFname: Option<string>)

  function KeyOf(a: Attachment): GroupKey {
    GroupKey(a.checksum, a.storeFname)
  }

  /** Values for the columns a transfer rewrites. */
  datatype Vals = Vals(
    storeFname: Option<string>,
    mimetype: Option<string>,
    dbDatas: Option<Bytes>,
    checksum: Option<string>)

  /** A low-level write of `v` onto one row; every other column is kept. */
  function Assign(a: Attachment, v: Vals): Attachment {
    a.(storeFname := v.storeFname, mimetype := v.mimetype, dbDatas := v.dbDatas, checksum := v.checksum)
  }
}
