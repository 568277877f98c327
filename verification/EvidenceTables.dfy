/** The rows of the cases and evidence tables and the contents of the object store. */
module EvidenceTables {
  import opened Common
  import opened Texts
  import opened EvidenceNames

  type Bytes = seq<Byte>

  const ACTIVE := "active"
  const CLOSED := "closed"
  const ARCHIVED := "archived"

  datatype Case = Case(
    reference: string,
    title: string,
    description: string,
    jurisdiction: string,
    status: string,
    legalHold: bool,
    counter: nat)

  datatype Row = Row(
    caseId: UUID,
    counter: nat,
    key: ObjectKey,
    hash: string,
    description: string,
    thumbnail: Option<ObjectKey>,
    current: bool,
    version: nat,
    parent: Option<UUID>,
    destroyed: bool)

  /** A new row is current, has version 1 and no parent. */
  function FirstVersion(caseId: UUID, counter: nat, key: ObjectKey, hash: string, description: string): Row {
    Row(caseId, counter, key, hash, description, None, true, 1, None, false)
  }

  /** What a call did: took effect, had no effect and failed, or took effect and still reported an error. */
  datatype Outcome = Done | Failed | ReplyLost
  {
    predicate Effective() { Done? || ReplyLost? }
  }

  function Without(m: map<ObjectKey, Bytes>, k: ObjectKey, out: Outcome): map<ObjectKey, Bytes> {
    if out.Effective() then m - {k} else m
  }

  function With(m: map<ObjectKey, Bytes>, k: ObjectKey, data: Bytes, out: Outcome): map<ObjectKey, Bytes> {
    if out.Effective() then m[k := data] else m
  }
}
