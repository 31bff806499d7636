/** The document store the handlers use, reduced to its contract: a collection is
    the sequence of its documents in insertion order, `findOne` returns the first
    document a query matches and `insertOne` appends. */
module Db {
  import opened Values

  /** A registered user: the id registration drew, the email as supplied and the
      digest of the password. */
  datatype UserDoc = UserDoc(id: string, email: Json, password: Digest)

  datatype Kind = Folder | File | Image

  /** Where a file record sits: at the root (stored as the number 0) or inside
      the folder with the given id. */
  datatype ParentRef = Root | InFolder(folderId: ObjectId)

  datatype FileDoc = FileDoc(
    id: ObjectId,
    name: Json,
    kind: Kind,
    userId: ObjectId,
    parent: ParentRef,
    isPublic: Json,
    localPath: Option<string>)

  /** The position of the first document the query matches, if any. */
  function Find<T>(docs: seq<T>, matches: T -> bool): (r: Option<nat>)
    ensures r.Some? ==> r.value < |docs| && matches(docs[r.value])
    ensures r.Some? ==> forall j :: 0 <= j < r.value ==> !matches(docs[j])
    ensures r.None? ==> forall j :: 0 <= j < |docs| ==> !matches(docs[j])
  {
    if |docs| == 0 then None
    else if matches(docs[0]) then Some(0)
    else
      match Find(docs[1..], matches)
      case None => None
      case Some(k) => Some(k + 1)
  }

  /** Appending a document never changes which earlier document a query finds. */
  lemma FindAppend<T>(docs: seq<T>, doc: T, matches: T -> bool)
    ensures Find(docs + [doc], matches) ==
      if Find(docs, matches).Some? then Find(docs, matches)
      else if matches(doc) then Some(|docs|)
      else None
  {
    var all := docs + [doc];
    assert forall j :: 0 <= j < |docs| ==> all[j] == docs[j];
    assert all[|docs|] == doc;
  }

  /** The query `{ _id: id }` on the files collection. */
  function WithId(id: ObjectId): FileDoc -> bool
  {
    (d: FileDoc) => d.id == id
  }

  /** The query `{ email }` on the users collection. */
  function WithEmail(email: Json): UserDoc -> bool
  {
    (u: UserDoc) => u.email == email
  }

  /** The query `{ email, password: digest }` on the users collection. */
  function WithLogin(email: string, digest: Digest): UserDoc -> bool
  {
    (u: UserDoc) => u.email == Str(email) && u.password == digest
  }

  class Collection<T> {
    var docs: seq<T>

    constructor ()
      ensures docs == []
    {
      docs := [];
    }

    /** `findOne(query)`: the first matching document, or nothing. */
    method FindOne(matches: T -> bool) returns (r: Option<T>)
      ensures r.None? <==> forall j :: 0 <= j < |docs| ==> !matches(docs[j])
      ensures r.Some? ==> exists j :: 0 <= j < |docs| && docs[j] == r.value && matches(r.value)
      ensures r == match Find(docs, matches) case Some(j) => Some(docs[j]) case None => None
    {
      var k := Find(docs, matches);
      r := match k case Some(j) => Some(docs[j]) case None => None;
    }

    /** `insertOne(doc)`: the document is appended and nothing else changes. */
    method InsertOne(doc: T)
      modifies this
      ensures docs == old(docs) + [doc]
    {
      docs := docs + [doc];
    }
  }
}
