/** File and folder upload (`postUpload` in controllers/FilesController.js): the
    session is resolved, the body is checked in a fixed order, the parent is
    checked, and then a folder record is inserted, or the content is written to
    the storage area first and a file record pointing at it inserted after. */
module Files {
  import opened Values
  import opened Db
  import opened Redis
  import opened Http
  import opened Auth
  import Disk

  /** The members of an upload body as sent; a missing member is `Undefined`. */
  datatype UploadBody = UploadBody(name: Json, fileType: Json, data: Json, parentId: Json, isPublic: Json)

  /** `parentId` with its default, the number 0 (the root). */
  function ParentIdOf(body: UploadBody): (r: Json)
    ensures body.parentId == Undefined ==> r == Num(0)
    ensures body.parentId != Undefined ==> r == body.parentId
  {
    if body.parentId == Undefined then Num(0) else body.parentId
  }

  /** `isPublic` with its default, false. */
  function IsPublicOf(body: UploadBody): (r: Json)
    ensures body.isPublic == Undefined ==> r == Bool(false)
    ensures body.isPublic != Undefined ==> r == body.isPublic
  {
    if body.isPublic == Undefined then Bool(false) else body.isPublic
  }

  function KindName(kind: Kind): string
  {
    match kind
    case Folder => "folder"
    case File => "file"
    case Image => "image"
  }

  /** The kind a `type` member names: only the strings "folder", "file" and "image". */
  function KindOf(fileType: Json): (k: Option<Kind>)
    ensures k.Some? <==> fileType == Str("folder") || fileType == Str("file") || fileType == Str("image")
    ensures k.Some? ==> fileType == Str(KindName(k.value))
  {
    if fileType == Str("folder") then Some(Folder)
    else if fileType == Str("file") then Some(File)
    else if fileType == Str("image") then Some(Image)
    else None
  }

  /** What the library calls an upload makes return. */
  datatype Env = Env(
    toObjectId: Json -> Option<ObjectId>,  // ObjectID(v); nothing when it throws
    toBuffer: Json -> Option<Bytes>,       // Buffer.from(v, 'base64'); nothing when it throws
    folderPath: Option<string>,            // the FOLDER_PATH environment variable
    uuid: string,                          // the uuidv4() that names the stored content
    newId: ObjectId)                       // the id insertOne gives the record

  const DefaultRoot: string := "/tmp/files_manager"

  /** `process.env.FOLDER_PATH || '/tmp/files_manager'`. */
  function StorageRoot(folderPath: Option<string>): (root: string)
    ensures root != ""
    ensures Present(folderPath) ==> root == folderPath.value
    ensures !Present(folderPath) ==> root == DefaultRoot
  {
    if Present(folderPath) then folderPath.value else DefaultRoot
  }

  /** Where an upload's content is written: the storage root, a slash, the uuid. */
  function BlobPath(env: Env): (path: string)
    ensures var root := StorageRoot(env.folderPath);
      && |path| == |root| + 1 + |env.uuid|
      && path[..|root|] == root && path[|root|] == '/' && path[|root| + 1..] == env.uuid
  {
    StorageRoot(env.folderPath) + "/" + env.uuid
  }

  /** The record a lookup by `id` finds is a folder. */
  predicate IsFolder(files: seq<FileDoc>, id: ObjectId)
  {
    match Find(files, WithId(id))
    case Some(i) => files[i].kind == Folder
    case None => false
  }

  /** The parent a request names, if it may be used: the number 0 is the root and
      is not looked up; anything else must convert to an id (a conversion that
      throws gives 500), name an existing record, and that record must be a
      folder. Who owns the parent is not checked. */
  function ParentCheck(parentId: Json, files: seq<FileDoc>, toObjectId: Json -> Option<ObjectId>)
    : (r: Result<ParentRef, Response>)
    ensures r == Ok(Root) <==> parentId == Num(0)
    ensures r.Ok? && r.value.InFolder? <==>
      parentId != Num(0) && toObjectId(parentId).Some? && IsFolder(files, toObjectId(parentId).value)
    ensures r.Ok? && r.value.InFolder? ==> r.value.folderId == toObjectId(parentId).value
    ensures r == Err(InternalError) <==> parentId != Num(0) && toObjectId(parentId).None?
    ensures r == Err(BadRequest("Parent not found")) <==>
      && parentId != Num(0) && toObjectId(parentId).Some?
      && forall i :: 0 <= i < |files| ==> files[i].id != toObjectId(parentId).value
    ensures r.Err? ==>
      r.error in {InternalError, BadRequest("Parent not found"), BadRequest("Parent is not a folder")}
  {
    if parentId == Num(0) then Ok(Root)
    else
      match toObjectId(parentId)
      case None => Err(InternalError)
      case Some(id) =>
        var matches := WithId(id);
        match Find(files, matches)
        case None => Err(BadRequest("Parent not found"))
        case Some(i) =>
          assert matches(files[i]);
          if files[i].kind != Folder then Err(BadRequest("Parent is not a folder")) else Ok(InFolder(id))
  }

  /** An upload that passed every check: the uploader, the kind and the parent. */
  datatype Accepted = Accepted(userId: string, kind: Kind, parent: ParentRef)

  /** Under one storage root, distinct uuids name distinct content. */
  lemma BlobPathInjective(env1: Env, env2: Env)
    requires StorageRoot(env1.folderPath) == StorageRoot(env2.folderPath)
    ensures BlobPath(env1) == BlobPath(env2) <==> env1.uuid == env2.uuid
  {
  }

  /** The checks an upload passes before anything is written, in order: a session
      (401), a name, a known type, content unless it is a folder (400 each), then
      the parent. The body is not looked at without a session. */
  function UploadCheck(xToken: Option<string>, body: UploadBody, sessions: map<string, Entry>,
                       files: seq<FileDoc>, toObjectId: Json -> Option<ObjectId>)
    : (r: Result<Accepted, Response>)
    ensures r == Err(Unauthorized) <==> SessionUser(xToken, sessions).None?
    ensures r == Err(BadRequest("Missing name")) <==>
      SessionUser(xToken, sessions).Some? && !Truthy(body.name)
    ensures r == Err(BadRequest("Missing type")) <==>
      SessionUser(xToken, sessions).Some? && Truthy(body.name) && KindOf(body.fileType).None?
    ensures r == Err(BadRequest("Missing data")) <==>
      && SessionUser(xToken, sessions).Some? && Truthy(body.name) && KindOf(body.fileType).Some?
      && KindOf(body.fileType).value != Folder && !Truthy(body.data)
    ensures r.Ok? <==>
      && SessionUser(xToken, sessions).Some? && Truthy(body.name) && KindOf(body.fileType).Some?
      && (KindOf(body.fileType).value != Folder ==> Truthy(body.data))
      && ParentCheck(ParentIdOf(body), files, toObjectId).Ok?
    ensures (SessionUser(xToken, sessions).Some? && Truthy(body.name) && KindOf(body.fileType).Some? &&
             (KindOf(body.fileType).value != Folder ==> Truthy(body.data)) &&
             ParentCheck(ParentIdOf(body), files, toObjectId).Err?) ==>
      r == Err(ParentCheck(ParentIdOf(body), files, toObjectId).error)
    ensures r.Ok? ==>
      r.value == Accepted(SessionUser(xToken, sessions).value, KindOf(body.fileType).value,
                          ParentCheck(ParentIdOf(body), files, toObjectId).value)
  {
    match SessionUser(xToken, sessions)
    case None => Err(Unauthorized)
    case Some(userId) =>
      if !Truthy(body.name) then Err(BadRequest("Missing name"))
      else
        match KindOf(body.fileType)
        case None => Err(BadRequest("Missing type"))
        case Some(kind) =>
          if kind != Folder && !Truthy(body.data) then Err(BadRequest("Missing data"))
          else
            match ParentCheck(ParentIdOf(body), files, toObjectId)
            case Err(response) => Err(response)
            case Ok(parent) => Ok(Accepted(userId, kind, parent))
  }

  /** The state an upload works on: the files collection and the storage area. */
  datatype FileState = FileState(files: seq<FileDoc>, dirs: set<string>, blobs: map<string, Bytes>)

  datatype UploadResult = UploadResult(response: Response, store: FileState)

  /** The 201 answer: the new id, the uploader and the members as supplied. */
  function Created(body: UploadBody, accepted: Accepted, env: Env): (r: Response)
    ensures r.status == 201 && r.body.NewFile?
    ensures r.body.fileId == env.newId && r.body.ownerId == accepted.userId
    ensures r.body.name == body.name && r.body.fileType == body.fileType
    ensures r.body.isPublic == IsPublicOf(body) && r.body.parentId == ParentIdOf(body)
  {
    Response(201, NewFile(env.newId, accepted.userId, body.name, body.fileType, IsPublicOf(body), ParentIdOf(body)))
  }

  /** The record an accepted upload inserts, owned by `owner`; only a file or
      image gets a local path. */
  function NewRecord(body: UploadBody, accepted: Accepted, owner: ObjectId, env: Env): (doc: FileDoc)
    ensures doc.kind == Folder <==> doc.localPath.None?
    ensures doc.localPath.Some? ==> doc.localPath.value == BlobPath(env)
    ensures doc.id == env.newId && doc.userId == owner && doc.parent == accepted.parent
    ensures doc.name == body.name && doc.kind == accepted.kind && doc.isPublic == IsPublicOf(body)
  {
    FileDoc(env.newId, body.name, accepted.kind, owner, accepted.parent, IsPublicOf(body),
            if accepted.kind == Folder then None else Some(BlobPath(env)))
  }

  /** The writes of an accepted upload. A folder: the owner id is converted and
      the record inserted. A file or image: the storage root is created if
      missing, the content decoded and written, and only then the owner id
      converted and the record inserted. A conversion or decoding that throws
      gives 500 and stops there. */
  function Persist(body: UploadBody, accepted: Accepted, st: FileState, env: Env): (r: UploadResult)
    ensures r.response.status == 201 || r.response == InternalError
    ensures r.response.status != 201 ==> r.store.files == st.files
    ensures r.response.status == 201 ==>
      && |r.store.files| == |st.files| + 1
      && r.store.files[..|st.files|] == st.files
      && var doc := r.store.files[|st.files|];
         doc.localPath.Some? ==> doc.localPath.value in r.store.blobs
    ensures accepted.kind == Folder ==> r.store.dirs == st.dirs && r.store.blobs == st.blobs
    ensures accepted.kind != Folder ==>
      && r.store.dirs == st.dirs + {StorageRoot(env.folderPath)}
      && r.store.blobs.Keys <= st.blobs.Keys + {BlobPath(env)}
      && forall p :: p in st.blobs && p != BlobPath(env) ==> p in r.store.blobs && r.store.blobs[p] == st.blobs[p]
  {
    if accepted.kind == Folder then
      match env.toObjectId(Str(accepted.userId))
      case None => UploadResult(InternalError, st)
      case Some(owner) =>
        UploadResult(Created(body, accepted, env),
                     st.(files := st.files + [NewRecord(body, accepted, owner, env)]))
    else
      var withRoot := st.(dirs := st.dirs + {StorageRoot(env.folderPath)});
      match env.toBuffer(body.data)
      case None => UploadResult(InternalError, withRoot)
      case Some(content) =>
        var written := withRoot.(blobs := st.blobs[BlobPath(env) := content]);
        match env.toObjectId(Str(accepted.userId))
        case None => UploadResult(InternalError, written)
        case Some(owner) =>
          UploadResult(Created(body, accepted, env),
                       written.(files := st.files + [NewRecord(body, accepted, owner, env)]))
  }

  /** `postUpload`: the checks, then the writes. */
  function Upload(xToken: Option<string>, body: UploadBody, sessions: map<string, Entry>,
                  st: FileState, env: Env): (r: UploadResult)
    ensures r.response.status in {201, 400, 401, 500}
    ensures r.response.status == 201 ==> |r.store.files| == |st.files| + 1
    ensures r.response.status == 201 ==> r.store.files[..|st.files|] == st.files
    ensures r.response.status != 201 ==> r.store.files == st.files
  {
    match UploadCheck(xToken, body, sessions, st.files, env.toObjectId)
    case Err(response) => UploadResult(response, st)
    case Ok(accepted) => Persist(body, accepted, st, env)
  }

  /** The invariants of the records: a folder has no local path and a file or
      image has one; every local path names stored content; every parent is a
      folder. */
  ghost predicate WellFormed(st: FileState)
  {
    && (forall i :: 0 <= i < |st.files| ==> (st.files[i].kind == Folder <==> st.files[i].localPath.None?))
    && (forall i :: 0 <= i < |st.files| && st.files[i].localPath.Some? ==> st.files[i].localPath.value in st.blobs)
    && (forall i :: 0 <= i < |st.files| && st.files[i].parent.InFolder? ==>
          IsFolder(st.files, st.files[i].parent.folderId))
  }

  /** Without a session the answer is 401 whatever the body, and nothing changes. */
  lemma UploadNeedsSession(xToken: Option<string>, body: UploadBody, sessions: map<string, Entry>,
                           st: FileState, env: Env)
    requires SessionUser(xToken, sessions).None?
    ensures Upload(xToken, body, sessions, st, env) == UploadResult(Unauthorized, st)
  {
  }

  /** A rejected upload answers with the check's error and changes nothing. */
  lemma RejectedUploadChangesNothing(xToken: Option<string>, body: UploadBody,
                                     sessions: map<string, Entry>, st: FileState, env: Env)
    requires UploadCheck(xToken, body, sessions, st.files, env.toObjectId).Err?
    ensures Upload(xToken, body, sessions, st, env) ==
      UploadResult(UploadCheck(xToken, body, sessions, st.files, env.toObjectId).error, st)
    ensures Upload(xToken, body, sessions, st, env).response.status in {400, 401, 500}
  {
  }

  /** An upload either succeeds, inserting exactly one record owned by the
      session's user with the supplied members and `isPublic` defaulting to
      false, or fails without inserting any record. Content is written before
      the record, so a failure leaves at most the new content behind, never a
      record without content. */
  lemma UploadEffects(xToken: Option<string>, body: UploadBody, sessions: map<string, Entry>,
                      st: FileState, env: Env)
    ensures var out := Upload(xToken, body, sessions, st, env);
      var check := UploadCheck(xToken, body, sessions, st.files, env.toObjectId);
      && (out.response.status == 201 <==>
            && check.Ok?
            && (check.value.kind != Folder ==> env.toBuffer(body.data).Some?)
            && env.toObjectId(Str(check.value.userId)).Some?)
      && (out.response.status == 201 ==>
            && out.response == Created(body, check.value, env)
            && out.store.files ==
                 st.files + [NewRecord(body, check.value, env.toObjectId(Str(check.value.userId)).value, env)]
            && check.value.userId == SessionUser(xToken, sessions).value
            && (check.value.kind == Folder ==> out.store.blobs == st.blobs && out.store.dirs == st.dirs)
            && (check.value.kind != Folder ==>
                  && out.store.blobs == st.blobs[BlobPath(env) := env.toBuffer(body.data).value]
                  && out.store.dirs == st.dirs + {StorageRoot(env.folderPath)}))
      && (out.response.status != 201 ==>
            && out.store.files == st.files
            && out.store.dirs <= st.dirs + {StorageRoot(env.folderPath)}
            && out.store.blobs.Keys <= st.blobs.Keys + {BlobPath(env)}
            && (forall path :: path in st.blobs && path != BlobPath(env) ==> out.store.blobs[path] == st.blobs[path]))
  {
  }

  /** Who owns the parent does not matter to the checks. */
  lemma ParentOwnerIgnored(parentId: Json, files: seq<FileDoc>, toObjectId: Json -> Option<ObjectId>,
                           k: nat, owner: ObjectId)
    requires k < |files|
    ensures ParentCheck(parentId, files[k := files[k].(userId := owner)], toObjectId) ==
            ParentCheck(parentId, files, toObjectId)
  {
    var changed := files[k := files[k].(userId := owner)];
    if toObjectId(parentId).Some? {
      var matches := WithId(toObjectId(parentId).value);
      assert forall j :: 0 <= j < |files| ==> matches(changed[j]) == matches(files[j]);
      assert Find(changed, matches) == Find(files, matches);
    }
  }

  /** Every upload, accepted or not, keeps the record invariants. */
  lemma {:induction false} UploadKeepsWellFormed(xToken: Option<string>, body: UploadBody,
                                                 sessions: map<string, Entry>, st: FileState, env: Env)
    requires WellFormed(st)
    ensures WellFormed(Upload(xToken, body, sessions, st, env).store)
  {
    var out := Upload(xToken, body, sessions, st, env);
    var check := UploadCheck(xToken, body, sessions, st.files, env.toObjectId);
    if out.response.status == 201 {
      var accepted := check.value;
      var doc := NewRecord(body, accepted, env.toObjectId(Str(accepted.userId)).value, env);
      var files := out.store.files;
      assert files == st.files + [doc];
      forall id | IsFolder(st.files, id)
        ensures IsFolder(files, id)
      {
        FindAppend(st.files, doc, WithId(id));
      }
      assert accepted.parent.InFolder? ==> IsFolder(st.files, accepted.parent.folderId);
      assert forall i :: 0 <= i < |st.files| ==> files[i] == st.files[i];
    }
  }

  /** No two records share an id. */
  ghost predicate UniqueFileIds(files: seq<FileDoc>)
  {
    forall i, j :: 0 <= i < |files| && 0 <= j < |files| && files[i].id == files[j].id ==> i == j
  }

  /** With an inserted id no record has yet, an upload keeps ids unique. */
  lemma UploadKeepsIdsUnique(xToken: Option<string>, body: UploadBody,
                             sessions: map<string, Entry>, st: FileState, env: Env)
    requires UniqueFileIds(st.files)
    requires forall i :: 0 <= i < |st.files| ==> st.files[i].id != env.newId
    ensures UniqueFileIds(Upload(xToken, body, sessions, st, env).store.files)
  {
    var out := Upload(xToken, body, sessions, st, env);
    if out.response.status == 201 {
      UploadEffects(xToken, body, sessions, st, env);
    }
  }

  /** Registration gives a user a uuid as id and login stores that id as the
      session's value; when the id conversion rejects it (a uuid is neither 12
      bytes nor 24 hex digits), every upload that passes the checks answers 500
      without a record, and a file or image still leaves its content behind. */
  lemma UnconvertibleOwnerCannotUpload(xToken: Option<string>, body: UploadBody,
                                       sessions: map<string, Entry>, st: FileState, env: Env)
    requires UploadCheck(xToken, body, sessions, st.files, env.toObjectId).Ok?
    requires env.toObjectId(Str(SessionUser(xToken, sessions).value)).None?
    ensures var out := Upload(xToken, body, sessions, st, env);
      && out.response == InternalError
      && out.store.files == st.files
      && (UploadCheck(xToken, body, sessions, st.files, env.toObjectId).value.kind != Folder
            && env.toBuffer(body.data).Some? ==>
              out.store.blobs[BlobPath(env)] == env.toBuffer(body.data).value)
  {
    UploadEffects(xToken, body, sessions, st, env);
  }

  /** The upload handler, step by step against the session store, the files
      collection and the storage area. */
  method PostUpload(xToken: Option<string>, body: UploadBody, sessions: Redis.Store,
                    files: Collection<FileDoc>, volume: Disk.Volume, env: Env)
    returns (res: Response)
    modifies files, volume
    ensures var out := Upload(xToken, body, sessions.entries,
                              FileState(old(files.docs), old(volume.dirs), old(volume.blobs)), env);
      && res == out.response
      && files.docs == out.store.files
      && volume.dirs == out.store.dirs
      && volume.blobs == out.store.blobs
  {
    if !Present(xToken) {
      return Unauthorized;
    }
    var userId := sessions.Get(SessionKey(xToken.value));
    if userId.None? || userId.value == "" {
      return Unauthorized;
    }
    if !Truthy(body.name) {
      return BadRequest("Missing name");
    }
    var kind := KindOf(body.fileType);
    if kind.None? {
      return BadRequest("Missing type");
    }
    if kind.value != Folder && !Truthy(body.data) {
      return BadRequest("Missing data");
    }
    var parentId := ParentIdOf(body);
    var parent := Root;
    if parentId != Num(0) {
      var id := env.toObjectId(parentId);
      if id.None? {
        return InternalError;
      }
      var parentFile := files.FindOne(WithId(id.value));
      if parentFile.None? {
        return BadRequest("Parent not found");
      }
      if parentFile.value.kind != Folder {
        return BadRequest("Parent is not a folder");
      }
      parent := InFolder(id.value);
    }
    var accepted := Accepted(userId.value, kind.value, parent);
    if kind.value == Folder {
      var owner := env.toObjectId(Str(userId.value));
      if owner.None? {
        return InternalError;
      }
      files.InsertOne(NewRecord(body, accepted, owner.value, env));
    } else {
      var root := StorageRoot(env.folderPath);
      var rootExists := volume.Exists(root);
      if !rootExists {
        volume.MakeDirectory(root);
      }
      var path := root + "/" + env.uuid;
      var content := env.toBuffer(body.data);
      if content.None? {
        return InternalError;
      }
      volume.WriteFile(path, content.value);
      var owner := env.toObjectId(Str(userId.value));
      if owner.None? {
        return InternalError;
      }
      files.InsertOne(NewRecord(body, accepted, owner.value, env));
    }
    return Created(body, accepted, env);
  }
}
