/**
 Service-listing operations of the user context: `createService` with its
 optional image upload, the three listing reads, `updateService` and
 `deleteService`.
 */
module Services {
  import opened Values
  import opened Seqs
  import opened Backend
  import opened Schema
  import Text

  const Active: Value := Str("active")

  /** Prefix of the error `createService` reports when the upload fails. */
  const UploadFailedPrefix: string := "Image upload failed: "

  /** The TypeError message for reading `user.id` while no user is signed in,
      in the V8 engine's wording. */
  const NoUserMessage: string := "Cannot read properties of null (reading 'id')"

  /** Object path of a service image: `services/<userId>/<ms>_<file name>`. */
  function ServiceImagePath(userId: Value, now: nat, file: Value): (path: string)
    ensures "services/" + Render(userId) + "/" <= path
    ensures path[|Render(userId)| + 10..] == Text.NatToString(now) + "_" + FileName(file)
  {
    "services/" + Render(userId) + "/" + Text.NatToString(now) + "_" + FileName(file)
  }

  /** `uploadServiceImage(userId, file)`: store the file and return its public URL. */
  function UploadServiceImage(db: Store, userId: Value, file: Value, now: nat, fault: Option<string>, publicUrl: string): (s: Step<string>)
    ensures fault.Some? ==> s == Step(Failure(fault.value), db)
    ensures fault.None? ==> s.reply == Success(publicUrl)
    ensures fault.None? ==> s.db == db.(serviceImages := db.serviceImages[ServiceImagePath(userId, now, file) := file])
  {
    match fault
    case Some(m) => Step(Failure(m), db)
    case None =>
      Step(Success(publicUrl), db.(serviceImages := db.serviceImages[ServiceImagePath(userId, now, file) := file]))
  }

  /** The payload once the upload is through: the URL injected (null when
      the upload reported an empty error message), the file removed. */
  function WithImageUrl(payload: Row, publicUrl: Value): (p: Row)
    ensures "image_file" !in p
    ensures Get(p, "image_url") == publicUrl
    ensures forall k :: k in payload && k != "image_file" && k != "image_url" ==> k in p && p[k] == payload[k]
    ensures p.Keys == payload.Keys - {"image_file"} + {"image_url"}
  {
    payload["image_url" := publicUrl] - {"image_file"}
  }

  /** The insert step of `createService`. */
  function InsertService(db: Store, payload: Row, defaults: Row, fault: Option<DbError>): (s: Step<Row>)
    ensures fault.Some? ==> s == Step(Failure(fault.value.message), db)
    ensures fault.None? ==> s.reply.data.Some? && !s.reply.Failed()
                            && s.db == db.(services := db.services + [s.reply.data.value])
                            && forall k :: k in payload ==> k in s.reply.data.value && s.reply.data.value[k] == payload[k]
  {
    match Insert(db.services, payload, defaults, fault)
    case (Ok(row), t) => Step(Success(row), db.(services := t))
    case (Fault(e), _) => Step(Failure(e.message), db)
  }

  /** `createService(serviceData)`. `user` is the signed-in user, `now` is
      `Date.now()`, `uploadFault`/`publicUrl` the storage outcome and
      `defaults`/`insertFault` the insert's. */
  function CreateService(db: Store, user: Option<Row>, payload: Row, now: nat,
                         uploadFault: Option<string>, publicUrl: string,
                         defaults: Row, insertFault: Option<DbError>): (s: Step<Row>)
    // a failure inserts nothing; a success inserts exactly the returned row
    ensures s.reply.Failed() ==> s.db.services == db.services
    ensures !s.reply.Failed() ==> s.reply.data.Some? && s.db.services == db.services + [s.reply.data.value]
    // no image: the payload goes in as given, a falsy `image_file` included
    ensures !Truthy(Get(payload, "image_file")) && !s.reply.Failed()
            ==> forall k :: k in payload ==> k in s.reply.data.value && s.reply.data.value[k] == payload[k]
    // an image and no signed-in user: the read of `user.id` throws
    ensures Truthy(Get(payload, "image_file")) && user.None? ==> s == Step(Failure(NoUserMessage), db)
    // an image whose upload fails with a message: wrapped error, nothing written
    ensures Truthy(Get(payload, "image_file")) && user.Some? && uploadFault.Some? && uploadFault.value != ""
            ==> s == Step(Failure(UploadFailedPrefix + uploadFault.value), db)
    // an upload error with an empty message is falsy: no file is stored, and
    // the insert goes ahead with the null URL the failed upload returned
    ensures Truthy(Get(payload, "image_file")) && user.Some? && uploadFault == Some("")
            ==> s.db.serviceImages == db.serviceImages
                && s == InsertService(db, WithImageUrl(payload, Null), defaults, insertFault)
    // an uploaded image: the file is stored under the owner's path even if the insert then fails
    ensures Truthy(Get(payload, "image_file")) && user.Some? && uploadFault.None?
            ==> ServiceImagePath(Get(user.value, "id"), now, payload["image_file"]) in s.db.serviceImages
    // and the row carries the URL (null after an empty-message upload error) instead of the file
    ensures Truthy(Get(payload, "image_file")) && !s.reply.Failed()
            ==> var row := s.reply.data.value;
                && "image_file" !in row - defaults.Keys
                && Get(row, "image_url") == (if uploadFault.None? then Str(publicUrl) else Null)
                && forall k :: k in payload && k != "image_file" && k != "image_url" ==> k in row && row[k] == payload[k]
  {
    if Truthy(Get(payload, "image_file")) then
      match user
      case None => Step(Failure(NoUserMessage), db)
      case Some(u) =>
        var up := UploadServiceImage(db, Get(u, "id"), payload["image_file"], now, uploadFault, publicUrl);
        if up.reply.error.Some? && up.reply.error.value != "" then Step(Failure(UploadFailedPrefix + up.reply.error.value), db)
        else
          // `publicUrl` is null when the upload failed
          var url := if up.reply.data.Some? then Str(up.reply.data.value) else Null;
          InsertService(up.db, WithImageUrl(payload, url), defaults, insertFault)
    else
      InsertService(db, payload, defaults, insertFault)
  }

  /** `getUserServices(userId)`: every service the user owns, whatever its status. */
  function GetUserServices(db: Store, userId: Value, fault: Option<DbError>): (r: Response<Table>)
    ensures fault.Some? ==> r == Failure(fault.value.message)
    ensures fault.None? ==> r.data.Some? && !r.Failed()
    ensures fault.None? ==> forall x :: x in r.data.value <==> x in db.services && Get(x, "user_id") == userId
    ensures fault.None? ==> IsSubsequence(r.data.value, db.services)
  {
    if fault.Some? then Failure(fault.value.message)
    else Success(Select(db.services, Eq("user_id", userId)))
  }

  /** `getAllServices()`: the active services only. */
  function GetAllServices(db: Store, fault: Option<DbError>): (r: Response<Table>)
    ensures fault.Some? ==> r == Failure(fault.value.message)
    ensures fault.None? ==> r.data.Some? && !r.Failed()
    ensures fault.None? ==> forall x :: x in r.data.value <==> x in db.services && Get(x, "status") == Active
    ensures fault.None? ==> IsSubsequence(r.data.value, db.services)
  {
    if fault.Some? then Failure(fault.value.message)
    else Success(Select(db.services, Eq("status", Active)))
  }

  /** `getServiceById(id)`: the one active service with that id; a missing or
      inactive service is an error, not empty data. */
  function GetServiceById(db: Store, id: Value, fault: Option<DbError>): (r: Response<Row>)
    ensures r.data.Some? <==> !r.Failed()
    ensures r.data.Some? ==> r.data.value in db.services && Get(r.data.value, "id") == id && Get(r.data.value, "status") == Active
    ensures fault.Some? ==> r == Failure(fault.value.message)
    ensures fault.None? && r.Failed() ==> r == Failure(NoRowsError.message)
  {
    match SelectSingle(db.services, Both(Eq("id", id), Eq("status", Active)), fault)
    case Ok(row) =>
      assert Holds(Eq("id", id), row) && Holds(Eq("status", Active), row);
      Success(row)
    case Fault(e) => Failure(e.message)
  }

  /** `updateService(id, data)`: no ownership check at this layer. */
  function UpdateService(db: Store, id: Value, data: Row, fault: Option<DbError>): (s: Step<Row>)
    ensures s.reply.Failed() ==> s.db == db
    ensures !s.reply.Failed() ==> s.db == db.(services := Patch(db.services, Eq("id", id), data))
    ensures !s.reply.Failed() <==> fault.None? && |Select(db.services, Eq("id", id))| == 1
  {
    match UpdateOne(db.services, Eq("id", id), data, fault)
    case (Ok(row), t) => Step(Success(row), db.(services := t))
    case (Fault(e), _) => Step(Failure(e.message), db)
  }

  /** `deleteService(id)`: no ownership check at this layer. */
  function DeleteService(db: Store, id: Value, fault: Option<DbError>): (s: Step<Row>)
    ensures fault.Some? ==> s == Step(Failure(fault.value.message), db)
    ensures fault.None? ==> s.reply == Response(None, None)
    ensures fault.None? ==> forall x :: x in s.db.services <==> x in db.services && Get(x, "id") != id
    ensures s.db == db.(services := s.db.services)
  {
    match Delete(db.services, Eq("id", id), fault)
    case (Some(e), _) => Step(Failure(e.message), db)
    case (None, t) => Step(Response(None, None), db.(services := t))
  }

  /** A created service is appended to its owner's list, and to the public
      listing exactly when its status is active; nothing else in either
      listing changes. */
  lemma {:induction false} CreatedServiceListed(db: Store, user: Option<Row>, payload: Row, now: nat,
                             uploadFault: Option<string>, publicUrl: string, defaults: Row)
    ensures var s := CreateService(db, user, payload, now, uploadFault, publicUrl, defaults, None);
            !s.reply.Failed() ==>
              var row := s.reply.data.value;
              var owner := Get(row, "user_id");
              && GetUserServices(s.db, owner, None).data.value == GetUserServices(db, owner, None).data.value + [row]
              && GetAllServices(s.db, None).data.value
                 == GetAllServices(db, None).data.value + (if Get(row, "status") == Active then [row] else [])
  {
    var s := CreateService(db, user, payload, now, uploadFault, publicUrl, defaults, None);
    if !s.reply.Failed() {
      var row := s.reply.data.value;
      SelectAppend(db.services, Eq("user_id", Get(row, "user_id")), row);
      SelectAppend(db.services, Eq("status", Active), row);
    }
  }

  /** An inactive service cannot be fetched by id even though it exists. */
  lemma {:induction false} InactiveServiceHidden(db: Store, i: nat)
    requires UniqueIds(db.services)
    requires i < |db.services| && Get(db.services[i], "status") != Active
    ensures GetServiceById(db, Get(db.services[i], "id"), None).Failed()
  {
    var id := Get(db.services[i], "id");
    var c := Both(Eq("id", id), Eq("status", Active));
    forall j | 0 <= j < |db.services| ensures !Holds(c, db.services[j]) {
      if j != i { assert Get(db.services[j], "id") != id; }
    }
    FilterNone(db.services, c);
  }

  /** An active service is found by its id, and it is exactly the row
      returned. */
  lemma {:induction false} ActiveServiceFound(db: Store, i: nat)
    requires UniqueIds(db.services)
    requires i < |db.services| && Get(db.services[i], "status") == Active
    ensures GetServiceById(db, Get(db.services[i], "id"), None) == Success(db.services[i])
  {
    var id := Get(db.services[i], "id");
    var c := Both(Eq("id", id), Eq("status", Active));
    forall j | 0 <= j < |db.services| && j != i ensures !Holds(c, db.services[j]) {
      assert Get(db.services[j], "id") != id;
    }
    SingleMatch(db.services, c, i);
  }

  /** After a delete, the service can no longer be fetched by id. */
  lemma {:induction false} DeletedServiceGone(db: Store, id: Value)
    ensures var s := DeleteService(db, id, None);
            GetServiceById(s.db, id, None).Failed()
  {
    var t := DeleteService(db, id, None).db.services;
    forall j | 0 <= j < |t| ensures !Holds(Both(Eq("id", id), Eq("status", Active)), t[j]) {
      assert t[j] in t;
    }
    FilterNone(t, Both(Eq("id", id), Eq("status", Active)));
  }
}
