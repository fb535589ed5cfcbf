/**
 Profile operations of the user context: `getProfile`, `updateProfile` and
 the profile-image upload and delete.
 */
module Profiles {
  import opened Values
  import opened Backend
  import opened Schema
  import Text

  /** `getProfile(userId)`: a lookup of one `profiles` row by id in which the
      backend's no-rows code is not an error. */
  function GetProfile(db: Store, userId: Value, fault: Option<DbError>): (r: Response<Row>)
    ensures r.Failed() <==> fault.Some? && fault.value.code != NoRowsCode
    ensures r.Failed() ==> r == Failure(fault.value.message)
    ensures r.data.Some? <==> fault.None? && |Select(db.profiles, Eq("id", userId))| == 1
    ensures r.data.Some? ==> r.data.value in db.profiles && Get(r.data.value, "id") == userId
  {
    match SelectSingle(db.profiles, Eq("id", userId), fault)
    case Ok(row) => Success(row)
    case Fault(e) =>
      if e.code != NoRowsCode then Failure(e.message) else Response(None, None)
  }

  /** A user without a profile row gets neither data nor an error. */
  lemma {:induction false} GetProfileMissing(db: Store, userId: Value)
    requires forall j :: 0 <= j < |db.profiles| ==> Get(db.profiles[j], "id") != userId
    ensures GetProfile(db, userId, None) == Response(None, None)
  {
    FilterNone(db.profiles, Eq("id", userId));
  }

  /** The row `updateProfile` upserts: the id, the given fields, and a fresh
      `updated_at` stamp, later keys winning. */
  function ProfilePayload(userId: Value, profileData: Row, stamp: string): (p: Row)
    ensures Get(p, "updated_at") == Str(stamp)
    ensures "id" !in profileData ==> Get(p, "id") == userId
    ensures forall k :: k in profileData && k != "updated_at" ==> k in p && p[k] == profileData[k]
    ensures p.Keys == profileData.Keys + {"id", "updated_at"}
  {
    map["id" := userId] + profileData + map["updated_at" := Str(stamp)]
  }

  /** `updateProfile(userId, profileData)`: an upsert keyed on `id`. Without a
      `.select()` the reply carries no data. */
  function UpdateProfile(db: Store, userId: Value, profileData: Row, stamp: string, defaults: Row, fault: Option<DbError>): (s: Step<Row>)
    ensures fault.Some? ==> s == Step(Failure(fault.value.message), db)
    ensures fault.None? ==> s.reply == Response(None, None)
    ensures s.db == db.(profiles := s.db.profiles)
  {
    var (err, t) := Upsert(db.profiles, ProfilePayload(userId, profileData, stamp), defaults, fault);
    match err
    case Some(e) => Step(Failure(e.message), db)
    case None => Step(Response(None, None), db.(profiles := t))
  }

  /** Saving a profile and reading it back returns the saved fields, and the
      table keeps one row per id. */
  lemma {:induction false} UpdateThenGetProfile(db: Store, userId: Value, profileData: Row, stamp: string, defaults: Row)
    requires UniqueIds(db.profiles)
    requires "id" !in profileData
    ensures var s := UpdateProfile(db, userId, profileData, stamp, defaults, None);
            && UniqueIds(s.db.profiles)
            && var r := GetProfile(s.db, userId, None);
            && r.data.Some?
            && Get(r.data.value, "id") == userId
            && Get(r.data.value, "updated_at") == Str(stamp)
            && (forall k :: k in profileData && k != "updated_at" ==> Get(r.data.value, k) == profileData[k])
  {
    var t := db.profiles;
    var payload := ProfilePayload(userId, profileData, stamp);
    var i := UpsertStores(t, payload, defaults);
    SingleById(Upsert(t, payload, defaults, None).1, userId, i);
  }


  /** Object path of a profile image: `<userId>/<ms>_<file name>`. */
  function ProfileImagePath(userId: Value, now: nat, file: Value): (path: string)
    ensures Render(userId) + "/" <= path
    ensures path[|Render(userId)| + 1..] == Text.NatToString(now) + "_" + FileName(file)
  {
    Render(userId) + "/" + Text.NatToString(now) + "_" + FileName(file)
  }

  /** `uploadProfileImage(userId, file)`: the file is stored (replacing any
      object at the path) and its public URL returned; `now` is `Date.now()`
      and `publicUrl` the storage's URL for the path. */
  function UploadProfileImage(db: Store, userId: Value, file: Value, now: nat, fault: Option<string>, publicUrl: string): (s: Step<string>)
    ensures fault.Some? ==> s == Step(Failure(fault.value), db)
    ensures fault.None? ==> s.reply == Success(publicUrl)
    ensures fault.None? ==> s.db == db.(profileImages := db.profileImages[ProfileImagePath(userId, now, file) := file])
  {
    match fault
    case Some(m) => Step(Failure(m), db)
    case None =>
      var path := ProfileImagePath(userId, now, file);
      Step(Success(publicUrl), db.(profileImages := db.profileImages[path := file]))
  }

  /** `deleteProfileImage(path)`. */
  function DeleteProfileImage(db: Store, path: string, fault: Option<string>): (s: Step<Row>)
    ensures fault.Some? ==> s == Step(Failure(fault.value), db)
    ensures fault.None? ==> s.reply == Response(None, None) && path !in s.db.profileImages
    ensures s.db == db.(profileImages := s.db.profileImages)
    ensures s.db.profileImages.Keys <= db.profileImages.Keys
  {
    match fault
    case Some(m) => Step(Failure(m), db)
    case None => Step(Response(None, None), db.(profileImages := db.profileImages - {path}))
  }
}
