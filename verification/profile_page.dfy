/**
 The profile page: the fields it displays, derived from the `profiles` row
 and the auth user, and the edit/cancel/save cycle over a saved copy
 (`profileData`) and a working copy (`tempData`).
 */
module ProfilePage {
  import opened Values
  import opened Text
  import opened Backend
  import opened Schema
  import Profiles

  /** The six displayed fields. Each holds whatever value the fallback chain
      produced, so a non-string profile value is kept as it is. */
  datatype ProfileView = ProfileView(name: Value, email: Value, phone: Value, location: Value, bio: Value, joinedDate: Value)

  const EmptyView: ProfileView := ProfileView(Str(""), Str(""), Str(""), Str(""), Str(""), Str(""))

  datatype PageState = PageState(
    profileData: ProfileView,
    tempData: ProfileView,
    isEditing: bool,
    error: string,
    loadingProfile: bool)

  const InitialState: PageState := PageState(EmptyView, EmptyView, false, "", true)

  const LoadFailed: string := "Failed to load profile data"
  const SaveFailed: string := "Failed to save profile data"

  /** A field of the auth user's `user_metadata` (absent when there is none). */
  function Meta(user: Row, key: string): Value {
    Get(Values.Fields(Get(user, "user_metadata")), key)
  }

  /** `user.email?.split('@')[0]`: the local part of a string email; any other
      email reads as absent. */
  function EmailLocalPart(user: Row): (v: Value)
    ensures Get(user, "email").Str? ==> v == Str(BeforeFirst(Get(user, "email").s, '@'))
    ensures !Get(user, "email").Str? ==> v == Null
  {
    match Get(user, "email")
    case Str(e) => Str(BeforeFirst(e, '@'))
    case _ => Null
  }

  /** `a || b || ''` and `a || b || c || ''`: a value that is truthy, or the
      empty string. */
  predicate Shown(v: Value) { Truthy(v) || v == Str("") }

  /** The view built when a profile row `data` came back. `joined` is the
      locale rendering of `created_at`, which the model does not compute. */
  function DisplayFound(user: Row, data: Row, joined: string): (v: ProfileView)
    ensures Truthy(Get(data, "name")) ==> v.name == Get(data, "name")
    ensures !Truthy(Get(data, "name")) && Truthy(Meta(user, "name")) ==> v.name == Meta(user, "name")
    ensures !Truthy(Get(data, "name")) && !Truthy(Meta(user, "name")) ==> v.name == Or(EmailLocalPart(user), Str(""))
    ensures v.email == Or(Get(user, "email"), Str(""))
    ensures Truthy(Get(data, "phone")) ==> v.phone == Get(data, "phone")
    ensures !Truthy(Get(data, "phone")) ==> v.phone == Or(Meta(user, "phone"), Str(""))
    ensures Truthy(Get(data, "location")) ==> v.location == Get(data, "location")
    ensures !Truthy(Get(data, "location")) ==> v.location == Or(Meta(user, "location"), Str(""))
    ensures Truthy(Get(data, "bio")) ==> v.bio == Get(data, "bio")
    ensures !Truthy(Get(data, "bio")) ==> v.bio == Or(Meta(user, "bio"), Str(""))
    ensures Shown(v.name) && Shown(v.email) && Shown(v.phone) && Shown(v.location) && Shown(v.bio)
  {
    ProfileView(
      Or(Get(data, "name"), Or(Meta(user, "name"), Or(EmailLocalPart(user), Str("")))),
      Or(Get(user, "email"), Str("")),
      Or(Get(data, "phone"), Or(Meta(user, "phone"), Str(""))),
      Or(Get(data, "location"), Or(Meta(user, "location"), Str(""))),
      Or(Get(data, "bio"), Or(Meta(user, "bio"), Str(""))),
      JoinedDate(user, joined))
  }

  function JoinedDate(user: Row, joined: string): Value {
    if Truthy(Get(user, "created_at")) then Str(joined) else Str("")
  }

  /** The view built when no profile row exists: the auth user's metadata,
      then the email's local part, then empty. */
  function DisplayFallback(user: Row, joined: string): (v: ProfileView)
    ensures v.email == Or(Get(user, "email"), Str(""))
    ensures Truthy(Meta(user, "name")) ==> v.name == Meta(user, "name")
  {
    ProfileView(
      Or(Meta(user, "name"), Or(EmailLocalPart(user), Str(""))),
      Or(Get(user, "email"), Str("")),
      Or(Meta(user, "phone"), Str("")),
      Or(Meta(user, "location"), Str("")),
      Or(Meta(user, "bio"), Str("")),
      JoinedDate(user, joined))
  }

  /** The two branches agree: no row displays like a row with no fields. */
  lemma {:induction false} FallbackIsEmptyRow(user: Row, joined: string)
    ensures DisplayFallback(user, joined) == DisplayFound(user, map[], joined)
  {
    assert Get(map[], "name") == Null;
  }

  /** The displayed email is the auth user's whatever the profile row holds. */
  lemma {:induction false} EmailFromAuthUser(user: Row, d1: Row, d2: Row, joined: string)
    ensures DisplayFound(user, d1, joined).email == DisplayFound(user, d2, joined).email
                                                 == DisplayFallback(user, joined).email
  {
  }

  /** `fetchProfile`: without a user nothing happens. A truthy error other
      than the text `PGRST116` shows the load failure and keeps the data. */
  function FetchProfile(st: PageState, db: Store, user: Option<Row>, fault: Option<DbError>, joined: string): (next: PageState)
    ensures user.None? ==> next == st
    ensures user.Some? ==> !next.loadingProfile && next.isEditing == st.isEditing
    ensures user.Some? ==>
              var r := Profiles.GetProfile(db, Get(user.value, "id"), fault);
              if r.error.Some? && r.error.value != "" && r.error.value != NoRowsCode
              then next == st.(error := LoadFailed, loadingProfile := false)
              else next.profileData == next.tempData
                   && next.profileData == (if r.data.Some? then DisplayFound(user.value, r.data.value, joined)
                                           else DisplayFallback(user.value, joined))
  {
    match user
    case None => st
    case Some(u) =>
      var r := Profiles.GetProfile(db, Get(u, "id"), fault);
      if r.error.Some? && r.error.value != "" && r.error.value != NoRowsCode then
        st.(error := LoadFailed, loadingProfile := false)
      else
        var view := if r.data.Some? then DisplayFound(u, r.data.value, joined) else DisplayFallback(u, joined);
        st.(profileData := view, tempData := view, loadingProfile := false)
  }

  /** A user without a profile row sees the fallback view, with no error. */
  lemma {:induction false} MissingProfileShowsFallback(st: PageState, db: Store, user: Row, joined: string)
    requires forall j :: 0 <= j < |db.profiles| ==> Get(db.profiles[j], "id") != Get(user, "id")
    ensures var next := FetchProfile(st, db, Some(user), None, joined);
            next.profileData == DisplayFallback(user, joined) && next.error == st.error
  {
    Profiles.GetProfileMissing(db, Get(user, "id"));
  }

  /** `handleEditToggle`: entering and leaving edit mode both reset the
      working copy to the saved data. */
  function EditToggle(st: PageState): (next: PageState)
    ensures next.isEditing == !st.isEditing
    ensures next.tempData == st.profileData
    ensures next.profileData == st.profileData && next.error == st.error
  {
    st.(isEditing := !st.isEditing, tempData := st.profileData)
  }

  /** Typing into one of the editable inputs. */
  datatype Field = NameField | PhoneField | LocationField | BioField

  function Type(st: PageState, field: Field, text: string): (next: PageState)
    ensures next.profileData == st.profileData && next.isEditing == st.isEditing
    ensures next.tempData.email == st.tempData.email
  {
    var t := st.tempData;
    st.(tempData := match field
                    case NameField => t.(name := Str(text))
                    case PhoneField => t.(phone := Str(text))
                    case LocationField => t.(location := Str(text))
                    case BioField => t.(bio := Str(text)))
  }

  /** Cancelling discards whatever was typed since editing began. */
  lemma {:induction false} CancelDiscardsEdits(st: PageState, edits: seq<(Field, string)>)
    requires !st.isEditing
    ensures var editing := TypeAll(EditToggle(st), edits);
            var cancelled := EditToggle(editing);
            cancelled.profileData == st.profileData && cancelled.tempData == st.profileData && !cancelled.isEditing
  {
    TypeAllKeeps(EditToggle(st), edits);
  }

  function TypeAll(st: PageState, edits: seq<(Field, string)>): PageState
    decreases |edits|
  {
    if edits == [] then st else TypeAll(Type(st, edits[0].0, edits[0].1), edits[1..])
  }

  lemma {:induction false} TypeAllKeeps(st: PageState, edits: seq<(Field, string)>)
    ensures TypeAll(st, edits).profileData == st.profileData
    ensures TypeAll(st, edits).isEditing == st.isEditing
    decreases |edits|
  {
    if edits != [] {
      TypeAllKeeps(Type(st, edits[0].0, edits[0].1), edits[1..]);
    }
  }

  /** The body `handleSave` sends: the five editable fields and nothing else. */
  function SavePayload(t: ProfileView): (p: Row)
    ensures p.Keys == {"name", "email", "phone", "location", "bio"}
    ensures p["name"] == t.name && p["email"] == t.email && p["phone"] == t.phone
    ensures p["location"] == t.location && p["bio"] == t.bio
  {
    map["name" := t.name, "email" := t.email, "phone" := t.phone, "location" := t.location, "bio" := t.bio]
  }

  /** `handleSave`: on success the working copy becomes the saved data and
      editing ends; on any failure (including a missing user, whose `id`
      read throws) the saved data stays and the save error is shown. */
  function Save(st: PageState, db: Store, user: Option<Row>, stamp: string, defaults: Row, fault: Option<DbError>): (res: (PageState, Store))
    ensures user.None? ==> res == (st.(error := SaveFailed), db)
    ensures user.Some? && fault.Some? && fault.value.message != "" ==> res == (st.(error := SaveFailed), db)
    ensures user.Some? && fault.None? ==>
              res.0 == st.(profileData := st.tempData, isEditing := false, error := "")
              && res.1 == Profiles.UpdateProfile(db, Get(user.value, "id"), SavePayload(st.tempData), stamp, defaults, None).db
  {
    match user
    case None => (st.(error := SaveFailed), db)
    case Some(u) =>
      var s := Profiles.UpdateProfile(db, Get(u, "id"), SavePayload(st.tempData), stamp, defaults, fault);
      if s.reply.error.Some? && s.reply.error.value != "" then (st.(error := SaveFailed), s.db)
      else (st.(profileData := st.tempData, isEditing := false, error := ""), s.db)
  }

  /** Saving and then loading the page again shows the saved name, phone,
      location and bio when they are non-empty, but the email shown is still
      the auth user's. */
  lemma {:induction false} SaveThenReload(st: PageState, db: Store, user: Row, stamp: string, defaults: Row, joined: string)
    requires UniqueIds(db.profiles)
    ensures var (saved, db2) := Save(st, db, Some(user), stamp, defaults, None);
            var again := FetchProfile(saved, db2, Some(user), None, joined);
            var t := st.tempData;
            && (Truthy(t.name) ==> again.profileData.name == t.name)
            && (Truthy(t.phone) ==> again.profileData.phone == t.phone)
            && (Truthy(t.location) ==> again.profileData.location == t.location)
            && (Truthy(t.bio) ==> again.profileData.bio == t.bio)
            && again.profileData.email == Or(Get(user, "email"), Str(""))
  {
    var id := Get(user, "id");
    var p := SavePayload(st.tempData);
    Profiles.UpdateThenGetProfile(db, id, p, stamp, defaults);
    var db2 := Profiles.UpdateProfile(db, id, p, stamp, defaults, None).db;
    var r := Profiles.GetProfile(db2, id, None);
    var row := r.data.value;
    assert Get(row, "name") == p["name"] && Get(row, "phone") == p["phone"];
    assert Get(row, "location") == p["location"] && Get(row, "bio") == p["bio"];
  }
}
