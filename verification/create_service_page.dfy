/**
 The create-service form: its initial state and field edits, the price label,
 the description that folds location, contact and availability into the
 text, the service record handed to `createService`, and the submit outcome.
 */
module CreateServicePage {
  import opened Values
  import opened Text
  import opened Schema
  import Backend
  import Services

  /** The controlled form state; every field but the image is an input's text. */
  datatype ServiceForm = ServiceForm(
    name: string,
    category: string,
    description: string,
    price: string,
    priceType: string,
    location: string,
    contactInfo: string,
    availability: string,
    status: string,
    imageFile: Value)

  /** The values of the price-type select, in display order. */
  const PriceTypes: seq<string> := ["hourly", "fixed", "daily", "project"]

  predicate ValidPriceType(t: string) { t in PriceTypes }

  /** The form as first rendered. */
  function InitialForm(): (f: ServiceForm)
    ensures ValidPriceType(f.priceType) && f.priceType == PriceTypes[0]
    ensures f.status == "active" && f.imageFile == Null && !Truthy(f.imageFile)
    ensures f.name == f.category == f.description == f.price == ""
    ensures f.location == f.contactInfo == f.availability == ""
  {
    ServiceForm("", "", "", "", "hourly", "", "", "", "active", Null)
  }

  /** `handleChange`: the input named `field` takes `value`; a name that is
      not a text field of the form adds nothing the submit reads. */
  /** The names of the form's text inputs. */
  const TextFields: set<string> := {"name", "category", "description", "price", "priceType",
                                    "location", "contactInfo", "availability"}

  /** The form field an input of that name shows. */
  function Read(f: ServiceForm, field: string): string {
    match field
    case "name" => f.name
    case "category" => f.category
    case "description" => f.description
    case "price" => f.price
    case "priceType" => f.priceType
    case "location" => f.location
    case "contactInfo" => f.contactInfo
    case "availability" => f.availability
    case _ => ""
  }

  function Change(f: ServiceForm, field: string, value: string): (g: ServiceForm)
    ensures g.imageFile == f.imageFile && g.status == f.status
    ensures forall k :: k in TextFields ==> Read(g, k) == (if k == field then value else Read(f, k))
    ensures field !in TextFields ==> g == f
  {
    match field
    case "name" => f.(name := value)
    case "category" => f.(category := value)
    case "description" => f.(description := value)
    case "price" => f.(price := value)
    case "priceType" => f.(priceType := value)
    case "location" => f.(location := value)
    case "contactInfo" => f.(contactInfo := value)
    case "availability" => f.(availability := value)
    case _ => f
  }

  /** `handleImageChange`: a picked file replaces the stored one; an empty pick
      keeps it. */
  function PickImage(f: ServiceForm, picked: Option<string>): (g: ServiceForm)
    ensures picked.Some? ==> g == f.(imageFile := File(picked.value))
    ensures picked.None? ==> g == f
  {
    if picked.Some? then f.(imageFile := File(picked.value)) else f
  }

  /** Edits through the select only ever choose one of its options, so the
      price type stays one of the four. */
  lemma {:induction false} PriceTypeStaysValid(f: ServiceForm, edits: seq<(string, string)>)
    requires ValidPriceType(f.priceType)
    requires forall i :: 0 <= i < |edits| && edits[i].0 == "priceType" ==> edits[i].1 in PriceTypes
    ensures ValidPriceType(Edit(f, edits).priceType)
    decreases |edits|
  {
    if edits != [] {
      PriceTypeStaysValid(Change(f, edits[0].0, edits[0].1), edits[1..]);
    }
  }

  /** A run of field edits applied in order. */
  function Edit(f: ServiceForm, edits: seq<(string, string)>): ServiceForm
    decreases |edits|
  {
    if edits == [] then f else Edit(Change(f, edits[0].0, edits[0].1), edits[1..])
  }

  /** What the price-type switch appends after the amount. */
  function PriceSuffix(priceType: string): string {
    match priceType
    case "hourly" => "/hr"
    case "daily" => "/day"
    case "fixed" => ""
    case "project" => " (project)"
    case _ => ""
  }

  /** `formatPrice(price, priceType)`: empty for an empty price, otherwise a
      dollar sign, the price as typed, and the type's suffix. */
  function FormatPrice(price: string, priceType: string): (tag: string)
    ensures price == "" <==> tag == ""
    ensures price != "" ==> "$" + price <= tag
  {
    if price == "" then "" else "$" + price + PriceSuffix(priceType)
  }

  /** The switch case by case: `/hr`, `/day`, nothing, ` (project)`, and
      nothing for any other type. */
  lemma {:induction false} FormatPriceByType(price: string, priceType: string)
    requires price != ""
    ensures priceType == "hourly" ==> FormatPrice(price, priceType) == "$" + price + "/hr"
    ensures priceType == "daily" ==> FormatPrice(price, priceType) == "$" + price + "/day"
    ensures priceType == "fixed" ==> FormatPrice(price, priceType) == "$" + price
    ensures priceType == "project" ==> FormatPrice(price, priceType) == "$" + price + " (project)"
    ensures priceType !in PriceTypes ==> FormatPrice(price, priceType) == "$" + price
  {
  }

  /** One appended line, `heading` then the value, when the value is non-empty. */
  function Segment(heading: string, value: string): (r: string)
    ensures value == "" ==> r == ""
    ensures value != "" ==> heading <= r && r[|heading|..] == value
  {
    if value == "" then "" else heading + value
  }

  const LocationHeading: string := "\nLocation: "
  const ContactHeading: string := "\nContact: "
  const AvailabilityHeading: string := "\nAvailability: "

  /** The description before trimming: the text, then location, contact and
      availability lines in that fixed order. */
  function RawDescription(f: ServiceForm): (raw: string)
    ensures f.description <= raw
    ensures f.location == f.contactInfo == f.availability == "" ==> raw == f.description
  {
    f.description + Segment(LocationHeading, f.location) + Segment(ContactHeading, f.contactInfo)
      + Segment(AvailabilityHeading, f.availability)
  }

  /** With all three extras filled in, they follow the text in the order
      location, contact, availability. */
  lemma {:induction false} DescriptionOrder(f: ServiceForm)
    requires f.location != "" && f.contactInfo != "" && f.availability != ""
    ensures RawDescription(f) == f.description + LocationHeading + f.location + ContactHeading + f.contactInfo
                                 + AvailabilityHeading + f.availability
  {
  }

  /** Every filled-in extra appears in the raw description under its label. */
  lemma {:induction false} DescriptionMentions(f: ServiceForm)
    ensures f.location != "" ==> Includes(RawDescription(f), LocationHeading + f.location)
    ensures f.contactInfo != "" ==> Includes(RawDescription(f), ContactHeading + f.contactInfo)
    ensures f.availability != "" ==> Includes(RawDescription(f), AvailabilityHeading + f.availability)
  {
    var a := f.description;
    var b := Segment(LocationHeading, f.location);
    var c := Segment(ContactHeading, f.contactInfo);
    var d := Segment(AvailabilityHeading, f.availability);
    assert RawDescription(f) == a + b + (c + d) == (a + b) + c + d == (a + b + c) + d + [];
    IncludesMiddle(a, b, c + d);
    IncludesMiddle(a + b, c, d);
    IncludesMiddle(a + b + c, d, []);
  }

  /** `description.trim()` of the composed text. */
  function ComposeDescription(f: ServiceForm): (d: string)
    ensures d == [] || (!IsSpace(d[0]) && !IsSpace(d[|d| - 1]))
    ensures |d| <= |RawDescription(f)|
  {
    Trim(RawDescription(f))
  }

  /** The keys of the record `handleSubmit` builds. */
  const ServiceDataKeys: set<string> := {"user_id", "name", "category", "description", "price", "rating", "status", "image_file"}

  /** The service record with its text fields already computed. */
  function ServiceRecord(userId: Value, name: string, category: string, description: string,
                         price: string, status: string, image: Value): (p: Row)
    ensures p.Keys == ServiceDataKeys
    ensures p["user_id"] == userId && p["rating"] == Num(0) && p["status"] == Str(status)
    ensures p["name"] == Str(name) && p["category"] == Str(category) && p["image_file"] == image
    ensures p["description"] == Str(description) && p["price"] == Str(price)
  {
    map["user_id" := userId,
        "name" := Str(name),
        "category" := Str(category),
        "description" := Str(description),
        "price" := Str(price),
        "rating" := Num(0),
        "status" := Str(status),
        "image_file" := image]
  }

  /** The record `handleSubmit` passes to `createService`: the owner, a zero
      rating, the form's status, the formatted price and the composed
      description. */
  function ServiceData(user: Row, f: ServiceForm): (p: Row)
    ensures p.Keys == ServiceDataKeys
    ensures p["user_id"] == Get(user, "id") && p["rating"] == Num(0) && p["status"] == Str(f.status)
    ensures p["price"] == Str(FormatPrice(f.price, f.priceType))
    ensures p["description"] == Str(ComposeDescription(f))
    ensures p["name"] == Str(f.name) && p["category"] == Str(f.category) && p["image_file"] == f.imageFile
  {
    ServiceRecord(Get(user, "id"), f.name, f.category, ComposeDescription(f),
                  FormatPrice(f.price, f.priceType), f.status, f.imageFile)
  }

  const CreatedMessage: string := "Service created successfully!"
  const FallbackMessage: string := "Failed to create service. Please try again."
  const MyServicesPath: string := "/my-services"

  /** The banner, the pending navigation and the backend after a submit. */
  datatype SubmitOutcome = SubmitOutcome(success: Option<string>, error: Option<string>, redirect: Option<string>, db: Store)

  /** `err.message || 'Failed to create service. Please try again.'`. */
  function ErrorText(message: string): (t: string)
    ensures t != ""
    ensures message != "" ==> t == message
  {
    if message != "" then message else FallbackMessage
  }

  /** `handleSubmit`. Reading `user.id` with no user throws before any call;
      otherwise the outcome of `createService` decides, and only a truthy
      error counts as a failure. */
  function Submit(db: Store, user: Option<Row>, f: ServiceForm, now: nat,
                  uploadFault: Option<string>, publicUrl: string,
                  defaults: Row, insertFault: Option<Backend.DbError>): (o: SubmitOutcome)
    ensures o.success.Some? <==> o.error.None?
    ensures o.success.Some? <==> o.redirect == Some(MyServicesPath)
    ensures o.success.Some? ==> o.success == Some(CreatedMessage)
    ensures o.error.Some? ==> o.error.value != "" && o.db.services == db.services
    ensures user.None? ==> o == SubmitOutcome(None, Some(ErrorText(Services.NoUserMessage)), None, db)
    ensures user.Some? ==>
              var s := Services.CreateService(db, user, ServiceData(user.value, f), now, uploadFault, publicUrl, defaults, insertFault);
              && o.db == s.db
              && (o.error.Some? <==> s.reply.error.Some? && s.reply.error.value != "")
  {
    match user
    case None => SubmitOutcome(None, Some(ErrorText(Services.NoUserMessage)), None, db)
    case Some(u) =>
      var s := Services.CreateService(db, user, ServiceData(u, f), now, uploadFault, publicUrl, defaults, insertFault);
      if s.reply.error.Some? && s.reply.error.value != "" then SubmitOutcome(None, Some(s.reply.error.value), None, s.db)
      else SubmitOutcome(Some(CreatedMessage), None, Some(MyServicesPath), s.db)
  }

  /** A successful submit without an image adds one service owned by the
      user, rated 0, with the form's status, label and description. */
  lemma {:induction false} SubmittedService(db: Store, user: Row, f: ServiceForm, now: nat, publicUrl: string, defaults: Row)
    requires !Truthy(f.imageFile)
    ensures var o := Submit(db, Some(user), f, now, None, publicUrl, defaults, None);
            && o.success == Some(CreatedMessage)
            && |o.db.services| == |db.services| + 1
            && var row := o.db.services[|db.services|];
            && Get(row, "user_id") == Get(user, "id")
            && Get(row, "rating") == Num(0)
            && Get(row, "status") == Str(f.status)
            && Get(row, "price") == Str(FormatPrice(f.price, f.priceType))
            && Get(row, "description") == Str(ComposeDescription(f))
  {
    var p := ServiceData(user, f);
    var s := Services.CreateService(db, Some(user), p, now, None, publicUrl, defaults, None);
    assert !Truthy(Get(p, "image_file"));
    assert s.db.services == db.services + [s.reply.data.value];
    var row := s.reply.data.value;
    assert "user_id" in p && "rating" in p && "status" in p && "price" in p && "description" in p;
  }

  /** With an image, a successful submit stores the row with the public URL
      in place of the file. */
  lemma {:induction false} SubmittedServiceWithImage(db: Store, user: Row, f: ServiceForm, now: nat, publicUrl: string, defaults: Row)
    requires Truthy(f.imageFile)
    ensures var o := Submit(db, Some(user), f, now, None, publicUrl, defaults, None);
            && o.success == Some(CreatedMessage)
            && |o.db.services| == |db.services| + 1
            && var row := o.db.services[|db.services|];
            && Get(row, "image_url") == Str(publicUrl)
            && Get(row, "rating") == Num(0)
            && Get(row, "user_id") == Get(user, "id")
  {
    var p := ServiceData(user, f);
    var s := Services.CreateService(db, Some(user), p, now, None, publicUrl, defaults, None);
    assert Truthy(Get(p, "image_file"));
    assert !s.reply.Failed();
    var row := s.reply.data.value;
    assert s.db.services == db.services + [row];
    assert "rating" in p && "rating" != "image_file" && "rating" != "image_url";
    assert row["rating"] == Num(0);
    assert "user_id" in p && "user_id" != "image_file" && "user_id" != "image_url";
    assert row["user_id"] == Get(user, "id");
  }
}
