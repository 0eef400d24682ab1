/** The grievance schema: one record per complaint. */
module GrievanceModel {
  import opened Wrappers
  import opened Text
  import opened Enums

  /** One uploaded picture, stored as the path it is served from. */
  datatype Image = Image(link: string)

  /** A stored grievance. `id` is the document's ObjectId in its 24-digit
      hexadecimal form; `hostelName` is a plain string in this schema (no
      enum), copied from the filing student's record; `images` keeps upload
      order. */
  datatype Grievance = Grievance(
    id: string,
    registrationId: string,
    hostelName: string,
    title: string,
    description: string,
    images: seq<Image>,
    status: Status,
    category: Category)

  /** A document that passes the schema's validation. */
  predicate Valid(g: Grievance) {
    g.registrationId != "" && g.hostelName != "" && g.title != "" && g.description != ""
  }

  predicate IsHexDigit(c: char) {
    ('0' <= c <= '9') || ('a' <= c <= 'f') || ('A' <= c <= 'F')
  }

  /** A string that Mongoose casts to an ObjectId: 24 hexadecimal digits,
      in either case. */
  predicate IsObjectId(s: string) {
    |s| == 24 && forall i :: 0 <= i < |s| ==> IsHexDigit(s[i])
  }

  /** The form the driver generates and every ObjectId prints as: 24
      hexadecimal digits, lower-case. */
  predicate IsCanonicalObjectId(s: string) {
    IsObjectId(s) && IsLower(s)
  }

  /** Two spellings of one ObjectId name the same document: lower-casing an
      ObjectId gives its printed form, and a printed form is its own
      lower case. */
  lemma ObjectIdSpellings(s: string)
    ensures IsObjectId(s) ==> IsCanonicalObjectId(Lower(s))
    ensures IsCanonicalObjectId(s) ==> Lower(s) == s
  {
    LowerIsLower(s);
    if IsCanonicalObjectId(s) {
      LowerOfLower(s);
    }
  }

  /** Casting and validating a new document, as `new Grievance({...}).save()`
      does: `status` is never supplied and takes its default, `category`
      takes its default when absent and must otherwise name a member, the
      four required strings must be non-empty. `None` is a validation error. */
  function Build(id: string, registrationId: string, hostelName: string, title: string,
                 description: string, images: seq<Image>, category: Option<string>): (r: Option<Grievance>)
    ensures r.Some? <==>
      && registrationId != "" && hostelName != "" && title != "" && description != ""
      && (category.Some? ==> exists c :: CategoryName(c) == category.value)
    ensures r.Some? ==>
      && Valid(r.value)
      && r.value.status == Pending
      && r.value.id == id && r.value.registrationId == registrationId
      && r.value.hostelName == hostelName && r.value.title == title
      && r.value.description == description && r.value.images == images
      && (category.None? ==> r.value.category == Other)
      && (category.Some? ==> CategoryName(r.value.category) == category.value)
  {
    var parsed := if category.None? then Some(Other) else ParseCategory(category.value);
    if parsed.Some? && registrationId != "" && hostelName != "" && title != "" && description != "" then
      Some(Grievance(id, registrationId, hostelName, title, description, images, Pending, parsed.value))
    else None
  }
}
