/**
 * The client-side validation rules of the profile-completion form: the `Preference`
 * enum, the profile-picture union, the full form schema and the three step schemas
 * obtained from it by `pick`.
 *
 * A zod object schema is modelled as the set of fields it declares; the form data it
 * parses is a map from field to value. Parsing succeeds when every declared field is
 * either present and accepted, or absent and optional; its output keeps only the
 * declared fields (zod strips the others).
 */
module FormSchema {
  import opened Wrappers

  // ---------------------------------------------------------------------------
  // Preference
  // ---------------------------------------------------------------------------

  /** The `Preference` enum; each member's string value is its own name. */
  datatype Preference = MALE | FEMALE | BOTH

  function PreferenceName(p: Preference): string
  {
    match p
    case MALE => "MALE"
    case FEMALE => "FEMALE"
    case BOTH => "BOTH"
  }

  /** `z.nativeEnum(Preference)`: a string is accepted exactly when it is the value of a member. */
  function ParsePreference(s: string): (r: Option<Preference>)
    ensures r.Some? ==> PreferenceName(r.value) == s
    ensures r.None? ==> forall p: Preference :: PreferenceName(p) != s
  {
    if s == "MALE" then Some(MALE)
    else if s == "FEMALE" then Some(FEMALE)
    else if s == "BOTH" then Some(BOTH)
    else None
  }

  /** Every member's value parses back to that member. */
  lemma PreferenceRoundTrip(p: Preference)
    ensures ParsePreference(PreferenceName(p)) == Some(p)
  {
  }

  // ---------------------------------------------------------------------------
  // Profile picture
  // ---------------------------------------------------------------------------

  const MaxFileSize: int := 5 * 1024 * 1024
  const AcceptedImageTypes: seq<string> := ["image/jpeg", "image/png", "image/gif", "image/webp"]

  /** The image formats the data-URL pattern admits, in the pattern's order. */
  const DataUrlFormats: seq<string> := ["jpeg", "png", "gif", "webp"]

  /** A browser `File` object, reduced to the two attributes the schema inspects. */
  datatype FileInfo = FileInfo(size: int, mimeType: string)

  predicate IsPrefix(p: string, s: string)
  {
    |p| <= |s| && s[..|p|] == p
  }

  /** The header a data URL of the given image format starts with. */
  function DataUrlHeader(format: string): string
  {
    "data:image/" + format + ";base64,"
  }

  /**
   * The pattern `^data:image\/(jpeg|png|gif|webp);base64,`: anchored at the start only,
   * so it is a prefix test against one of four headers.
   */
  predicate MatchesDataUrl(s: string)
  {
    exists i :: 0 <= i < |DataUrlFormats| && IsPrefix(DataUrlHeader(DataUrlFormats[i]), s)
  }

  /** The file branch of the union: at most 5 MiB and one of the accepted MIME types. */
  predicate ValidImageFile(f: FileInfo)
  {
    f.size <= MaxFileSize && f.mimeType in AcceptedImageTypes
  }

  /** The string branch of the union: non-empty and matching the data-URL pattern. */
  predicate ValidImageString(s: string)
  {
    |s| >= 1 && MatchesDataUrl(s)
  }

  /** Any payload behind an accepted header is an accepted image string. */
  lemma DataUrlAccepted(format: string, payload: string)
    requires format in DataUrlFormats
    ensures ValidImageString(DataUrlHeader(format) + payload)
  {
    var s := DataUrlHeader(format) + payload;
    var i :| 0 <= i < |DataUrlFormats| && DataUrlFormats[i] == format;
    assert s[..|DataUrlHeader(format)|] == DataUrlHeader(format);
    assert IsPrefix(DataUrlHeader(DataUrlFormats[i]), s);
  }

  /** An accepted image string is one of the four headers followed by some payload. */
  lemma AcceptedDataUrlShape(s: string)
    requires ValidImageString(s)
    ensures exists i, payload :: 0 <= i < |DataUrlFormats| && s == DataUrlHeader(DataUrlFormats[i]) + payload
  {
    var i :| 0 <= i < |DataUrlFormats| && IsPrefix(DataUrlHeader(DataUrlFormats[i]), s);
    var h := DataUrlHeader(DataUrlFormats[i]);
    assert s == h + s[|h|..];
  }

  /** A plain remote URL and an SVG data URL are both refused by the string branch. */
  lemma OtherImageStringsRejected()
    ensures !ValidImageString("")
    ensures !ValidImageString("https://example.org/a.png")
    ensures !ValidImageString("data:image/svg+xml;base64,PHN2Zz4=")
  {
    var url := "https://example.org/a.png";
    var svg := "data:image/svg+xml;base64,PHN2Zz4=";
    forall i | 0 <= i < |DataUrlFormats|
      ensures !IsPrefix(DataUrlHeader(DataUrlFormats[i]), url)
      ensures !IsPrefix(DataUrlHeader(DataUrlFormats[i]), svg)
    {
      assert url[0] != DataUrlHeader(DataUrlFormats[i])[0];
      assert svg[11] != DataUrlHeader(DataUrlFormats[i])[11];
    }
  }

  // ---------------------------------------------------------------------------
  // Form data and the full schema
  // ---------------------------------------------------------------------------

  /** One entry of the interests field: zod keeps only its `value`. */
  datatype Interest = Interest(value: string)

  /** The value a form field can hold. */
  datatype Value =
    | Text(text: string)
    | Number(number: real)
    | TextList(texts: seq<string>)
    | InterestList(interests: seq<Interest>)
    | Upload(file: FileInfo)

  /** The keys of `completeFormSchema`. */
  datatype Field =
    | ProfilePicture | Biography | Preferences
    | City | Country | Pictures | Latitude | Longitude
    | Interests

  const BiographyMin: int := 10
  const BiographyMax: int := 500
  const MinPictures: int := 4
  const MinInterests: int := 5
  const MaxInterests: int := 10

  /** The rule `completeFormSchema` attaches to each field, applied to a present value. */
  predicate FieldAccepts(f: Field, v: Value)
  {
    match f
    case ProfilePicture => (v.Upload? && ValidImageFile(v.file)) || (v.Text? && ValidImageString(v.text))
    case Biography => v.Text? && BiographyMin <= |v.text| <= BiographyMax
    case Preferences => v.Text? && ParsePreference(v.text).Some?
    case City => v.Text? && |v.text| >= 1
    case Country => v.Text? && |v.text| >= 1
    case Pictures => v.TextList? && |v.texts| >= MinPictures
    case Latitude => v.Number?
    case Longitude => v.Number?
    case Interests => v.InterestList? && MinInterests <= |v.interests| <= MaxInterests
  }

  /** Only the coordinates are `.optional()`. */
  predicate Optional(f: Field)
  {
    f == Latitude || f == Longitude
  }

  /** A zod object schema, as the set of fields it declares. */
  type Schema = set<Field>

  const CompleteFormSchema: Schema :=
    {ProfilePicture, Biography, Preferences, City, Country, Pictures, Latitude, Longitude, Interests}
  const PersonalInfoSchema: Schema := {ProfilePicture, Biography, Preferences}
  const AddressInfoSchema: Schema := {City, Country, Pictures, Latitude, Longitude}
  const InterestsSchema: Schema := {Interests}

  /** The data passes the schema: each declared field is accepted, or absent and optional. */
  predicate Accepts(schema: Schema, raw: map<Field, Value>)
  {
    forall f :: f in schema ==> if f in raw then FieldAccepts(f, raw[f]) else Optional(f)
  }

  /**
   * `schema.parse(raw)`: fails unless the data passes, and otherwise yields exactly the
   * declared fields that are present, with their values unchanged.
   */
  function Parse(schema: Schema, raw: map<Field, Value>): (r: Option<map<Field, Value>>)
    ensures r.Some? <==> Accepts(schema, raw)
    ensures r.Some? ==> r.value.Keys == raw.Keys * schema
    ensures r.Some? ==> forall f :: f in r.value ==> r.value[f] == raw[f]
  {
    if Accepts(schema, raw) then Some(map f | f in raw && f in schema :: raw[f]) else None
  }

  /** The three picks are pairwise disjoint and together make up the full schema. */
  lemma StepSchemasPartition()
    ensures PersonalInfoSchema * AddressInfoSchema == {}
    ensures PersonalInfoSchema * InterestsSchema == {}
    ensures AddressInfoSchema * InterestsSchema == {}
    ensures PersonalInfoSchema + AddressInfoSchema + InterestsSchema == CompleteFormSchema
    ensures forall f: Field :: f in CompleteFormSchema
  {
    forall f: Field ensures f in CompleteFormSchema {
      match f
      case ProfilePicture => case Biography => case Preferences =>
      case City => case Country => case Pictures => case Latitude => case Longitude =>
      case Interests =>
    }
  }

  /**
   * `pick` splits the full schema: data passes the full schema iff it passes all three
   * steps, and then the full parse is the union of the three step parses.
   */
  lemma StepsComposeFullSchema(raw: map<Field, Value>)
    ensures Accepts(CompleteFormSchema, raw) <==>
      Accepts(PersonalInfoSchema, raw) && Accepts(AddressInfoSchema, raw) && Accepts(InterestsSchema, raw)
    ensures Accepts(CompleteFormSchema, raw) ==>
      Parse(CompleteFormSchema, raw).value ==
        Parse(PersonalInfoSchema, raw).value + Parse(AddressInfoSchema, raw).value + Parse(InterestsSchema, raw).value
  {
    StepSchemasPartition();
    AcceptsUnion(PersonalInfoSchema, AddressInfoSchema, raw);
    AcceptsUnion(PersonalInfoSchema + AddressInfoSchema, InterestsSchema, raw);
    if Accepts(CompleteFormSchema, raw) {
      ParseUnion(PersonalInfoSchema, AddressInfoSchema, raw);
      ParseUnion(PersonalInfoSchema + AddressInfoSchema, InterestsSchema, raw);
    }
  }

  /** A data object passes the union of two schemas exactly when it passes both. */
  lemma AcceptsUnion(a: Schema, b: Schema, raw: map<Field, Value>)
    ensures Accepts(a + b, raw) <==> Accepts(a, raw) && Accepts(b, raw)
  {
    if Accepts(a, raw) && Accepts(b, raw) {
      forall f | f in a + b
        ensures if f in raw then FieldAccepts(f, raw[f]) else Optional(f)
      {
        if f in a {
          assert f in a;
        } else {
          assert f in b;
        }
      }
    }
  }

  /** Parsing with the union of two schemas yields the union of the two parses. */
  lemma ParseUnion(a: Schema, b: Schema, raw: map<Field, Value>)
    requires Accepts(a, raw) && Accepts(b, raw)
    ensures Accepts(a + b, raw)
    ensures Parse(a + b, raw).value == Parse(a, raw).value + Parse(b, raw).value
  {
    AcceptsUnion(a, b, raw);
    var whole := Parse(a + b, raw).value;
    var joined := Parse(a, raw).value + Parse(b, raw).value;
    assert whole.Keys == joined.Keys;
    assert forall f :: f in whole ==> whole[f] == joined[f];
  }

  /** The first step: picture, a biography of 10 to 500 characters, and one of the three preferences. */
  lemma PersonalInfoAccepts(raw: map<Field, Value>)
    ensures Accepts(PersonalInfoSchema, raw) <==>
      && ProfilePicture in raw && FieldAccepts(ProfilePicture, raw[ProfilePicture])
      && Biography in raw && raw[Biography].Text? && 10 <= |raw[Biography].text| <= 500
      && Preferences in raw && raw[Preferences].Text?
      && raw[Preferences].text in {"MALE", "FEMALE", "BOTH"}
  {
    if Preferences in raw && raw[Preferences].Text? {
      var s := raw[Preferences].text;
      if ParsePreference(s).None? {
        assert PreferenceName(MALE) != s && PreferenceName(FEMALE) != s && PreferenceName(BOTH) != s;
      }
    }
    if Accepts(PersonalInfoSchema, raw) {
      assert ProfilePicture in PersonalInfoSchema && Biography in PersonalInfoSchema;
      assert Preferences in PersonalInfoSchema;
    }
  }

  /**
   * The second step: non-empty city and country, at least four pictures with no upper
   * bound, and coordinates that may be absent but must be numbers when present.
   */
  lemma AddressInfoAccepts(raw: map<Field, Value>)
    ensures Accepts(AddressInfoSchema, raw) <==>
      && City in raw && raw[City].Text? && raw[City].text != ""
      && Country in raw && raw[Country].Text? && raw[Country].text != ""
      && Pictures in raw && raw[Pictures].TextList? && |raw[Pictures].texts| >= 4
      && (Latitude in raw ==> raw[Latitude].Number?)
      && (Longitude in raw ==> raw[Longitude].Number?)
  {
    if Accepts(AddressInfoSchema, raw) {
      assert City in AddressInfoSchema && Country in AddressInfoSchema && Pictures in AddressInfoSchema;
      assert Latitude in AddressInfoSchema && Longitude in AddressInfoSchema;
    }
  }

  /** The third step: between 5 and 10 interests inclusive. */
  lemma InterestsAccepts(raw: map<Field, Value>)
    ensures Accepts(InterestsSchema, raw) <==>
      Interests in raw && raw[Interests].InterestList? && 5 <= |raw[Interests].interests| <= 10
  {
    if Accepts(InterestsSchema, raw) {
      assert Interests in InterestsSchema;
    }
  }

  /** The file branch: a size limit of exactly 5 MiB, and only the four accepted MIME types. */
  lemma ProfilePictureFileBoundary()
    ensures FieldAccepts(ProfilePicture, Upload(FileInfo(5242880, "image/png")))
    ensures !FieldAccepts(ProfilePicture, Upload(FileInfo(5242881, "image/png")))
    ensures !FieldAccepts(ProfilePicture, Upload(FileInfo(1024, "image/svg+xml")))
  {
    assert AcceptedImageTypes[1] == "image/png";
  }

  // ---------------------------------------------------------------------------
  // Boundary payloads
  // ---------------------------------------------------------------------------

  function Filler(n: nat): (s: string)
    ensures |s| == n
  {
    seq(n, _ => 'a')
  }

  function FillerInterests(n: nat): (s: seq<Interest>)
    ensures |s| == n
  {
    seq(n, i => Interest("tag"))
  }

  /** A complete form with the given biography length, picture count and interest count. */
  function SampleForm(bio: nat, pictures: nat, interests: nat): map<Field, Value>
  {
    map[ProfilePicture := Text(DataUrlHeader("png") + "iVBORw0KGgo="),
        Biography := Text(Filler(bio)),
        Preferences := Text("BOTH"),
        City := Text("Khouribga"),
        Country := Text("Morocco"),
        Pictures := TextList(seq(pictures, _ => DataUrlHeader("jpeg"))),
        Interests := InterestList(FillerInterests(interests))]
  }

  /**
   * A sample form passes the full schema exactly when its biography has 10 to 500
   * characters, it has at least 4 pictures and it has 5 to 10 interests.
   */
  lemma SampleFormAccepted(bio: nat, pictures: nat, interests: nat)
    ensures Accepts(CompleteFormSchema, SampleForm(bio, pictures, interests)) <==>
      10 <= bio <= 500 && pictures >= 4 && 5 <= interests <= 10
  {
    var raw := SampleForm(bio, pictures, interests);
    StepsComposeFullSchema(raw);
    PersonalInfoAccepts(raw);
    AddressInfoAccepts(raw);
    InterestsAccepts(raw);
    DataUrlAccepted("png", "iVBORw0KGgo=");
    assert FieldAccepts(ProfilePicture, raw[ProfilePicture]);
  }

  /**
   * The full schema at its boundaries: 4 pictures and 5 interests pass, as do 10
   * interests and 500-character biographies; 3 pictures, 4 or 11 interests, and
   * biographies of 9 or 501 characters fail.
   */
  lemma FullSchemaBoundaries()
    ensures Accepts(CompleteFormSchema, SampleForm(10, 4, 5))
    ensures Accepts(CompleteFormSchema, SampleForm(500, 4, 10))
    ensures !Accepts(CompleteFormSchema, SampleForm(10, 3, 5))
    ensures !Accepts(CompleteFormSchema, SampleForm(10, 4, 4))
    ensures !Accepts(CompleteFormSchema, SampleForm(10, 4, 11))
    ensures !Accepts(CompleteFormSchema, SampleForm(9, 4, 5))
    ensures !Accepts(CompleteFormSchema, SampleForm(501, 4, 5))
  {
    SampleFormAccepted(10, 4, 5);
    SampleFormAccepted(500, 4, 10);
    SampleFormAccepted(10, 3, 5);
    SampleFormAccepted(10, 4, 4);
    SampleFormAccepted(10, 4, 11);
    SampleFormAccepted(9, 4, 5);
    SampleFormAccepted(501, 4, 5);
  }
}
