/** `CompanyCreateUpdateSerializer`: which request bodies are valid, the row a create
    produces and what an update writes, with the slug re-derived from the name. */
module CompanySerializers {
  import opened Base
  import opened Text
  import opened CompanyModels

  /** The writable fields, each absent (`None`) or sent, as the request carries them: the
      text fields before the serializer strips their surrounding whitespace. `size` is the
      sent code, checked against the choices as it is (a choice field does not strip);
      `founded_year` is nullable, so `Some(None)` sends `null`. `slug` is read-only and
      `is_verified` is not a field of the serializer. */
  datatype CompanyInput = CompanyInput(
    name: Option<string>,
    description: Option<string>,
    website: Option<string>,
    logoUrl: Option<string>,
    location: Option<string>,
    size: Option<string>,
    foundedYear: Option<Option<int>>,
    industry: Option<string>,
    email: Option<string>,
    phone: Option<string>,
    linkedinUrl: Option<string>,
    twitterUrl: Option<string>,
    facebookUrl: Option<string>)

  /** A body that sends nothing. */
  const EmptyCompanyInput: CompanyInput := CompanyInput(None, None, None, None, None, None, None, None, None, None, None, None, None)

  /** `is_valid`: a full write must send `name`, the one column without a default or
      `blank=True`; a sent name may not be blank once stripped; a sent size must be one of
      the choices; a sent year must pass the `founded_year` validators. */
  predicate CompanyInputValid(p: CompanyInput, partial: bool, loadYear: int) {
    && (!partial ==> p.name.Some?)
    && (p.name.Some? ==> Strip(p.name.value) != [])
    && (p.size.Some? ==> ParseSize(p.size.value).Some?)
    && (p.foundedYear.Some? ==> FoundedYearValid(p.foundedYear.value, loadYear))
  }

  /** The size a body writes: the sent choice, or `current` when none is sent. */
  function SizeOr(code: Option<string>, current: CompanySize): (z: CompanySize)
    ensures code.None? ==> z == current
    ensures code.Some? && ParseSize(code.value).Some? ==> SizeCode(z) == code.value
  {
    if code.Some? && ParseSize(code.value).Some? then ParseSize(code.value).value else current
  }

  /** `update` and `save`: every sent field is written as the serializer cleaned it (text
      stripped), the slug is re-derived when a name is sent, `auto_now` stamps `updated_at`;
      the verification flag and `created_at` are never written. */
  function PatchCompany(c: Company, p: CompanyInput, slugify: Slugify, now: Time): (r: Company)
    ensures p.name.Some? ==> r.name == Strip(p.name.value) && r.slug == slugify(r.name)
    ensures p.name.None? ==> r.name == c.name && r.slug == c.slug
    ensures r.isVerified == c.isVerified && r.createdAt == c.createdAt && r.updatedAt == now
  {
    var name := StripSent(p.name);
    c.(name := name.GetOr(c.name),
       slug := if name.Some? then slugify(name.value) else c.slug,
       description := StripSent(p.description).GetOr(c.description),
       website := StripSent(p.website).GetOr(c.website),
       logoUrl := StripSent(p.logoUrl).GetOr(c.logoUrl),
       location := StripSent(p.location).GetOr(c.location),
       size := SizeOr(p.size, c.size),
       foundedYear := p.foundedYear.GetOr(c.foundedYear),
       industry := StripSent(p.industry).GetOr(c.industry),
       email := StripSent(p.email).GetOr(c.email),
       phone := StripSent(p.phone).GetOr(c.phone),
       linkedinUrl := StripSent(p.linkedinUrl).GetOr(c.linkedinUrl),
       twitterUrl := StripSent(p.twitterUrl).GetOr(c.twitterUrl),
       facebookUrl := StripSent(p.facebookUrl).GetOr(c.facebookUrl),
       updatedAt := now)
  }

  /** The model instance a create starts from: every column at its default, unverified,
      stamped `now`. */
  function DefaultCompany(now: Time): Company {
    Company("", "", "", "", "", "", Unspecified, None, "", false, "", "", "", "", "", now, now)
  }

  /** `create` and `save` of a new company: the sent fields, stripped, over the defaults,
      with the slug derived from the stored name. A new company is never verified. */
  function CreateCompanyRecord(p: CompanyInput, slugify: Slugify, now: Time): (r: Company)
    requires p.name.Some?
    ensures r.name == Strip(p.name.value) && r.slug == slugify(r.name)
    ensures !r.isVerified && r.createdAt == now && r.updatedAt == now
  {
    var name := Strip(p.name.value);
    Company(name, slugify(name), StripSent(p.description).GetOr(""), StripSent(p.website).GetOr(""),
            StripSent(p.logoUrl).GetOr(""), StripSent(p.location).GetOr(""), SizeOr(p.size, Unspecified),
            p.foundedYear.GetOr(None), StripSent(p.industry).GetOr(""), false, StripSent(p.email).GetOr(""),
            StripSent(p.phone).GetOr(""), StripSent(p.linkedinUrl).GetOr(""), StripSent(p.twitterUrl).GetOr(""),
            StripSent(p.facebookUrl).GetOr(""), now, now)
  }

  /** Create and update agree field by field: creating from a body is updating the default
      instance with it. */
  lemma CreateIsPatchOfDefaults(p: CompanyInput, slugify: Slugify, now: Time)
    requires p.name.Some?
    ensures CreateCompanyRecord(p, slugify, now) == PatchCompany(DefaultCompany(now), p, slugify, now)
  {
  }

  /** Sending the same update twice has the effect of sending it once, and an empty body
      changes only `updated_at`. */
  lemma PatchCompanyIdempotent(c: Company, p: CompanyInput, slugify: Slugify, now: Time, later: Time)
    ensures PatchCompany(PatchCompany(c, p, slugify, now), p, slugify, later) == PatchCompany(c, p, slugify, later)
    ensures PatchCompany(c, EmptyCompanyInput, slugify, now) == c.(updatedAt := now)
  {
    var once := PatchCompany(c, p, slugify, now);
    if p.size.Some? && ParseSize(p.size.value).Some? {
      assert SizeOr(p.size, once.size) == SizeOr(p.size, c.size);
    }
  }

  /** What a valid body writes is valid for the model: a sent size is stored as that
      choice, and the stored year still passes the validators. */
  lemma ValidPatchKeepsModelRules(c: Company, p: CompanyInput, partial: bool, slugify: Slugify, now: Time, loadYear: int)
    requires CompanyInputValid(p, partial, loadYear) && FoundedYearValid(c.foundedYear, loadYear)
    ensures FoundedYearValid(PatchCompany(c, p, slugify, now).foundedYear, loadYear)
    ensures p.size.Some? ==> SizeCode(PatchCompany(c, p, slugify, now).size) == p.size.value
    ensures p.name.Some? ==> PatchCompany(c, p, slugify, now).name != []
  {
  }

  /** A full write is a partial write too; the empty body is a valid partial write and not
      a valid full one. */
  lemma PartialIsWeaker(p: CompanyInput, loadYear: int)
    ensures CompanyInputValid(p, false, loadYear) ==> CompanyInputValid(p, true, loadYear)
    ensures CompanyInputValid(EmptyCompanyInput, true, loadYear)
    ensures !CompanyInputValid(EmptyCompanyInput, false, loadYear)
  {
  }

  /** A name made only of whitespace strips to the blank string and is refused. */
  lemma BlankNameRefused(p: CompanyInput, partial: bool, loadYear: int)
    requires p.name.Some? && AllSpace(p.name.value)
    ensures !CompanyInputValid(p, partial, loadYear)
  {
    StripAllSpace(p.name.value);
  }

  /** A year outside the validators' range is refused, whatever else is sent. */
  lemma FoundedYearOutOfRangeRefused(p: CompanyInput, partial: bool, loadYear: int)
    requires p.foundedYear.Some? && p.foundedYear.value.Some?
    requires p.foundedYear.value.value < MinFoundedYear || p.foundedYear.value.value > loadYear
    ensures !CompanyInputValid(p, partial, loadYear)
  {
  }
}
