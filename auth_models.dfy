/** The custom user model: roles, the phone-number validator and `full_name`. */
module AuthModels {
  import opened Base
  import opened Text

  /** `User.ROLE_CHOICES`. The stored codes are "admin", "user" (a job seeker) and "employer". */
  datatype Role = Admin | JobSeeker | Employer

  function RoleCode(r: Role): string {
    match r
    case Admin => "admin"
    case JobSeeker => "user"
    case Employer => "employer"
  }

  /** The choices check on the `role` column: a code is accepted iff it is one of the three. */
  function ParseRole(code: string): (r: Option<Role>)
    ensures r.Some? ==> RoleCode(r.value) == code
  {
    if code == "admin" then Some(Admin)
    else if code == "user" then Some(JobSeeker)
    else if code == "employer" then Some(Employer)
    else None
  }

  lemma RoleCodeRoundTrip(r: Role)
    ensures ParseRole(RoleCode(r)) == Some(r)
  {
  }

  /** A user created without a role is a job seeker. */
  const DefaultRole: Role := JobSeeker

  /** A row of the `users` table. `email` is the login identifier and is unique
      (the uniqueness is a property of the table, `Store.EmailsUnique`). */
  datatype User = User(
    email: string,
    username: string,
    firstName: string,
    lastName: string,
    role: Role,
    phone: string,
    bio: string,
    profilePic: string,
    location: string,
    resumeUrl: string,
    linkedinUrl: string,
    githubUrl: string,
    websiteUrl: string)

  predicate IsDigit(c: char) {
    '0' <= c <= '9'
  }

  predicate AllDigits(s: string) {
    forall i :: 0 <= i < |s| ==> IsDigit(s[i])
  }

  /** The tail `\d{9,15}$` of the phone regex. */
  predicate DigitRun(s: string) {
    9 <= |s| <= 15 && AllDigits(s)
  }

  /** `1?\d{9,15}$`: the optional `1` is either consumed or not. */
  predicate OptionalOneThenDigits(s: string) {
    DigitRun(s) || (|s| > 0 && s[0] == '1' && DigitRun(s[1..]))
  }

  /** `phone_regex`, `^\+?1?\d{9,15}$`, read alternative by alternative, with `\d` an
      ASCII digit and `$` the end of the string. */
  predicate PhoneMatches(s: string) {
    OptionalOneThenDigits(s) || (|s| > 0 && s[0] == '+' && OptionalOneThenDigits(s[1..]))
  }

  /** The `phone` column: blank, or matching the regex within `max_length=17`. */
  predicate PhoneFieldValid(s: string) {
    s == [] || (PhoneMatches(s) && |s| <= 17)
  }

  /** The number part of a phone string, after an optional leading `+`. */
  function PhoneDigits(s: string): (t: string)
    ensures s == t || (s == ['+'] + t)
  {
    if |s| > 0 && s[0] == '+' then s[1..] else s
  }

  /** The regex accepts exactly: an optional `+`, then 9 to 15 digits, or 16 digits
      starting with `1`. */
  lemma PhoneMatchesShape(s: string)
    ensures PhoneMatches(s) <==>
      var t := PhoneDigits(s);
      AllDigits(t) && (9 <= |t| <= 15 || (|t| == 16 && t[0] == '1'))
  {
    var t := PhoneDigits(s);
    if |s| > 0 && s[0] == '+' {
      assert !OptionalOneThenDigits(s) by { assert !IsDigit(s[0]); }
    }
    assert PhoneMatches(s) <==> OptionalOneThenDigits(t);
    if |t| > 0 && t[0] == '1' && DigitRun(t[1..]) {
      assert t == [t[0]] + t[1..];
      assert AllDigits(t) by {
        forall i | 0 <= i < |t| ensures IsDigit(t[i]) {
          if i > 0 { assert t[i] == t[1..][i - 1]; }
        }
      }
    }
    if AllDigits(t) && |t| == 16 && t[0] == '1' {
      assert DigitRun(t[1..]) by {
        forall i | 0 <= i < |t[1..]| ensures IsDigit(t[1..][i]) {
          assert t[1..][i] == t[i + 1];
        }
      }
    }
  }

  /** Every string the regex accepts fits `max_length=17`, so for a non-blank phone
      the length limit never rejects what the regex accepts. */
  lemma PhoneMatchFitsColumn(s: string)
    requires PhoneMatches(s)
    ensures 10 <= |s| + 1 <= 18
    ensures PhoneFieldValid(s)
  {
  }

  /** The sample number of the validator's message is accepted. */
  lemma PhoneMessageExample()
    ensures PhoneFieldValid("+999999999")
  {
    var s := "+999999999";
    assert s[1..] == "999999999";
    assert DigitRun(s[1..]);
  }

  /** `full_name`: first name, a space and last name, with the whole stripped. */
  function FullName(u: User): string {
    Strip(u.firstName + " " + u.lastName)
  }

  /** When both names are blank the full name is empty. */
  lemma FullNameBlank(u: User)
    requires AllSpace(u.firstName) && AllSpace(u.lastName)
    ensures FullName(u) == ""
  {
    assert AllSpace(u.firstName + " " + u.lastName);
    assert u.firstName + " " + u.lastName == (u.firstName + " " + u.lastName) + [] + [];
    StripExact(u.firstName + " " + u.lastName, [], []);
  }

  /** With an empty first name, the full name is the stripped last name. */
  lemma FullNameWithoutFirst(u: User)
    requires u.firstName == ""
    ensures FullName(u) == Strip(u.lastName)
  {
    assert u.firstName + " " + u.lastName == " " + u.lastName;
    StripSkipsLeadingSpace(" ", u.lastName);
  }

  /** Two names without surrounding whitespace are joined by exactly one space. */
  lemma FullNameJoins(u: User)
    requires u.firstName != "" && Trimmed(u.firstName)
    requires u.lastName != "" && Trimmed(u.lastName)
    ensures FullName(u) == u.firstName + " " + u.lastName
  {
    var m := u.firstName + " " + u.lastName;
    assert m[0] == u.firstName[0] && m[|m| - 1] == u.lastName[|u.lastName| - 1];
    assert [] + m + [] == m;
    StripExact([], m, []);
  }
}
