/**
 * The auth app's serializers: registration by email with two password
 * fields, and the user representation whose timestamps cannot be written.
 */
module AuthSerializers {
  import opened Wrappers
  import opened Text
  import opened Http
  import opened AuthModels

  /** `d.get(key)`. */
  function Get(d: map<string, string>, key: string): (v: Option<string>)
    ensures v.Some? <==> key in d
    ensures v.Some? ==> v.value == d[key]
  {
    if key in d then Some(d[key]) else None
  }

  // ---------------------------------------------------------------------------
  // `CustomRegisterSerializer`

  const PasswordMismatch: string := "The two password fields didn't match."
  const EmailRegistered: string := "A user is already registered with this e-mail address."

  /**
   * `validate(attrs)`: the two password entries must agree (two missing
   * entries agree); the attributes are then passed on unchanged.
   */
  function Validate(attrs: map<string, string>): (r: Result<map<string, string>, string>)
    ensures r.Failure? <==> Get(attrs, "password1") != Get(attrs, "password2")
    ensures r.Failure? ==> r.error == PasswordMismatch
    ensures r.Success? ==> r.value == attrs
  {
    if Get(attrs, "password1") != Get(attrs, "password2") then Failure(PasswordMismatch) else Success(attrs)
  }

  /** A row of allauth's EmailAddress table. */
  datatype EmailAddress = EmailAddress(email: string, verified: bool)

  /** Some verified row matches the address case-insensitively (`email__iexact`, `verified=True`). */
  function VerifiedMatch(addresses: seq<EmailAddress>, email: string): (b: bool)
    ensures b <==> exists i | 0 <= i < |addresses| ::
      addresses[i].verified && LowerString(addresses[i].email) == LowerString(email)
  {
    if addresses == [] then false
    else
      var rest := VerifiedMatch(addresses[1..], email);
      assert forall i | 1 <= i < |addresses| :: addresses[1..][i - 1] == addresses[i];
      (addresses[0].verified && LowerString(addresses[0].email) == LowerString(email)) || rest
  }

  /**
   * `validate_email`: the adapter's `clean_email` keeps the address as it is;
   * with unique addresses switched on, an address some verified row already
   * holds, in any letter case, is refused.
   */
  function ValidateEmail(email: string, uniqueEmail: bool, addresses: seq<EmailAddress>): (r: Result<string, string>)
    ensures r.Failure? <==> uniqueEmail && exists i | 0 <= i < |addresses| ::
      addresses[i].verified && LowerString(addresses[i].email) == LowerString(email)
    ensures r.Failure? ==> r.error == EmailRegistered
    ensures r.Success? ==> r.value == email
  {
    if uniqueEmail && VerifiedMatch(addresses, email) then Failure(EmailRegistered) else Success(email)
  }

  /** The email check does not see letter case: two addresses equal up to case get the same verdict. */
  lemma EmailCheckIgnoresCase(e1: string, e2: string, uniqueEmail: bool, addresses: seq<EmailAddress>)
    requires LowerString(e1) == LowerString(e2)
    ensures ValidateEmail(e1, uniqueEmail, addresses).Failure? == ValidateEmail(e2, uniqueEmail, addresses).Failure?
  {
  }

  /** Unverified rows never block a registration, and with unique addresses off nothing does. */
  lemma OnlyVerifiedRowsBlock(email: string, uniqueEmail: bool, addresses: seq<EmailAddress>)
    ensures (forall i | 0 <= i < |addresses| :: !addresses[i].verified) ==>
      ValidateEmail(email, uniqueEmail, addresses) == Success(email)
    ensures !uniqueEmail ==> ValidateEmail(email, uniqueEmail, addresses) == Success(email)
  {
  }

  /** `get_cleaned_data`: exactly the email and the first password, each defaulting to "". */
  function GetCleanedData(validated: map<string, string>): (r: map<string, string>)
    ensures r.Keys == {"email", "password1"}
    ensures r["email"] == Get(validated, "email").GetOr("")
    ensures r["password1"] == Get(validated, "password1").GetOr("")
  {
    map["email" := Get(validated, "email").GetOr(""), "password1" := Get(validated, "password1").GetOr("")]
  }

  /** The validated data once `save` has copied the email into "username". */
  function WithUsername(validated: map<string, string>): (r: map<string, string>)
    ensures r.Keys == validated.Keys + {"username"}
    ensures forall k | k in validated && k != "username" :: r[k] == validated[k]
    ensures r["username"] == GetCleanedData(validated)["email"]
  {
    validated["username" := Get(validated, "email").GetOr("")]
  }

  /** Copying the username changes neither the email nor the cleaned data the registration reads. */
  lemma UsernameKeepsCleanedData(validated: map<string, string>)
    ensures GetCleanedData(WithUsername(validated)) == GetCleanedData(validated)
    ensures WithUsername(validated)["username"] == GetCleanedData(WithUsername(validated))["email"]
  {
  }

  /** The serializer's validated data, which `save` writes into before the registration runs. */
  class RegisterSerializer {
    var validatedData: map<string, string>

    constructor (validatedData: map<string, string>)
      ensures this.validatedData == validatedData
    {
      this.validatedData := validatedData;
    }

    /** `save(request)` up to the hand-over to the inherited registration. */
    method Save()
      modifies this
      ensures validatedData == WithUsername(old(validatedData))
    {
      var username := Get(validatedData, "email").GetOr("");
      validatedData := validatedData["username" := username];
    }
  }

  // ---------------------------------------------------------------------------
  // `UserSerializer`

  const UserFields: seq<string> := ["id", "email", "date_joined", "last_login"]
  const ReadOnlyFields: set<string> := {"date_joined", "last_login"}

  /** The fields an update may write: the listed ones that are neither read-only nor the primary key. */
  function WritableFields(): (w: set<string>)
    ensures w == {"email"}
  {
    set f | f in UserFields && f !in ReadOnlyFields && f != "id"
  }

  /** A user's representation: exactly the listed fields. */
  function UserJson(u: User): (j: Json)
    ensures j.JObject? && j.fields.Keys == set f | f in UserFields
    ensures j.fields["id"] == JInt(u.id) && j.fields["email"] == JStr(u.email)
    ensures j.fields["date_joined"] == JTime(u.dateJoined)
    ensures j.fields["last_login"] == if u.lastLogin.Some? then JTime(u.lastLogin.value) else JNull
  {
    JObject(map[
      "id" := JInt(u.id),
      "email" := JStr(u.email),
      "date_joined" := JTime(u.dateJoined),
      "last_login" := if u.lastLogin.Some? then JTime(u.lastLogin.value) else JNull])
  }

  /**
   * An update from request data: only a writable field is taken over, so a
   * submitted id, date_joined or last_login is ignored. (Validation of the
   * new address is not part of this model.)
   */
  function ApplyUpdate(u: User, data: map<string, Json>): (v: User)
    ensures v == u.(email := v.email)
    ensures "email" in data && data["email"].JStr? ==> v.email == data["email"].s
    ensures !("email" in data && data["email"].JStr?) ==> v == u
  {
    if "email" in WritableFields() && "email" in data && data["email"].JStr? then u.(email := data["email"].s) else u
  }

  /** The read-only fields of the representation are the same before and after any update. */
  lemma UpdateKeepsReadOnlyFields(u: User, data: map<string, Json>)
    ensures forall f | f in ReadOnlyFields + {"id"} :: UserJson(ApplyUpdate(u, data)).fields[f] == UserJson(u).fields[f]
  {
  }
}
