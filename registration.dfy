/*
 * `RegisterSerializer` of backend/accounts/serializers.py: the password
 * policy, the confirmation check and the construction of the new account.
 */
module Registration {
  import opened Common
  import Permissions

  datatype PasswordError = TooShort | NoUppercase | NoDigit | NoSpecialCharacter

  /** The character class `[!@#$%^&*(),.?":{}|<>]`. */
  const SpecialCharacters: string := "!@#$%^&*(),.?\":{}|<>"

  const MinPasswordLength := 8

  predicate HasUppercase(s: string)
  {
    exists i | 0 <= i < |s| :: 'A' <= s[i] <= 'Z'
  }

  predicate HasDigit(s: string)
  {
    exists i | 0 <= i < |s| :: IsDigit(s[i])
  }

  predicate HasSpecial(s: string)
  {
    exists i | 0 <= i < |s| :: s[i] in SpecialCharacters
  }

  /** `validate_password`: the first rule that fails decides the error. */
  function ValidatePassword(value: string): (r: Result<string, PasswordError>)
    ensures r.Ok? <==> |value| >= MinPasswordLength && HasUppercase(value) && HasDigit(value) && HasSpecial(value)
    ensures r.Ok? ==> r.value == value
    ensures r == Err(TooShort) <==> |value| < MinPasswordLength
    ensures r == Err(NoUppercase) <==> |value| >= MinPasswordLength && !HasUppercase(value)
    ensures r == Err(NoDigit) <==> |value| >= MinPasswordLength && HasUppercase(value) && !HasDigit(value)
    ensures r == Err(NoSpecialCharacter) <==>
      |value| >= MinPasswordLength && HasUppercase(value) && HasDigit(value) && !HasSpecial(value)
  {
    if |value| < MinPasswordLength then Err(TooShort)
    else if !HasUppercase(value) then Err(NoUppercase)
    else if !HasDigit(value) then Err(NoDigit)
    else if !HasSpecial(value) then Err(NoSpecialCharacter)
    else Ok(value)
  }

  /** Example: a password meeting every rule is accepted unchanged. */
  lemma AcceptedPasswordExample()
    ensures ValidatePassword("Secret1!") == Ok("Secret1!")
  {
    var p := "Secret1!";
    assert 'A' <= p[0] <= 'Z';
    assert IsDigit(p[6]);
    assert p[7] == SpecialCharacters[0];
  }

  /** Length is checked first: every short password is refused as short, whatever else it lacks. */
  lemma ShortPasswordRefused(p: string)
    requires |p| < MinPasswordLength
    ensures ValidatePassword(p) == Err(TooShort)
  {
  }

  /** The registration payload; optional fields may be absent. */
  datatype RegisterData = RegisterData(
    username: string,
    email: Option<string>,
    password: string,
    password2: string,
    firstName: Option<string>,
    lastName: Option<string>)

  datatype RegisterError = PasswordsDiffer

  /** `RegisterSerializer.validate`. */
  function ValidateRegistration(attrs: RegisterData): (r: Result<RegisterData, RegisterError>)
    ensures r.Ok? <==> attrs.password == attrs.password2
    ensures r.Ok? ==> r.value == attrs
  {
    if attrs.password != attrs.password2 then Err(PasswordsDiffer) else Ok(attrs)
  }

  /** The arguments `create` hands to `User.objects.create_user`; `password2` is not among them. */
  datatype NewUser = NewUser(
    username: string,
    email: string,
    password: string,
    firstName: string,
    lastName: string,
    role: string)

  function GetOr(o: Option<string>, default: string): string
  {
    match o
    case Some(v) => v
    case None => default
  }

  /** `RegisterSerializer.create`. */
  function CreateUser(data: RegisterData): (u: NewUser)
    ensures u.role == "user"
    ensures u.username == data.username && u.password == data.password
    ensures data.email.None? ==> u.email == ""
    ensures data.firstName.None? ==> u.firstName == ""
    ensures data.lastName.None? ==> u.lastName == ""
    ensures data.email.Some? ==> u.email == data.email.value
    ensures data.firstName.Some? ==> u.firstName == data.firstName.value
    ensures data.lastName.Some? ==> u.lastName == data.lastName.value
  {
    NewUser(data.username, GetOr(data.email, ""), data.password,
            GetOr(data.firstName, ""), GetOr(data.lastName, ""), "user")
  }

  /** Self-registration never yields an administrator: the new account fails `IsAdminUser`. */
  lemma {:induction false} RegisteredUserIsNotAdmin(data: RegisterData, id: nat)
    ensures !Permissions.IsAdminUserHasPermission(Some(Permissions.Account(id, CreateUser(data).role)))
  {
    assert CreateUser(data).role == "user";
  }
}
