/** The field validators of the user schemas (`UserBase`, `UserCreate`,
    `UserLogin`, `UserUpdate`, `PasswordChange`). Each field is first held to
    its declared length bounds, then handed to its `@validator`, which either
    returns the value to store or raises `ValueError`. Patterns are matched
    the way Python's `re.match` does with a trailing `$`, which also matches
    just before a final newline. */
module UserSchemas {
  import opened Wrappers
  import opened Text
  import opened Schema

  const UsernameMessage := "Username can only contain letters, numbers, underscores, and hyphens"
  const PhoneMessage := "Phone number must be between 10-15 digits"
  const NamesMessage := "Names can only contain letters, spaces, hyphens, and apostrophes"
  const PasswordLengthMessage := "Password must be at least 8 characters long"
  const UppercaseMessage := "Password must contain at least one uppercase letter"
  const LowercaseMessage := "Password must contain at least one lowercase letter"
  const DigitMessage := "Password must contain at least one digit"
  const SpecialMessage := "Password must contain at least one special character"
  const MismatchMessage := "Passwords do not match"
  const NewMismatchMessage := "New passwords do not match"
  const RoleMessage := "Role must be one of: user, healthcare_worker, admin"
  const LoginMessage := "Username or email is required"

  const AllowedRoles: seq<string> := ["user", "healthcare_worker", "admin"]
  const DefaultRole := "user"

  // ---- username (UserBase) ----

  predicate IsUsernameChar(c: char) { IsLetter(c) || IsDigit(c) || c == '_' || c == '-' }

  /** `validate_username` after the 3..50 length bound: the value lower-cased. */
  function ValidateUsername(v: string): Result<string, Rejection> {
    var b := Bounds(v, 3, 50);
    if b.Some? then Err(b.value)
    else if !PlusToEnd(v, IsUsernameChar) then Err(ValueError(UsernameMessage))
    else Ok(Lower(v))
  }

  /** A username is accepted iff it has 3 to 50 characters and, apart from
      one final newline, is made only of letters, digits, `_` and `-`; what
      is stored is its lower-case form, which the validator accepts as is. */
  lemma UsernameAccepted(v: string)
    ensures ValidateUsername(v).Ok? <==>
      3 <= |v| <= 50 && BeforeFinalNewline(v) != [] && AllIn(BeforeFinalNewline(v), IsUsernameChar)
    ensures ValidateUsername(v).Ok? ==>
      var u := ValidateUsername(v).value;
      |u| == |v| && (forall i :: 0 <= i < |u| ==> !IsUpper(u[i])) && ValidateUsername(u) == Ok(u)
  {
    PlusToEndWithoutNewline(v, IsUsernameChar);
    if ValidateUsername(v).Ok? {
      var u := Lower(v);
      LowerKeepsPattern(v);
      LowerIdempotent(v);
      assert ValidateUsername(u) == Ok(Lower(u));
    }
  }

  /** Lower-casing keeps a value matching the username pattern. */
  lemma LowerKeepsPattern(v: string)
    requires PlusToEnd(v, IsUsernameChar)
    ensures PlusToEnd(Lower(v), IsUsernameChar)
  {
    var u := Lower(v);
    var k :| 1 <= k <= |v| && RunToEnd(v, IsUsernameChar, k);
    assert forall i :: 0 <= i < k ==> IsUsernameChar(u[i]);
    assert RunToEnd(u, IsUsernameChar, k);
  }

  /** Because `$` also matches before a final newline, a three-character
      username ending in a newline is accepted and stored with it. */
  lemma UsernameWithTrailingNewline(v: string)
    requires v == "ab\n"
    ensures ValidateUsername(v) == Ok("ab\n")
  {
    PlusToEndWithoutNewline(v, IsUsernameChar);
    assert BeforeFinalNewline(v) == "ab";
    assert Lower(v) == "ab\n";
  }

  /** The username check as intended: the whole value is a non-empty run of
      the allowed characters, as `re.fullmatch` or a `\Z` anchor would test. */
  function ValidateUsernameWhole(v: string): Result<string, Rejection> {
    var b := Bounds(v, 3, 50);
    if b.Some? then Err(b.value)
    else if !AllIn(v, IsUsernameChar) then Err(ValueError(UsernameMessage))
    else Ok(Lower(v))
  }

  /** The intended check stores only letters, digits, `_` and `-`, and it
      agrees with the written one on every value without a final newline. */
  lemma UsernameWholeAccepted(v: string)
    ensures ValidateUsernameWhole(v).Ok? ==>
      var u := ValidateUsernameWhole(v).value;
      |u| == |v| && AllIn(u, IsUsernameChar) && '\n' !in u
    ensures (v == [] || v[|v| - 1] != '\n') ==> ValidateUsernameWhole(v) == ValidateUsername(v)
  {
    PlusToEndWithoutNewline(v, IsUsernameChar);
    if ValidateUsernameWhole(v).Ok? {
      var u := Lower(v);
      assert forall i :: 0 <= i < |v| ==> (IsUsernameChar(u[i]) <==> IsUsernameChar(v[i]));
      assert AllIn(u, IsUsernameChar);
      assert !IsUsernameChar('\n');
    }
  }

  // ---- phone number (UserBase, UserUpdate) ----

  /** `validate_phone_number` after the 20-character bound: `None` passes,
      otherwise 10 to 15 digit characters are required. */
  function ValidatePhone(v: Option<string>): Result<Option<string>, Rejection> {
    if v.None? then Ok(None)
    else if |v.value| > 20 then Err(TooLong(20))
    else if CountDigits(v.value) < 10 || CountDigits(v.value) > 15 then Err(ValueError(PhoneMessage))
    else Ok(v)
  }

  /** A phone number is accepted iff it is absent, or has at most 20
      characters of which 10 to 15 are digits; it is stored unchanged, so
      validating it again accepts it again. */
  lemma PhoneAccepted(v: Option<string>)
    ensures ValidatePhone(v).Ok? <==>
      (v.None? || (|v.value| <= 20 && 10 <= CountDigits(v.value) <= 15))
    ensures ValidatePhone(v).Ok? ==> ValidatePhone(v).value == v && ValidatePhone(ValidatePhone(v).value) == ValidatePhone(v)
    ensures ValidatePhone(v).Err? ==> ValidatePhone(v).error in {TooLong(20), ValueError(PhoneMessage)}
  {
  }

  // ---- names (UserBase, UserUpdate) ----

  /** `\s` on ASCII is `str.isspace`. */
  predicate IsNameChar(c: char) { IsLetter(c) || IsSpace(c) || c == '\'' || c == '-' }

  /** `validate_names` after the 1..50 length bound: stripped and title-cased. */
  function ValidateName(v: string): Result<string, Rejection> {
    var b := Bounds(v, 1, 50);
    if b.Some? then Err(b.value)
    else if !PlusToEnd(v, IsNameChar) then Err(ValueError(NamesMessage))
    else Ok(Title(Strip(v)))
  }

  /** The stripped, title-cased form keeps only name characters, has no
      surrounding whitespace, is no longer than the input, and is its own
      title case. */
  lemma NormalisedName(v: string)
    requires AllIn(v, IsNameChar)
    ensures var n := Title(Strip(v));
      && |n| <= |v| && AllIn(n, IsNameChar) && Title(n) == n
      && (n == [] || (!IsSpace(n[0]) && !IsSpace(n[|n| - 1])))
  {
    var s := Strip(v);
    var a := StripIsSlice(v);
    assert forall i :: 0 <= i < |s| ==> s[i] == v[a + i];
    assert AllIn(s, IsNameChar);
    TitleIdempotent(s);
  }

  /** A name is accepted iff it has 1 to 50 characters, all letters,
      whitespace, apostrophes or hyphens; what is stored is normalised as
      `NormalisedName` says, and validating it again leaves it as is. */
  lemma NameAccepted(v: string)
    ensures ValidateName(v).Ok? <==> 1 <= |v| <= 50 && AllIn(v, IsNameChar)
    ensures ValidateName(v).Ok? ==>
      var n := ValidateName(v).value;
      && AllIn(n, IsNameChar) && Title(n) == n
      && (n == [] || (!IsSpace(n[0]) && !IsSpace(n[|n| - 1])))
      && (n != [] ==> ValidateName(n) == Ok(n))
  {
    PlusToEndWithNewline(v, IsNameChar);
    if ValidateName(v).Ok? {
      NormalisedName(v);
      var n := Title(Strip(v));
      if n != [] {
        PlusToEndWithNewline(n, IsNameChar);
        StripOfTrimmed(n);
      }
    }
  }

  /** A name of spaces only passes both the length bound and the pattern,
      and is stored as the empty string. */
  lemma BlankNameStoredEmpty(v: string)
    requires v == "   "
    ensures ValidateName(v) == Ok("")
  {
    PlusToEndWithNewline(v, IsNameChar);
    assert IsBlank(v);
    StripEmptyIffBlank(v);
  }

  /** The name check as intended: the stored name, like the raw value, has
      at least one character. */
  function ValidateNameNonBlank(v: string): Result<string, Rejection> {
    var r := ValidateName(v);
    if r.Ok? && r.value == [] then Err(ValueError(NamesMessage)) else r
  }

  /** The intended check accepts exactly the names that are not blank, and
      stores a non-empty, normalised name. */
  lemma NameNonBlankAccepted(v: string)
    ensures ValidateNameNonBlank(v).Ok? <==> 1 <= |v| <= 50 && AllIn(v, IsNameChar) && !IsBlank(v)
    ensures ValidateNameNonBlank(v).Ok? ==>
      var n := ValidateNameNonBlank(v).value;
      n != [] && AllIn(n, IsNameChar) && Title(n) == n && !IsSpace(n[0]) && !IsSpace(n[|n| - 1])
  {
    NameAccepted(v);
    StripEmptyIffBlank(v);
  }

  /** `UserUpdate.validate_names`: an absent name passes. */
  function ValidateOptionalName(v: Option<string>): (r: Result<Option<string>, Rejection>)
    ensures v.None? ==> r == Ok(None)
    ensures v.Some? ==> (r.Ok? <==> ValidateName(v.value).Ok?)
    ensures v.Some? && r.Ok? ==> r.value == Some(ValidateName(v.value).value)
  {
    if v.None? then Ok(None)
    else match ValidateName(v.value)
      case Ok(n) => Ok(Some(n))
      case Err(e) => Err(e)
  }

  // ---- password (UserCreate, PasswordChange) ----

  predicate HasUpper(s: string) { exists i :: 0 <= i < |s| && IsUpper(s[i]) }
  predicate HasLower(s: string) { exists i :: 0 <= i < |s| && IsLower(s[i]) }

  /** The class `[!@#$%^&*(),.?":{}|<>]`. */
  predicate IsSpecial(c: char) { c in "!@#$%^&*(),.?\":{}|<>" }
  predicate HasSpecial(s: string) { exists i :: 0 <= i < |s| && IsSpecial(s[i]) }

  /** The body of `validate_password`: its checks in order, `None` when all pass. */
  function StrengthError(v: string): Option<string> {
    if |v| < 8 then Some(PasswordLengthMessage)
    else if !HasUpper(v) then Some(UppercaseMessage)
    else if !HasLower(v) then Some(LowercaseMessage)
    else if !HasDigit(v) then Some(DigitMessage)
    else if !HasSpecial(v) then Some(SpecialMessage)
    else None
  }

  /** `password` / `new_password`: the 8..128 bound, then the strength checks. */
  function ValidatePassword(v: string): Result<string, Rejection> {
    var b := Bounds(v, 8, 128);
    if b.Some? then Err(b.value)
    else if StrengthError(v).Some? then Err(ValueError(StrengthError(v).value))
    else Ok(v)
  }

  predicate Strong(v: string) {
    8 <= |v| <= 128 && HasUpper(v) && HasLower(v) && HasDigit(v) && HasSpecial(v)
  }

  /** A password is accepted, unchanged, iff it is strong; a short one is
      refused by the length bound, so the validator's own length message is
      never produced; otherwise the first failed check names the refusal. */
  lemma PasswordAccepted(v: string)
    ensures ValidatePassword(v).Ok? <==> Strong(v)
    ensures ValidatePassword(v).Ok? ==> ValidatePassword(v).value == v
    ensures ValidatePassword(v) != Err(ValueError(PasswordLengthMessage))
    ensures |v| < 8 ==> ValidatePassword(v) == Err(TooShort(8))
    ensures 8 <= |v| <= 128 && !HasUpper(v) ==> ValidatePassword(v) == Err(ValueError(UppercaseMessage))
    ensures 8 <= |v| <= 128 && HasUpper(v) && !HasLower(v) ==> ValidatePassword(v) == Err(ValueError(LowercaseMessage))
    ensures 8 <= |v| <= 128 && HasUpper(v) && HasLower(v) && !HasDigit(v) ==> ValidatePassword(v) == Err(ValueError(DigitMessage))
    ensures 8 <= |v| <= 128 && HasUpper(v) && HasLower(v) && HasDigit(v) && !HasSpecial(v)
      ==> ValidatePassword(v) == Err(ValueError(SpecialMessage))
  {
  }

  lemma ShortPasswordRefused(v: string)
    requires v == "short"
    ensures ValidatePassword(v) == Err(TooShort(8))
  {
  }

  lemma NoUppercaseRefused(v: string)
    requires v == "nouppercase123!"
    ensures ValidatePassword(v) == Err(ValueError(UppercaseMessage))
  {
    assert forall i :: 0 <= i < |v| ==> !IsUpper(v[i]);
  }

  lemma NoLowercaseRefused(v: string)
    requires v == "NOLOWERCASE123!"
    ensures ValidatePassword(v) == Err(ValueError(LowercaseMessage))
  {
    assert IsUpper(v[0]);
    assert forall i :: 0 <= i < |v| ==> !IsLower(v[i]);
  }

  lemma NoDigitRefused(v: string)
    requires v == "NoNumbers!"
    ensures ValidatePassword(v) == Err(ValueError(DigitMessage))
  {
    assert IsUpper(v[0]) && IsLower(v[1]);
    assert forall i :: 0 <= i < |v| ==> !IsDigit(v[i]);
  }

  lemma NoSpecialRefused(v: string)
    requires v == "NoSpecial123"
    ensures ValidatePassword(v) == Err(ValueError(SpecialMessage))
  {
    assert IsUpper(v[0]) && IsLower(v[1]) && IsDigit(v[9]);
    assert forall i :: 0 <= i < |v| ==> !IsSpecial(v[i]);
  }

  /** `passwords_match` / `PasswordChange.passwords_match`: compared only
      when the password itself was accepted. */
  function ValidateConfirmation(confirm: string, password: Result<string, Rejection>, message: string)
    : Result<string, Rejection>
  {
    if password.Ok? && confirm != password.value then Err(ValueError(message)) else Ok(confirm)
  }

  /** The confirmation is refused iff the password was accepted and differs
      from it; when both are accepted they are equal. */
  lemma ConfirmationRule(confirm: string, password: string, message: string)
    ensures ValidateConfirmation(confirm, ValidatePassword(password), message).Err?
        <==> Strong(password) && confirm != password
    ensures ValidateConfirmation(confirm, ValidatePassword(password), message).Ok? && Strong(password)
        ==> confirm == password
  {
    PasswordAccepted(password);
  }

  lemma MismatchRefused(p: string, c: string)
    requires p == "TestPass123!" && c == "DifferentPass123!"
    ensures ValidateConfirmation(c, ValidatePassword(p), MismatchMessage) == Err(ValueError(MismatchMessage))
  {
    assert IsUpper(p[0]) && IsLower(p[1]) && IsDigit(p[8]) && IsSpecial(p[11]);
    assert c[0] != p[0];
  }

  // ---- role (UserCreate) ----

  /** `validate_role`: an omitted role takes the default without being
      validated; an explicit value, `null` included, must be allowed. */
  function ValidateRole(role: Given<Option<string>>): Result<string, Rejection> {
    match role
    case Omitted => Ok(DefaultRole)
    case Given(v) => if v.Some? && v.value in AllowedRoles then Ok(v.value) else Err(ValueError(RoleMessage))
  }

  /** Every stored role is one of the three allowed ones, and the only
      refusal is the role message. */
  lemma RoleAccepted(role: Given<Option<string>>)
    ensures ValidateRole(role).Ok? ==> ValidateRole(role).value in AllowedRoles
    ensures ValidateRole(role).Ok? <==> role.Omitted? || (role.value.Some? && role.value.value in AllowedRoles)
    ensures ValidateRole(role).Err? ==> ValidateRole(role).error == ValueError(RoleMessage)
    ensures role.Omitted? ==> ValidateRole(role) == Ok("user")
  {
  }

  // ---- login (UserLogin) ----

  /** `validate_username_or_email`: stripped and lower-cased, then required. */
  function ValidateLogin(v: string): Result<string, Rejection> {
    var t := Lower(Strip(v));
    if t == [] then Err(ValueError(LoginMessage)) else Ok(t)
  }

  /** A login is refused iff it is blank; an accepted one has no
      surrounding whitespace and no upper-case letter, and normalising it
      again changes nothing. */
  lemma LoginNormalised(v: string)
    ensures ValidateLogin(v).Err? <==> IsBlank(v)
    ensures ValidateLogin(v).Ok? ==>
      var t := ValidateLogin(v).value;
      && t != [] && !IsSpace(t[0]) && !IsSpace(t[|t| - 1])
      && (forall i :: 0 <= i < |t| ==> !IsUpper(t[i]))
      && ValidateLogin(t) == Ok(t)
  {
    StripEmptyIffBlank(v);
    var t := Lower(Strip(v));
    if t != [] {
      StripOfTrimmed(t);
      assert Lower(t) == t;
    }
  }
}
