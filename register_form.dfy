/** The registration form: its password checks, the simulated one-second
  * server round trip and the hand-over of the new account to the app. */
module RegisterForm {
  import opened Basics
  import opened Strings

  const MismatchError: string := "Пароли не совпадают"
  const ShortPasswordError: string := "Пароль должен содержать минимум 6 символов"
  const MinPasswordLength: nat := 6

  /** What the form hands to the app once the simulated request completes. */
  datatype Registration = Registration(email: string, password: string, fullName: string)

  datatype Input = FullName | Email | Password | ConfirmPassword

  /** The error a submission shows, if any: a mismatch is reported before a
    * short password, and the length is counted in UTF-16 code units. */
  function ValidationError(password: string, confirmPassword: string): (e: Option<string>)
    ensures e == None <==> password == confirmPassword && Utf16Length(password) >= MinPasswordLength
    ensures password != confirmPassword ==> e == Some(MismatchError)
    ensures password == confirmPassword && Utf16Length(password) < MinPasswordLength ==> e == Some(ShortPasswordError)
  {
    if password != confirmPassword then Some(MismatchError)
    else if Utf16Length(password) < MinPasswordLength then Some(ShortPasswordError)
    else None
  }

  /** Six characters from the Basic Multilingual Plane are enough; five are
    * not, however they are encoded. */
  lemma PasswordLengthBoundary(password: string)
    ensures |password| >= MinPasswordLength ==> ValidationError(password, password) == None
    ensures Utf16Length(password) < MinPasswordLength ==> ValidationError(password, password) == Some(ShortPasswordError)
    ensures |password| < 3 ==> ValidationError(password, password) == Some(ShortPasswordError)
  {
  }

  class Form {
    var fullName: string
    var email: string
    var password: string
    var confirmPassword: string
    var isLoading: bool
    var error: string
    /** The registration the running timer will deliver, if a timer is running. */
    var pending: Option<Registration>

    /** A timer runs exactly while the form is loading. */
    ghost predicate Valid()
      reads this
    {
      isLoading <==> pending.Some?
    }

    constructor ()
      ensures Valid()
      ensures fullName == "" && email == "" && password == "" && confirmPassword == ""
      ensures !isLoading && error == "" && pending == None
    {
      fullName := "";
      email := "";
      password := "";
      confirmPassword := "";
      isLoading := false;
      error := "";
      pending := None;
    }

    /** Typing into one of the four inputs. */
    method HandleInput(input: Input, value: string)
      requires Valid()
      modifies this
      ensures Valid()
      ensures fullName == (if input == FullName then value else old(fullName))
      ensures email == (if input == Email then value else old(email))
      ensures password == (if input == Password then value else old(password))
      ensures confirmPassword == (if input == ConfirmPassword then value else old(confirmPassword))
      ensures isLoading == old(isLoading) && error == old(error) && pending == old(pending)
    {
      match input
      case FullName => fullName := value;
      case Email => email := value;
      case Password => password := value;
      case ConfirmPassword => confirmPassword := value;
    }

    /** Submitting clears the previous error, then either shows the first
      * failing check or starts loading and schedules the registration with
      * the values as they are now. The submit button is disabled while
      * loading. */
    method HandleSubmit()
      requires Valid() && !isLoading
      modifies this
      ensures Valid()
      ensures fullName == old(fullName) && email == old(email)
      ensures password == old(password) && confirmPassword == old(confirmPassword)
      ensures ValidationError(password, confirmPassword).Some? ==>
        error == ValidationError(password, confirmPassword).value && !isLoading && pending == None
      ensures ValidationError(password, confirmPassword).None? ==>
        error == "" && isLoading && pending == Some(Registration(email, password, fullName))
    {
      error := "";
      if password != confirmPassword {
        error := MismatchError;
        return;
      }
      if Utf16Length(password) < MinPasswordLength {
        error := ShortPasswordError;
        return;
      }
      isLoading := true;
      pending := Some(Registration(email, password, fullName));
    }

    /** The one-second timer fires: the captured registration goes to the
      * app and loading stops. */
    method TimerFires() returns (registered: Registration)
      requires Valid() && pending.Some?
      modifies this
      ensures Valid()
      ensures registered == old(pending).value
      ensures !isLoading && pending == None && error == old(error)
      ensures fullName == old(fullName) && email == old(email)
      ensures password == old(password) && confirmPassword == old(confirmPassword)
    {
      registered := pending.value;
      isLoading := false;
      pending := None;
    }
  }
}
