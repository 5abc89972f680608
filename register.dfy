/**
 * The registration page (frontend/src/pages/Register.tsx): three ordered checks on the form, then a
 * request whose answer either hands the username back to the app or shows an error.
 */
module Register {
  import opened Wrappers
  import opened Json
  import opened Text
  import opened Http

  const AllRequired := "All fields are required."
  const Mismatch := "Passwords do not match."
  const TooShort := "Password should be at least 8 characters long."
  const MinPasswordLength := 8

  function FailedText(status: nat): string
  {
    "Registration failed (status " + Decimal(status) + "). Please try again."
  }

  /**
   * The guard chain: an empty field first, then a confirmation that differs, then a password shorter
   * than 8 UTF-16 code units; None when the form may be sent.
   */
  function Validate(username: string, password: string, confirm: string): (r: Option<string>)
    ensures username == "" || password == "" || confirm == "" ==> r == Some(AllRequired)
    ensures username != "" && password != "" && confirm != "" && password != confirm ==> r == Some(Mismatch)
    ensures username != "" && password != "" && password == confirm && Utf16Length(password) < MinPasswordLength ==>
              r == Some(TooShort)
    ensures r.None? <==> username != "" && password != "" && password == confirm && Utf16Length(password) >= MinPasswordLength
  {
    if username == "" || password == "" || confirm == "" then Some(AllRequired)
    else if password != confirm then Some(Mismatch)
    else if Utf16Length(password) < MinPasswordLength then Some(TooShort)
    else None
  }

  /**
   * The answer to the request: registered on an ok response whose `success` is truthy; a `null` body
   * makes the handler throw (on `data.success` or on `data.message`), which shows the network message.
   */
  function Answer(reply: Reply): (r: Result<(), string>)
    ensures r.Ok? <==> reply.Response? && reply.ok && reply.data != Null && Truthy(Prop(reply.data, "success"))
    ensures reply.NetworkError? || (reply.Response? && reply.data == Null) ==> r == Err(NetworkMessage)
    ensures reply.Response? && reply.data != Null && r.Err? ==>
              r.error == OrElse(MessageText(Prop(reply.data, "message")), FailedText(reply.status))
  {
    match reply
    case NetworkError => Err(NetworkMessage)
    case Response(ok, status, data) =>
      if data == Null then Err(NetworkMessage)
      else if ok && Truthy(Prop(data, "success")) then Ok(())
      else Err(OrElse(MessageText(Prop(data, "message")), FailedText(status)))
  }

  /**
   * The length check counts UTF-16 code units: on the Basic Multilingual Plane that is the number of
   * characters, so there a password passes exactly when it has at least 8 characters.
   */
  lemma {:induction false} BasicPlaneLength(s: string)
    requires forall i :: 0 <= i < |s| ==> s[i] as int < 0x10000
    ensures Utf16Length(s) == |s|
  {
    if s != [] {
      BasicPlaneLength(s[1..]);
    }
  }

  /** Outside that plane each character counts twice, so four emoji already make a long enough password. */
  lemma {:induction false} AstralLength(s: string)
    requires forall i :: 0 <= i < |s| ==> s[i] as int >= 0x10000
    ensures Utf16Length(s) == 2 * |s|
  {
    if s != [] {
      AstralLength(s[1..]);
    }
  }

  /** The page's state. */
  class RegisterForm {
    var error: string
    var loading: bool

    constructor ()
      ensures error == "" && !loading
    {
      error := "";
      loading := false;
    }

    /**
     * `handleSubmit`: `request` is the credentials posted and `registered` the argument of the call to
     * `onRegistered`. A form that fails a check sends nothing and shows that check's message.
     */
    method HandleSubmit(username: string, password: string, confirm: string, reply: Reply)
      returns (request: Option<(string, string)>, registered: Option<string>)
      modifies this
      ensures Validate(username, password, confirm).Some? ==>
                && request == None && registered == None
                && error == Validate(username, password, confirm).value && loading == old(loading)
      ensures Validate(username, password, confirm).None? ==>
                && request == Some((username, password)) && !loading
                && registered == (if Answer(reply).Ok? then Some(username) else None)
                && error == (if Answer(reply).Ok? then "" else Answer(reply).error)
    {
      error := "";
      if username == "" || password == "" || confirm == "" {
        error := AllRequired;
        return None, None;
      }
      if password != confirm {
        error := Mismatch;
        return None, None;
      }
      if Utf16Length(password) < MinPasswordLength {
        error := TooShort;
        return None, None;
      }
      loading := true;
      request := Some((username, password));
      registered := None;
      match reply {
        case NetworkError =>
          error := NetworkMessage;
        case Response(ok, status, data) =>
          if data == Null {
            error := NetworkMessage;
          } else if !ok || !Truthy(Prop(data, "success")) {
            error := OrElse(MessageText(Prop(data, "message")), FailedText(status));
          } else {
            registered := Some(username);
          }
      }
      loading := false;
    }
  }
}
