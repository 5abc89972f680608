/**
 * The login page (frontend/src/pages/Login.tsx): a submit handler that allows three rejected
 * passwords, tells HTTP failures and network failures apart, and on success always asks the app
 * to continue with MFA.
 */
module Login {
  import opened Wrappers
  import opened Json
  import opened Text
  import opened Http

  const MaxAttempts := 3
  const LimitMessage := "Password attempt limit reached."
  const WrongCredentials := "Wrong username or password. Please try again."

  function ServerErrorText(status: nat): string
  {
    "Server error (" + Decimal(status) + "). Please try again."
  }

  /** `(data && (data.message || data.error)) ?? undefined`, when it is a non-empty string. */
  function ServerMessage(data: Json): (r: Option<string>)
    ensures r.Some? ==> data.Object? && r.value != ""
    ensures MessageText(Prop(data, "message")).Some? ==> r == MessageText(Prop(data, "message"))
    ensures data.Object? && !Truthy(Prop(data, "message")) ==> r == MessageText(Prop(data, "error"))
  {
    if !Truthy(Some(data)) then None
    else if Truthy(Prop(data, "message")) then MessageText(Prop(data, "message"))
    else MessageText(Prop(data, "error"))
  }

  /** The server accepted the password: an ok response whose `success` is truthy. */
  predicate Accepted(reply: Reply)
  {
    reply.Response? && reply.ok && reply.data != Null && Truthy(Prop(reply.data, "success"))
  }

  /**
   * The server rejected the password: an ok response whose `success` is falsy. A `null` body is not a
   * rejection: reading `data.success` throws and the network message is shown.
   */
  predicate Rejected(reply: Reply)
  {
    reply.Response? && reply.ok && reply.data != Null && !Truthy(Prop(reply.data, "success"))
  }

  /** The page's state after a submit: attempts, error text, and whether `onPasswordOk` was called. */
  datatype Outcome = Outcome(attempts: nat, error: string, passwordOk: bool)

  /**
   * `handleSubmit` for a count of earlier rejections. At the limit nothing is sent; otherwise only a
   * rejection counts, and the rejection that reaches the limit shows the limit message.
   */
  function Submit(attempts: nat, reply: Reply): (o: Outcome)
    ensures attempts >= MaxAttempts ==> o == Outcome(attempts, LimitMessage, false)
    ensures attempts < MaxAttempts ==>
              && o.attempts == (if Rejected(reply) then attempts + 1 else attempts)
              && (o.passwordOk <==> Accepted(reply))
              && (o.passwordOk ==> o.error == "")
              && (Rejected(reply) && o.attempts >= MaxAttempts ==> o.error == LimitMessage)
              && (Rejected(reply) && o.attempts < MaxAttempts ==>
                    o.error == OrElse(MessageText(Prop(reply.data, "message")), WrongCredentials))
              && (reply.NetworkError? ==> o.error == NetworkMessage)
              && (reply.Response? && reply.ok && reply.data == Null ==> o.error == NetworkMessage)
              && (reply.Response? && !reply.ok ==>
                    o.error == OrElse(ServerMessage(reply.data), ServerErrorText(reply.status)))
  {
    if attempts >= MaxAttempts then Outcome(attempts, LimitMessage, false)
    else match reply
      case NetworkError => Outcome(attempts, NetworkMessage, false)
      case Response(ok, status, data) =>
        if !ok then Outcome(attempts, OrElse(ServerMessage(data), ServerErrorText(status)), false)
        else if data == Null then Outcome(attempts, NetworkMessage, false)
        else if Truthy(Prop(data, "success")) then Outcome(attempts, "", true)
        else if attempts + 1 >= MaxAttempts then Outcome(attempts + 1, LimitMessage, false)
        else Outcome(attempts + 1, OrElse(MessageText(Prop(data, "message")), WrongCredentials), false)
  }

  /** The attempt count after a series of submits. */
  function AttemptsAfter(attempts: nat, replies: seq<Reply>): nat
    decreases |replies|
  {
    if replies == [] then attempts else AttemptsAfter(Submit(attempts, replies[0]).attempts, replies[1..])
  }

  /** The count never decreases and never passes the limit. */
  lemma {:induction false} AttemptsStayBounded(attempts: nat, replies: seq<Reply>)
    requires attempts <= MaxAttempts
    ensures attempts <= AttemptsAfter(attempts, replies) <= MaxAttempts
    decreases |replies|
  {
    if replies != [] {
      AttemptsStayBounded(Submit(attempts, replies[0]).attempts, replies[1..]);
    }
  }

  /** Once the limit is reached, no later submit gets the password accepted, whatever the server says. */
  lemma {:induction false} LockedOut(replies: seq<Reply>, k: nat)
    requires k < |replies|
    ensures AttemptsAfter(MaxAttempts, replies[..k]) == MaxAttempts
    ensures !Submit(AttemptsAfter(MaxAttempts, replies[..k]), replies[k]).passwordOk
  {
    if k > 0 {
      LockedOut(replies, k - 1);
      assert replies[..k] == replies[..k - 1] + [replies[k - 1]];
      AttemptsAfterAppend(MaxAttempts, replies[..k - 1], replies[k - 1]);
    }
  }

  /** Submitting one more reply extends the series by one step. */
  lemma {:induction false} AttemptsAfterAppend(attempts: nat, replies: seq<Reply>, last: Reply)
    ensures AttemptsAfter(attempts, replies + [last]) == Submit(AttemptsAfter(attempts, replies), last).attempts
    decreases |replies|
  {
    if replies != [] {
      assert (replies + [last])[1..] == replies[1..] + [last];
      AttemptsAfterAppend(Submit(attempts, replies[0]).attempts, replies[1..], last);
    }
  }

  /** Three rejected passwords in a row from a fresh page reach the limit. */
  lemma ThreeRejectionsLock(r1: Reply, r2: Reply, r3: Reply)
    requires Rejected(r1) && Rejected(r2) && Rejected(r3)
    ensures AttemptsAfter(0, [r1, r2, r3]) == MaxAttempts
    ensures Submit(2, r3).error == LimitMessage
  {
    assert [r1, r2, r3][1..] == [r2, r3];
    assert [r2, r3][1..] == [r3];
    assert AttemptsAfter(2, [r3]) == AttemptsAfter(3, []) == 3;
    assert AttemptsAfter(1, [r2, r3]) == AttemptsAfter(2, [r3]);
    assert AttemptsAfter(0, [r1, r2, r3]) == AttemptsAfter(1, [r2, r3]);
  }

  /** The page's state. */
  class LoginForm {
    var attempts: nat
    var error: string
    var loading: bool

    ghost predicate Valid()
      reads this
    {
      attempts <= MaxAttempts
    }

    constructor ()
      ensures Valid() && attempts == 0 && error == "" && !loading
    {
      attempts := 0;
      error := "";
      loading := false;
    }

    /**
     * `handleSubmit`: `request` is the credentials posted, `passwordOk` the arguments of the call to
     * `onPasswordOk`; the new state is the one `Submit` describes.
     */
    method HandleSubmit(username: string, password: string, reply: Reply)
      returns (request: Option<(string, string)>, passwordOk: Option<(bool, string)>)
      requires Valid()
      modifies this
      ensures Valid() && attempts >= old(attempts)
      ensures attempts == Submit(old(attempts), reply).attempts && error == Submit(old(attempts), reply).error
      ensures passwordOk == (if Submit(old(attempts), reply).passwordOk then Some((true, username)) else None)
      ensures old(attempts) >= MaxAttempts ==> request == None && loading == old(loading)
      ensures old(attempts) < MaxAttempts ==> request == Some((username, password)) && !loading
    {
      error := "";
      if attempts >= MaxAttempts {
        error := LimitMessage;
        return None, None;
      }
      loading := true;
      request := Some((username, password));
      passwordOk := None;
      match reply {
        case NetworkError =>
          error := NetworkMessage;
        case Response(ok, status, data) =>
          if !ok {
            error := OrElse(ServerMessage(data), ServerErrorText(status));
          } else if data == Null {
            error := NetworkMessage;
          } else if Truthy(Prop(data, "success")) {
            passwordOk := Some((true, username));
          } else {
            var nextAttempts := attempts + 1;
            attempts := nextAttempts;
            if nextAttempts >= MaxAttempts {
              error := LimitMessage;
            } else {
              error := OrElse(MessageText(Prop(data, "message")), WrongCredentials);
            }
          }
      }
      loading := false;
    }
  }
}
