/** app/admin/broadcast/page.tsx: the form that sends one text message to
    every user of the LINE official account. */
module Broadcast {
  import opened Wrappers
  import opened Text

  const MaxMessageLength: nat := 1000

  /** `disabled={isLoading || !message.trim() || message.length > 1000}`, negated. */
  predicate SendButtonEnabled(isLoading: bool, message: string) {
    !isLoading && !IsBlank(message) && |message| <= MaxMessageLength
  }

  /** Whenever the button can be pressed, the handler sends a body that is
      non-empty, has no surrounding whitespace and is at most 1000 long. */
  lemma EnabledSendsValidBody(isLoading: bool, message: string)
    requires SendButtonEnabled(isLoading, message)
    ensures var body := Trim(message);
      body != "" && |body| <= MaxMessageLength && !IsWhitespace(body[0]) && !IsWhitespace(body[|body| - 1])
  {
  }

  /** The toast the handler shows. */
  datatype Toast = EmptyMessageError | SendSucceeded | SendFailed

  class BroadcastPage {
    var message: string
    var isLoading: bool

    constructor()
      ensures message == "" && !isLoading
    {
      message, isLoading := "", false;
    }

    /** `handleSendBroadcast`: the body sent (if any) and the toast shown.
        `requestOk` stands for the outcome of the `POST /broadcast`. */
    method HandleSendBroadcast(requestOk: bool) returns (body: Option<string>, toast: Toast)
      modifies this
      ensures IsBlank(old(message)) ==>
        body.None? && toast == EmptyMessageError && message == old(message) && isLoading == old(isLoading)
      ensures !IsBlank(old(message)) ==> body == Some(Trim(old(message))) && !isLoading
      ensures !IsBlank(old(message)) && requestOk ==> message == "" && toast == SendSucceeded
      ensures !IsBlank(old(message)) && !requestOk ==> message == old(message) && toast == SendFailed
    {
      if Trim(message) == "" {
        return None, EmptyMessageError;
      }
      isLoading := true;
      body := Some(Trim(message));
      if requestOk {
        message := "";
        toast := SendSucceeded;
      } else {
        toast := SendFailed;
      }
      isLoading := false;
    }
  }
}
