/** The result of a transaction: the messages seen, and the error code they lead to. */
module TransactionResults {
  import opened DpaMessages

  const TRN_OK := 0
  const TRN_ERROR_TIMEOUT := -1
  const TRN_ERROR_IFACE_QUEUE_FULL := -2
  const TRN_ERROR_ABORTED := -3
  const TRN_ERROR_IFACE := -4
  const TRN_ERROR_IFACE_BUSY := -5

  datatype Result = Result(
    request: Message,
    confirmation: Message,
    response: Message,
    errorCode: int,
    responseCode: int,
    isResponded: bool,
    isConfirmed: bool)

  function NewResult(request: Message): Result {
    Result(Copy(request), Empty(), Empty(), TRN_ERROR_ABORTED, TRN_OK, false, false)
  }

  function WithConfirmation(r: Result, m: Message): Result {
    r.(confirmation := Copy(m), isConfirmed := true)
  }

  function WithResponse(r: Result, m: Message): Result {
    if 0 < m.length then r.(response := Copy(m), responseCode := ResponseCode(m), isResponded := true)
    else r.(response := Copy(m), isResponded := false)
  }

  function WithErrorCode(r: Result, code: int): Result {
    r.(errorCode := if code == TRN_OK && r.responseCode != TRN_OK then r.responseCode else code)
  }

  function ErrorCode(r: Result): int {
    if r.errorCode != TRN_OK then r.errorCode else r.responseCode
  }

  /** What the final code means: the engine's own verdict if that is an error, else the response's code;
      so it is 0 exactly when the verdict is 0 and no response with another code was recorded. */
  lemma FinalCode(r: Result, code: int)
    ensures ErrorCode(WithErrorCode(r, code)) == if code != TRN_OK then code else r.responseCode
    ensures ErrorCode(WithErrorCode(r, code)) == TRN_OK <==> code == TRN_OK && r.responseCode == TRN_OK
  {
  }

  /** What a getter reads, whether or not the verdict was recorded before the response. */
  lemma ReadsEither(r: Result, m: Message)
    ensures r.errorCode != 0 ==> ErrorCode(r) == r.errorCode
    ensures r.errorCode == 0 ==> ErrorCode(r) == r.responseCode
    ensures m.length > 0 && r.responseCode == 0 ==>
              ErrorCode(WithResponse(WithErrorCode(r, 0), m)) == m.buffer[6] == ErrorCode(WithErrorCode(WithResponse(r, m), 0))
  {
  }

  class DpaTransactionResult2 {
    var request: Message
    var confirmation: Message
    var response: Message
    var errorCode: int
    var responseCode: int
    var isResponded: bool
    var isConfirmed: bool

    ghost function View(): Result
      reads this
    {
      Result(request, confirmation, response, errorCode, responseCode, isResponded, isConfirmed)
    }

    constructor (message: Message)
      ensures View() == NewResult(message)
      ensures request == Copy(message) && confirmation.length == response.length == 0
      ensures errorCode == -3 && responseCode == 0 && !isResponded && !isConfirmed
    {
      request, confirmation, response := Copy(message), Empty(), Empty();
      errorCode, responseCode := TRN_ERROR_ABORTED, TRN_OK;
      isResponded, isConfirmed := false, false;
    }

    method GetErrorCode() returns (code: int)
      ensures code == ErrorCode(View())
    {
      if errorCode != TRN_OK {
        code := errorCode;
      } else {
        code := responseCode;
      }
    }

    method SetConfirmation(m: Message)
      modifies this
      ensures View() == WithConfirmation(old(View()), m)
      ensures confirmation == Copy(m) && isConfirmed && unchanged(this`request, this`response, this`errorCode)
      ensures unchanged(this`responseCode, this`isResponded)
    {
      confirmation := Copy(m);
      isConfirmed := true;
    }

    method SetResponse(m: Message)
      modifies this
      ensures View() == WithResponse(old(View()), m)
      ensures response == Copy(m) && (isResponded <==> m.length > 0)
      ensures responseCode == if m.length > 0 then m.buffer[6] else old(responseCode)
      ensures unchanged(this`request, this`confirmation, this`errorCode, this`isConfirmed)
    {
      response := Copy(m);
      if 0 < m.length {
        responseCode := ResponseCode(m);
        isResponded := true;
      } else {
        isResponded := false;
      }
    }

    method SetErrorCode(code: int)
      modifies this
      ensures View() == WithErrorCode(old(View()), code)
      ensures errorCode == if code == 0 then responseCode else code
      ensures unchanged(this`request, this`confirmation, this`response, this`responseCode, this`isResponded, this`isConfirmed)
    {
      var c := code;
      if c == TRN_OK && responseCode != TRN_OK {
        c := responseCode;
      }
      errorCode := c;
    }
  }
}
