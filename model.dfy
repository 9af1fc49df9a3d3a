/**
 * The record types the service exchanges (internal/model/message.go): a message,
 * the delete notification pushed to subscribers, and the HTTP responses the handlers
 * write. Identifiers travel as strings; the store produces them by rendering its
 * integer AUTO_INCREMENT key in decimal, and the delete handler reads them back.
 */
module Model {
  import opened Wrappers

  /** A wall-clock instant. Time arithmetic is never needed: the clock is a parameter. */
  type Time = int

  /** `Message`: `deletedAt` is None exactly while the message is active. */
  datatype Message = Message(id: string, content: string, createdAt: Time, deletedAt: Option<Time>)

  /** `DeleteEventMessage`: its `deletedAt` is not optional, every event carries one. */
  datatype DeleteEvent = DeleteEvent(kind: string, id: string, deletedAt: Time)

  const MessageDeleted: string := "message_deleted"

  predicate IsActive(m: Message) {
    m.deletedAt.None?
  }

  /** The JSON object keys `encoding/json` writes for a Message: `deleted_at` carries `omitempty`. */
  function MessageJsonKeys(m: Message): (keys: seq<string>)
    ensures |keys| >= 3 && keys[..3] == ["id", "content", "created_at"]
    ensures "deleted_at" in keys <==> !IsActive(m)
  {
    ["id", "content", "created_at"] + if m.deletedAt.Some? then ["deleted_at"] else []
  }

  // ---------------------------------------------------------------------------
  // Decimal identifiers: fmt.Sprintf("%d", lastInsertID) and the store's reading
  // of a path identifier as an integer key.

  predicate IsDigit(c: char) {
    '0' <= c <= '9'
  }

  predicate AllDigits(s: string) {
    forall i :: 0 <= i < |s| ==> IsDigit(s[i])
  }

  function DigitChar(d: nat): (c: char)
    requires d < 10
    ensures IsDigit(c)
  {
    ('0' as int + d) as char
  }

  function DigitValue(c: char): (d: nat)
    requires IsDigit(c)
    ensures d < 10
  {
    c as int - '0' as int
  }

  /** The canonical decimal rendering of `n`: digits only, no leading zero. */
  function DecimalString(n: nat): (s: string)
    ensures |s| >= 1 && AllDigits(s)
    ensures s[0] == '0' ==> n == 0 && s == "0"
    decreases n
  {
    if n < 10 then [DigitChar(n)] else DecimalString(n / 10) + [DigitChar(n % 10)]
  }

  function DigitsValue(s: string): nat
    requires AllDigits(s)
  {
    if |s| == 0 then 0 else DigitsValue(s[..|s| - 1]) * 10 + DigitValue(s[|s| - 1])
  }

  /** The integer key a path identifier selects: a non-empty run of decimal digits. */
  function ParseDecimal(s: string): Option<nat> {
    if |s| > 0 && AllDigits(s) then Some(DigitsValue(s)) else None
  }

  /** Reading back an identifier the create handler returned selects the row it was made from. */
  lemma {:induction false} ParseDecimalString(n: nat)
    ensures ParseDecimal(DecimalString(n)) == Some(n)
  {
    var s := DecimalString(n);
    if n >= 10 {
      ParseDecimalString(n / 10);
      assert s[..|s| - 1] == DecimalString(n / 10);
      assert DigitValue(s[|s| - 1]) == n % 10;
    } else {
      assert s[..0] == [];
      assert DigitValue(s[0]) == n;
      assert DigitsValue(s) == DigitsValue(s[..0]) * 10 + DigitValue(s[0]);
    }
  }

  /** Distinct keys render to distinct identifiers. */
  lemma DecimalStringInjective(m: nat, n: nat)
    requires DecimalString(m) == DecimalString(n)
    ensures m == n
  {
    ParseDecimalString(m);
    ParseDecimalString(n);
  }

  // ---------------------------------------------------------------------------
  // HTTP responses, abstracted to their status code and decoded JSON body.

  datatype Body<M> = ErrorJson(error: string) | One(message: M) | Many(messages: seq<M>) | NoContent

  datatype Response<M> = Response(status: nat, body: Body<M>)

  const StatusOK: nat := 200
  const StatusCreated: nat := 201
  const StatusNoContent: nat := 204
  const StatusBadRequest: nat := 400
  const StatusForbidden: nat := 403
  const StatusNotFound: nat := 404
  const StatusInternalServerError: nat := 500

  function Error<M>(status: nat, text: string): Response<M> {
    Response(status, ErrorJson(text))
  }

  /**
   * A create request body as the JSON decoder sees it. `valueBytes` is how many bytes
   * the decoder must read to finish the first JSON value; `decoded` is None when the
   * value is not valid JSON for the message type. The client may send any field.
   */
  datatype ClientBody = ClientBody(id: string, uid: string, content: string,
                                   createdAt: Option<Time>, deletedAt: Option<Time>)

  datatype CreateRequest = CreateRequest(valueBytes: nat, decoded: Option<ClientBody>)
}
