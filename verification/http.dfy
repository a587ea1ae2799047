/**
 The slice of HTTP the two store handlers use: the status codes they send,
 the responses they can produce, and the decimal text `fmt.Fprintln` writes
 for an integer.
 */
module Http {

  const StatusOK: nat := 200
  const StatusAccepted: nat := 202
  const StatusBadRequest: nat := 400
  const StatusNotFound: nat := 404

  /** What a handler writes back. `Text` is a body written with no explicit
      status; `BadRequest` and `NotFound` are `http.Error` calls; `OkValue` is
      a `GetResponse` handed to the JSON encoder. */
  datatype Response =
    | Text(status: nat, body: string)
    | BadRequest(msg: string)
    | NotFound(msg: string)
    | OkValue(value: string)

  /** The status line the client receives. */
  function Status(r: Response): (code: nat)
    ensures code == StatusOK <==> r.OkValue? || (r.Text? && r.status == StatusOK)
    ensures code == StatusBadRequest <==> r.BadRequest? || (r.Text? && r.status == StatusBadRequest)
  {
    match r
    case Text(status, _) => status
    case BadRequest(_) => StatusBadRequest
    case NotFound(_) => StatusNotFound
    case OkValue(_) => StatusOK
  }

  /** The plain-text body, when there is one: `http.Error` writes its message
      followed by a newline. The JSON body of `OkValue` is not modelled. */
  function Body(r: Response): (body: string)
    requires !r.OkValue?
    ensures r.BadRequest? ==> |body| == |r.msg| + 1 && body[..|r.msg|] == r.msg && body[|r.msg|] == '\n'
    ensures r.NotFound? ==> |body| == |r.msg| + 1 && body[..|r.msg|] == r.msg && body[|r.msg|] == '\n'
  {
    match r
    case Text(_, b) => b
    case BadRequest(m) => m + "\n"
    case NotFound(m) => m + "\n"
  }

  /** True when `part` occurs somewhere in `whole`, as `strings.Contains` checks. */
  predicate Contains(whole: string, part: string) {
    exists i, j :: 0 <= i <= j <= |whole| && whole[i..j] == part
  }

  predicate IsDigit(c: char) {
    '0' <= c <= '9'
  }

  function DigitValue(c: char): (d: nat)
    requires IsDigit(c)
    ensures d < 10
  {
    c as int - '0' as int
  }

  function DigitChar(d: nat): (c: char)
    requires d < 10
    ensures IsDigit(c)
    ensures DigitValue(c) == d
  {
    (d + '0' as int) as char
  }

  /** The decimal text of a natural number, as `fmt` prints an `int`:
      only digits, and a leading zero only for zero itself. */
  function FormatDecimal(n: nat): (s: string)
    ensures |s| >= 1
    ensures forall i :: 0 <= i < |s| ==> IsDigit(s[i])
    ensures s[0] == '0' <==> n == 0
    decreases n
  {
    if n < 10 then [DigitChar(n)] else FormatDecimal(n / 10) + [DigitChar(n % 10)]
  }

  /** Reads a string of digits back as a number; the partner of FormatDecimal. */
  function ParseDecimal(s: string): nat
    requires forall i :: 0 <= i < |s| ==> IsDigit(s[i])
    decreases |s|
  {
    if |s| == 0 then 0
    else ParseDecimal(s[..|s| - 1]) * 10 + DigitValue(s[|s| - 1])
  }

  /** Printing a number and reading it back gives the number. */
  lemma {:induction false} ParseFormatDecimal(n: nat)
    ensures ParseDecimal(FormatDecimal(n)) == n
    decreases n
  {
    if n >= 10 {
      var s := FormatDecimal(n);
      var prefix := FormatDecimal(n / 10);
      assert s[..|s| - 1] == prefix;
      ParseFormatDecimal(n / 10);
    }
  }

  /** The acknowledgement body of a successful set: the decimal text of
      `StatusAccepted` and the newline `Fprintln` appends. */
  function AcceptedAck(): (body: string)
    ensures body == "202\n"
    ensures ParseDecimal(body[..|body| - 1]) == StatusAccepted
  {
    ParseFormatDecimal(StatusAccepted);
    FormatDecimal(StatusAccepted) + "\n"
  }
}
