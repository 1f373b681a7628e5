// The JSON envelope of pkg/resp/response.go. The helpers that write to the
// gin context are modelled as functions returning what they would send:
// the HTTP status, the headers they set and the envelope.
module Resp {
  import opened Wrappers
  import opened Consts

  /** `Response`; `TID` is `omitempty` and never set by these helpers, so it stays "". */
  datatype Response<D> = Response(code: int, data: Option<D>, msg: string, tid: string)

  /** `PageResp`: a listing and the total number of matching rows. */
  datatype PageResp<T> = PageResp(list: seq<T>, total: int)

  /** `NewPageResp`: the listing and the total, stored as given. */
  function NewPageResp<T>(list: seq<T>, total: int): (r: PageResp<T>)
    ensures r.list == list && r.total == total
  {
    PageResp(list, total)
  }

  /** What a handler sends back. */
  datatype Reply<D> = Reply(status: int, headers: seq<(string, string)>, body: Response<D>)

  const StatusOK := 200
  const StatusUnauthorized := 401

  /** The envelope with its trace id left empty. */
  function NewResponse<D>(code: int, data: Option<D>, msg: string): (r: Response<D>)
    ensures r.code == code && r.data == data && r.msg == msg && r.tid == ""
  {
    Response(code, data, msg, "")
  }

  /** The success envelope: what GC and GetMessage give for the nil error, carrying the data. */
  function Ok<D>(data: D): (r: Reply<D>)
    ensures r.status == 200 && r.headers == [] && r.body.data == Some(data) && r.body.tid == ""
    ensures r.body.code == GC(None) && r.body.msg == GetMessage(None)
  {
    Reply(StatusOK, [], NewResponse(200, Some(data), "ok"))
  }

  /** The success envelope without data. */
  function OkNil<D>(): (r: Reply<D>)
    ensures r.status == 200 && r.headers == [] && r.body.data.None? && r.body.tid == ""
    ensures r.body.code == GC(None) && r.body.msg == GetMessage(None)
  {
    Reply(StatusOK, [], NewResponse(200, None, "ok"))
  }

  /** `fail`: HTTP 200, the error's own code (never the success code 200) and its text. */
  function Fail<D>(err: Error): (r: Reply<D>)
    ensures r.status == 200 && r.headers == [] && r.body.data.None?
    ensures r.body.code == GC(Some(err)) && r.body.code != 200 && r.body.msg == Text(err)
  {
    Reply(StatusOK, [], NewResponse(GC(Some(err)), None, Text(err)))
  }

  /**
   * `Res(ctx, err, data...)`. The variadic `data` arrives as one slice, and
   * that whole slice (not its first element) becomes the envelope's data.
   * The HTTP status is 200 even for an error; the envelope's code is GC(err)
   * and its message GetMessage(err), so the code is 200 exactly on success.
   */
  function Res<T>(err: Option<Error>, data: seq<T>): (r: Reply<seq<T>>)
    ensures r.status == 200 && r.headers == []
    ensures r.body.code == GC(err) && r.body.msg == GetMessage(err) && r.body.tid == ""
    ensures r.body.code == 200 <==> err.None?
    ensures r.body.data == (if err.None? && data != [] then Some(data) else None)
  {
    if err.Some? then Fail(err.value)
    else if |data| == 0 then OkNil()
    else Ok(data)
  }

  /** The decimal text `fmt.Sprintf("%d", n)` produces. */
  function Decimal(n: int): (s: string)
    ensures |s| >= 1
    decreases if n < 0 then 1 - n else n
  {
    if n < 0 then "-" + Decimal(-n)
    else if n < 10 then [Digit(n)]
    else Decimal(n / 10) + [Digit(n % 10)]
  }

  function Digit(d: int): char
    requires 0 <= d < 10
  {
    ('0' as int + d) as char
  }

  /** Reading a decimal text back, the partner of Decimal. */
  function ParseDecimal(s: string): Option<int>
    decreases |s|
  {
    if |s| >= 2 && s[0] == '-' then
      match ParseNatural(s[1..])
      case Some(n) => Some(-n)
      case None => None
    else ParseNatural(s)
  }

  function ParseNatural(s: string): Option<int>
    decreases |s|
  {
    if s == [] then None
    else if !('0' <= s[|s| - 1] <= '9') then None
    else if |s| == 1 then Some(s[0] as int - '0' as int)
    else
      match ParseNatural(s[..|s| - 1])
      case Some(n) => Some(10 * n + (s[|s| - 1] as int - '0' as int))
      case None => None
  }

  lemma {:induction false} NaturalRoundTrip(n: nat)
    ensures Decimal(n)[0] != '-'
    ensures ParseNatural(Decimal(n)) == Some(n)
  {
    if n >= 10 {
      NaturalRoundTrip(n / 10);
      var init, d := Decimal(n / 10), Digit(n % 10);
      var s := Decimal(n);
      assert s == init + [d];
      assert s[..|s| - 1] == init && s[|s| - 1] == d;
      assert ParseNatural(s) == Some(10 * (n / 10) + n % 10);
    }
  }

  /** The `expire` header can be read back to the number it was formatted from. */
  lemma DecimalRoundTrip(n: int)
    ensures ParseDecimal(Decimal(n)) == Some(n)
  {
    if n < 0 {
      NaturalRoundTrip(-n);
      assert Decimal(n)[1..] == Decimal(-n);
    } else {
      NaturalRoundTrip(n);
    }
  }

  /**
   * `RefreshToken`: sets the `u`, `refresh` and `expire` headers, then answers
   * HTTP 401 with the code and message of ErrUnauthorized (1001).
   */
  function RefreshToken<D>(token: string, refresh: string, expire: int): (r: Reply<D>)
    ensures r.status == 401 && r.body.code == 1001 && r.body.data.None?
    ensures r.body.msg == Text(ErrUnauthorized)
    ensures r.headers == [("u", token), ("refresh", refresh), ("expire", Decimal(expire))]
  {
    Reply(StatusUnauthorized,
          [("u", token), ("refresh", refresh), ("expire", Decimal(expire))],
          NewResponse(GC(Some(ErrUnauthorized)), None, Text(ErrUnauthorized)))
  }

  /** `NotFound`: HTTP 200 carrying the code and message of ErrNotFound (5004). */
  function NotFound<D>(): (r: Reply<D>)
    ensures r.status == 200 && r.headers == [] && r.body.code == 5004 && r.body.data.None?
    ensures r.body.msg == Text(ErrNotFound)
  {
    Reply(StatusOK, [], NewResponse(GC(Some(ErrNotFound)), None, Text(ErrNotFound)))
  }
}
