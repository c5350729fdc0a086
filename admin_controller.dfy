/**
 * The administrator's HTTP handlers (backend/src/controllers/admin.controller.ts):
 * each calls one admin service and turns its result or error into a
 * status, a message and a payload. The audit-log handler reads `page` and
 * `limit` from the query string with `parseInt(x) || default` and adds
 * `totalPages = Math.ceil(total / limit)`.
 */
module AdminController {
  import opened Common
  import opened Store
  import opened Errors
  import opened Env
  import opened AdminService

  // parseInt(x) for a query parameter, radix not given

  /** A JavaScript number as `parseInt` can return it. */
  datatype Parsed = NaN | Int(value: int)

  /** The value of `c` as a digit of `radix` (10 or 16). */
  function RadixDigit(c: char, radix: nat): Option<nat>
  {
    if '0' <= c <= '9' then Some(c as int - '0' as int)
    else if radix == 16 && 'a' <= c <= 'f' then Some(c as int - 'a' as int + 10)
    else if radix == 16 && 'A' <= c <= 'F' then Some(c as int - 'A' as int + 10)
    else None
  }

  predicate AllDigits(s: string, radix: nat)
  {
    forall i :: 0 <= i < |s| ==> RadixDigit(s[i], radix).Some?
  }

  /** The longest prefix of `s` made of digits of `radix`. */
  function DigitRun(s: string, radix: nat): (r: string)
    ensures r <= s && AllDigits(r, radix)
    ensures |r| < |s| ==> RadixDigit(s[|r|], radix).None?
  {
    if s == [] || RadixDigit(s[0], radix).None? then []
    else
      var rest := DigitRun(s[1..], radix);
      assert [s[0]] + rest <= s;
      [s[0]] + rest
  }

  /** The number the digits spell in `radix`. */
  function RunValue(s: string, radix: nat): nat
    requires AllDigits(s, radix)
  {
    if s == [] then 0 else RunValue(s[..|s| - 1], radix) * radix + RadixDigit(s[|s| - 1], radix).value
  }

  /** The digits after the sign: a `0x`/`0X` prefix switches to hexadecimal; no digits at all is NaN. */
  function ParseUnsigned(u: string): Parsed
  {
    var hex := |u| >= 2 && u[0] == '0' && (u[1] == 'x' || u[1] == 'X');
    var radix := if hex then 16 else 10;
    var digits := DigitRun(if hex then u[2..] else u, radix);
    if digits == [] then NaN else Int(RunValue(digits, radix))
  }

  /**
   * `parseInt(q)`: leading white space is skipped, then one sign, then the
   * digits as `ParseUnsigned` reads them. A missing parameter reads as the
   * string "undefined", which is NaN.
   */
  function ParseInt(q: Option<string>): Parsed
  {
    if q.None? then NaN
    else
      var t := TrimStart(q.value);
      if t != [] && (t[0] == '-' || t[0] == '+') then
        match ParseUnsigned(t[1..])
        case NaN => NaN
        case Int(v) => if t[0] == '-' then Int(-v) else Int(v)
      else ParseUnsigned(t)
  }

  /** A run of decimal digits followed by anything else is read up to the first non-digit. */
  lemma {:induction false} DigitRunPrefix(digits: string, rest: string)
    requires forall i :: 0 <= i < |digits| ==> '0' <= digits[i] <= '9'
    requires rest == [] || RadixDigit(rest[0], 10).None?
    ensures DigitRun(digits + rest, 10) == digits
  {
    if digits != [] {
      assert (digits + rest)[1..] == digits[1..] + rest;
      DigitRunPrefix(digits[1..], rest);
    }
  }

  /** In radix 10 the digits mean their decimal value. */
  lemma {:induction false} RunValueDecimal(s: string)
    requires forall i :: 0 <= i < |s| ==> '0' <= s[i] <= '9'
    ensures AllDigits(s, 10) && RunValue(s, 10) == DecimalValue(s)
  {
    if s != [] {
      RunValueDecimal(s[..|s| - 1]);
    }
  }

  /** The decimal text of a number has no leading zero and, from 10 on, at least two digits. */
  lemma {:induction false} NatToDecimalLeading(n: nat)
    ensures n >= 10 ==> |NatToDecimal(n)| >= 2
    ensures n >= 1 ==> NatToDecimal(n)[0] != '0'
  {
    if n >= 10 {
      NatToDecimalLeading(n / 10);
    }
  }

  /** The decimal text of `n`, followed by a non-digit that is not an `x`, reads as `n`. */
  lemma ParseUnsignedDecimal(n: nat, rest: string)
    requires rest == [] || (RadixDigit(rest[0], 10).None? && rest[0] != 'x' && rest[0] != 'X')
    ensures ParseUnsigned(NatToDecimal(n) + rest) == Int(n)
  {
    var digits := NatToDecimal(n);
    var s := digits + rest;
    NatToDecimalLeading(n);
    assert s[0] == digits[0];
    assert |s| >= 2 && s[0] == '0' ==> s[1] !in "xX" by {
      if |s| >= 2 && s[0] == '0' {
        assert n == 0 && |digits| == 1;
        assert s[1] == rest[0];
      }
    }
    DigitRunPrefix(digits, rest);
    RunValueDecimal(digits);
    DecimalValueOfNatToDecimal(n);
  }

  /**
   * The decimal text of a number, followed by anything that is neither a
   * digit nor an `x`, parses to that number.
   */
  lemma ParseIntDecimal(n: nat, rest: string)
    requires rest == [] || (RadixDigit(rest[0], 10).None? && rest[0] != 'x' && rest[0] != 'X')
    ensures ParseInt(Some(NatToDecimal(n) + rest)) == Int(n)
  {
    var s := NatToDecimal(n) + rest;
    assert s[0] == NatToDecimal(n)[0];
    assert TrimStart(s) == s;
    ParseUnsignedDecimal(n, rest);
  }

  /** A minus sign negates. */
  lemma ParseIntNegative(n: nat)
    ensures ParseInt(Some(['-'] + NatToDecimal(n))) == Int(-(n as int))
  {
    var s := ['-'] + NatToDecimal(n);
    assert TrimStart(s) == s;
    assert s[1..] == NatToDecimal(n) + [];
    ParseUnsignedDecimal(n, []);
  }

  /** Leading blanks are skipped and trailing text after the digits is ignored. */
  lemma ParseIntLenient()
    ensures ParseInt(Some(" 7")) == Int(7)
    ensures ParseInt(Some("12abc")) == Int(12)
  {
    assert TrimStart(" 7") == "7";
    assert NatToDecimal(7) + [] == "7";
    ParseUnsignedDecimal(7, []);
    assert NatToDecimal(12) + "abc" == "12abc";
    ParseIntDecimal(12, "abc");
  }

  /** A `0x` prefix reads hexadecimal digits, and needs at least one. */
  lemma ParseIntHex()
    ensures ParseInt(Some("0x1f")) == Int(31)
    ensures ParseInt(Some("0x")) == NaN
  {
    assert TrimStart("0x1f") == "0x1f" && "0x1f"[2..] == "1f";
    assert DigitRun("1f", 16) == "1f";
    assert "1f"[..1] == "1" && "1"[..0] == "";
    assert RunValue("1f", 16) == 31;
    assert TrimStart("0x") == "0x" && "0x"[2..] == "";
  }

  /** Text without leading digits is NaN. */
  lemma ParseIntNaN()
    ensures ParseInt(Some("abc")) == NaN
    ensures ParseInt(Some("")) == NaN
  {
    assert TrimStart("abc") == "abc";
  }

  /** `parseInt(q) || fallback`: NaN and 0 are falsy, so both give the fallback. */
  function QueryNumber(q: Option<string>, fallback: int): (r: int)
    ensures fallback != 0 ==> r != 0
    ensures r == fallback || ParseInt(q) == Int(r)
  {
    match ParseInt(q)
    case NaN => fallback
    case Int(v) => if v == 0 then fallback else v
  }

  /** A missing, non-numeric or zero parameter gives the default; a positive number gives itself. */
  lemma QueryNumberDefaults(fallback: int, n: nat)
    ensures QueryNumber(None, fallback) == fallback
    ensures QueryNumber(Some(""), fallback) == fallback
    ensures QueryNumber(Some("abc"), fallback) == fallback
    ensures QueryNumber(Some("0"), fallback) == fallback
    ensures n >= 1 ==> QueryNumber(Some(NatToDecimal(n)), fallback) == n
  {
    ParseIntNaN();
    ParseIntDecimal(0, []);
    assert NatToDecimal(0) + [] == "0";
    ParseIntDecimal(n, []);
    assert NatToDecimal(n) + [] == NatToDecimal(n);
  }

  /** `Math.ceil(a / b)` for a count `a` and a non-zero divisor. */
  function CeilDiv(a: nat, b: int): (r: int)
    requires b != 0
    ensures b > 0 ==> (r - 1) * b < a <= r * b
    ensures b < 0 ==> r * b <= a < (r - 1) * b
  {
    if b > 0 then
      var q := (a + b - 1) / b;
      assert a + b - 1 == q * b + (a + b - 1) % b;
      q
    else
      var q := a / (-b);
      assert a == q * (-b) + a % (-b);
      -q
  }

  // Replies

  const INTERNAL_ERROR := "Internal server error"

  /** The status, the `message` and the `data` of the JSON reply. */
  datatype Reply<+T> = Reply(status: nat, message: string, data: Option<T>)

  /** What a handler leaves in the store and sends back. */
  datatype Handled<+T> = Handled(tables: Tables, reply: Reply<T>)

  /** `res.status(500).json({ message: "Internal server error" })`. */
  function ServerError<T>(): Reply<T>
  {
    Reply(500, INTERNAL_ERROR, None)
  }

  /** The create and delete handlers: an AppError's own status and message, anything else a 500. */
  function ErrorReply<T>(e: Error): Reply<T>
  {
    if IsAppError(e) then Reply(StatusCode(e), e.message, None) else ServerError()
  }

  function CreateDoctorHandler(t: Tables, ctx: Context, actorId: UserId, name: string, email: string,
                               password: string): Handled<User>
  {
    var s := CreateDoctorSpec(t, ctx, actorId, name, email, password);
    match s.result
    case Ok(doctor) => Handled(s.tables, Reply(201, "Doctor created successfully", Some(doctor)))
    case Err(e) => Handled(s.tables, ErrorReply(e))
  }

  function CreateNurseHandler(t: Tables, ctx: Context, actorId: UserId, name: string, email: string,
                              password: string, doctorId: UserId): Handled<User>
  {
    var s := CreateNurseSpec(t, ctx, actorId, name, email, password, doctorId);
    match s.result
    case Ok(nurse) => Handled(s.tables, Reply(201, "Nurse created and assigned successfully", Some(nurse)))
    case Err(e) => Handled(s.tables, ErrorReply(e))
  }

  /** The listing handlers send 500 for every error, application errors included. */
  function GetAllDoctorsHandler(t: Tables, ctx: Context, actorId: UserId): Handled<seq<DoctorView>>
  {
    var s := GetAllDoctorsSpec(t, ctx, actorId);
    match s.result
    case Ok(doctors) => Handled(s.tables, Reply(200, "Doctors retrieved successfully", Some(doctors)))
    case Err(_) => Handled(s.tables, ServerError())
  }

  function GetAllNursesHandler(t: Tables, ctx: Context, actorId: UserId): Handled<seq<NurseView>>
  {
    var s := GetAllNursesSpec(t, ctx, actorId);
    match s.result
    case Ok(nurses) => Handled(s.tables, Reply(200, "Nurses retrieved successfully", Some(nurses)))
    case Err(_) => Handled(s.tables, ServerError())
  }

  /** The delete handler sends the service's `{ message }` object as it is. */
  function DeleteDoctorHandler(t: Tables, ctx: Context, actorId: UserId, doctorId: UserId): Handled<()>
  {
    var s := DeleteDoctorSpec(t, ctx, actorId, doctorId);
    match s.result
    case Ok(message) => Handled(s.tables, Reply(200, message, None))
    case Err(e) => Handled(s.tables, ErrorReply(e))
  }

  datatype AuditMeta = AuditMeta(total: nat, page: int, limit: int, totalPages: int)

  datatype AuditLogsData = AuditLogsData(logs: seq<AuditRow>, meta: AuditMeta)

  function GetAllAuditLogsHandler(t: Tables, pageQuery: Option<string>, limitQuery: Option<string>)
    : Reply<AuditLogsData>
  {
    AuditLogsReply(t, QueryNumber(pageQuery, 1), QueryNumber(limitQuery, 50))
  }

  /** The reply for the page and limit the handler settled on. */
  function AuditLogsReply(t: Tables, page: int, limit: int): Reply<AuditLogsData>
    requires limit != 0
  {
    match GetAllAuditLogsSpec(t, Some(page), Some(limit))
    case Err(_) => ServerError()
    case Ok(p) =>
      Reply(200, "Audit logs retrieved successfully",
            Some(AuditLogsData(p.logs, AuditMeta(p.total, page, limit, CeilDiv(p.total, limit)))))
  }

  /** An application error keeps its status and message; a store or cipher error becomes a 500. */
  lemma ErrorReplyMapping(message: string, code: nat, other: Error)
    requires !IsAppError(other)
    ensures ErrorReply<()>(AppError(message, code)) == Reply(code, message, None)
    ensures ErrorReply<()>(NotFoundError(message)) == Reply(404, message, None)
    ensures ErrorReply<()>(other) == Reply(500, "Internal server error", None)
  {
  }

  /** Creating a doctor replies 400 for a taken e-mail address and 201 with the new doctor otherwise. */
  lemma CreateDoctorReplies(t: Tables, ctx: Context, actorId: UserId, name: string, email: string, password: string)
    ensures var h := CreateDoctorHandler(t, ctx, actorId, name, email, password);
      && (FindByEmail(t.users, email).Some? ==> h.reply == Reply(400, "Email already in use", None))
      && (FindByEmail(t.users, email).None? ==>
            h.reply.status == 201 && h.reply.data.Some? && h.reply.data.value.id == t.nextId
            && h.reply.data.value.email == email)
  {
    if FindByEmail(t.users, email).Some? {
      CreateDoctorEmailTaken(t, ctx, actorId, name, email, password);
    } else {
      CreateDoctorSucceeds(t, ctx, actorId, name, email, password);
    }
  }

  /** Creating a nurse replies 404 for a missing doctor, then 400 for a taken e-mail address, else 201. */
  lemma CreateNurseReplies(t: Tables, ctx: Context, actorId: UserId, name: string, email: string, password: string,
                           doctorId: UserId)
    ensures var h := CreateNurseHandler(t, ctx, actorId, name, email, password, doctorId);
      && (!IsDoctor(t, doctorId) ==> h.reply == Reply(404, "Doctor not found", None))
      && (IsDoctor(t, doctorId) && FindByEmail(t.users, email).Some? ==>
            h.reply == Reply(400, "Email already in use", None))
      && (IsDoctor(t, doctorId) && FindByEmail(t.users, email).None? ==>
            h.reply.status == 201 && h.reply.message == "Nurse created and assigned successfully")
  {
    if !IsDoctor(t, doctorId) {
      CreateNurseNeedsDoctor(t, ctx, actorId, name, email, password, doctorId);
    } else if FindByEmail(t.users, email).Some? {
      CreateNurseEmailTaken(t, ctx, actorId, name, email, password, doctorId);
    } else {
      CreateNurseSucceeds(t, ctx, actorId, name, email, password, doctorId);
    }
  }

  /** Deleting replies 404 unless the id is a doctor's, and 200 with the service's message when it is. */
  lemma DeleteDoctorReplies(t: Tables, ctx: Context, actorId: UserId, doctorId: UserId)
    ensures var h := DeleteDoctorHandler(t, ctx, actorId, doctorId);
      && (!IsDoctor(t, doctorId) ==> h.reply == Reply(404, "Doctor not found", None))
      && (IsDoctor(t, doctorId) ==> h.reply == Reply(200, "Doctor deleted successfully", None))
  {
    if !IsDoctor(t, doctorId) {
      DeleteDoctorNotFound(t, ctx, actorId, doctorId);
    } else {
      DeleteDoctorCascade(t, ctx, actorId, doctorId);
    }
  }

  /** The doctor listing replies 200 or 500 and nothing else; the nurse listing always replies 200. */
  lemma ListingReplies(t: Tables, ctx: Context, actorId: UserId)
    ensures var h := GetAllDoctorsHandler(t, ctx, actorId);
      (h.reply.status == 200 <==> GetAllDoctorsSpec(t, ctx, actorId).result.Ok?)
      && (h.reply.status != 200 ==> h.reply == Reply(500, "Internal server error", None))
    ensures GetAllNursesHandler(t, ctx, actorId).reply.status == 200
  {
  }

  /** Without query parameters: page 1 of 50 rows, the fifty newest, and the page count of the whole log. */
  lemma AuditLogsDefaults(t: Tables)
    ensures var r := GetAllAuditLogsHandler(t, None, None);
      && r.status == 200 && r.data.Some?
      && r.data.value.meta == AuditMeta(|t.audit|, 1, 50, CeilDiv(|t.audit|, 50))
      && r.data.value.logs == Newest(t)[..Min(50, |t.audit|)]
  {
    AuditFirstPage(t);
  }

  lemma MulMono(a: int, b: int, l: int)
    requires a <= b && l >= 0
    ensures a * l <= b * l
  {
  }

  /**
   * With a positive page and limit: exactly the pages up to `totalPages`
   * hold rows, and every later page is empty.
   */
  lemma AuditLogsPageRange(t: Tables, page: nat, limit: nat)
    requires page >= 1 && limit >= 1
    ensures var r := GetAllAuditLogsHandler(t, Some(NatToDecimal(page)), Some(NatToDecimal(limit)));
      && r.status == 200 && r.data.Some?
      && var m := r.data.value.meta;
      && m.page == page && m.limit == limit && m.total == |t.audit|
      && |r.data.value.logs| <= limit
      && (page <= m.totalPages <==> r.data.value.logs != [])
  {
    QueryNumberDefaults(1, page);
    QueryNumberDefaults(50, limit);
    PageRange(t, page, limit);
  }

  lemma PageRange(t: Tables, page: nat, limit: nat)
    requires page >= 1 && limit >= 1
    ensures var r := AuditLogsReply(t, page, limit);
      && r.status == 200 && r.data.Some?
      && var m := r.data.value.meta;
      && m.page == page && m.limit == limit && m.total == |t.audit|
      && |r.data.value.logs| <= limit
      && (page <= m.totalPages <==> r.data.value.logs != [])
  {
    var skip := (page - 1) * limit;
    MulMono(0, page - 1, limit);
    assert GetAllAuditLogsSpec(t, Some(page), Some(limit)) == PageAt(t, page, limit, skip);
    PageHasRows(|t.audit|, page, limit);
    var s := Newest(t);
    var logs := Window(s, skip, limit);
    assert skip < |s| ==> logs == s[skip..Min(skip + limit, |s|)] && |logs| >= 1;
  }

  /** Page `page` starts inside the log exactly when it is at most `ceil(n / limit)`. */
  lemma PageHasRows(n: nat, page: nat, limit: nat)
    requires page >= 1 && limit >= 1
    ensures page <= CeilDiv(n, limit) <==> (page - 1) * limit < n
  {
    var pages := CeilDiv(n, limit);
    if page <= pages {
      MulMono(page - 1, pages - 1, limit);
    } else {
      MulMono(pages, page - 1, limit);
    }
  }

  /** A negative page makes the skip negative: the store refuses it and the handler replies 500. */
  lemma AuditLogsNegativePage(t: Tables)
    ensures GetAllAuditLogsHandler(t, Some("-1"), None) == Reply(500, "Internal server error", None)
  {
    ParseIntNegative(1);
    assert ['-'] + NatToDecimal(1) == "-1";
    assert QueryNumber(Some("-1"), 1) == -1;
    assert QueryNumber(None, 50) == 50;
    assert GetAllAuditLogsSpec(t, Some(-1), Some(50)) == PageAt(t, -1, 50, -100);
  }
}
