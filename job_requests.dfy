/** The request-side checks of clientJobPostController.js: the loop over
    `requiredWorkers`, the optional start and end dates, and the `page` and
    `limit` query parameters of `getClientJobPosts`. */
module JobRequests {
  import opened Common
  import opened DateParser

  /** `count` as the loop sees it: missing (undefined, null or ""), a finite
      `Number(w.count)`, or one that is NaN or infinite. */
  datatype CountField = Missing | Finite(value: real) | NotFinite

  /** An array entry: not an object (null or a primitive), or an object with
      its `type` and `count`. */
  datatype WorkerInput = NotAnObject | WorkerObject(workerType: Option<string>, count: CountField)

  /** The `requiredWorkers` body field: absent, present but not an array, or
      an array of entries. */
  datatype WorkersField = Absent | NotAnArray | Entries(items: seq<WorkerInput>)

  datatype WorkerError = NotObject | TypeRequired | CountRequired | CountNotPositive

  /** A worker entry that passed the loop, its count floored. */
  datatype WorkerSpec = WorkerSpec(workerType: string, count: int)

  /** The first entry that failed, and how. */
  datatype WorkerRejection = WorkerRejection(index: nat, error: WorkerError)

  /** The checks of one entry, in order: an object, a truthy `type`, a
      present `count`, and a count that is finite and positive. */
  function EntryError(w: WorkerInput): Option<WorkerError> {
    match w
    case NotAnObject => Some(NotObject)
    case WorkerObject(t, c) =>
      if !Truthy(t) then Some(TypeRequired)
      else if c.Missing? then Some(CountRequired)
      else if c.NotFinite? || c.value <= 0.0 then Some(CountNotPositive)
      else None
  }

  /** An accepted entry after `w.count = Math.floor(cnt)`. */
  function Accepted(w: WorkerInput): (s: WorkerSpec)
    requires EntryError(w).None?
    ensures s.workerType == w.workerType.value && s.workerType != ""
    ensures s.count >= 0 && s.count as real <= w.count.value < s.count as real + 1.0
  {
    WorkerSpec(w.workerType.value, w.count.value.Floor)
  }

  /** The outcome of the loop over the entries: every entry accepted, in
      order, or the first entry that fails. */
  function CheckWorkers(ws: seq<WorkerInput>): (r: Result<seq<WorkerSpec>, WorkerRejection>)
    ensures r.Ok? <==> forall i :: 0 <= i < |ws| ==> EntryError(ws[i]).None?
    ensures r.Ok? ==>
      (|r.value| == |ws| && forall i :: 0 <= i < |ws| ==> EntryError(ws[i]).None? && r.value[i] == Accepted(ws[i]))
    ensures r.Err? ==>
      && r.error.index < |ws| && EntryError(ws[r.error.index]) == Some(r.error.error)
      && forall i :: 0 <= i < r.error.index ==> EntryError(ws[i]).None?
    decreases |ws|
  {
    if ws == [] then Ok([])
    else match EntryError(ws[0])
      case Some(e) => Err(WorkerRejection(0, e))
      case None =>
        match CheckWorkers(ws[1..])
        case Ok(rest) => Ok([Accepted(ws[0])] + rest)
        case Err(WorkerRejection(i, e)) => Err(WorkerRejection(i + 1, e))
  }

  /** The validation loop of `createJobPost` and `updateJobPostById`: walks
      the entries in order and stops at the first that fails. */
  method ValidateWorkers(ws: seq<WorkerInput>) returns (r: Result<seq<WorkerSpec>, WorkerRejection>)
    ensures r == CheckWorkers(ws)
  {
    var accepted: seq<WorkerSpec> := [];
    var i := 0;
    while i < |ws|
      invariant 0 <= i <= |ws|
      invariant |accepted| == i
      invariant forall j :: 0 <= j < i ==> EntryError(ws[j]).None? && accepted[j] == Accepted(ws[j])
    {
      var w := ws[i];
      FirstFailure(ws, i);
      if w.NotAnObject? {
        return Err(WorkerRejection(i, NotObject));
      }
      if !Truthy(w.workerType) {
        return Err(WorkerRejection(i, TypeRequired));
      }
      if w.count.Missing? {
        return Err(WorkerRejection(i, CountRequired));
      }
      if w.count.NotFinite? || w.count.value <= 0.0 {
        return Err(WorkerRejection(i, CountNotPositive));
      }
      accepted := accepted + [WorkerSpec(w.workerType.value, w.count.value.Floor)];
      i := i + 1;
    }
    var expected := CheckWorkers(ws);
    assert expected.Ok?;
    assert expected.value == accepted;
    r := Ok(accepted);
  }

  /** An entry that fails after entries that all passed is the one reported. */
  lemma {:induction false} FirstFailure(ws: seq<WorkerInput>, i: nat)
    requires i < |ws| && forall j :: 0 <= j < i ==> EntryError(ws[j]).None?
    ensures EntryError(ws[i]).Some? ==> CheckWorkers(ws) == Err(WorkerRejection(i, EntryError(ws[i]).value))
  {
    var r := CheckWorkers(ws);
    if EntryError(ws[i]).Some? {
      assert r.Err?;
      var k := r.error.index;
      assert !(k < i) && !(i < k);
    }
  }

  /** The 400 message naming the failing entry. */
  function WorkerMessage(rej: WorkerRejection): string {
    "requiredWorkers[" + DecimalString(rej.index) + "]"
    + match rej.error
      case NotObject => " must be an object"
      case TypeRequired => ".type is required"
      case CountRequired => ".count is required"
      case CountNotPositive => ".count must be a positive number"
  }

  /** A fractional count below one passes the loop and is floored to zero. */
  lemma {:induction false} FractionalCountBecomesZero(t: string, c: real)
    requires t != "" && 0.0 < c < 1.0
    ensures CheckWorkers([WorkerObject(Some(t), Finite(c))]) == Ok([WorkerSpec(t, 0)])
  {
    var w := WorkerObject(Some(t), Finite(c));
    assert EntryError(w).None? && Accepted(w) == WorkerSpec(t, 0);
    assert [w][1..] == [];
    assert CheckWorkers([w][1..]) == Ok([]);
    assert CheckWorkers([w]) == Ok([Accepted(w)] + []);
    assert [Accepted(w)] + [] == [WorkerSpec(t, 0)];
  }

  /** The two optional dates once parsed. */
  datatype DateRange = DateRange(start: Option<int>, end: Option<int>)

  /** The date checks: a given (truthy) date must parse, and when both are
      given the end must not be before the start. */
  function CheckDates(startDate: Option<string>, endDate: Option<string>): (r: Result<DateRange, string>)
    ensures Truthy(startDate) && ParseDateFromDDMMYYYY(startDate).None? ==>
      r == Err("Invalid start date format. Use DD/MM/YYYY")
    ensures ((!Truthy(startDate) || ParseDateFromDDMMYYYY(startDate).Some?)
             && Truthy(endDate) && ParseDateFromDDMMYYYY(endDate).None?) ==>
      r == Err("Invalid end date format. Use DD/MM/YYYY")
    ensures (Truthy(startDate) && ParseDateFromDDMMYYYY(startDate).Some?
             && Truthy(endDate) && ParseDateFromDDMMYYYY(endDate).Some?
             && ParseDateFromDDMMYYYY(endDate).value < ParseDateFromDDMMYYYY(startDate).value) ==>
      r == Err("End date must be the same or after start date")
    ensures r.Ok? <==>
      && (!Truthy(startDate) || ParseDateFromDDMMYYYY(startDate).Some?)
      && (!Truthy(endDate) || ParseDateFromDDMMYYYY(endDate).Some?)
      && !(Truthy(startDate) && Truthy(endDate)
           && ParseDateFromDDMMYYYY(endDate).value < ParseDateFromDDMMYYYY(startDate).value)
    ensures r.Ok? ==>
      && r.value.start == (if Truthy(startDate) then ParseDateFromDDMMYYYY(startDate) else None)
      && r.value.end == (if Truthy(endDate) then ParseDateFromDDMMYYYY(endDate) else None)
    ensures r.Ok? && r.value.start.Some? && r.value.end.Some? ==> r.value.start.value <= r.value.end.value
  {
    var start := if Truthy(startDate) then ParseDateFromDDMMYYYY(startDate) else None;
    if Truthy(startDate) && start.None? then Err("Invalid start date format. Use DD/MM/YYYY")
    else
      var end := if Truthy(endDate) then ParseDateFromDDMMYYYY(endDate) else None;
      if Truthy(endDate) && end.None? then Err("Invalid end date format. Use DD/MM/YYYY")
      else if start.Some? && end.Some? && end.value < start.value then
        Err("End date must be the same or after start date")
      else Ok(DateRange(start, end))
  }

  /** The longest prefix of `s` made of digits. */
  function DigitPrefix(s: string): (r: string)
    ensures AllDigits(r) && |r| <= |s| && r == s[..|r|]
    ensures |r| < |s| ==> !IsDigit(s[|r|])
  {
    if s == [] || !IsDigit(s[0]) then [] else [s[0]] + DigitPrefix(s[1..])
  }

  /** `Number.MAX_SAFE_INTEGER`: up to it every integer is a double, so
      `parseInt` and the pagination arithmetic are exact. */
  const MaxSafeInteger: int := 9007199254740991

  /** The text after an optional leading sign. */
  function Unsigned(t: string): (u: string)
    ensures u == t || (t != [] && (t[0] == '-' || t[0] == '+') && u == t[1..])
  {
    if |t| > 0 && (t[0] == '-' || t[0] == '+') then t[1..] else t
  }

  /** `parseInt(s, 10)`: leading white space skipped, an optional sign, then
      the longest run of digits; NaN, here `None`, when there is none. The
      value is exact, which JavaScript's is only up to `MaxSafeInteger`. */
  function ParseInt(s: string): (r: Option<int>)
    ensures r.None? <==> DigitPrefix(Unsigned(TrimStart(s))) == []
    ensures r.Some? ==> TrimStart(s) != [] && (if TrimStart(s)[0] == '-' then -r.value else r.value)
                        == DecimalValue(DigitPrefix(Unsigned(TrimStart(s))))
  {
    var t := TrimStart(s);
    var negative := |t| > 0 && t[0] == '-';
    var rest := Unsigned(t);
    var digits := DigitPrefix(rest);
    if digits == [] then None
    else
      var magnitude: int := DecimalValue(digits);
      Some(if negative then -magnitude else magnitude)
  }

  lemma {:induction false} TrimStartOfNonSpace(s: string)
    requires s != [] && !IsJsSpace(s[0])
    ensures TrimStart(s) == s
  {
  }

  /** `parseInt` reads a decimal numeral and stops at the first character
      that is not a digit ("2.9" reads as 2, "3abc" as 3). */
  lemma {:induction false} ParseIntReadsNumeral(n: nat, rest: string)
    requires n <= MaxSafeInteger
    requires rest == [] || !IsDigit(rest[0])
    ensures ParseInt(DecimalString(n) + rest) == Some(n)
  {
    ParseIntOfDigits(DecimalString(n), rest);
  }

  lemma {:induction false} ParseIntOfDigits(d: string, rest: string)
    requires AllDigits(d) && d != [] && DecimalValue(d) <= MaxSafeInteger
    requires rest == [] || !IsDigit(rest[0])
    ensures ParseInt(d + rest) == Some(DecimalValue(d))
  {
    var s := d + rest;
    assert s[0] == d[0] && IsDigit(s[0]);
    TrimStartOfNonSpace(s);
    assert Unsigned(s) == s;
    DigitPrefixOf(d, rest);
    assert DigitPrefix(Unsigned(TrimStart(s))) == d;
  }

  /** With a minus sign in front, the same numeral reads as its negation. */
  lemma {:induction false} ParseIntReadsNegative(n: nat, rest: string)
    requires n <= MaxSafeInteger
    requires rest == [] || !IsDigit(rest[0])
    ensures ParseInt("-" + DecimalString(n) + rest) == Some(-(n as int))
  {
    var d := DecimalString(n);
    var s := "-" + d + rest;
    TrimStartOfNonSpace(s);
    assert Unsigned(s) == d + rest;
    DigitPrefixOf(d, rest);
    assert DigitPrefix(Unsigned(TrimStart(s))) == d;
  }

  lemma {:induction false} DigitPrefixOf(d: string, rest: string)
    requires AllDigits(d)
    requires rest == [] || !IsDigit(rest[0])
    ensures DigitPrefix(d + rest) == d
    decreases |d|
  {
    if d != [] {
      assert (d + rest)[1..] == d[1..] + rest;
      DigitPrefixOf(d[1..], rest);
    }
  }

  /** What `getClientJobPosts` computes from the query: `page`, `limit`
      (`None` where the value is NaN), the `skip` passed to the query and the
      `pages` count of the reply. */
  datatype Pagination = Pagination(page: Option<int>, limit: Option<int>, skip: Option<int>, pages: int)

  function QueryText(q: Option<string>, default: string): string {
    if Truthy(q) then q.value else default
  }

  /** `Math.ceil(total / limit)` for a positive limit. */
  function CeilDiv(total: nat, limit: int): (c: int)
    requires limit >= 1
    ensures c >= 0 && (c == 0 <==> total == 0)
    ensures total > 0 ==> (c - 1) * limit < total <= c * limit
  {
    var c := (total + limit - 1) / limit;
    DivUnique(total + limit - 1, limit, c, (total + limit - 1) % limit);
    assert c * limit == limit * c;
    c
  }

  /** `page = Math.max(1, parseInt(page || "1", 10))`,
      `limit = Math.max(1, Math.min(100, parseInt(limit || "20", 10)))`,
      `skip = (page - 1) * limit` and `pages = Math.ceil(total / limit) || 1`:
      NaN propagates through `Math.max`, `Math.min` and arithmetic, and
      `NaN || 1` is 1. */
  function Paginate(pageQ: Option<string>, limitQ: Option<string>, total: nat): (p: Pagination)
    ensures p.page == ClampPage(ParseInt(QueryText(pageQ, "1")))
    ensures p.limit == ClampLimit(ParseInt(QueryText(limitQ, "20")))
    ensures p.page.Some? ==> p.page.value >= 1
    ensures p.limit.Some? ==> 1 <= p.limit.value <= 100
    ensures p.skip == Skip(p.page, p.limit) && p.pages == PageCount(total, p.limit)
  {
    var page := ClampPage(ParseInt(QueryText(pageQ, "1")));
    var limit := ClampLimit(ParseInt(QueryText(limitQ, "20")));
    Pagination(page, limit, Skip(page, limit), PageCount(total, limit))
  }

  /** `Math.max(1, n)`, NaN staying NaN. */
  function ClampPage(n: Option<int>): (r: Option<int>)
    ensures r.Some? <==> n.Some?
    ensures r.Some? ==> r.value >= 1 && (n.value >= 1 ==> r.value == n.value)
    ensures n.Some? && n.value < 1 ==> r == Some(1)
  {
    match n
    case None => None
    case Some(v) => Some(if v < 1 then 1 else v)
  }

  /** `Math.max(1, Math.min(100, n))`, NaN staying NaN. */
  function ClampLimit(n: Option<int>): (r: Option<int>)
    ensures r.Some? <==> n.Some?
    ensures r.Some? ==> 1 <= r.value <= 100 && (1 <= n.value <= 100 ==> r.value == n.value)
    ensures n.Some? && n.value < 1 ==> r == Some(1)
    ensures n.Some? && n.value > 100 ==> r == Some(100)
  {
    match n
    case None => None
    case Some(v) => Some(if v < 1 then 1 else if v > 100 then 100 else v)
  }

  /** `(page - 1) * limit`. */
  function Skip(page: Option<int>, limit: Option<int>): (r: Option<int>)
    requires page.Some? ==> page.value >= 1
    requires limit.Some? ==> limit.value >= 1
    ensures r.Some? <==> page.Some? && limit.Some?
    ensures r.Some? ==> r.value == (page.value - 1) * limit.value && r.value >= 0
  {
    if page.Some? && limit.Some? then
      MulMonotone(limit.value, 0, page.value - 1);
      Some((page.value - 1) * limit.value)
    else None
  }

  /** `Math.ceil(total / limit) || 1`. */
  function PageCount(total: nat, limit: Option<int>): (pages: int)
    requires limit.Some? ==> limit.value >= 1
    ensures pages >= 1
    ensures limit.None? || total == 0 ==> pages == 1
    ensures limit.Some? && total > 0 ==> (pages - 1) * limit.value < total <= pages * limit.value
  {
    if limit.None? || total == 0 then 1 else CeilDiv(total, limit.value)
  }

  /** Without query parameters: page 1 of 20, nothing skipped. */
  lemma {:induction false} DefaultPagination(total: nat)
    ensures var p := Paginate(None, None, total);
      p.page == Some(1) && p.limit == Some(20) && p.skip == Some(0)
  {
    DefaultPage();
    DefaultLimit();
    var p := Paginate(None, None, total);
    assert p.page == ClampPage(Some(1)) && p.limit == ClampLimit(Some(20));
  }

  lemma {:induction false} DefaultPage()
    ensures ParseInt(QueryText(None, "1")) == Some(1)
  {
    assert DecimalValue("1") == 1;
    DefaultText("1", 1);
  }

  lemma {:induction false} DefaultLimit()
    ensures ParseInt(QueryText(None, "20")) == Some(20)
  {
    assert DecimalValue("20") == 20 by {
      assert "20"[..1] == "2";
    }
    DefaultText("20", 20);
  }

  /** A default numeral, used when the parameter is absent, reads as its value. */
  lemma {:induction false} DefaultText(d: string, n: nat)
    requires AllDigits(d) && d != [] && DecimalValue(d) == n <= MaxSafeInteger
    ensures ParseInt(QueryText(None, d)) == Some(n)
  {
    assert QueryText(None, d) == d + "";
    ParseIntOfDigits(d, "");
  }

  /** Every item of the result lies on one of the `pages` pages: for a
      limit in force, item `j` is on page `j / limit + 1`, which is at most
      the page count. */
  lemma {:induction false} EveryItemOnSomePage(limit: int, total: nat, j: nat)
    requires 1 <= limit <= 100 && j < total
    ensures var k := j / limit + 1;
      1 <= k <= PageCount(total, Some(limit)) && (k - 1) * limit <= j < k * limit
  {
    var pages := PageCount(total, Some(limit));
    var q := j / limit;
    ItemWithinItsPage(limit, j);
    assert q * limit <= j < total <= pages * limit;
    MulStrictCancel(limit, q, pages);
  }

  /** Item `j` lies between the first item of page `j / limit + 1` and the
      first item of the page after it. */
  lemma {:induction false} ItemWithinItsPage(limit: int, j: nat)
    requires limit >= 1
    ensures j / limit >= 0
    ensures (j / limit) * limit <= j < (j / limit + 1) * limit
  {
    var q := j / limit;
    var r := j % limit;
    assert j == limit * q + r && 0 <= r < limit;
    assert (q + 1) * limit == q * limit + limit;
  }

  /** Asking for page `k` (k >= 1) by its numeral gets page `k`, so the
      query skips the `(k - 1) * limit` items before it; the bound keeps the
      skip, with a limit of at most 100, a safe integer. */
  lemma {:induction false} PageQuery(k: int, limitQ: Option<string>, total: nat)
    requires k >= 1 && (k - 1) * 100 <= MaxSafeInteger
    ensures Paginate(Some(DecimalString(k)), limitQ, total).page == Some(k)
    ensures var p := Paginate(Some(DecimalString(k)), limitQ, total);
      p.limit.Some? ==> p.skip == Some((k - 1) * p.limit.value)
  {
    PageNumeral(k);
    var p := Paginate(Some(DecimalString(k)), limitQ, total);
    assert p.page == ClampPage(Some(k));
    if p.limit.Some? {
      var limit := p.limit.value;
      assert p.skip == Skip(Some(k), Some(limit));
      SkipOfPage(k, limit);
    }
  }

  /** The numeral of a page number parses back to it. */
  lemma {:induction false} PageNumeral(k: nat)
    requires k <= MaxSafeInteger
    ensures ParseInt(QueryText(Some(DecimalString(k)), "1")) == Some(k)
  {
    var text := DecimalString(k);
    assert QueryText(Some(text), "1") == text;
    ParseIntReadsNumeral(k, "");
    assert text + "" == text;
  }

  /** Page `k` of `limit` items starts after `(k - 1) * limit` of them. */
  lemma {:induction false} SkipOfPage(k: int, limit: int)
    requires k >= 1 && limit >= 1
    ensures Skip(Some(k), Some(limit)) == Some((k - 1) * limit)
  {
  }

  /** Multiplying by a positive number keeps a strict order in both directions. */
  lemma {:induction false} MulStrictCancel(n: int, a: int, b: int)
    requires n >= 1 && a * n < b * n
    ensures a < b
  {
    if a >= b {
      MulMonotone(n, b, a);
    }
  }

  lemma {:induction false} MulMonotone(n: int, a: int, b: int)
    requires n >= 1 && a <= b
    ensures a * n <= b * n
  {
    if a < b {
      MulAtLeast(n, b - a);
      assert b * n - a * n == n * (b - a);
    }
  }
}
