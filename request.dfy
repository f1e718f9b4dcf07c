/**
 * `_get_data` of classmate.py: normalises the department / course number /
 * CRN arguments, builds the course-explorer URL, fetches it and classifies
 * the HTTP status. The network call and the XML parser are parameters: a
 * function from URL to response and a function from body to the parsed section.
 */
module Request {
  import opened Wrappers
  import opened Text

  /** The extra arguments a BotException carries after its message (its `error_other` tuple). */
  datatype Extra = StatusCode(code: int) | ParseCause

  /** The errors the core can raise. */
  datatype BotError =
    | BotException(message: string, extra: seq<Extra>)
      // `_get_data` called with no argument or with more than three
    | TypeError
      // an XML field the code dereferences without a check is missing
    | AttributeError

  /** The fields of a fetched section document that the core reads. */
  datatype Section = Section(
    id: string,
    title: string,
    status: Option<string>,
    sectionNotes: Option<string>,
    sectionText: Option<string>)

  /** What the HTTP helper returns: a status code and the body text. */
  datatype Response = Response(status: int, body: string)

  /** Normalised request parameters; `courseNumber` and `crn` are "" when absent. */
  datatype Query = Query(department: string, courseNumber: string, crn: string, detail: string)

  const NumberError := "Course number is not a number."
  const CrnError := "CRN is not a number."
  const NotFoundMessage := "Course not found."
  const BadStatusMessage := "Something bad happened."
  const ParseMessage := "The XML could not be parsed."
  const DetailMode := "?mode=detail"
  const UrlPrefix := "http://courses.illinois.edu/cisapp/explorer/schedule/"

  /**
   * The argument checks of `_get_data`. The CRN is only checked (and
   * re-rendered) when a course number is given too; otherwise it is used as is.
   */
  function Normalize(department: string, courseNumber: string, crn: string): (r: Result<Query, BotError>)
    ensures r.Failure? <==> courseNumber != "" && (!IsDigits(courseNumber) || (crn != "" && !IsDigits(crn)))
    ensures r.Failure? && !IsDigits(courseNumber) ==> r.error == BotException(NumberError, [])
    ensures r.Failure? && IsDigits(courseNumber) ==> r.error == BotException(CrnError, [])
    ensures r.Success? ==> r.value.department == Upper(department)
    ensures r.Success? ==> (r.value.courseNumber == "" <==> courseNumber == "")
    ensures r.Success? ==> (r.value.detail == DetailMode <==> courseNumber != "")
    ensures r.Success? ==> Shaped(r.value)
    ensures r.Success? && courseNumber != "" ==>
      Canonical(r.value.courseNumber) && ParseNat(r.value.courseNumber) == ParseNat(courseNumber)
    ensures r.Success? && courseNumber != "" && crn != "" ==>
      Canonical(r.value.crn) && ParseNat(r.value.crn) == ParseNat(crn)
    ensures r.Success? && (courseNumber == "" || crn == "") ==> r.value.crn == crn
  {
    var dept := Upper(department);
    if courseNumber != "" then
      if !IsDigits(courseNumber) then Failure(BotException(NumberError, []))
      else
        var number := Normalized(courseNumber);
        NormalizedProperties(courseNumber);
        if crn != "" then
          if !IsDigits(crn) then Failure(BotException(CrnError, []))
          else
            NormalizedProperties(crn);
            Success(Query(dept, number, Normalized(crn), DetailMode))
        else Success(Query(dept, number, crn, DetailMode))
    else Success(Query(dept, courseNumber, crn, ""))
  }

  /** "/" + part for a given part, nothing for an absent one. */
  function Segment(part: string): string {
    if part != "" then "/" + part else ""
  }

  /** The variable tail of the course URL: department, optional parts, ".xml" and the detail flag. */
  function Path(q: Query): string {
    q.department + Segment(q.courseNumber) + Segment(q.crn) + ".xml" + q.detail
  }

  /** The complete URL for a term (year and semester come from the configuration). */
  function Url(year: string, semester: string, q: Query): (url: string)
    ensures StartsWith(url, Term(year, semester) + q.department)
    ensures url[|Term(year, semester) + q.department|..] == Tail(q)
  {
    var url := UrlPrefix + year + "/" + semester + "/" + Path(q);
    assert url == Term(year, semester) + q.department + Tail(q);
    url
  }

  /** What follows the department: the optional segments, ".xml" and the detail flag. */
  function Tail(q: Query): string {
    Segments(q) + Ending(q)
  }

  function Segments(q: Query): string {
    Segment(q.courseNumber) + Segment(q.crn)
  }

  function Ending(q: Query): string {
    ".xml" + q.detail
  }

  lemma StripSuffix(a: string, b: string, e: string)
    requires a + e == b + e
    ensures a == b
  {
    assert a == (a + e)[..|a|];
    assert b == (b + e)[..|b|];
  }

  /** The fixed head of every URL for a term. */
  function Term(year: string, semester: string): string {
    UrlPrefix + year + "/" + semester + "/"
  }

  lemma SegmentInjective(a: string, b: string)
    requires Segment(a) == Segment(b)
    ensures a == b
  {
    if a != "" && b != "" {
      assert a == Segment(a)[1..];
    }
  }

  /** In a number followed by a segment, the digits stop exactly where the number does. */
  lemma DigitsEnd(n: string, c: string)
    requires IsDigits(n)
    ensures forall i :: 0 <= i < |n| ==> IsDigit((n + Segment(c))[i])
    ensures |n + Segment(c)| > |n| ==> !IsDigit((n + Segment(c))[|n|])
  {
  }

  /** A course number written in digits ends where the CRN segment's "/" begins. */
  lemma {:induction false} NumberThenSegment(n1: string, c1: string, n2: string, c2: string)
    requires IsDigits(n1) && IsDigits(n2)
    requires n1 + Segment(c1) == n2 + Segment(c2)
    ensures n1 == n2 && c1 == c2
  {
    var x := n1 + Segment(c1);
    DigitsEnd(n1, c1);
    DigitsEnd(n2, c2);
    assert |n1| == |n2|;
    assert n1 == x[..|n1|] == n2;
    assert Segment(c1) == x[|n1|..] == Segment(c2);
    SegmentInjective(c1, c2);
  }

  /** What every normalised query looks like: the detail flag goes with a course number in digits. */
  predicate Shaped(q: Query) {
    && q.detail == (if q.courseNumber != "" then DetailMode else "")
    && (q.courseNumber != "" ==> IsDigits(q.courseNumber) && (q.crn == "" || IsDigits(q.crn)))
  }

  /** The part of the URL after the department determines the rest of a shaped query. */
  lemma TailIdentifies(q1: Query, q2: Query)
    requires Shaped(q1) && Shaped(q2) && q1.department == q2.department
    requires Tail(q1) == Tail(q2)
    ensures q1 == q2
  {
    TailMark(q1);
    TailMark(q2);
    assert (q1.courseNumber == "") == (q2.courseNumber == "");
    assert q1.detail == q2.detail;
    assert Ending(q1) == Ending(q2);
    StripSuffix(Segments(q1), Segments(q2), Ending(q1));
    SegmentsIdentify(q1.courseNumber, q1.crn, q2.courseNumber, q2.crn);
  }

  /** The `/number` and `/crn` segments determine both parts when a given number is in digits. */
  lemma SegmentsIdentify(n1: string, c1: string, n2: string, c2: string)
    requires (n1 == "") == (n2 == "")
    requires n1 != "" ==> IsDigits(n1) && IsDigits(n2)
    requires Segment(n1) + Segment(c1) == Segment(n2) + Segment(c2)
    ensures n1 == n2 && c1 == c2
  {
    if n1 == "" {
      assert Segment(c1) == Segment(n1) + Segment(c1);
      assert Segment(c2) == Segment(n2) + Segment(c2);
      SegmentInjective(c1, c2);
    } else {
      DropSlash(n1, Segment(c1));
      DropSlash(n2, Segment(c2));
      NumberThenSegment(n1, c1, n2, c2);
    }
  }

  lemma DropSlash(a: string, b: string)
    requires a != ""
    ensures (Segment(a) + b)[1..] == a + b
  {
    assert Segment(a) + b == "/" + (a + b);
  }

  /** The next-to-last character tells ".xml" ('m') from "?mode=detail" ('i'). */
  lemma TailMark(q: Query)
    requires Shaped(q)
    ensures |Tail(q)| >= 2 && Tail(q)[|Tail(q)| - 2] == (if q.courseNumber == "" then 'm' else 'i')
  {
  }

  /**
   * The URL identifies the request: for one department, two argument lists
   * that normalise to different queries fetch different URLs.
   */
  lemma UrlIdentifiesQuery(department: string, n1: string, c1: string, n2: string, c2: string,
                           year: string, semester: string)
    requires Normalize(department, n1, c1).Success? && Normalize(department, n2, c2).Success?
    requires Url(year, semester, Normalize(department, n1, c1).value) == Url(year, semester, Normalize(department, n2, c2).value)
    ensures Normalize(department, n1, c1).value == Normalize(department, n2, c2).value
  {
    var q1, q2 := Normalize(department, n1, c1).value, Normalize(department, n2, c2).value;
    var h := |Term(year, semester) + Upper(department)|;
    assert Tail(q1) == Url(year, semester, q1)[h..] == Url(year, semester, q2)[h..] == Tail(q2);
    TailIdentifies(q1, q2);
  }

  /** The detail flag ends the URL exactly when a course number was given. */
  lemma DetailOnlyWithNumber(department: string, courseNumber: string, crn: string, year: string, semester: string)
    requires Normalize(department, courseNumber, crn).Success?
    ensures var url := Url(year, semester, Normalize(department, courseNumber, crn).value);
      (courseNumber != "" ==> url[|url| - |DetailMode|..] == DetailMode) &&
      (courseNumber == "" ==> url[|url| - 4..] == ".xml")
  {
  }

  /**
   * Normalisation depends only on the numbers' values and on the department's
   * upper-case form: "cs" "0225" "41692" and "CS" "225" "041692" fetch the same page.
   */
  lemma {:induction false} UrlRespectsValues(d1: string, n1: string, c1: string, d2: string, n2: string, c2: string)
    requires Upper(d1) == Upper(d2)
    requires n1 != "" && n2 != "" && c1 != "" && c2 != ""
    requires ParseNat(n1).Some? && ParseNat(n1) == ParseNat(n2)
    requires ParseNat(c1).Some? && ParseNat(c1) == ParseNat(c2)
    ensures Normalize(d1, n1, c1).Success? && Normalize(d2, n2, c2).Success?
    ensures Normalize(d1, n1, c1).value == Normalize(d2, n2, c2).value
  {
  }

  /** How `_get_data` treats the HTTP status: 404 is "not found", any other non-200 is an error, 200 is parsed. */
  function Interpret(response: Response, parse: string -> Option<Section>): (r: Result<Section, BotError>)
    ensures r.Success? ==> response.status == 200 && parse(response.body) == Some(r.value)
    ensures response.status == 200 && parse(response.body).Some? ==> r == Success(parse(response.body).value)
    ensures response.status == 200 && parse(response.body).None? ==> r == Failure(BotException(ParseMessage, [ParseCause]))
    ensures response.status == 404 ==> r == Failure(BotException(NotFoundMessage, [StatusCode(404)]))
    ensures response.status != 200 && response.status != 404 ==>
      r == Failure(BotException(BadStatusMessage, [StatusCode(response.status)]))
  {
    if response.status == 404 then Failure(BotException(NotFoundMessage, [StatusCode(404)]))
    else if response.status != 200 then Failure(BotException(BadStatusMessage, [StatusCode(response.status)]))
    else match parse(response.body)
      case None => Failure(BotException(ParseMessage, [ParseCause]))
      case Some(section) => Success(section)
  }

  /** The positional parameters `department, course_number='', crn=''`. */
  function Arg(args: seq<string>, i: nat): string {
    if i < |args| then args[i] else ""
  }

  /** `_get_data(bot, *args)` against the given network and parser. */
  function GetData(args: seq<string>, year: string, semester: string,
                   respond: string -> Response, parse: string -> Option<Section>): (r: Result<Section, BotError>)
    ensures |args| == 0 || |args| > 3 ==> r == Failure(TypeError)
    ensures r.Success? ==>
      RequestUrl(args, year, semester).Some? &&
      respond(RequestUrl(args, year, semester).value).status == 200 &&
      parse(respond(RequestUrl(args, year, semester).value).body) == Some(r.value)
    ensures RequestUrl(args, year, semester).Some? ==>
      r == Interpret(respond(RequestUrl(args, year, semester).value), parse)
    ensures 1 <= |args| <= 3 && Normalize(args[0], Arg(args, 1), Arg(args, 2)).Failure? ==>
      r == Failure(Normalize(args[0], Arg(args, 1), Arg(args, 2)).error)
  {
    if |args| == 0 || |args| > 3 then Failure(TypeError)
    else match Normalize(args[0], Arg(args, 1), Arg(args, 2))
      case Failure(e) => Failure(e)
      case Success(q) => Interpret(respond(Url(year, semester, q)), parse)
  }

  /** The request that `GetData` sends, when it sends one. */
  function RequestUrl(args: seq<string>, year: string, semester: string): Option<string> {
    if |args| == 0 || |args| > 3 then None
    else match Normalize(args[0], Arg(args, 1), Arg(args, 2))
      case Failure(_) => None
      case Success(q) => Some(Url(year, semester, q))
  }

  /** Invalid arguments are rejected before any request: the result does not depend on the network. */
  lemma ValidationBeforeFetch(args: seq<string>, year: string, semester: string,
                              respond1: string -> Response, respond2: string -> Response,
                              parse: string -> Option<Section>)
    requires RequestUrl(args, year, semester).None?
    ensures GetData(args, year, semester, respond1, parse).Failure?
    ensures GetData(args, year, semester, respond1, parse) == GetData(args, year, semester, respond2, parse)
  {
  }

  /**
   * The caller sees a 404 marker (first extra argument 404) exactly when the
   * request was sent and answered 404; any other non-200 answer carries its own code.
   */
  lemma NotFoundExactly(args: seq<string>, year: string, semester: string,
                        respond: string -> Response, parse: string -> Option<Section>)
    ensures var r := GetData(args, year, semester, respond, parse);
      (r.Failure? && r.error.BotException? && |r.error.extra| > 0 && r.error.extra[0] == StatusCode(404))
      <==>
      (RequestUrl(args, year, semester).Some? && respond(RequestUrl(args, year, semester).value).status == 404)
    ensures var r := GetData(args, year, semester, respond, parse);
      RequestUrl(args, year, semester).Some? &&
      respond(RequestUrl(args, year, semester).value).status !in {200, 404} ==>
      r == Failure(BotException(BadStatusMessage, [StatusCode(respond(RequestUrl(args, year, semester).value).status)]))
  {
  }
}
