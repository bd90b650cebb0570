/**
 * `Endpoint`: the three requests the app makes to the movie database, as a path and an
 * ordered list of query items. The page and the movie id are rendered in decimal, as
 * Swift's string interpolation of an `Int` renders them.
 */
module Endpoints {
  import opened Wrappers

  datatype Endpoint =
    | TopRated(page: int)
    | MovieDetails(id: int)
    | Search(query: string, page: int)

  /** `URLQueryItem`. */
  datatype QueryItem = QueryItem(name: string, value: string)

  /** The item every request carries first. */
  const Language := QueryItem("language", "en-US")
  /** The item a search carries last. */
  const IncludeAdult := QueryItem("include_adult", "false")

  predicate IsDigit(c: char) {
    '0' <= c <= '9'
  }

  predicate AllDigits(s: string) {
    forall i :: 0 <= i < |s| ==> IsDigit(s[i])
  }

  function DigitChar(d: nat): (c: char)
    requires d < 10
    ensures IsDigit(c)
  {
    ('0' as int + d) as char
  }

  function DigitValue(c: char): (d: nat)
    requires IsDigit(c)
    ensures d < 10 && DigitChar(d) == c
  {
    c as int - '0' as int
  }

  /** Decimal digits of a natural number, most significant first, without leading zeros. */
  function NatToDecimal(n: nat): (s: string)
    ensures |s| > 0 && AllDigits(s)
    ensures n >= 10 <==> |s| > 1
    ensures s[0] != '0' || n == 0
    ensures n == 0 ==> s == "0"
  {
    if n < 10 then [DigitChar(n)] else NatToDecimal(n / 10) + [DigitChar(n % 10)]
  }

  /** `"\(n)"` for an `Int`: a minus sign for negative numbers, then the digits. */
  function Decimal(n: int): (s: string)
    ensures |s| > 0 && (IsDigit(s[0]) || s[0] == '-')
    ensures n < 0 ==> s[0] == '-' && s[1..] == NatToDecimal(-n)
    ensures n >= 0 ==> s == NatToDecimal(n)
  {
    if n < 0 then "-" + NatToDecimal(-n) else NatToDecimal(n)
  }

  /** The value of a string of decimal digits. */
  function ParseNat(s: string): nat
    requires |s| > 0 && AllDigits(s)
    decreases |s|
  {
    if |s| == 1 then DigitValue(s[0])
    else 10 * ParseNat(s[..|s| - 1]) + DigitValue(s[|s| - 1])
  }

  /** The integer a decimal rendering denotes, if it is one. */
  function ParseInt(s: string): Option<int> {
    if |s| > 1 && s[0] == '-' && AllDigits(s[1..]) then Some(0 - ParseNat(s[1..]) as int)
    else if |s| > 0 && AllDigits(s) then Some(ParseNat(s))
    else None
  }

  lemma {:induction false} NatRoundTrip(n: nat)
    ensures ParseNat(NatToDecimal(n)) == n
    decreases n
  {
    if n >= 10 {
      var s := NatToDecimal(n);
      assert s[..|s| - 1] == NatToDecimal(n / 10);
      NatRoundTrip(n / 10);
    }
  }

  /** Reading back the decimal rendering of any integer gives that integer. */
  lemma DecimalRoundTrip(n: int)
    ensures ParseInt(Decimal(n)) == Some(n)
  {
    if n < 0 {
      NatRoundTrip(-n);
      NegativeRoundTrip(NatToDecimal(-n));
    } else {
      NatRoundTrip(n);
      NonNegativeRoundTrip(NatToDecimal(n));
    }
  }

  lemma NegativeRoundTrip(digits: string)
    requires |digits| > 0 && AllDigits(digits)
    ensures ParseInt("-" + digits) == Some(0 - ParseNat(digits) as int)
  {
    assert ("-" + digits)[1..] == digits;
  }

  lemma NonNegativeRoundTrip(digits: string)
    requires |digits| > 0 && AllDigits(digits)
    ensures ParseInt(digits) == Some(ParseNat(digits))
  {
    assert IsDigit(digits[0]);
  }

  /**
   * `path`: a fixed path for the two lists and the decimal id under `/movie/` for the
   * details, which therefore never collides with the top-rated path.
   */
  function Path(e: Endpoint): (p: string)
    ensures e.TopRated? ==> p == "/movie/top_rated"
    ensures e.Search? ==> p == "/search/movie"
    ensures e.MovieDetails? ==> p == "/movie/" + Decimal(e.id) && p != "/movie/top_rated"
  {
    match e
    case TopRated(_) => "/movie/top_rated"
    case MovieDetails(id) =>
      var p := "/movie/" + Decimal(id);
      assert p[7] != "/movie/top_rated"[7];
      p
    case Search(_, _) => "/search/movie"
  }

  /** `queryItems`: the language first, then what the request needs, in a fixed order. */
  function QueryItems(e: Endpoint): (items: seq<QueryItem>)
    ensures |items| >= 1 && items[0] == Language
  {
    match e
    case TopRated(page) => [Language, QueryItem("page", Decimal(page))]
    case Search(query, page) => [Language, QueryItem("query", query), QueryItem("page", Decimal(page)), IncludeAdult]
    case MovieDetails(_) => [Language]
  }

  /** Which request a path and query items denote: the inverse of `Path` and `QueryItems`. */
  function ParseRequest(path: string, items: seq<QueryItem>): Option<Endpoint> {
    if path == "/movie/top_rated" then
      if |items| == 2 && items[0] == Language && items[1].name == "page" then
        match ParseInt(items[1].value)
        case Some(p) => Some(TopRated(p))
        case None => None
      else None
    else if path == "/search/movie" then
      if |items| == 4 && items[0] == Language && items[1].name == "query" && items[2].name == "page" && items[3] == IncludeAdult then
        match ParseInt(items[2].value)
        case Some(p) => Some(Search(items[1].value, p))
        case None => None
      else None
    else if |path| > 7 && path[..7] == "/movie/" && items == [Language] then
      match ParseInt(path[7..])
      case Some(id) => Some(MovieDetails(id))
      case None => None
    else None
  }

  /**
   * Every request can be read back from its path and query items: the three paths are
   * distinct, and the query, page and id are carried unchanged or in decimal.
   */
  lemma RequestRoundTrip(e: Endpoint)
    ensures ParseRequest(Path(e), QueryItems(e)) == Some(e)
  {
    match e
    case TopRated(page) => DecimalRoundTrip(page);
    case Search(_, page) => DecimalRoundTrip(page);
    case MovieDetails(id) =>
      var path := Path(e);
      assert path[7] == Decimal(id)[0];
      assert path[..7] == "/movie/" && path[7..] == Decimal(id);
      assert path != "/movie/top_rated";
      assert path[1] == 'm';
      DecimalRoundTrip(id);
  }
}
