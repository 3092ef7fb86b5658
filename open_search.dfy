/**
  The OpenSearch log store (OpenSearchLogStore.java): the JSON search query it sends for a page
  of log entries, the required-host check when it reads its configuration, and the choice between
  API-key and user/password authentication.
*/
module Logbook {
  import opened Wrappers
  import opened JavaLang

  // ---------------------------------------------------------------- the search query

  /** The offset as the source computes it: `from >= 0 ? from : -from` on a Java int. */
  function OffsetAsWritten(from: Int32): Int32 {
    if from >= 0 then from else Wrap32(-(from as int))
  }

  /** Integer.MIN_VALUE has no positive int counterpart, so the as-written offset stays negative. */
  lemma MinIntOffsetIsNegative()
    ensures OffsetAsWritten(INT_MIN) == INT_MIN < 0
  {
  }

  /** The offset the query evidently means: how far `from` is from zero, never negative. */
  function Offset(from: Int32): (r: nat)
    ensures r == Abs(from)
    ensures from != INT_MIN ==> r == OffsetAsWritten(from)
  {
    if from >= 0 then from else -(from as int)
  }

  /** A positive `from` pages forward from the oldest entry; zero and negative values page back from the newest. */
  function SortOrder(from: Int32): (r: string)
    ensures r == "asc" <==> from > 0
    ensures r == "asc" || r == "desc"
  {
    if from > 0 then "asc" else "desc"
  }

  const FROM_FIELD := "{\"from\":"
  const SIZE_FIELD := ",\"size\":"
  const SORT_FIELD := ",\"sort\": { \"timestamp\": \""
  const QUERY_TAIL := "\"},  \"query\": {\"match_all\": {}}}"

  /** What StringBuilder.append writes for a boxed Integer: its digits, or "null". */
  function BoxedIntToString(n: Option<Int32>): string {
    match n
    case Some(v) => IntToString(v)
    case None => "null"
  }

  /** getJSONQuery(from, numberOfItems). Unboxing a null `from` throws; a null size is written as `null`. */
  function JsonQuery(from: Option<Int32>, numberOfItems: Option<Int32>): (r: Result<string>)
    ensures r.Err? <==> from.None?
    ensures r.Err? ==> r.error.NullPointer?
  {
    match from
    case None => Err(NullPointer("from"))
    case Some(f) =>
      Ok(FROM_FIELD + IntToString(Offset(f)) + SIZE_FIELD + BoxedIntToString(numberOfItems)
         + SORT_FIELD + SortOrder(f) + QUERY_TAIL)
  }

  /** getJSONQuery exactly as written, with the offset computed on a Java int. */
  function JsonQueryAsWritten(from: Option<Int32>, numberOfItems: Option<Int32>): (r: Result<string>)
    ensures r.Err? <==> from.None?
    ensures from.Some? && from.value != INT_MIN ==> r == JsonQuery(from, numberOfItems)
  {
    match from
    case None => Err(NullPointer("from"))
    case Some(f) =>
      Ok(FROM_FIELD + IntToString(OffsetAsWritten(f)) + SIZE_FIELD + BoxedIntToString(numberOfItems)
         + SORT_FIELD + SortOrder(f) + QUERY_TAIL)
  }

  /** For Integer.MIN_VALUE the query as written asks for a negative `from`. */
  lemma JsonQueryAsWrittenMinInt(numberOfItems: Option<Int32>)
    ensures JsonQueryAsWritten(Some(INT_MIN), numberOfItems).Ok?
    ensures FROM_FIELD + "-" <= JsonQueryAsWritten(Some(INT_MIN), numberOfItems).value
  {
    MinIntOffsetIsNegative();
    NegativeOffsetQuery(INT_MIN, numberOfItems);
  }

  lemma NegativeOffsetQuery(f: Int32, numberOfItems: Option<Int32>)
    requires OffsetAsWritten(f) < 0
    ensures FROM_FIELD + "-" <= JsonQueryAsWritten(Some(f), numberOfItems).value
  {
    var x: int := OffsetAsWritten(f);
    var d2 := BoxedIntToString(numberOfItems);
    var order := SortOrder(f);
    Regroup(FROM_FIELD, IntToString(x), SIZE_FIELD, d2, SORT_FIELD, order, QUERY_TAIL);
    SignedPrefix(FROM_FIELD, NatToString(-x), SIZE_FIELD + (d2 + (SORT_FIELD + order + QUERY_TAIL)));
  }

  lemma SignedPrefix(a: string, digits: string, rest: string)
    ensures a + "-" <= a + (("-" + digits) + rest)
  {
    assert a + (("-" + digits) + rest) == (a + "-") + (digits + rest);
  }

  // ---------------------------------------------------------------- reading a query back

  /** The three values a query carries. */
  datatype QueryFields = QueryFields(from: int, size: Option<int>, order: string)

  function IndexOf(s: string, c: char): (r: Option<nat>)
    ensures r.None? <==> c !in s
    ensures r.Some? ==> r.value < |s| && s[r.value] == c && c !in s[..r.value]
  {
    if s == [] then None
    else if s[0] == c then Some(0)
    else match IndexOf(s[1..], c)
      case None => None
      case Some(i) => assert s[..i + 1] == [s[0]] + s[1..][..i]; Some(i + 1)
  }

  /** Reads a query of the fixed shape back into its fields; None for anything else. */
  function ReadQuery(q: string): Option<QueryFields> {
    if !(FROM_FIELD <= q) then None else ReadFrom(q[|FROM_FIELD|..])
  }

  function ReadFrom(s: string): Option<QueryFields> {
    match IndexOf(s, ',')
    case None => None
    case Some(i) =>
      match (DecimalValue(s[..i]), ReadSize(s[i..]))
      case (Some(f), Some((size, order))) => Some(QueryFields(f, size, order))
      case _ => None
  }

  function ReadSize(s: string): Option<(Option<int>, string)> {
    if !(SIZE_FIELD <= s) then None
    else
      var t := s[|SIZE_FIELD|..];
      match IndexOf(t, ',')
      case None => None
      case Some(j) =>
        match (SizeValue(t[..j]), ReadSort(t[j..]))
        case (Some(size), Some(order)) => Some((size, order))
        case _ => None
  }

  /** A size written as digits, or the word null. */
  function SizeValue(text: string): Option<Option<int>> {
    if text == "null" then Some(None)
    else match DecimalValue(text)
      case Some(n) => Some(Some(n))
      case None => None
  }

  function ReadSort(s: string): Option<string> {
    if !(SORT_FIELD <= s) then None
    else
      var t := s[|SORT_FIELD|..];
      match IndexOf(t, '"')
      case None => None
      case Some(k) => if t[k..] == QUERY_TAIL then Some(t[..k]) else None
  }

  lemma IndexOfAfter(a: string, b: string, c: char)
    requires c !in a && b != [] && b[0] == c
    ensures IndexOf(a + b, c) == Some(|a|)
    ensures (a + b)[..|a|] == a && (a + b)[|a|..] == b
    decreases |a|
  {
    if a != [] {
      assert (a + b)[1..] == a[1..] + b;
      IndexOfAfter(a[1..], b, c);
    }
  }

  lemma DigitsHaveNoPunctuation(n: int)
    ensures ',' !in IntToString(n) && '"' !in IntToString(n)
    ensures IntToString(n) != "null"
  {
    var s := IntToString(n);
    var d := NatToString(Abs(n));
    assert s == d || s == "-" + d;
    assert forall k :: 0 <= k < |s| ==> s[k] == '-' || IsDigit(s[k]);
    assert forall c :: c in s ==> c == '-' || IsDigit(c);
    assert s[0] == '-' || IsDigit(s[0]);
  }

  lemma PrefixThen(p: string, t: string)
    ensures p <= p + t && (p + t)[|p|..] == t
  {
  }

  lemma Regroup(a: string, b: string, c: string, d: string, e: string, f: string, g: string)
    ensures a + b + c + d + e + f + g == a + (b + (c + (d + (e + f + g))))
  {
  }

  lemma ReadSortOf(order: string)
    requires '"' !in order
    ensures ReadSort(SORT_FIELD + order + QUERY_TAIL) == Some(order)
  {
    var s := SORT_FIELD + order + QUERY_TAIL;
    assert s[|SORT_FIELD|..] == order + QUERY_TAIL;
    IndexOfAfter(order, QUERY_TAIL, '"');
  }

  lemma ReadSizeOf(sizeText: string, tail: string)
    requires ',' !in sizeText && tail != [] && tail[0] == ','
    ensures ReadSize(SIZE_FIELD + (sizeText + tail))
         == match (SizeValue(sizeText), ReadSort(tail))
            case (Some(size), Some(order)) => Some((size, order))
            case _ => None
  {
    PrefixThen(SIZE_FIELD, sizeText + tail);
    IndexOfAfter(sizeText, tail, ',');
  }

  lemma ReadFromOf(fromText: string, tail: string)
    requires ',' !in fromText && tail != [] && tail[0] == ','
    ensures ReadFrom(fromText + tail)
         == match (DecimalValue(fromText), ReadSize(tail))
            case (Some(f), Some((size, order))) => Some(QueryFields(f, size, order))
            case _ => None
  {
    IndexOfAfter(fromText, tail, ',');
  }

  /** Every query the store builds reads back as |from|, the size and the sort order that the sign of `from` selects. */
  lemma JsonQueryReadsBack(from: Int32, numberOfItems: Option<Int32>)
    ensures JsonQuery(Some(from), numberOfItems).Ok?
    ensures ReadQuery(JsonQuery(Some(from), numberOfItems).value)
         == Some(QueryFields(Abs(from), match numberOfItems case Some(n) => Some(n as int) case None => None,
                             if from > 0 then "asc" else "desc"))
  {
    var d1 := IntToString(Offset(from));
    var d2 := BoxedIntToString(numberOfItems);
    var order := SortOrder(from);
    DigitsHaveNoPunctuation(Offset(from));
    IntToStringRoundTrip(Offset(from));
    var size: Option<int> := match numberOfItems case Some(n) => Some(n as int) case None => None;
    match numberOfItems {
      case Some(n) => DigitsHaveNoPunctuation(n); IntToStringRoundTrip(n);
      case None =>
    }
    assert SizeValue(d2) == Some(size);
    var sortPart := SORT_FIELD + order + QUERY_TAIL;
    ReadSortOf(order);
    ReadSizeOf(d2, sortPart);
    var sizePart := SIZE_FIELD + (d2 + sortPart);
    assert ReadSize(sizePart) == Some((size, order));
    ReadFromOf(d1, sizePart);
    var rest := d1 + sizePart;
    assert ReadFrom(rest) == Some(QueryFields(Abs(from), size, order));
    var q := FROM_FIELD + rest;
    Regroup(FROM_FIELD, d1, SIZE_FIELD, d2, SORT_FIELD, order, QUERY_TAIL);
    PrefixThen(FROM_FIELD, rest);
  }

  // ---------------------------------------------------------------- configuration and authentication

  const HOST_KEY := "brooklyn.logbook.openSearchLogStore.host"

  /** The log store's configuration keys as read from the management context. */
  datatype LogStoreConfig = LogStoreConfig(
    host: Option<string>, index: Option<string>, user: Option<string>,
    password: Option<string>, apiKey: Option<string>, verifySsl: bool)

  /** How the HTTP client authenticates. */
  datatype Auth =
    | ApiKeyHeader(authorization: string)
    | BasicCredentials(scopeHost: string, scopePort: int, user: string, password: Option<string>)

  datatype LogStore = LogStore(host: string, index: Option<string>, verifySsl: bool, auth: Auth)

  /** initialize(): a missing host fails construction before anything else is read. */
  function Initialize(config: LogStoreConfig): (r: Result<string>)
    ensures r.Err? <==> config.host.None?
    ensures r.Ok? ==> r.value == config.host.value
  {
    match config.host
    case None => Err(NullPointer("OpenSearch host must be set: " + HOST_KEY))
    case Some(h) => Ok(h)
  }

  const BAD_HOST_URL := "The provided host OpenSeatch host ulr is not valid: "

  /** HttpClient's UsernamePasswordCredentials refuses a null user name with this message. */
  const NULL_USER_NAME := "Username may not be null"

  /**
    The constructor: a non-blank API key is sent as an `ApiKey` authorization header; otherwise basic
    credentials are scoped to the host and port of the host URL, which `parseUrl` (java.net.URL) reads,
    and UsernamePasswordCredentials needs a user name (the password may be null).
  */
  function Construct(config: LogStoreConfig, parseUrl: string -> Option<(string, int)>): (r: Result<LogStore>)
    ensures config.host.None? ==> r.Err? && r.error.NullPointer?
    ensures r.Ok? ==> r.value.host == config.host.value && r.value.verifySsl == config.verifySsl
    ensures r.Ok? ==> (r.value.auth.ApiKeyHeader? <==> !IsBlankOrNull(config.apiKey))
    ensures r.Ok? && r.value.auth.ApiKeyHeader? ==> r.value.auth.authorization == "ApiKey " + config.apiKey.value
    ensures r.Ok? && r.value.auth.BasicCredentials? ==>
              && config.user == Some(r.value.auth.user) && r.value.auth.password == config.password
              && parseUrl(config.host.value) == Some((r.value.auth.scopeHost, r.value.auth.scopePort))
    ensures config.host.Some? && IsBlankOrNull(config.apiKey) && parseUrl(config.host.value).None? ==>
              r == Err(IllegalArgument(BAD_HOST_URL + config.host.value))
    ensures (config.host.Some? && IsBlankOrNull(config.apiKey) && parseUrl(config.host.value).Some?
             && config.user.None?) ==> r == Err(IllegalArgument(NULL_USER_NAME))
    ensures config.host.Some? && r.Err? ==> IsBlankOrNull(config.apiKey) && r.error.IllegalArgument?
    ensures r.Err? <==>
              || config.host.None?
              || (IsBlankOrNull(config.apiKey) && (parseUrl(config.host.value).None? || config.user.None?))
  {
    match Initialize(config)
    case Err(e) => Err(e)
    case Ok(host) =>
      if !IsBlankOrNull(config.apiKey) then
        Ok(LogStore(host, config.index, config.verifySsl, ApiKeyHeader("ApiKey " + config.apiKey.value)))
      else match parseUrl(host)
        case None => Err(IllegalArgument(BAD_HOST_URL + host))
        case Some(url) =>
          if config.user.None? then Err(IllegalArgument(NULL_USER_NAME))
          else
            Ok(LogStore(host, config.index, config.verifySsl,
                        BasicCredentials(url.0, url.1, config.user.value, config.password)))
  }
}
