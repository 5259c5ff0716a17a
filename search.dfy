/** POST /documents/search, placeholder variant: validate the JSON body's
    `query`, strip it, and echo it back with a fixed message. */
module Search {
  import opened Common

  /** A parsed JSON value. Numbers are integers here. */
  datatype Json =
    | JNull
    | JBool(b: bool)
    | JNumber(n: int)
    | JString(s: string)
    | JArray(items: seq<Json>)
    | JObject(fields: map<string, Json>)

  /** What `request.get_json()` gives: the parsed body, or the exception it
      raises for a malformed body or a non-JSON content type. */
  datatype Body = Parsed(data: Json) | GetJsonRaised(message: string)

  const NoQueryMessage: string := "No query provided"
  const EmptyQueryMessage: string := "Query cannot be empty"
  const ReadyMessage: string := "Search endpoint ready"
  const ReadyNote: string := "Add your search implementation here"
  const SearchFailedPrefix: string := "Search failed: "

  // ---------------------------------------------------------------------
  // str.strip()

  /** Python's `str.isspace()` on one character: the six ASCII whitespace
      characters among others, and never a letter, a digit or a dot. */
  predicate IsSpace(c: char)
    ensures c == ' ' || c == '\t' || c == '\n' || c == '\r' || c == '\U{0B}' || c == '\U{0C}' ==> IsSpace(c)
    ensures 'a' <= c <= 'z' || 'A' <= c <= 'Z' || '0' <= c <= '9' || c == '.' ==> !IsSpace(c)
  {
    || c == ' '
    || '\t' <= c <= '\r'
    || '\U{1C}' <= c <= '\U{1F}'
    || c == '\U{85}' || c == '\U{A0}' || c == '\U{1680}'
    || '\U{2000}' <= c <= '\U{200A}'
    || c == '\U{2028}' || c == '\U{2029}' || c == '\U{202F}' || c == '\U{205F}' || c == '\U{3000}'
  }

  predicate AllSpace(s: string) {
    forall k :: 0 <= k < |s| ==> IsSpace(s[k])
  }

  /** The first index at or after `i` that does not hold whitespace (or
      the end of `s`): the left end of what `strip` keeps. */
  function LeftEnd(s: string, i: nat): (b: nat)
    requires i <= |s|
    ensures i <= b <= |s|
    ensures forall k :: i <= k < b ==> IsSpace(s[k])
    ensures b < |s| ==> !IsSpace(s[b])
    decreases |s| - i
  {
    if i < |s| && IsSpace(s[i]) then LeftEnd(s, i + 1) else i
  }

  /** Moving `j` down towards `i` past whitespace: the right end of what
      `strip` keeps. */
  function RightEnd(s: string, i: nat, j: nat): (e: nat)
    requires i <= j <= |s|
    ensures i <= e <= j
    ensures forall k :: e <= k < j ==> IsSpace(s[k])
    ensures e > i ==> !IsSpace(s[e - 1])
    decreases j - i
  {
    if j > i && IsSpace(s[j - 1]) then RightEnd(s, i, j - 1) else j
  }

  /** Python's `s.strip()`: drop the whitespace at both ends, keep the
      middle as it is. */
  function Strip(s: string): (r: string)
    ensures var i := LeftEnd(s, 0);
      && i + |r| <= |s| && r == s[i..i + |r|]
      && (forall k :: 0 <= k < i ==> IsSpace(s[k]))
      && (forall k :: i + |r| <= k < |s| ==> IsSpace(s[k]))
    ensures r == [] || (!IsSpace(r[0]) && !IsSpace(r[|r| - 1]))
  {
    var i := LeftEnd(s, 0);
    s[i..RightEnd(s, i, |s|)]
  }

  /** When `s` is whitespace, then `r`, then whitespace, and `r` has no
      whitespace at its ends, stripping `s` gives exactly `r`. */
  lemma {:induction false} StripUnique(s: string, start: nat, r: string)
    requires start + |r| <= |s| && s[start..start + |r|] == r
    requires forall k :: 0 <= k < start ==> IsSpace(s[k])
    requires forall k :: start + |r| <= k < |s| ==> IsSpace(s[k])
    requires r == [] || (!IsSpace(r[0]) && !IsSpace(r[|r| - 1]))
    ensures Strip(s) == r
  {
    var r' := Strip(s);
    var i := LeftEnd(s, 0);
    if r == [] {
      assert forall k :: 0 <= k < |s| ==> IsSpace(s[k]);
    } else {
      assert s[start] == r[0];
      assert i == start;
      assert s[start + |r| - 1] == r[|r| - 1];
      assert |r'| == |r|;
    }
  }

  /** Stripping is idempotent. */
  lemma StripIdempotent(s: string)
    ensures Strip(Strip(s)) == Strip(s)
  {
    var r := Strip(s);
    StripUnique(r, 0, r);
  }

  /** Extra whitespace around a text does not change what stripping gives. */
  lemma StripIgnoresPadding(pre: string, s: string, post: string)
    requires AllSpace(pre) && AllSpace(post)
    ensures Strip(pre + s + post) == Strip(s)
  {
    var r := Strip(s);
    var i := LeftEnd(s, 0);
    var padded := pre + s + post;
    assert forall k :: 0 <= k < |pre| ==> padded[k] == pre[k];
    assert forall k :: |pre| <= k < |pre| + |s| ==> padded[k] == s[k - |pre|];
    assert forall k :: |pre| + |s| <= k < |padded| ==> padded[k] == post[k - |pre| - |s|];
    assert padded[|pre| + i..|pre| + i + |r|] == s[i..i + |r|];
    StripUnique(padded, |pre| + i, r);
  }

  /** A text made only of whitespace strips to the empty text. */
  lemma StripAllSpace(s: string)
    requires AllSpace(s)
    ensures Strip(s) == ""
  {
    StripUnique(s, 0, "");
  }

  // ---------------------------------------------------------------------
  // The handler

  /** Python's name for the type of a JSON value once parsed. */
  function TypeName(j: Json): string {
    match j
    case JNull => "NoneType"
    case JBool(_) => "bool"
    case JNumber(_) => "int"
    case JString(_) => "str"
    case JArray(_) => "list"
    case JObject(_) => "dict"
  }

  /** Python truthiness: `not data` holds of null, false, 0 and the empty
      string, list and object. */
  predicate Truthy(j: Json)
    ensures !Truthy(j) <==>
      j == JNull || j == JBool(false) || j == JNumber(0) || j == JString("") || j == JArray([]) || j == JObject(map[])
  {
    match j
    case JNull => false
    case JBool(b) => b
    case JNumber(n) => n != 0
    case JString(s) => s != ""
    case JArray(items) => items != []
    case JObject(fields) => fields != map[]
  }

  /** `'query' in data`: a key test on an object, an element test on a list,
      a substring test on a string, and a TypeError on anything else. */
  function HasQuery(data: Json): (r: Result<bool, string>)
    ensures r.Failure? <==> data.JNull? || data.JBool? || data.JNumber?
    ensures data.JObject? ==> (r == Success(true) <==> "query" in data.fields)
    ensures data.JArray? ==> (r == Success(true) <==> exists i :: 0 <= i < |data.items| && data.items[i] == JString("query"))
    ensures data.JString? ==> (r == Success(true) <==> Occurs("query", data.s))
  {
    match data
    case JObject(fields) => Success("query" in fields)
    case JArray(items) => Success(JString("query") in items)
    case JString(s) => Success(Occurs("query", s))
    case _ => Failure("argument of type '" + TypeName(data) + "' is not iterable")
  }

  /** `data.get('query', '')`: only an object has `get`. */
  function GetQuery(data: Json): (r: Result<Json, string>)
    ensures r.Success? <==> data.JObject?
    ensures data.JObject? && "query" in data.fields ==> r == Success(data.fields["query"])
    ensures data.JObject? && "query" !in data.fields ==> r == Success(JString(""))
  {
    match data
    case JObject(fields) => Success(if "query" in fields then fields["query"] else JString(""))
    case _ => Failure("'" + TypeName(data) + "' object has no attribute 'get'")
  }

  /** `value.strip()`: only a string has `strip`. */
  function StripQuery(value: Json): (r: Result<string, string>)
    ensures r.Success? <==> value.JString?
    ensures r.Success? ==> (r.value == "" <==> AllSpace(value.s))
    ensures r.Success? && r.value != "" ==> !IsSpace(r.value[0]) && !IsSpace(r.value[|r.value| - 1])
  {
    match value
    case JString(s) => Success(Strip(s))
    case _ => Failure("'" + TypeName(value) + "' object has no attribute 'strip'")
  }

  /** `except Exception as e`: a 500 carrying the exception's message. */
  function SearchFailed(message: string): Response {
    ErrorResponse(500, SearchFailedPrefix + message)
  }

  /** search_documents: every answer is 200, 400 or 500; a failure carries
      only an `error` field, a success the message, the query and the note. */
  function SearchDocuments(body: Body): (r: Response)
    ensures r.status in {200, 400, 500}
    ensures r.status != 200 ==> r.body.Keys == {"error"}
    ensures r.status == 200 ==> r.body.Keys == {"message", "query", "note"}
  {
    match body
    case GetJsonRaised(m) => SearchFailed(m)
    case Parsed(data) =>
      if !Truthy(data) then ErrorResponse(400, NoQueryMessage)
      else match HasQuery(data)
        case Failure(m) => SearchFailed(m)
        case Success(false) => ErrorResponse(400, NoQueryMessage)
        case Success(true) =>
          match GetQuery(data)
          case Failure(m) => SearchFailed(m)
          case Success(value) => AnswerQuery(value)
  }

  /** The rest of the handler once `data.get('query', '')` has given `value`. */
  function AnswerQuery(value: Json): Response {
    match StripQuery(value)
    case Failure(m) => SearchFailed(m)
    case Success(query) =>
      if query == "" then ErrorResponse(400, EmptyQueryMessage) else Ready(query)
  }

  /** The 200 answer of the placeholder endpoint. */
  function Ready(query: string): (r: Response)
    ensures r.status == 200 && r.body.Keys == {"message", "query", "note"}
    ensures r.body["message"] == ReadyMessage && r.body["query"] == query && r.body["note"] == ReadyNote
  {
    Response(200, map["message" := ReadyMessage, "query" := query, "note" := ReadyNote])
  }

  /** The body of a request that sends only a query. */
  function QueryBody(query: string): Body {
    Parsed(JObject(map["query" := JString(query)]))
  }

  // ---------------------------------------------------------------------
  // Properties

  /** An object body with a `query` key is answered by its value alone. */
  lemma SearchObjectWithQuery(fields: map<string, Json>)
    requires "query" in fields
    ensures SearchDocuments(Parsed(JObject(fields))) == AnswerQuery(fields["query"])
  {
    assert Truthy(JObject(fields));
  }

  /** A null, false, zero or empty body, `{}` among them, and an object
      without a `query` key are answered with 400 "No query provided". */
  lemma SearchWithoutQuery(data: Json)
    requires !Truthy(data) || (data.JObject? && "query" !in data.fields)
    ensures SearchDocuments(Parsed(data)) == ErrorResponse(400, NoQueryMessage)
  {
  }

  /** A query that is only whitespace is answered with 400 "Query cannot be
      empty"; this check is reached only once the key is known to be there. */
  lemma SearchBlankQuery(fields: map<string, Json>, query: string)
    requires "query" in fields && fields["query"] == JString(query)
    requires AllSpace(query)
    ensures SearchDocuments(Parsed(JObject(fields))) == ErrorResponse(400, EmptyQueryMessage)
  {
    SearchObjectWithQuery(fields);
    StripAllSpace(query);
  }

  /** A query with some non-whitespace character is answered with 200,
      "Search endpoint ready" and the query stripped, which is not empty and
      has no whitespace at either end. */
  lemma SearchReady(fields: map<string, Json>, query: string)
    requires "query" in fields && fields["query"] == JString(query)
    requires !AllSpace(query)
    ensures var r := SearchDocuments(Parsed(JObject(fields)));
      && r.status == 200
      && r.body == map["message" := ReadyMessage, "query" := Strip(query), "note" := ReadyNote]
      && Strip(query) != ""
      && !IsSpace(Strip(query)[0]) && !IsSpace(Strip(query)[|Strip(query)| - 1])
  {
    SearchObjectWithQuery(fields);
  }

  /** A 200 answer comes exactly from an object whose `query` is a string
      with some non-whitespace character. */
  lemma SearchReadyOnlyIf(body: Body)
    ensures SearchDocuments(body).status == 200 <==>
      && body.Parsed? && body.data.JObject?
      && "query" in body.data.fields && body.data.fields["query"].JString?
      && Strip(body.data.fields["query"].s) != ""
  {
    match body
    case GetJsonRaised(_) =>
    case Parsed(data) =>
      if Truthy(data) && !data.JObject? {
        assert HasQuery(data).Failure? || GetQuery(data).Failure?;
      }
  }

  /** Every answer is 200, 400 or 500; a 400 carries one of the two
      validation messages and a 500 the "Search failed: " prefix, so an
      exception never surfaces as a 400. */
  lemma SearchResponseKinds(body: Body)
    ensures var r := SearchDocuments(body);
      && r.status in {200, 400, 500}
      && (r.status == 400 ==> r.body == map["error" := NoQueryMessage] || r.body == map["error" := EmptyQueryMessage])
      && (r.status == 500 ==> "error" in r.body && StartsWith(r.body["error"], SearchFailedPrefix))
      && (body.GetJsonRaised? ==> r == SearchFailed(body.message))
  {
    match body
    case GetJsonRaised(m) => SearchFailedShape(m);
    case Parsed(data) =>
      if Truthy(data) {
        match HasQuery(data)
        case Failure(m) => SearchFailedShape(m);
        case Success(found) =>
          if found {
            match GetQuery(data)
            case Failure(m) => SearchFailedShape(m);
            case Success(value) =>
              match StripQuery(value)
              case Failure(m) => SearchFailedShape(m);
              case Success(_) =>
          }
      }
  }

  lemma SearchFailedShape(message: string)
    ensures SearchFailed(message).status == 500
    ensures StartsWith(SearchFailed(message).body["error"], SearchFailedPrefix)
  {
    assert (SearchFailedPrefix + message)[..|SearchFailedPrefix|] == SearchFailedPrefix;
  }

  /** A `query` that is not a string fails on `.strip()` and is answered
      with 500, not 400. */
  lemma SearchNonStringQuery(fields: map<string, Json>)
    requires "query" in fields && !fields["query"].JString?
    ensures SearchDocuments(Parsed(JObject(fields)))
         == SearchFailed("'" + TypeName(fields["query"]) + "' object has no attribute 'strip'")
  {
  }

  /** A truthy body that is not an object is never accepted: a number or
      `true` fails the `in` test, a list or string holding "query" fails on
      `.get`, and any other list or string has no query. */
  lemma SearchNonObjectBody(data: Json)
    requires Truthy(data) && !data.JObject?
    ensures var r := SearchDocuments(Parsed(data));
      && (data.JNumber? || data.JBool? ==>
            r == SearchFailed("argument of type '" + TypeName(data) + "' is not iterable"))
      && (data.JArray? ==> r == if JString("query") in data.items
                                then SearchFailed("'" + TypeName(data) + "' object has no attribute 'get'")
                                else ErrorResponse(400, NoQueryMessage))
      && (data.JString? ==> r == if Occurs("query", data.s)
                                 then SearchFailed("'" + TypeName(data) + "' object has no attribute 'get'")
                                 else ErrorResponse(400, NoQueryMessage))
  {
    match data
    case JArray(items) =>
      assert HasQuery(data) == Success(JString("query") in items);
    case JString(text) =>
      assert HasQuery(data) == Success(Occurs("query", text));
    case _ =>
  }

  /** Sending back the echoed query gives the very same answer. */
  lemma SearchEchoIsStable(body: Body)
    ensures var r := SearchDocuments(body);
      r.status == 200 ==> SearchDocuments(QueryBody(r.body["query"])) == r
  {
    var r := SearchDocuments(body);
    if r.status == 200 {
      SearchReadyOnlyIf(body);
      var fields := body.data.fields;
      SearchObjectWithQuery(fields);
      var q := Strip(fields["query"].s);
      assert r == Ready(q);
      StripIdempotent(fields["query"].s);
      SearchObjectWithQuery(map["query" := JString(q)]);
    }
  }

  /** Adding whitespace before or after the query never changes the answer. */
  lemma SearchIgnoresPadding(fields: map<string, Json>, pre: string, query: string, post: string)
    requires "query" in fields && fields["query"] == JString(query)
    requires AllSpace(pre) && AllSpace(post)
    ensures SearchDocuments(Parsed(JObject(fields["query" := JString(pre + query + post)])))
         == SearchDocuments(Parsed(JObject(fields)))
  {
    StripIgnoresPadding(pre, query, post);
    SearchObjectWithQuery(fields);
    SearchObjectWithQuery(fields["query" := JString(pre + query + post)]);
  }

  lemma SearchExampleEmptyObject()
    ensures SearchDocuments(Parsed(JObject(map[]))) == ErrorResponse(400, NoQueryMessage)
  {
  }

  lemma SearchExampleBlank()
    ensures SearchDocuments(QueryBody("  ")) == ErrorResponse(400, EmptyQueryMessage)
  {
    SearchBlankQuery(map["query" := JString("  ")], "  ");
  }

  lemma SearchExampleEcho()
    ensures var r := SearchDocuments(QueryBody("What is my blood pressure?"));
      r.status == 200 && r.body["query"] == "What is my blood pressure?"
  {
    var q := "What is my blood pressure?";
    assert q[0] == 'W' && q[|q| - 1] == '?';
    StripUnique(q, 0, q);
    SearchReady(map["query" := JString(q)], q);
  }
}
