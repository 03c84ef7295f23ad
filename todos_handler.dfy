/**
 * The backend request handler (`infrastructure/src/lambda/todosHandler.ts`).
 * A request is decided at the first branch that matches: missing token,
 * rejected token, missing subject, then PUT (replace the subject's record)
 * or GET (read it). The table is a map from subject to record. What the
 * handler gets from outside is passed in: the `AUTH` environment variable,
 * the token verifier, the outcome of `JSON.parse` on the body, and whether
 * the table operation fails.
 */
module TodosHandler {
  import opened Wrappers
  import opened RequestSchema

  /** `DEFAULT_HEADERS`: the cross-origin headers of every response. */
  datatype Headers = Headers(allowOrigin: string, allowCredentials: bool)

  const DefaultHeaders := Headers("*", true)

  /** What the table stores per subject. */
  datatype Record = Record(id: string, todoList: seq<TodoEntry>)

  /** The response body: a message, a record, a serialised error, or nothing (`JSON.stringify(undefined)`). */
  datatype Body = Message(message: string) | RecordBody(record: Record) | ErrorBody | NoBody

  datatype Response = Response(statusCode: int, headers: Headers, body: Body)

  /** What the token verifier does with a token: throw, or return claims with or without `sub`. */
  datatype Verification = Rejected | Verified(sub: Option<string>)

  /** A request body: its text, and what `JSON.parse` makes of it (`None` when it throws). */
  datatype RequestBody = RequestBody(text: string, json: Option<Json>)

  datatype Event = Event(httpMethod: string, authorization: Option<string>, body: Option<RequestBody>)

  // ---------------------------------------------------------------------------
  // Reading the token from the `Authorization` header.
  // ---------------------------------------------------------------------------

  /** `s.split(sep)` for a one-character separator: the pieces between separators. */
  function Split(s: string, sep: char): (parts: seq<string>)
    ensures |parts| >= 1
    ensures forall i :: 0 <= i < |parts| ==> sep !in parts[i]
    ensures |parts| >= 2 <==> sep in s
  {
    if s == [] then [""]
    else
      var rest := Split(s[1..], sep);
      if s[0] == sep then [""] + rest
      else [[s[0]] + rest[0]] + rest[1..]
  }

  /** `parts.join(sep)`. */
  function Join(parts: seq<string>, sep: char): string {
    if parts == [] then ""
    else if |parts| == 1 then parts[0]
    else parts[0] + [sep] + Join(parts[1..], sep)
  }

  /** Joining the pieces again gives back the text that was split. */
  lemma {:induction false} JoinSplit(s: string, sep: char)
    ensures Join(Split(s, sep), sep) == s
  {
    if s != [] {
      var rest := Split(s[1..], sep);
      JoinSplit(s[1..], sep);
      if s[0] == sep {
        assert ([""] + rest)[1..] == rest;
      } else {
        var parts := [[s[0]] + rest[0]] + rest[1..];
        assert parts[1..] == rest[1..];
        if |rest| > 1 {
          assert Join(rest, sep) == rest[0] + [sep] + Join(rest[1..], sep);
        }
      }
      assert s == [s[0]] + s[1..];
    }
  }

  lemma {:induction false} SplitPlain(a: string, sep: char)
    requires sep !in a
    ensures Split(a, sep) == [a]
  {
    if a != [] {
      SplitPlain(a[1..], sep);
      assert a == [a[0]] + a[1..];
    }
  }

  lemma {:induction false} SplitAt(a: string, b: string, sep: char)
    requires sep !in a
    ensures Split(a + [sep] + b, sep) == [a] + Split(b, sep)
  {
    var s := a + [sep] + b;
    if a == [] {
      assert s[1..] == b;
    } else {
      assert s[1..] == a[1..] + [sep] + b;
      SplitAt(a[1..], b, sep);
      assert a == [a[0]] + a[1..];
    }
  }

  /** `authorization?.split(" ")[1]`: the second space-separated piece, if any. */
  function BearerToken(authorization: Option<string>): (r: Option<string>)
    ensures r.Some? <==> authorization.Some? && ' ' in authorization.value
    ensures r.Some? ==> ' ' !in r.value
  {
    match authorization
    case None => None
    case Some(h) =>
      var parts := Split(h, ' ');
      if |parts| >= 2 then Some(parts[1]) else None
  }

  /**
   * `Bearer <token>` yields the token; a header with no space yields none;
   * one with nothing after the space yields the empty token, which is falsy.
   */
  lemma BearerTokenOf(scheme: string, token: string)
    requires ' ' !in scheme && ' ' !in token
    ensures BearerToken(Some(scheme + " " + token)) == Some(token)
    ensures BearerToken(Some(scheme)) == None
    ensures BearerToken(Some(scheme + " ")) == Some("")
  {
    SplitAt(scheme, token, ' ');
    SplitPlain(token, ' ');
    SplitPlain(scheme, ' ');
    SplitAt(scheme, "", ' ');
    assert scheme + " " == scheme + [' '] + "";
  }

  // ---------------------------------------------------------------------------
  // Deciding a request.
  // ---------------------------------------------------------------------------

  /** `(process.env.AUTH ?? "true") === "true"`. */
  predicate AuthOn(authEnv: Option<string>)
    ensures AuthOn(authEnv) <==> authEnv == None || authEnv == Some("true")
  {
    authEnv.GetOr("true") == "true"
  }

  /** A string JavaScript treats as true: present and not empty. */
  predicate Truthy(s: Option<string>) {
    s.Some? && s.value != ""
  }

  /**
   * The subject a request acts for, or `None` when it is refused as
   * unauthorised: with authentication on, the `sub` claim of the verified
   * bearer token; with it off, the fixed subject `test`.
   */
  function Subject(event: Event, authEnv: Option<string>, verify: string -> Verification): (r: Option<string>)
    ensures r.Some? ==> r.value != ""
    ensures !AuthOn(authEnv) ==> r == Some("test")
    ensures AuthOn(authEnv) && !Truthy(BearerToken(event.authorization)) ==> r == None
    ensures AuthOn(authEnv) && Truthy(BearerToken(event.authorization)) ==>
              var v := verify(BearerToken(event.authorization).value);
              && (v.Rejected? ==> r == None)
              && (v.Verified? && !Truthy(v.sub) ==> r == None)
              && (v.Verified? && Truthy(v.sub) ==> r == v.sub)
  {
    var claimed :=
      if !AuthOn(authEnv) then Some("test")
      else
        var jwt := BearerToken(event.authorization);
        if !Truthy(jwt) then None
        else
          match verify(jwt.value)
          case Rejected => None
          case Verified(sub) => sub;
    if Truthy(claimed) then claimed else None
  }

  function Unauthorized(): Response {
    Response(401, DefaultHeaders, Message("Unauthorized"))
  }

  /** The body of a PUT as the schema parses it, `None` when `JSON.parse` or the schema throws. */
  function ParsedBody(body: RequestBody): (r: Option<seq<TodoEntry>>)
    ensures r.Some? <==> body.json.Some? && RequestShape(body.json.value)
    ensures r.Some? ==> |r.value| == |body.json.value.fields["todoList"].items|
    ensures r.Some? ==> forall i :: 0 <= i < |r.value| ==>
              ParseEntry(body.json.value.fields["todoList"].items[i]) == Some(r.value[i])
  {
    if body.json.Some? && ParseRequest(body.json.value).Some? then
      ParseRequestElementwise(body.json.value);
      ParseRequest(body.json.value)
    else None
  }

  /** `handler(event)`: the response, and the table after the request. */
  method Handle(event: Event, authEnv: Option<string>, verify: string -> Verification,
                storeFault: bool, table: map<string, Record>)
    returns (response: Response, table': map<string, Record>)
    ensures response.headers == DefaultHeaders
    ensures response.statusCode in {200, 400, 401, 404, 500}
    // Unauthorised requests are refused before the table is looked at.
    ensures response.statusCode == 401 <==> Subject(event, authEnv, verify).None?
    ensures response.statusCode == 401 ==> response == Unauthorized()
    // Only a successful PUT writes, and only the caller's own record.
    ensures table' != table ==> response.statusCode == 200 && event.httpMethod == "PUT"
    ensures forall k :: k in table && Subject(event, authEnv, verify) != Some(k) ==>
              k in table' && table'[k] == table[k]
    ensures forall k :: k in table' ==> k in table || Subject(event, authEnv, verify) == Some(k)
    ensures Subject(event, authEnv, verify).Some? ==>
              var user := Subject(event, authEnv, verify).value;
              && (event.httpMethod == "PUT" && (event.body.None? || event.body.value.text == "") ==>
                    response == Response(400, DefaultHeaders, Message("No request body found")))
              && (event.httpMethod == "PUT" && event.body.Some? && event.body.value.text != "" ==>
                    if ParsedBody(event.body.value).None? || storeFault
                    then response == Response(500, DefaultHeaders, ErrorBody) && table' == table
                    else var record := Record(user, ParsedBody(event.body.value).value);
                         response == Response(200, DefaultHeaders, RecordBody(record)) &&
                         table' == table[user := record])
              && (event.httpMethod == "GET" ==>
                    table' == table &&
                    response == if storeFault then Response(500, DefaultHeaders, ErrorBody)
                                else if user !in table then Response(404, DefaultHeaders, Message("No todo list found"))
                                else Response(200, DefaultHeaders, RecordBody(table[user])))
              && (event.httpMethod != "PUT" && event.httpMethod != "GET" ==>
                    table' == table && response == Response(200, DefaultHeaders, NoBody))
  {
    table' := table;
    var claims: Option<string>;
    if AuthOn(authEnv) {
      var jwt := BearerToken(event.authorization);
      if !Truthy(jwt) {
        return Unauthorized(), table';
      }
      match verify(jwt.value)
      case Rejected =>
        return Unauthorized(), table';
      case Verified(sub) =>
        claims := sub;
    } else {
      claims := Some("test");
    }

    var result := NoBody;
    if !Truthy(claims) {
      return Unauthorized(), table';
    }
    var userId := claims.value;

    if event.httpMethod == "PUT" {
      if event.body.None? || event.body.value.text == "" {
        return Response(400, DefaultHeaders, Message("No request body found")), table';
      }
      var parsed := ParsedBody(event.body.value);
      if parsed.None? || storeFault {
        return Response(500, DefaultHeaders, ErrorBody), table';
      }
      var record := Record(userId, parsed.value);
      table' := table[userId := record];
      result := RecordBody(record);
    } else if event.httpMethod == "GET" {
      if storeFault {
        return Response(500, DefaultHeaders, ErrorBody), table';
      }
      if userId !in table {
        return Response(404, DefaultHeaders, Message("No todo list found")), table';
      }
      result := RecordBody(table[userId]);
    }

    response := Response(200, DefaultHeaders, result);
  }

  /**
   * A PUT of any list a client encodes, then a GET by the same subject,
   * returns that list under the subject's record.
   */
  method PutThenGet(put: Event, get: Event, authEnv: Option<string>, verify: string -> Verification,
                    table: map<string, Record>, list: seq<TodoEntry>)
    returns (stored: map<string, Record>, response: Response)
    requires Subject(put, authEnv, verify).Some? && Subject(get, authEnv, verify) == Subject(put, authEnv, verify)
    requires put.httpMethod == "PUT" && get.httpMethod == "GET"
    requires put.body.Some? && put.body.value.text != "" && put.body.value.json == Some(EncodeRequest(list))
    ensures stored == table[Subject(put, authEnv, verify).value := Record(Subject(put, authEnv, verify).value, list)]
    ensures response == Response(200, DefaultHeaders, RecordBody(Record(Subject(put, authEnv, verify).value, list)))
  {
    RequestRoundTrip(list);
    var saved;
    saved, stored := Handle(put, authEnv, verify, false, table);
    var after;
    response, after := Handle(get, authEnv, verify, false, stored);
  }
}
