/**
 * The shape a PUT body must have
 * (`infrastructure/src/lambda/schemas/todosRequestValidationSchema.ts`):
 * an object whose `todoList` is an array of tasks, each with string `id`,
 * `title`, `status` and `time`, and optionally `comments`, an array of
 * objects with string `comment` and `time`. Parsing keeps only those keys,
 * as the schema library's object parser does.
 */
module RequestSchema {
  import opened Wrappers

  /** A JSON value as `JSON.parse` returns it. */
  datatype Json =
    | JNull
    | JBool(b: bool)
    | JNumber(n: real)
    | JString(str: string)
    | JArray(items: seq<Json>)
    | JObject(fields: map<string, Json>)

  datatype Comment = Comment(comment: string, time: string)

  /** A task as validated on the server: the client's four strings and optional comments. */
  datatype TodoEntry = TodoEntry(id: string, title: string, status: string, time: string,
                                 comments: Option<seq<Comment>>)

  predicate StringField(fields: map<string, Json>, key: string) {
    key in fields && fields[key].JString?
  }

  /** A comment: an object with string `comment` and `time`, whatever other keys it has. */
  predicate CommentShape(j: Json)
    ensures CommentShape(j) ==> j.JObject?
    ensures j.JObject? && StringField(j.fields, "comment") && StringField(j.fields, "time") ==> CommentShape(j)
    ensures j.JObject? && "time" in j.fields && j.fields["time"].JNull? ==> !CommentShape(j)
  {
    j.JObject? && StringField(j.fields, "comment") && StringField(j.fields, "time")
  }

  /** `comments` may be left out; when given it must be an array of comments. */
  predicate CommentsShape(fields: map<string, Json>)
    ensures "comments" !in fields ==> CommentsShape(fields)
    ensures "comments" in fields && fields["comments"].JNull? ==> !CommentsShape(fields)
    ensures "comments" in fields && fields["comments"] == JArray([]) ==> CommentsShape(fields)
  {
    "comments" in fields ==>
      fields["comments"].JArray? &&
      forall c :: c in fields["comments"].items ==> CommentShape(c)
  }

  /** `status` is any string: there is no list of allowed values. */
  predicate EntryShape(j: Json)
    ensures EntryShape(j) ==> j.JObject? && forall k :: k in ["id", "title", "status", "time"] ==> StringField(j.fields, k)
    ensures (j.JObject? && StringField(j.fields, "id") && StringField(j.fields, "title") &&
             StringField(j.fields, "status") && StringField(j.fields, "time") && "comments" !in j.fields)
            ==> EntryShape(j)
  {
    && j.JObject?
    && StringField(j.fields, "id")
    && StringField(j.fields, "title")
    && StringField(j.fields, "status")
    && StringField(j.fields, "time")
    && CommentsShape(j.fields)
  }

  /** The body: an object whose `todoList` is an array, possibly empty, of tasks. */
  predicate RequestShape(j: Json)
    ensures RequestShape(j) <==>
              j.JObject? && "todoList" in j.fields && j.fields["todoList"].JArray? &&
              forall i :: 0 <= i < |j.fields["todoList"].items| ==> EntryShape(j.fields["todoList"].items[i])
  {
    && j.JObject?
    && "todoList" in j.fields
    && j.fields["todoList"].JArray?
    && forall e :: e in j.fields["todoList"].items ==> EntryShape(e)
  }

  // ---------------------------------------------------------------------------
  // Parsing: the schema's `parse`, returning the typed value or failing.
  // ---------------------------------------------------------------------------

  function ParseComment(j: Json): (r: Option<Comment>)
    ensures r.Some? <==> CommentShape(j)
    ensures r.Some? ==> r.value == Comment(j.fields["comment"].str, j.fields["time"].str)
  {
    if CommentShape(j) then Some(Comment(j.fields["comment"].str, j.fields["time"].str)) else None
  }

  function ParseComments(items: seq<Json>): (r: Option<seq<Comment>>)
    ensures r.Some? <==> forall c :: c in items ==> CommentShape(c)
    ensures r.Some? ==> |r.value| == |items|
    ensures r.Some? ==> forall i :: 0 <= i < |items| ==> ParseComment(items[i]) == Some(r.value[i])
  {
    if items == [] then Some([])
    else
      match (ParseComment(items[0]), ParseComments(items[1..]))
      case (Some(c), Some(cs)) =>
        assert forall i :: 1 <= i < |items| ==> items[i] == items[1..][i - 1];
        Some([c] + cs)
      case _ =>
        assert items[0] in items;
        assert forall c :: c in items[1..] ==> c in items;
        None
  }

  function ParseEntry(j: Json): (r: Option<TodoEntry>)
    ensures r.Some? <==> EntryShape(j)
    ensures r.Some? ==> r.value.id == j.fields["id"].str && r.value.title == j.fields["title"].str &&
                        r.value.status == j.fields["status"].str && r.value.time == j.fields["time"].str
    ensures r.Some? ==> (r.value.comments.None? <==> "comments" !in j.fields)
    ensures r.Some? && "comments" in j.fields ==> r.value.comments == ParseComments(j.fields["comments"].items)
  {
    if !EntryShape(j) then None
    else
      var f := j.fields;
      var comments := if "comments" in f then ParseComments(f["comments"].items) else None;
      Some(TodoEntry(f["id"].str, f["title"].str, f["status"].str, f["time"].str, comments))
  }

  function ParseEntries(items: seq<Json>): (r: Option<seq<TodoEntry>>)
    ensures r.Some? <==> forall e :: e in items ==> EntryShape(e)
    ensures r.Some? ==> |r.value| == |items|
  {
    if items == [] then Some([])
    else
      match (ParseEntry(items[0]), ParseEntries(items[1..]))
      case (Some(t), Some(ts)) => Some([t] + ts)
      case _ =>
        assert items[0] in items;
        assert forall e :: e in items[1..] ==> e in items;
        None
  }

  /** `todosRequestValidationSchema.parse(body)`: the `todoList`, or a failure. */
  function ParseRequest(j: Json): (r: Option<seq<TodoEntry>>)
    ensures r.Some? <==> RequestShape(j)
    ensures r.Some? ==> |r.value| == |j.fields["todoList"].items|
  {
    if j.JObject? && "todoList" in j.fields && j.fields["todoList"].JArray? then
      ParseEntries(j.fields["todoList"].items)
    else None
  }

  /** An accepted task array parses element by element: task i is what element i parses to. */
  lemma {:induction false} ParseEntriesElementwise(items: seq<Json>)
    requires ParseEntries(items).Some?
    ensures forall i :: 0 <= i < |items| ==> ParseEntry(items[i]) == Some(ParseEntries(items).value[i])
  {
    if items != [] {
      assert items[0] in items;
      assert forall e :: e in items[1..] ==> e in items;
      ParseEntriesElementwise(items[1..]);
      assert forall i :: 1 <= i < |items| ==> items[i] == items[1..][i - 1];
    }
  }

  /** An accepted body parses to the element-by-element parse of its `todoList`. */
  lemma ParseRequestElementwise(j: Json)
    requires ParseRequest(j).Some?
    ensures forall i :: 0 <= i < |j.fields["todoList"].items| ==>
              ParseEntry(j.fields["todoList"].items[i]) == Some(ParseRequest(j).value[i])
  {
    ParseEntriesElementwise(j.fields["todoList"].items);
  }

  // ---------------------------------------------------------------------------
  // Encoding: the JSON body a client sends for a list.
  // ---------------------------------------------------------------------------

  function EncodeComment(c: Comment): Json {
    JObject(map["comment" := JString(c.comment), "time" := JString(c.time)])
  }

  function EncodeComments(cs: seq<Comment>): (r: seq<Json>)
    ensures |r| == |cs|
  {
    if cs == [] then [] else [EncodeComment(cs[0])] + EncodeComments(cs[1..])
  }

  function EncodeEntry(t: TodoEntry): Json {
    var base := map["id" := JString(t.id), "title" := JString(t.title),
                    "status" := JString(t.status), "time" := JString(t.time)];
    JObject(if t.comments.Some? then base["comments" := JArray(EncodeComments(t.comments.value))] else base)
  }

  function EncodeEntries(ts: seq<TodoEntry>): (r: seq<Json>)
    ensures |r| == |ts|
  {
    if ts == [] then [] else [EncodeEntry(ts[0])] + EncodeEntries(ts[1..])
  }

  function EncodeRequest(ts: seq<TodoEntry>): Json {
    JObject(map["todoList" := JArray(EncodeEntries(ts))])
  }

  // ---------------------------------------------------------------------------
  // Properties of the schema.
  // ---------------------------------------------------------------------------

  lemma {:induction false} CommentsRoundTrip(cs: seq<Comment>)
    ensures ParseComments(EncodeComments(cs)) == Some(cs)
  {
    if cs != [] {
      CommentsRoundTrip(cs[1..]);
      var e := EncodeComments(cs);
      assert e[0] == EncodeComment(cs[0]) && e[1..] == EncodeComments(cs[1..]);
      assert ParseComment(e[0]) == Some(cs[0]);
      assert ParseComments(e) == Some([cs[0]] + cs[1..]);
      assert [cs[0]] + cs[1..] == cs;
    }
  }

  lemma EntryRoundTrip(t: TodoEntry)
    ensures ParseEntry(EncodeEntry(t)) == Some(t)
  {
    var j := EncodeEntry(t);
    assert "comments" != "id" && "comments" != "title" && "comments" != "status" && "comments" != "time";
    if t.comments.Some? {
      CommentsRoundTrip(t.comments.value);
      assert forall c :: c in EncodeComments(t.comments.value) ==> CommentShape(c);
    }
    assert EntryShape(j);
  }

  lemma {:induction false} EntriesRoundTrip(ts: seq<TodoEntry>)
    ensures ParseEntries(EncodeEntries(ts)) == Some(ts)
  {
    if ts != [] {
      EntriesRoundTrip(ts[1..]);
      EntryRoundTrip(ts[0]);
      var e := EncodeEntries(ts);
      assert e[0] == EncodeEntry(ts[0]) && e[1..] == EncodeEntries(ts[1..]);
      assert ParseEntries(e) == Some([ts[0]] + ts[1..]);
      assert [ts[0]] + ts[1..] == ts;
    }
  }

  /**
   * Every list sent as a `{todoList}` body passes validation and comes back
   * unchanged: any status text, any comments or none, and the empty list.
   */
  lemma RequestRoundTrip(ts: seq<TodoEntry>)
    ensures RequestShape(EncodeRequest(ts))
    ensures ParseRequest(EncodeRequest(ts)) == Some(ts)
  {
    EntriesRoundTrip(ts);
  }

  /**
   * The body the client actually sends, `{ id: userId, todoList }`, is
   * accepted and parses back to its list: the extra `id` key is dropped.
   */
  lemma ClientBodyRoundTrip(userId: string, ts: seq<TodoEntry>)
    ensures ParseRequest(JObject(map["id" := JString(userId), "todoList" := JArray(EncodeEntries(ts))])) == Some(ts)
  {
    EntriesRoundTrip(ts);
  }

  /** A list is accepted exactly when both its parts are, and parses to the two parts joined. */
  lemma {:induction false} EntriesAppend(a: seq<Json>, b: seq<Json>)
    ensures ParseEntries(a + b) ==
              if ParseEntries(a).Some? && ParseEntries(b).Some?
              then Some(ParseEntries(a).value + ParseEntries(b).value) else None
  {
    if a == [] {
      assert a + b == b;
      if ParseEntries(b).Some? {
        assert [] + ParseEntries(b).value == ParseEntries(b).value;
      }
    } else {
      var ab := a + b;
      assert ab[0] == a[0] && ab[1..] == a[1..] + b;
      EntriesAppend(a[1..], b);
      var head, tail, rb := ParseEntry(a[0]), ParseEntries(a[1..]), ParseEntries(b);
      if head.Some? && tail.Some? && rb.Some? {
        assert ParseEntries(a).value == [head.value] + tail.value;
        assert ParseEntries(ab).value == [head.value] + (tail.value + rb.value);
        assert [head.value] + (tail.value + rb.value) == ([head.value] + tail.value) + rb.value;
      }
    }
  }

  /**
   * Keys outside the schema are dropped: adding one to a task changes
   * neither whether it is accepted nor what it parses to.
   */
  lemma EntryIgnoresUnknownKey(fields: map<string, Json>, key: string, v: Json)
    requires key !in {"id", "title", "status", "time", "comments"}
    ensures ParseEntry(JObject(fields[key := v])) == ParseEntry(JObject(fields))
  {
  }

  /** A body without an array under `todoList` is refused. */
  lemma RequestNeedsList(fields: map<string, Json>)
    requires "todoList" !in fields || !fields["todoList"].JArray?
    ensures ParseRequest(JObject(fields)) == None
  {
  }

  /** A task whose `comments` is given but is not an array is refused, even `null`. */
  lemma CommentsMustBeArray(t: TodoEntry, v: Json)
    requires !v.JArray?
    ensures ParseEntry(JObject(EncodeEntry(t).fields["comments" := v])) == None
  {
  }
}
