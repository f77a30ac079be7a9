/**
 * The webhook endpoints (`app/api/webhooks.py`): create, update through the fields the request
 * sets, delete, and the test endpoint, which posts one `TestEvent` to an enabled subscription
 * and reports what came back.
 */
module WebhooksApi {
  import opened Base
  import opened Text
  import opened Models
  import opened Schemas
  import opened WebhookService

  const WebhookNotFound: string := "Webhook not found"
  const WebhookDisabled: string := "Webhook is disabled"
  const TestEventType: string := "TestEvent"
  const TestMessage: string := "This is a test webhook event"

  /** How much of a response body the test report shows. */
  const ShownBodyLength: nat := 500

  /** Some row of the table has this id. */
  predicate HasId(rows: seq<Webhook>, id: WebhookId) {
    exists i :: 0 <= i < |rows| && rows[i].id == id
  }

  /** `create_webhook`: one new subscription, at the end of the table, under a fresh id. */
  method CreateWebhook(store: WebhookStore, w: WebhookCreate) returns (created: Webhook)
    requires store.Valid()
    modifies store
    ensures store.Valid()
    ensures created == Webhook(old(store.nextId), w.url, w.eventTypes, w.isEnabled) && !HasId(old(store.rows), created.id)
    ensures store.rows == old(store.rows) + [created]
  {
    created := store.Add(w.url, w.eventTypes, w.isEnabled);
  }

  // ---------------------------------------------------------------------------------------
  // Update and delete
  // ---------------------------------------------------------------------------------------

  /** `setattr(webhook, field, value)` for one entry of the update. */
  function SetWebhookField(w: Webhook, f: WebhookField): Webhook {
    match f
    case UrlField(u) => w.(url := u)
    case EventTypesField(e) => w.(eventTypes := e)
    case IsEnabledField(b) => w.(isEnabled := b)
  }

  /** The webhook after `setattr` of each field in turn. */
  function SetWebhookFields(w: Webhook, fields: seq<WebhookField>): Webhook {
    if fields == [] then w else SetWebhookField(SetWebhookFields(w, fields[..|fields| - 1]), fields[|fields| - 1])
  }

  /** What an update means: each field the request sets takes its value, every other field stays; the id always stays. */
  function ApplyWebhookUpdate(w: Webhook, u: WebhookUpdate): Webhook {
    Webhook(
      w.id,
      if u.url.Some? then u.url.value else w.url,
      if u.eventTypes.Some? then u.eventTypes.value else w.eventTypes,
      if u.isEnabled.Some? then u.isEnabled.value else w.isEnabled)
  }

  /** The length rule `WebhookUpdate` enforces keeps a subscription's URL 1..500 characters long. */
  lemma UpdateKeepsUrlLength(w: Webhook, u: WebhookUpdate)
    requires WebhookUpdateValid(u) && 1 <= |w.url| <= UrlMaxLength
    ensures 1 <= |ApplyWebhookUpdate(w, u).url| <= UrlMaxLength
  {
  }

  lemma {:induction false} SetWebhookFieldsAppend(w: Webhook, a: seq<WebhookField>, b: seq<WebhookField>)
    ensures SetWebhookFields(w, a + b) == SetWebhookFields(SetWebhookFields(w, a), b)
    decreases |b|
  {
    if b == [] {
      assert a + b == a;
    } else {
      assert (a + b)[..|a + b| - 1] == a + b[..|b| - 1];
      SetWebhookFieldsAppend(w, a, b[..|b| - 1]);
    }
  }

  /** Setting the fields of `webhook_update.dict(exclude_unset=True)` one by one is the update. */
  lemma SetWebhookFieldsIsUpdate(w: Webhook, u: WebhookUpdate)
    ensures SetWebhookFields(w, WebhookSetFields(u)) == ApplyWebhookUpdate(w, u)
  {
    var f1: seq<WebhookField> := if u.url.Some? then [UrlField(u.url.value)] else [];
    var f2: seq<WebhookField> := if u.eventTypes.Some? then [EventTypesField(u.eventTypes.value)] else [];
    var f3: seq<WebhookField> := if u.isEnabled.Some? then [IsEnabledField(u.isEnabled.value)] else [];
    assert WebhookSetFields(u) == f1 + f2 + f3;
    SetWebhookFieldsAppend(w, f1 + f2, f3);
    SetWebhookFieldsAppend(w, f1, f2);
    var w1 := SetWebhookFields(w, f1);
    var w2 := SetWebhookFields(w1, f2);
    assert SetWebhookFields(w, f1 + f2) == w2;
  }

  /** The `setattr` loop of `update_webhook`. */
  method SetWebhookAttrs(w: Webhook, u: WebhookUpdate) returns (v: Webhook)
    ensures v == ApplyWebhookUpdate(w, u)
  {
    var fields := WebhookSetFields(u);
    v := w;
    for i := 0 to |fields|
      invariant v == SetWebhookFields(w, fields[..i])
    {
      assert fields[..i + 1][..i] == fields[..i];
      v := SetWebhookField(v, fields[i]);
    }
    assert fields[..|fields|] == fields;
    SetWebhookFieldsIsUpdate(w, u);
  }

  /** `after` is `before` with the row at `i`, which has this id, replaced by `w`. */
  predicate UpdatedAt(before: seq<Webhook>, after: seq<Webhook>, i: int, id: WebhookId, w: Webhook) {
    0 <= i < |before| && before[i].id == id && after == before[i := w]
  }

  /** `after` is `before` without the row at `i`, which has this id. */
  predicate RemovedAt(before: seq<Webhook>, after: seq<Webhook>, i: int, id: WebhookId) {
    0 <= i < |before| && before[i].id == id && after == before[..i] + before[i + 1..]
  }

  /**
   * What `WebhookResponse` accepts of a stored row: FastAPI validates the returned row against
   * the response model, which re-runs the `WebhookBase` rules on the URL (1..500 characters,
   * `http://` or `https://`). A row that fails is answered with a 500.
   */
  predicate WebhookReplyValid(w: Webhook) {
    UrlFieldValid(w.url)
  }

  /**
   * The row at `i`, which has this id, took the update, and the reply is that row, or a 500
   * when the row fails the response model.
   */
  predicate UpdateReplied(before: seq<Webhook>, after: seq<Webhook>, i: int, id: WebhookId, u: WebhookUpdate,
                          r: Result<Webhook, HttpError>) {
    && 0 <= i < |before|
    && UpdatedAt(before, after, i, id, ApplyWebhookUpdate(before[i], u))
    && (r.Ok? <==> WebhookReplyValid(after[i]))
    && (r.Ok? ==> r.value == after[i])
    && (r.Err? ==> r.error == HttpError(500, InternalServerError))
  }

  /**
   * `update_webhook`: 404 for an unknown id; otherwise the row with that id takes the fields the
   * request sets and is committed, and the reply is the row, or a 500 when it fails the response
   * model (an update may set a URL without the scheme check).
   */
  method UpdateWebhook(store: WebhookStore, id: WebhookId, u: WebhookUpdate) returns (r: Result<Webhook, HttpError>)
    requires store.Valid()
    modifies store
    ensures store.Valid()
    ensures !HasId(old(store.rows), id) ==> r == Err(HttpError(404, WebhookNotFound)) && store.rows == old(store.rows)
    ensures HasId(old(store.rows), id) ==> exists i :: UpdateReplied(old(store.rows), store.rows, i, id, u, r)
  {
    var found := store.IndexOf(id);
    if found.None? {
      return Err(HttpError(404, WebhookNotFound));
    }
    var i := found.value;
    var updated := SetWebhookAttrs(store.rows[i], u);
    store.Put(i, updated);
    if WebhookReplyValid(updated) {
      r := Ok(updated);
    } else {
      r := Err(HttpError(500, InternalServerError));
    }
    assert UpdateReplied(old(store.rows), store.rows, i, id, u, r);
  }

  /** A row created from a validated `WebhookCreate` passes the response model. */
  lemma CreatedWebhookReplyValid(id: WebhookId, q: WebhookCreate)
    requires WebhookCreateValid(q)
    ensures WebhookReplyValid(Webhook(id, q.url, q.eventTypes, q.isEnabled))
  {
  }

  /** An update to an `ftp://` URL passes `WebhookUpdate`, so `UpdateWebhook` commits it, and its reply is a 500. */
  lemma FtpUpdateRefusedReply(w: Webhook)
    ensures var u := WebhookUpdate(Some("ftp://hooks.example"), None, None);
      WebhookUpdateValid(u) && !WebhookReplyValid(ApplyWebhookUpdate(w, u))
  {
    UpdateSkipsSchemeCheck();
  }

  /** `delete_webhook`: 404 for an unknown id; otherwise exactly the row with that id goes. */
  method DeleteWebhook(store: WebhookStore, id: WebhookId) returns (err: Option<HttpError>)
    requires store.Valid()
    modifies store
    ensures store.Valid()
    ensures err.Some? <==> !HasId(old(store.rows), id)
    ensures err.Some? ==> err.value == HttpError(404, WebhookNotFound) && store.rows == old(store.rows)
    ensures err.None? ==> exists i :: RemovedAt(old(store.rows), store.rows, i, id)
    ensures err.None? ==> |store.rows| == |old(store.rows)| - 1 && !HasId(store.rows, id)
  {
    var found := store.IndexOf(id);
    if found.None? {
      return Some(HttpError(404, WebhookNotFound));
    }
    var i := found.value;
    ghost var before := store.rows;
    store.RemoveAt(i);
    assert RemovedAt(before, store.rows, i, id);
    forall k | 0 <= k < |store.rows| ensures store.rows[k].id != id {
      if k < i {
        assert store.rows[k] == before[k];
      } else {
        assert store.rows[k] == before[k + 1];
      }
    }
    return None;
  }

  // ---------------------------------------------------------------------------------------
  // The test endpoint
  // ---------------------------------------------------------------------------------------

  /** The test report of a POST that completed. */
  datatype TestReport = TestReport(status: string, responseCode: int, responseBody: Option<string>)

  /** One POST: where it went and what it sent. */
  datatype Post = Post(url: string, envelope: Envelope)

  /** `response.text[:500] if response.text else None` */
  function ShownBody(body: string): (r: Option<string>)
    ensures r.None? <==> body == ""
    ensures r.Some? ==> |r.value| <= ShownBodyLength && StartsWith(body, r.value)
    ensures r.Some? && |body| <= ShownBodyLength ==> r.value == body
    ensures r.Some? && |body| > ShownBodyLength ==> |r.value| == ShownBodyLength
  {
    if body == "" then None else Some(Take(body, ShownBodyLength))
  }

  /** The event a test sends to the webhook with this id. */
  function TestEnvelope(id: WebhookId): Envelope {
    Envelope(TestEventType, TestData(TestMessage, id))
  }

  /**
   * The reply after the one POST: a `success` report for any completed POST, whatever its
   * status code; a 500 only when the POST raised.
   */
  function TestReply(outcome: HttpOutcome): (r: Result<TestReport, HttpError>)
    ensures r.Ok? <==> outcome.Response?
    ensures r.Ok? ==> r.value.status == "success" && r.value.responseCode == outcome.statusCode
    ensures r.Ok? ==> r.value.responseBody == ShownBody(outcome.body)
    ensures r.Err? ==> r.error == HttpError(500, "Webhook test failed: " + outcome.error)
  {
    match outcome
    case Response(code, body) => Ok(TestReport("success", code, ShownBody(body)))
    case Raised(e) => Err(HttpError(500, "Webhook test failed: " + e))
  }

  /**
   * `test_webhook`: 404 for an unknown id, checked before 400 for a disabled webhook; otherwise
   * exactly one POST of the test event, no retry, and the reply for its `outcome`.
   */
  method TestWebhook(store: WebhookStore, id: WebhookId, outcome: HttpOutcome) returns (r: Result<TestReport, HttpError>, posts: seq<Post>)
    requires store.Valid()
    ensures !HasId(store.rows, id) ==> r == Err(HttpError(404, WebhookNotFound)) && posts == []
    ensures forall i :: 0 <= i < |store.rows| && store.rows[i].id == id && !store.rows[i].isEnabled ==>
      r == Err(HttpError(400, WebhookDisabled)) && posts == []
    ensures forall i :: 0 <= i < |store.rows| && store.rows[i].id == id && store.rows[i].isEnabled ==>
      r == TestReply(outcome) && posts == [Post(store.rows[i].url, TestEnvelope(id))]
    ensures |posts| <= 1
  {
    var found := store.IndexOf(id);
    if found.None? {
      return Err(HttpError(404, WebhookNotFound)), [];
    }
    var w := store.rows[found.value];
    if !w.isEnabled {
      return Err(HttpError(400, WebhookDisabled)), [];
    }
    posts := [Post(w.url, TestEnvelope(id))];
    r := TestReply(outcome);
  }

  /**
   * The test's POST is the envelope a delivery of the same event would post, made as if no retry
   * were left: a delivery that starts at the retry limit is that one attempt and nothing after it.
   */
  lemma TestIsFinalAttempt(url: string, id: WebhookId, outcome: HttpOutcome)
    ensures SendWebhook(url, TestEventType, TestData(TestMessage, id), _ => outcome, MaxRetries)
      == [Attempt(MaxRetries, url, TestEnvelope(id), outcome, None)]
  {
  }
}
