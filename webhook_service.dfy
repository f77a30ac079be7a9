/**
 * Event fan-out and delivery (`app/webhook_service.py`). `trigger_webhook` selects the enabled
 * subscriptions, keeps those whose event filter admits the event, and starts one delivery task
 * for each; `send_webhook` posts the event envelope and retries a failed attempt with
 * exponential backoff. Waiting is not modelled: a delivery is the trace of its attempts, each
 * with the delay that follows it.
 */
module WebhookService {
  import opened Base
  import opened Models

  /** The `data` dict each call site sends, one constructor per call site. */
  datatype Payload =
    | ProductData(productId: ProductId, sku: string, name: string, action: string)
    | ImportStartedData(importId: JobId, fileName: string)
    | ImportCompletedData(importId: JobId, totalRecords: nat, processedRecords: nat, created: nat, updated: nat)
    | TestData(message: string, webhookId: WebhookId)

  /** The JSON body of a delivery, `WebhookEvent` without its timestamp. */
  datatype Envelope = Envelope(eventType: string, data: Payload)

  /** `asyncio.create_task(send_webhook(webhook.url, event_type, data))` for one subscription. */
  datatype DeliveryTask = DeliveryTask(webhookId: WebhookId, url: string, eventType: string, data: Payload)

  /** The delivery tasks started so far on the event loop. */
  class Dispatcher {
    var started: seq<DeliveryTask>

    constructor ()
      ensures started == []
    {
      started := [];
    }
  }

  /** The list comprehension's filter: no event types (a wildcard), or the event type listed. */
  predicate Admits(w: Webhook, eventType: string) {
    w.eventTypes == [] || eventType in w.eventTypes
  }

  /** A subscription receives an event: it is enabled and its filter admits the event. */
  predicate Subscribed(w: Webhook, eventType: string) {
    w.isEnabled && Admits(w, eventType)
  }

  /** `query(Webhook).filter(Webhook.is_enabled == True).all()` */
  function Enabled(rows: seq<Webhook>): (r: seq<Webhook>)
    ensures forall w :: w in r <==> w in rows && w.isEnabled
    ensures |r| <= |rows|
  {
    if rows == [] then []
    else (if rows[0].isEnabled then [rows[0]] else []) + Enabled(rows[1..])
  }

  /** `[w for w in webhooks if not w.event_types or event_type in w.event_types]` */
  function Admitting(rows: seq<Webhook>, eventType: string): (r: seq<Webhook>)
    ensures forall w :: w in r <==> w in rows && Admits(w, eventType)
    ensures |r| <= |rows|
  {
    if rows == [] then []
    else (if Admits(rows[0], eventType) then [rows[0]] else []) + Admitting(rows[1..], eventType)
  }

  function TaskFor(w: Webhook, eventType: string, data: Payload): DeliveryTask {
    DeliveryTask(w.id, w.url, eventType, data)
  }

  /** The delivery tasks `trigger_webhook` starts, in the order of the subscriptions it matched. */
  function Fanout(rows: seq<Webhook>, eventType: string, data: Payload): seq<DeliveryTask> {
    Tasks(Admitting(Enabled(rows), eventType), eventType, data)
  }

  /** One task per subscription, in order. */
  function Tasks(ws: seq<Webhook>, eventType: string, data: Payload): seq<DeliveryTask> {
    seq(|ws|, i requires 0 <= i < |ws| => TaskFor(ws[i], eventType, data))
  }

  lemma TasksAppend(a: seq<Webhook>, b: seq<Webhook>, eventType: string, data: Payload)
    ensures Tasks(a + b, eventType, data) == Tasks(a, eventType, data) + Tasks(b, eventType, data)
  {
    var l, r := Tasks(a + b, eventType, data), Tasks(a, eventType, data) + Tasks(b, eventType, data);
    forall i | 0 <= i < |l| ensures l[i] == r[i] {
      if i >= |a| {
        assert (a + b)[i] == b[i - |a|];
      }
    }
  }

  /** How many tasks in `tasks` deliver to subscription `id`. */
  function TasksTo(tasks: seq<DeliveryTask>, id: WebhookId): nat {
    if tasks == [] then 0
    else (if tasks[0].webhookId == id then 1 else 0) + TasksTo(tasks[1..], id)
  }

  lemma {:induction false} TasksToAppend(a: seq<DeliveryTask>, b: seq<DeliveryTask>, id: WebhookId)
    ensures TasksTo(a + b, id) == TasksTo(a, id) + TasksTo(b, id)
  {
    if a != [] {
      assert (a + b)[1..] == a[1..] + b;
      TasksToAppend(a[1..], b, id);
    } else {
      assert a + b == b;
    }
  }

  predicate DistinctIds(rows: seq<Webhook>) {
    forall i, j :: 0 <= i < j < |rows| ==> rows[i].id != rows[j].id
  }

  /** The subscription with id `id` in `rows` exists and is subscribed to the event. */
  predicate SubscribedIn(rows: seq<Webhook>, id: WebhookId, eventType: string) {
    exists i :: 0 <= i < |rows| && rows[i].id == id && Subscribed(rows[i], eventType)
  }

  lemma {:induction false} AdmittingAppend(a: seq<Webhook>, b: seq<Webhook>, eventType: string)
    ensures Admitting(a + b, eventType) == Admitting(a, eventType) + Admitting(b, eventType)
  {
    if a != [] {
      assert (a + b)[0] == a[0] && (a + b)[1..] == a[1..] + b;
      AdmittingAppend(a[1..], b, eventType);
    } else {
      assert a + b == b;
    }
  }

  /** The subscriptions that match, taken row by row. */
  lemma MatchingStep(rows: seq<Webhook>, eventType: string)
    requires rows != []
    ensures Admitting(Enabled(rows), eventType)
      == (if Subscribed(rows[0], eventType) then [rows[0]] else []) + Admitting(Enabled(rows[1..]), eventType)
  {
    var first := if rows[0].isEnabled then [rows[0]] else [];
    assert Enabled(rows) == first + Enabled(rows[1..]);
    AdmittingAppend(first, Enabled(rows[1..]), eventType);
    if first != [] {
      assert first[1..] == [];
    }
  }

  lemma FanoutSplit(rows: seq<Webhook>, eventType: string, data: Payload)
    requires rows != []
    ensures Fanout(rows, eventType, data)
      == (if Subscribed(rows[0], eventType) then [TaskFor(rows[0], eventType, data)] else []) + Fanout(rows[1..], eventType, data)
  {
    MatchingStep(rows, eventType);
    var hm := if Subscribed(rows[0], eventType) then [rows[0]] else [];
    var m' := Admitting(Enabled(rows[1..]), eventType);
    TasksAppend(hm, m', eventType, data);
    assert Tasks(hm, eventType, data) == if Subscribed(rows[0], eventType) then [TaskFor(rows[0], eventType, data)] else [];
    assert Fanout(rows, eventType, data) == Tasks(hm + m', eventType, data);
  }

  lemma FanoutStep(rows: seq<Webhook>, eventType: string, data: Payload, id: WebhookId)
    requires rows != []
    ensures TasksTo(Fanout(rows, eventType, data), id)
      == (if rows[0].id == id && Subscribed(rows[0], eventType) then 1 else 0) + TasksTo(Fanout(rows[1..], eventType, data), id)
  {
    FanoutSplit(rows, eventType, data);
    var head := if Subscribed(rows[0], eventType) then [TaskFor(rows[0], eventType, data)] else [];
    TasksToAppend(head, Fanout(rows[1..], eventType, data), id);
  }

  /**
   * Exactly one delivery task is started for each subscription that matches the event, and
   * none for any other: subscriptions are rows with distinct ids.
   */
  lemma {:induction false} FanoutExactlyOnce(rows: seq<Webhook>, eventType: string, data: Payload, id: WebhookId)
    requires DistinctIds(rows)
    ensures TasksTo(Fanout(rows, eventType, data), id) == if SubscribedIn(rows, id, eventType) then 1 else 0
  {
    if rows != [] {
      FanoutStep(rows, eventType, data, id);
      assert DistinctIds(rows[1..]);
      FanoutExactlyOnce(rows[1..], eventType, data, id);
      if rows[0].id == id {
        forall i | 0 <= i < |rows[1..]| ensures rows[1..][i].id != id {
          assert rows[1..][i] == rows[i + 1];
        }
        assert !SubscribedIn(rows[1..], id, eventType);
      } else if SubscribedIn(rows, id, eventType) {
        var i :| 0 <= i < |rows| && rows[i].id == id && Subscribed(rows[i], eventType);
        assert rows[1..][i - 1] == rows[i];
      }
      if SubscribedIn(rows[1..], id, eventType) {
        var i :| 0 <= i < |rows[1..]| && rows[1..][i].id == id && Subscribed(rows[1..][i], eventType);
        assert rows[i + 1] == rows[1..][i];
      }
    }
  }

  /** Every task started goes to a subscribed webhook's URL and carries the caller's event type and data. */
  lemma FanoutTasksMatch(rows: seq<Webhook>, eventType: string, data: Payload, t: DeliveryTask)
    requires t in Fanout(rows, eventType, data)
    ensures exists w :: w in rows && Subscribed(w, eventType) && t == DeliveryTask(w.id, w.url, eventType, data)
  {
    var m := Admitting(Enabled(rows), eventType);
    var i :| 0 <= i < |m| && Fanout(rows, eventType, data)[i] == t;
    assert m[i] in m;
  }

  /** The delivery tasks one `trigger_webhook` call starts: none when selecting the subscriptions fails. */
  function Triggered(hooks: WebhookStore, eventType: string, data: Payload, selectFails: bool): seq<DeliveryTask>
    reads hooks
  {
    if selectFails then [] else Fanout(hooks.rows, eventType, data)
  }

  /**
   * `trigger_webhook(event_type, data)`: selects the subscriptions and starts one task per match.
   * An error while selecting them is logged and swallowed, so the call never fails.
   */
  method TriggerWebhook(loop: Dispatcher, store: WebhookStore, eventType: string, data: Payload, selectFails: bool)
    modifies loop
    ensures loop.started == old(loop.started) + (if selectFails then [] else Fanout(store.rows, eventType, data))
  {
    if selectFails {
      return;
    }
    var webhooks := Enabled(store.rows);
    var matching := Admitting(webhooks, eventType);
    ghost var before := loop.started;
    for i := 0 to |matching|
      invariant |loop.started| == |before| + i
      invariant loop.started[..|before|] == before
      invariant forall k :: 0 <= k < i ==> loop.started[|before| + k] == TaskFor(matching[k], eventType, data)
    {
      loop.started := loop.started + [TaskFor(matching[i], eventType, data)];
    }
    assert loop.started == before + Tasks(matching, eventType, data);
  }

  const MaxRetries: nat := 3
  const BaseDelay: nat := 1

  /** What one POST produced: a response, or an exception (connection error, timeout, ...). */
  datatype HttpOutcome = Response(statusCode: int, body: string) | Raised(error: string)

  /** `200 <= response.status_code < 300` */
  predicate Succeeded(o: HttpOutcome) {
    o.Response? && 200 <= o.statusCode < 300
  }

  function Pow2(k: nat): (r: nat)
    ensures r >= 1
  {
    if k == 0 then 1 else 2 * Pow2(k - 1)
  }

  /** One POST: its `retry_count`, where it went, what it sent, what came back, and the wait after it. */
  datatype Attempt = Attempt(retryCount: nat, url: string, envelope: Envelope, outcome: HttpOutcome, backoff: Option<nat>)

  /**
   * `send_webhook(url, event_type, data, retry_count)`. `answer(k)` is what the attempt with
   * `retry_count == k` gets back. A non-2xx response and an exception take the same branch:
   * retry after `base_delay * 2 ** retry_count` seconds while `retry_count < max_retries`.
   */
  function SendWebhook(url: string, eventType: string, data: Payload, answer: nat -> HttpOutcome, retryCount: nat): (trace: seq<Attempt>)
    decreases MaxRetries - retryCount
    ensures 1 <= |trace|
    ensures retryCount <= MaxRetries ==> |trace| <= MaxRetries + 1 - retryCount
  {
    var outcome := answer(retryCount);
    var sent := Envelope(eventType, data);
    if Succeeded(outcome) || retryCount >= MaxRetries then
      [Attempt(retryCount, url, sent, outcome, None)]
    else
      [Attempt(retryCount, url, sent, outcome, Some(BaseDelay * Pow2(retryCount)))]
        + SendWebhook(url, eventType, data, answer, retryCount + 1)
  }

  /**
   * The `i`-th attempt of a delivery has retry count `retryCount + i`, posts the envelope to
   * `url` and gets `answer(retryCount + i)`; an attempt that is not the last failed below the
   * retry limit and waits the backoff after it.
   */
  lemma {:induction false} AttemptAt(url: string, eventType: string, data: Payload, answer: nat -> HttpOutcome, retryCount: nat, i: nat)
    requires i < |SendWebhook(url, eventType, data, answer, retryCount)|
    decreases i
    ensures var trace := SendWebhook(url, eventType, data, answer, retryCount);
      && trace[i].retryCount == retryCount + i && trace[i].url == url
      && trace[i].envelope == Envelope(eventType, data) && trace[i].outcome == answer(retryCount + i)
      && trace[i].backoff == (if i < |trace| - 1 then Some(BaseDelay * Pow2(retryCount + i)) else None)
      && (i < |trace| - 1 ==> !Succeeded(trace[i].outcome) && retryCount + i < MaxRetries)
  {
    var trace := SendWebhook(url, eventType, data, answer, retryCount);
    if !Succeeded(answer(retryCount)) && retryCount < MaxRetries {
      var rest := SendWebhook(url, eventType, data, answer, retryCount + 1);
      assert trace == [trace[0]] + rest;
      if i > 0 {
        AttemptAt(url, eventType, data, answer, retryCount + 1, i - 1);
        assert trace[i] == rest[i - 1];
      }
    }
  }

  /** The last attempt of a delivery either succeeded or was made at the retry limit. */
  lemma {:induction false} LastAttempt(url: string, eventType: string, data: Payload, answer: nat -> HttpOutcome, retryCount: nat)
    decreases MaxRetries - retryCount
    ensures var trace := SendWebhook(url, eventType, data, answer, retryCount);
      Succeeded(trace[|trace| - 1].outcome) || retryCount + |trace| - 1 >= MaxRetries
  {
    if !Succeeded(answer(retryCount)) && retryCount < MaxRetries {
      LastAttempt(url, eventType, data, answer, retryCount + 1);
      var trace := SendWebhook(url, eventType, data, answer, retryCount);
      var rest := SendWebhook(url, eventType, data, answer, retryCount + 1);
      assert trace == [trace[0]] + rest;
      assert trace[|trace| - 1] == rest[|rest| - 1];
    }
  }

  /** `AttemptAt` and `LastAttempt` for the whole trace at once. */
  lemma SendWebhookTrace(url: string, eventType: string, data: Payload, answer: nat -> HttpOutcome, retryCount: nat)
    ensures var trace := SendWebhook(url, eventType, data, answer, retryCount);
      && (forall i :: 0 <= i < |trace| ==> trace[i] == Attempt(retryCount + i, url, Envelope(eventType, data),
        answer(retryCount + i), if i < |trace| - 1 then Some(BaseDelay * Pow2(retryCount + i)) else None))
      && (forall i :: 0 <= i < |trace| - 1 ==> !Succeeded(trace[i].outcome))
      && (Succeeded(trace[|trace| - 1].outcome) || retryCount + |trace| - 1 >= MaxRetries)
  {
    var trace := SendWebhook(url, eventType, data, answer, retryCount);
    forall i | 0 <= i < |trace|
      ensures trace[i] == Attempt(retryCount + i, url, Envelope(eventType, data),
        answer(retryCount + i), if i < |trace| - 1 then Some(BaseDelay * Pow2(retryCount + i)) else None)
      ensures i < |trace| - 1 ==> !Succeeded(trace[i].outcome)
    {
      AttemptAt(url, eventType, data, answer, retryCount, i);
    }
    LastAttempt(url, eventType, data, answer, retryCount);
  }

  /** The delivery ended with a 2xx response. */
  predicate Delivered(trace: seq<Attempt>)
    requires trace != []
  {
    Succeeded(trace[|trace| - 1].outcome)
  }

  /** The waits between attempts, in order. */
  function Delays(trace: seq<Attempt>): seq<nat> {
    if trace == [] then []
    else (match trace[0].backoff case Some(d) => [d] case None => []) + Delays(trace[1..])
  }

  /** `Delays` of a trace whose every attempt but the last waits. */
  lemma {:induction false} DelaysOf(t: seq<Attempt>)
    requires t != [] && t[|t| - 1].backoff == None
    requires forall i :: 0 <= i < |t| - 1 ==> t[i].backoff.Some?
    ensures |Delays(t)| == |t| - 1
    ensures forall i :: 0 <= i < |t| - 1 ==> Delays(t)[i] == t[i].backoff.value
  {
    if |t| > 1 {
      DelaysOf(t[1..]);
      assert Delays(t) == [t[0].backoff.value] + Delays(t[1..]);
    } else {
      assert t[1..] == [];
    }
  }

  /** Delivery succeeds iff one of the attempts up to retry count 3 gets a 2xx answer. */
  lemma DeliveredIff(url: string, eventType: string, data: Payload, answer: nat -> HttpOutcome, retryCount: nat)
    requires retryCount <= MaxRetries
    ensures Delivered(SendWebhook(url, eventType, data, answer, retryCount))
      <==> exists k :: retryCount <= k <= MaxRetries && Succeeded(answer(k))
  {
    var trace := SendWebhook(url, eventType, data, answer, retryCount);
    SendWebhookTrace(url, eventType, data, answer, retryCount);
    if Delivered(trace) {
      assert Succeeded(answer(retryCount + |trace| - 1));
    } else {
      forall k | retryCount <= k <= MaxRetries ensures !Succeeded(answer(k)) {
        assert trace[k - retryCount].outcome == answer(k);
      }
    }
  }

  /** The waits of a delivery are 1, 2, 4 seconds from its first attempt on: each twice the one before. */
  lemma DelaysDouble(url: string, eventType: string, data: Payload, answer: nat -> HttpOutcome, retryCount: nat)
    ensures var trace := SendWebhook(url, eventType, data, answer, retryCount);
      var d := Delays(trace);
      |d| == |trace| - 1 && forall i :: 0 <= i < |d| ==> d[i] == BaseDelay * Pow2(retryCount + i)
  {
    var trace := SendWebhook(url, eventType, data, answer, retryCount);
    SendWebhookTrace(url, eventType, data, answer, retryCount);
    DelaysOf(trace);
  }

  /** An endpoint that never answers 2xx gets exactly four attempts, separated by waits of 1, 2 and 4 seconds. */
  lemma AlwaysFailing(url: string, eventType: string, data: Payload, answer: nat -> HttpOutcome)
    requires forall k :: !Succeeded(answer(k))
    ensures var trace := SendWebhook(url, eventType, data, answer, 0);
      |trace| == MaxRetries + 1 && !Delivered(trace) && Delays(trace) == [1, 2, 4]
  {
    var trace := SendWebhook(url, eventType, data, answer, 0);
    SendWebhookTrace(url, eventType, data, answer, 0);
    assert !Succeeded(trace[|trace| - 1].outcome);
    DelaysOf(trace);
    assert Pow2(1) == 2 && Pow2(2) == 4;
  }

  /** The number of attempts depends only on which answers are 2xx. */
  lemma {:induction false} SameLength(url: string, eventType: string, data: Payload, a: nat -> HttpOutcome, b: nat -> HttpOutcome, retryCount: nat)
    requires forall k :: Succeeded(a(k)) == Succeeded(b(k))
    ensures |SendWebhook(url, eventType, data, a, retryCount)| == |SendWebhook(url, eventType, data, b, retryCount)|
    decreases MaxRetries - retryCount
  {
    if !Succeeded(a(retryCount)) && retryCount < MaxRetries {
      SameLength(url, eventType, data, a, b, retryCount + 1);
    }
  }

  /**
   * Only success or failure of each answer matters: two networks that fail the same attempts
   * (one with error responses, the other with exceptions, say) give the same schedule.
   */
  lemma SameSchedule(url: string, eventType: string, data: Payload, a: nat -> HttpOutcome, b: nat -> HttpOutcome, retryCount: nat)
    requires forall k :: Succeeded(a(k)) == Succeeded(b(k))
    ensures var ta, tb := SendWebhook(url, eventType, data, a, retryCount), SendWebhook(url, eventType, data, b, retryCount);
      |ta| == |tb| && Delays(ta) == Delays(tb)
      && forall i :: 0 <= i < |ta| ==> ta[i].retryCount == tb[i].retryCount && ta[i].backoff == tb[i].backoff
  {
    var ta, tb := SendWebhook(url, eventType, data, a, retryCount), SendWebhook(url, eventType, data, b, retryCount);
    SameLength(url, eventType, data, a, b, retryCount);
    forall i | 0 <= i < |ta| ensures ta[i].retryCount == tb[i].retryCount && ta[i].backoff == tb[i].backoff {
      AttemptAt(url, eventType, data, a, retryCount, i);
      AttemptAt(url, eventType, data, b, retryCount, i);
    }
    SameDelays(ta, tb);
  }

  lemma {:induction false} SameDelays(ta: seq<Attempt>, tb: seq<Attempt>)
    requires |ta| == |tb| && forall i :: 0 <= i < |ta| ==> ta[i].backoff == tb[i].backoff
    ensures Delays(ta) == Delays(tb)
  {
    if ta != [] {
      SameDelays(ta[1..], tb[1..]);
    }
  }
}
