/**
 * `NotificationService` (backend/src/notification/notification.service.ts).
 *
 * The constructor decides once whether push is available. A notification
 * request expands into an ordered list of sends: the e-mail (if any)
 * first, then one push message per device token, in token order. The
 * settled outcome of each send, supplied here in submission order, becomes
 * one entry of the report, in the same order. The concurrency of
 * `Promise.allSettled` is not modelled: outcomes are an input.
 */
module Notification {
  import opened Wrappers
  import opened JsValue

  /** The e-mail part of a request. */
  datatype EmailPart = EmailPart(
    from: string, to: string, subject: string,
    text: Option<string>, templatePath: Option<string>, templateData: Option<map<string, Value>>)

  /** The push part of a request. */
  datatype PushPart = PushPart(title: string, message: string, image: Option<string>, deviceTokens: seq<string>)

  datatype Request = Request(email: Option<EmailPart>, push: Option<PushPart>)

  /** The options handed to the mail service. */
  datatype MailOptions = MailOptions(
    from: string, to: string, subject: string,
    text: Option<string>, templatePath: Option<string>, templateData: Option<map<string, Value>>)

  /** A push message handed to the messaging provider. */
  datatype PushMessage = PushMessage(token: string, title: string, body: string, imageUrl: Option<string>)

  /** One send issued by the service. */
  datatype Send = Mail(options: MailOptions) | Push(message: PushMessage)

  /** How a send settled: `Promise.allSettled`'s fulfilled value or rejection reason. */
  datatype Settled = Fulfilled(value: Value) | Rejected(reason: Value)

  /** One entry of the report: `{status, value}` or `{status, error}`; an absent key is `None`. */
  datatype Entry = Entry(status: string, value: Option<Value>, error: Option<Value>)

  datatype Report = Report(message: string, results: seq<Entry>)

  datatype ServiceAccount = ServiceAccount(projectId: string, privateKey: string, clientEmail: string)

  /** A Firebase app, with the credentials it was initialised with. */
  datatype FirebaseApp = FirebaseApp(credential: ServiceAccount)

  /** The reply of `testPushNotification`. */
  datatype TestReport = TestReport(message: string, messageId: Value)

  /** What `testPushNotification` throws. */
  datatype TestFailure = PushNotConfigured | SendFailed(reason: Value)

  const NotConfigured := "Push notification not configured on server"
  const Processed := "Notifications processed"
  const TestTitle := "Test Notification"
  const TestBody := "This is a test push notification"
  const TestSent := "Test notification sent successfully"

  /** `configService.get(key)`, taken as a truthy string. */
  predicate HasSetting(config: map<string, string>, key: string) {
    key in config && config[key] != ""
  }

  /** Lines 18-26: the service account, when all three credentials are set and non-empty. */
  function Credentials(config: map<string, string>): (r: Option<ServiceAccount>)
    ensures r.Some? <==>
      HasSetting(config, "FIREBASE_PROJECT_ID") && HasSetting(config, "FIREBASE_PRIVATE_KEY")
      && HasSetting(config, "FIREBASE_CLIENT_EMAIL")
    ensures r.Some? ==>
      r.value == ServiceAccount(config["FIREBASE_PROJECT_ID"], config["FIREBASE_PRIVATE_KEY"], config["FIREBASE_CLIENT_EMAIL"])
  {
    if HasSetting(config, "FIREBASE_PROJECT_ID") && HasSetting(config, "FIREBASE_PRIVATE_KEY")
       && HasSetting(config, "FIREBASE_CLIENT_EMAIL")
    then Some(ServiceAccount(config["FIREBASE_PROJECT_ID"], config["FIREBASE_PRIVATE_KEY"], config["FIREBASE_CLIENT_EMAIL"]))
    else None
  }

  function MailOptionsOf(e: EmailPart): MailOptions {
    MailOptions(e.from, e.to, e.subject, e.text, e.templatePath, e.templateData)
  }

  /** Lines 65-72: the message for one device token. */
  function MessageFor(p: PushPart, token: string): PushMessage {
    PushMessage(token, p.title, p.message, p.image)
  }

  /** The e-mail send of a request: one, or none. */
  function EmailSends(req: Request): seq<Send> {
    if req.email.Some? then [Mail(MailOptionsOf(req.email.value))] else []
  }

  /** One push send per token, in token order. */
  function PushSends(p: PushPart, tokens: seq<string>): seq<Send> {
    if tokens == [] then [] else [Push(MessageFor(p, tokens[0]))] + PushSends(p, tokens[1..])
  }

  /** Every send a request asks for, e-mail first. */
  function Expand(req: Request): seq<Send> {
    EmailSends(req) + (if req.push.Some? then PushSends(req.push.value, req.push.value.deviceTokens) else [])
  }

  /** The sends actually started: without push configured, only the e-mail starts before the call fails. */
  function Issued(req: Request, configured: bool): (r: seq<Send>)
    ensures |r| <= |Expand(req)| && r == Expand(req)[..|r|]
    ensures req.push.Some? && !configured ==> forall k :: 0 <= k < |r| ==> r[k].Mail?
    ensures (req.push.None? || configured) ==> |r| == |Expand(req)|
  {
    if req.push.Some? && !configured then EmailSends(req) else Expand(req)
  }

  /** Lines 110-115: one settled outcome as a report entry. */
  function EntryOf(o: Settled): Entry {
    match o
    case Fulfilled(v) => Entry("fulfilled", Some(v), None)
    case Rejected(e) => Entry("rejected", None, Some(e))
  }

  /** `results.map(...)`: one entry per outcome, in order. */
  function Collect(outcomes: seq<Settled>): seq<Entry> {
    seq(|outcomes|, k requires 0 <= k < |outcomes| => EntryOf(outcomes[k]))
  }

  /**
   * The result of `sendNotification`, given whether push is configured and
   * the outcome of each send of `Expand(req)` in submission order.
   */
  function Dispatch(req: Request, configured: bool, outcomes: seq<Settled>): (r: Result<Report, string>)
    requires |outcomes| == |Expand(req)|
    ensures r.Err? <==> req.push.Some? && !configured
    ensures r.Err? ==> r.error == NotConfigured
    ensures r.Ok? ==> r.value.message == Processed && |r.value.results| == |outcomes|
    ensures r.Ok? ==> forall k :: 0 <= k < |outcomes| ==> r.value.results[k] == EntryOf(outcomes[k])
  {
    if req.push.Some? && !configured then Err(NotConfigured)
    else Ok(Report(Processed, Collect(outcomes)))
  }

  lemma {:induction false} PushSendsAt(p: PushPart, tokens: seq<string>, i: nat)
    requires i < |tokens|
    ensures |PushSends(p, tokens)| == |tokens|
    ensures PushSends(p, tokens)[i] == Push(MessageFor(p, tokens[i]))
  {
    if i > 0 {
      PushSendsAt(p, tokens[1..], i - 1);
    } else {
      PushSendsLength(p, tokens);
    }
  }

  lemma {:induction false} PushSendsLength(p: PushPart, tokens: seq<string>)
    ensures |PushSends(p, tokens)| == |tokens|
  {
    if tokens != [] {
      PushSendsLength(p, tokens[1..]);
    }
  }

  /** Appending a token appends its message: the step of the `forEach` loop. */
  lemma {:induction false} PushSendsSnoc(p: PushPart, tokens: seq<string>, t: string)
    ensures PushSends(p, tokens + [t]) == PushSends(p, tokens) + [Push(MessageFor(p, t))]
  {
    if tokens == [] {
      assert [] + [t] == [t];
    } else {
      assert (tokens + [t])[1..] == tokens[1..] + [t];
      PushSendsSnoc(p, tokens[1..], t);
    }
  }

  /** A present e-mail part is sent exactly once, first, with every field unchanged. */
  lemma EmailSentFirst(req: Request, configured: bool)
    requires req.email.Some?
    ensures |EmailSends(req)| == 1 && Issued(req, configured)[0] == Mail(MailOptionsOf(req.email.value))
    ensures var o := Issued(req, configured)[0].options; var e := req.email.value;
      o.from == e.from && o.to == e.to && o.subject == e.subject && o.text == e.text
      && o.templatePath == e.templatePath && o.templateData == e.templateData
    ensures forall k :: 1 <= k < |Issued(req, configured)| ==> Issued(req, configured)[k].Push?
  {
    var issued := Issued(req, configured);
    if req.push.Some? {
      PushSendsLength(req.push.value, req.push.value.deviceTokens);
    }
    forall k | 1 <= k < |issued| ensures issued[k].Push? {
      var p := req.push.value;
      PushSendsAt(p, p.deviceTokens, k - 1);
    }
  }

  /** When push goes out, `k` device tokens add exactly `k` sends, the i-th for token i. */
  lemma {:induction false} PushSendsInTokenOrder(req: Request, i: nat)
    requires req.push.Some? && i < |req.push.value.deviceTokens|
    ensures var p := req.push.value;
      |Expand(req)| == |EmailSends(req)| + |p.deviceTokens|
      && Expand(req)[|EmailSends(req)| + i] == Push(PushMessage(p.deviceTokens[i], p.title, p.message, p.image))
  {
    var p := req.push.value;
    PushSendsAt(p, p.deviceTokens, i);
  }

  /** Push requested without configuration: the call fails and no push send is started. */
  lemma NotConfiguredFails(req: Request, outcomes: seq<Settled>)
    requires req.push.Some? && |outcomes| == |Expand(req)|
    ensures Dispatch(req, false, outcomes) == Err(NotConfigured)
    ensures forall k :: 0 <= k < |Issued(req, false)| ==> Issued(req, false)[k].Mail?
  {
  }

  /**
   * Otherwise the report has one entry per issued send, in issue order;
   * entry i is fulfilled with outcome i's value or rejected with its
   * reason, never both.
   */
  lemma ReportMatchesSends(req: Request, configured: bool, outcomes: seq<Settled>, i: nat)
    requires |outcomes| == |Expand(req)| && (req.push.None? || configured)
    requires i < |outcomes|
    ensures Dispatch(req, configured, outcomes).Ok?
    ensures var results := Dispatch(req, configured, outcomes).value.results;
      |results| == |Issued(req, configured)|
      && (outcomes[i].Fulfilled? ==>
            results[i].status == "fulfilled" && results[i].value == Some(outcomes[i].value) && results[i].error.None?)
      && (outcomes[i].Rejected? ==>
            results[i].status == "rejected" && results[i].error == Some(outcomes[i].reason) && results[i].value.None?)
  {
  }

  /** A rejection changes only its own entry: every other entry is as before. */
  lemma FaultIsolation(req: Request, configured: bool, outcomes: seq<Settled>, j: nat, o: Settled)
    requires |outcomes| == |Expand(req)| && (req.push.None? || configured) && j < |outcomes|
    ensures var before := Dispatch(req, configured, outcomes).value.results;
      var after := Dispatch(req, configured, outcomes[j := o]).value.results;
      |before| == |after| && forall k :: 0 <= k < |before| && k != j ==> after[k] == before[k]
  {
  }

  /** A request with neither part is processed, with an empty report. */
  lemma EmptyRequest(configured: bool)
    ensures Expand(Request(None, None)) == []
    ensures Dispatch(Request(None, None), configured, []) == Ok(Report(Processed, []))
  {
    assert Collect([]) == [];
  }

  /**
   * The service: `firebaseApp` is set by the constructor and never changes.
   */
  class NotificationService {
    const firebaseApp: Option<FirebaseApp>

    /**
     * `config` holds the environment as `ConfigService` reads it;
     * `existingApp` is the default Firebase app already initialised in the
     * process, if any (`admin.apps`).
     */
    constructor(config: map<string, string>, existingApp: Option<FirebaseApp>)
      ensures firebaseApp.Some? <==> Credentials(config).Some?
      ensures Credentials(config).Some? ==>
        firebaseApp == Some(if existingApp.Some? then existingApp.value else FirebaseApp(Credentials(config).value))
    {
      var account := Credentials(config);
      if account.Some? {
        if existingApp.None? {
          firebaseApp := Some(FirebaseApp(account.value));
        } else {
          firebaseApp := existingApp;
        }
      } else {
        firebaseApp := None;
      }
    }

    /**
     * `sendNotification(dto)`. `outcomes[k]` is how the k-th send of
     * `Expand(req)` settles. Returns the sends started and the reply, or
     * the error thrown.
     */
    method SendNotification(req: Request, outcomes: seq<Settled>) returns (issued: seq<Send>, r: Result<Report, string>)
      requires |outcomes| == |Expand(req)|
      ensures issued == Issued(req, firebaseApp.Some?)
      ensures r == Dispatch(req, firebaseApp.Some?, outcomes)
    {
      var promises: seq<Send> := [];
      if req.email.Some? {
        promises := promises + [Mail(MailOptionsOf(req.email.value))];
      }
      if req.push.Some? {
        if firebaseApp.None? {
          issued := promises;
          r := Err(NotConfigured);
          return;
        }
        var push := req.push.value;
        var tokens := push.deviceTokens;
        ghost var emailSends := promises;
        assert emailSends == EmailSends(req);
        var i := 0;
        while i < |tokens|
          invariant 0 <= i <= |tokens|
          invariant promises == emailSends + PushSends(push, tokens[..i])
        {
          var token := tokens[i];
          assert tokens[..i + 1] == tokens[..i] + [token];
          PushSendsSnoc(push, tokens[..i], token);
          promises := promises + [Push(MessageFor(push, token))];
          i := i + 1;
        }
        assert tokens[..i] == tokens;
      }
      issued := promises;
      var results: seq<Entry> := Collect(outcomes);
      r := Ok(Report(Processed, results));
    }

    /**
     * `testPushNotification(deviceToken)`. `response` is how the provider
     * settles the one send. Returns the message sent, if any, and the reply
     * or the error thrown.
     */
    method TestPushNotification(deviceToken: string, response: Settled)
      returns (sent: Option<PushMessage>, r: Result<TestReport, TestFailure>)
      ensures firebaseApp.None? ==> sent.None? && r == Err(PushNotConfigured)
      ensures firebaseApp.Some? ==> sent == Some(PushMessage(deviceToken, TestTitle, TestBody, None))
      ensures firebaseApp.Some? && response.Fulfilled? ==> r == Ok(TestReport(TestSent, response.value))
      ensures firebaseApp.Some? && response.Rejected? ==> r == Err(SendFailed(response.reason))
    {
      if firebaseApp.None? {
        return None, Err(PushNotConfigured);
      }
      sent := Some(PushMessage(deviceToken, TestTitle, TestBody, None));
      match response {
        case Fulfilled(id) => r := Ok(TestReport(TestSent, id));
        case Rejected(e) => r := Err(SendFailed(e));
      }
    }
  }
}
