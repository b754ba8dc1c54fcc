/** The four-stage sign-in (main.js:161-382) and its sequencing by
    `connectToGoogle` (main.js:129-159), as transitions over the session
    state.  A stage first checks three things: that a response arrived, that
    its status is the one the stage expects, and that it carries `Set-Cookie`
    headers.  Only then does it update the session. */
module Stages {
  import opened Wrappers
  import opened Text
  import opened Cookies
  import opened HiddenFields

  datatype Method = Get | Post

  /** A request as the source hands it to its transport: headers, query
      string and form fields in the order the source lists them.  `url` is
      `None` when the source passes `undefined`. */
  datatype Request = Request(
    verb: Method,
    url: Option<string>,
    headers: seq<(string, string)>,
    query: seq<(string, string)>,
    form: seq<(string, string)>)

  /** A response: status code, the `Set-Cookie` headers if any, the body and
      the `Location` header if any. */
  datatype Response = Response(
    status: int,
    setCookie: Option<seq<string>>,
    body: string,
    location: Option<string>)

  /** The network: what comes back for a request, `None` for a transport
      error or a missing response. */
  type Transport = Request -> Option<Response>

  datatype Credentials = Credentials(user: string, pass: string)

  /** The keys of `google_form` (main.js:57-61). */
  const FormKeys: set<string> := {"gxf", "ProfileInformation", "SessionState"}

  /** The globals a run updates: the cookie jar, the form tokens and the
      pending redirect URL `google_fourth_location_url` (`None` is
      `undefined`). */
  datatype SessionState = SessionState(jar: Jar, form: map<string, string>, pendingUrl: Option<string>)

  predicate WellFormed(s: SessionState)
  {
    IsJar(s.jar) && s.form.Keys == FormKeys
  }

  /** The globals as the program starts (main.js:38, 40-61). */
  function InitialSession(): (s: SessionState)
    ensures WellFormed(s) && s.jar == EmptyJar() && s.pendingUrl == Some("")
    ensures forall k :: k in s.form ==> s.form[k] == ""
  {
    SessionState(EmptyJar(), map["gxf" := "", "ProfileInformation" := "", "SessionState" := ""], Some(""))
  }

  /** The value of the first field named `key`. */
  function Field(fields: seq<(string, string)>, key: string): (r: Option<string>)
    ensures r.Some? <==> exists k :: 0 <= k < |fields| && fields[k].0 == key
  {
    if fields == [] then None
    else if fields[0].0 == key then Some(fields[0].1)
    else Field(fields[1..], key)
  }

  /** The field at `j` is the first one named `key`: `Field` finds it. */
  lemma {:induction false} FieldAt(fields: seq<(string, string)>, j: nat, key: string)
    requires j < |fields| && fields[j].0 == key
    requires forall k :: 0 <= k < j ==> fields[k].0 != key
    ensures Field(fields, key) == Some(fields[j].1)
  {
    if j > 0 {
      FieldAt(fields[1..], j - 1, key);
    }
  }

  /** The status a stage requires: 200 for the first two, 302 (a redirect)
      for the last two. */
  function ExpectedStatus(stage: nat): int
  {
    if stage <= 2 then 200 else 302
  }

  /** The three guards of a stage; when they pass, the `Set-Cookie` headers. */
  function Admit(resp: Option<Response>, expected: int): (hs: Option<seq<string>>)
    ensures hs.Some? <==> resp.Some? && resp.value.status == expected && resp.value.setCookie.Some?
    ensures hs.Some? ==> hs == resp.value.setCookie
  {
    if resp.Some? && resp.value.status == expected then resp.value.setCookie else None
  }

  const LoginUrl := "https://accounts.google.com/ServiceLogin"
  const LookupUrl := "https://accounts.google.com/signin/v1/lookup"
  const PasswordUrl := "https://accounts.google.com/signin/challenge/sl/password"

  /** Stage 1: fetch the sign-in page (main.js:165-173). */
  function FirstRequest(): (r: Request)
    ensures r.verb == Get && r.url == Some(LoginUrl) && r.headers == []
    ensures r.query == [("rip", "1"), ("nojavascript", "1")] && r.form == []
  {
    Request(Get, Some(LoginUrl), [], [("rip", "1"), ("nojavascript", "1")], [])
  }

  /** Fields named `names[i]` with values `values[i]`, in order. */
  function Fields(names: seq<string>, values: seq<string>): (fields: seq<(string, string)>)
    requires |names| == |values|
    ensures |fields| == |names|
  {
    seq(|names|, i requires 0 <= i < |names| => (names[i], values[i]))
  }

  /** The form fields of stage 2, in the source's order (main.js:220-235). */
  const LookupFormNames: seq<string> :=
    ["Page", "gxf", "rip", "ProfileInformation", "SessionState", "bgresponse",
     "pstMsg", "checkConnection", "checkedDomains", "Email", "identifiertoken",
     "identifiertoken_audio", "identifier-captcha-input", "signIn", "Passwd",
     "PersistentCookie"]

  /** Stage 2: send the e-mail address with the `GAPS` cookie and `gxf` (main.js:212-236). */
  function SecondRequest(c: Credentials, s: SessionState): (r: Request)
    requires WellFormed(s)
    ensures r.verb == Post && r.url == Some(LookupUrl) && |r.form| == |LookupFormNames|
    ensures Field(r.headers, "Cookie") == Some("GAPS=" + s.jar["GAPS"])
  {
    Request(Post, Some(LookupUrl),
      [("Cookie", "GAPS=" + s.jar["GAPS"])],
      [],
      Fields(LookupFormNames,
        ["PasswordSeparationSignIn", s.form["gxf"], "1", "", "", "js_disabled",
         "0", "", "youtube", c.user, "", "", "", "Weiter", "", "yes"]))
  }

  /** The `_utf8` field of stage 3, three characters as the source file holds them. */
  const Utf8Marker: string := ['\U{00E2}', '\U{02DC}', '\U{0192}']

  /** The form fields of stage 3, in the source's order (main.js:289-304). */
  const PasswordFormNames: seq<string> :=
    ["Page", "GALX", "gxf", "checkedDomains", "pstMsg", "rip", "ProfileInformation",
     "SessionState", "_utf8", "bgresponse", "checkConnection", "Email", "signIn",
     "Passwd", "PersistentCookie", "rmShown"]

  /** Stage 3: send the password with `GAPS`, `GALX` and the three form tokens (main.js:279-306). */
  function ThirdRequest(c: Credentials, s: SessionState): (r: Request)
    requires WellFormed(s)
    ensures r.verb == Post && r.url == Some(PasswordUrl) && |r.form| == |PasswordFormNames|
    ensures Field(r.headers, "Cookie") == Some("GAPS=" + s.jar["GAPS"] + "; " + "GALX=" + s.jar["GALX"])
  {
    Request(Post, Some(PasswordUrl),
      [("Cookie", "GAPS=" + s.jar["GAPS"] + "; " + "GALX=" + s.jar["GALX"]),
       ("Origin", "https://accounts.google.com"),
       ("Referer", LookupUrl),
       ("Upgrade-Insecure-Requests", "1")],
      [],
      Fields(PasswordFormNames,
        ["PasswordSeparationSignIn", s.jar["GALX"], s.form["gxf"], "youtube", "0", "1",
         s.form["ProfileInformation"], s.form["SessionState"], Utf8Marker, "js_disabled",
         "", c.user, "Weiter", c.pass, "yes", "1"]))
  }

  /** Stage 4: follow the redirect with the whole jar (main.js:345-353). */
  function FourthRequest(s: SessionState): (r: Request)
    requires WellFormed(s)
    ensures r.verb == Post && r.url == s.pendingUrl
    ensures Field(r.headers, "Cookie") == Some(Render(s.jar))
  {
    Request(Post, s.pendingUrl, [("Cookie", Render(s.jar))], [], [])
  }

  /** The request of stage `stage`. */
  function StageRequest(stage: nat, c: Credentials, s: SessionState): (r: Request)
    requires 1 <= stage <= 4 && WellFormed(s)
    ensures r.verb == (if stage == 1 then Get else Post)
    ensures stage == 4 ==> r.url == s.pendingUrl
  {
    if stage == 1 then FirstRequest()
    else if stage == 2 then SecondRequest(c, s)
    else if stage == 3 then ThirdRequest(c, s)
    else FourthRequest(s)
  }

  datatype StageResult = StageResult(ok: bool, session: SessionState)

  /** Stage 1 (main.js:175-204): on a 200 with cookies, take `gxf` from the
      page, then merge the cookies.  A page without the tag makes the source
      throw before anything is stored; here the stage fails. */
  function FirstStage(s: SessionState, resp: Option<Response>): (r: StageResult)
    requires WellFormed(s)
    ensures WellFormed(r.session)
  {
    match Admit(resp, ExpectedStatus(1))
    case None => StageResult(false, s)
    case Some(hs) =>
      match ExtractField(resp.value.body, Literals(GxfTag), 5)
      case None => StageResult(false, s)
      case Some(gxf) => StageResult(true, s.(jar := Merge(s.jar, hs), form := s.form["gxf" := gxf]))
  }

  /** Stage 2 (main.js:238-269): on a 200 with cookies, merge the cookies,
      then take `ProfileInformation` and then `SessionState` from the page.
      A missing tag makes the source throw with what it stored so far; here
      the stage fails with that state. */
  function SecondStage(s: SessionState, resp: Option<Response>): (r: StageResult)
    requires WellFormed(s)
    ensures WellFormed(r.session)
  {
    match Admit(resp, ExpectedStatus(2))
    case None => StageResult(false, s)
    case Some(hs) =>
      var jar := Merge(s.jar, hs);
      match ExtractField(resp.value.body, Literals(ProfileInformationTag), 7)
      case None => StageResult(false, s.(jar := jar))
      case Some(pi) =>
        var form := s.form["ProfileInformation" := pi];
        match ExtractField(resp.value.body, Literals(SessionStateTag), 7)
        case None => StageResult(false, s.(jar := jar, form := form))
        case Some(ss) => StageResult(true, s.(jar := jar, form := form["SessionState" := ss]))
  }

  /** Stage 3 (main.js:308-338): on a 302 with cookies, merge the cookies and
      keep the `Location` header as the pending URL. */
  function ThirdStage(s: SessionState, resp: Option<Response>): (r: StageResult)
    requires WellFormed(s)
    ensures WellFormed(r.session)
  {
    match Admit(resp, ExpectedStatus(3))
    case None => StageResult(false, s)
    case Some(hs) => StageResult(true, s.(jar := Merge(s.jar, hs), pendingUrl := resp.value.location))
  }

  /** Stage 4 (main.js:355-380): on a 302 with cookies, merge the cookies. */
  function FourthStage(s: SessionState, resp: Option<Response>): (r: StageResult)
    requires WellFormed(s)
    ensures WellFormed(r.session)
  {
    match Admit(resp, ExpectedStatus(4))
    case None => StageResult(false, s)
    case Some(hs) => StageResult(true, s.(jar := Merge(s.jar, hs)))
  }

  function RunStage(stage: nat, s: SessionState, resp: Option<Response>): (r: StageResult)
    requires 1 <= stage <= 4 && WellFormed(s)
    ensures WellFormed(r.session)
  {
    if stage == 1 then FirstStage(s, resp)
    else if stage == 2 then SecondStage(s, resp)
    else if stage == 3 then ThirdStage(s, resp)
    else FourthStage(s, resp)
  }

  /** A stage's guards fail exactly when it gets no response, a status other
      than the one it expects, or no `Set-Cookie`; then it fails and leaves the
      jar, the form and the pending URL as they were.  A stage that succeeds
      had its guards pass. */
  lemma GuardFailure(stage: nat, s: SessionState, resp: Option<Response>)
    requires 1 <= stage <= 4 && WellFormed(s)
    ensures Admit(resp, ExpectedStatus(stage)).None? ==> RunStage(stage, s, resp) == StageResult(false, s)
    ensures RunStage(stage, s, resp).ok ==>
      resp.Some? && resp.value.status == ExpectedStatus(stage) && resp.value.setCookie.Some?
  {
  }

  /** The password stage wants the redirect: a 200 there is a failure and
      changes nothing. */
  lemma PasswordStageRejectsOk(s: SessionState, resp: Option<Response>)
    requires WellFormed(s)
    requires resp.Some? && resp.value.status == 200
    ensures RunStage(3, s, resp) == StageResult(false, s)
  {
  }

  /** Stage 1 succeeds exactly when its guards pass and the page has the
      `gxf` tag; then `gxf` is the value token after `value="` in the tag,
      the cookies are merged and nothing else changes. */
  lemma FirstStageEffect(s: SessionState, resp: Option<Response>)
    requires WellFormed(s)
    ensures var r := FirstStage(s, resp);
      r.ok <==> Admit(resp, 200).Some? && ValueToken(resp.value.body, Literals(GxfTag)).Some?
    ensures var r := FirstStage(s, resp);
      r.ok ==> r.session == s.(jar := Merge(s.jar, resp.value.setCookie.value),
                               form := s.form["gxf" := ValueToken(resp.value.body, Literals(GxfTag)).value])
  {
    SourceTags();
    if resp.Some? {
      ExtractFieldIsValue(resp.value.body, GxfTag);
    }
  }

  /** Stage 2 succeeds exactly when its guards pass and the page has both
      tags; then `ProfileInformation` and `SessionState` are their value
      tokens, `gxf` and the pending URL are untouched and the cookies are
      merged. */
  lemma SecondStageEffect(s: SessionState, resp: Option<Response>)
    requires WellFormed(s)
    ensures var r := SecondStage(s, resp);
      r.ok <==> && Admit(resp, 200).Some?
                && ValueToken(resp.value.body, Literals(ProfileInformationTag)).Some?
                && ValueToken(resp.value.body, Literals(SessionStateTag)).Some?
    ensures var r := SecondStage(s, resp);
      r.ok ==> && r.session.jar == Merge(s.jar, resp.value.setCookie.value)
               && r.session.pendingUrl == s.pendingUrl
               && r.session.form["gxf"] == s.form["gxf"]
               && r.session.form["ProfileInformation"] == ValueToken(resp.value.body, Literals(ProfileInformationTag)).value
               && r.session.form["SessionState"] == ValueToken(resp.value.body, Literals(SessionStateTag)).value
  {
    SourceTags();
    if resp.Some? {
      ExtractFieldIsValue(resp.value.body, ProfileInformationTag);
      ExtractFieldIsValue(resp.value.body, SessionStateTag);
    }
  }

  /** Stage 3 succeeds exactly when its guards pass; then the pending URL is
      the response's `Location` header, set after the cookies are merged,
      and the form is untouched. */
  lemma ThirdStageEffect(s: SessionState, resp: Option<Response>)
    requires WellFormed(s)
    ensures var r := ThirdStage(s, resp); r.ok <==> Admit(resp, 302).Some?
    ensures var r := ThirdStage(s, resp);
      r.ok ==> r.session == SessionState(Merge(s.jar, resp.value.setCookie.value), s.form, resp.value.location)
  {
  }

  /** Stage 4 succeeds exactly when its guards pass; then only the jar changes. */
  lemma FourthStageEffect(s: SessionState, resp: Option<Response>)
    requires WellFormed(s)
    ensures var r := FourthStage(s, resp); r.ok <==> Admit(resp, 302).Some?
    ensures var r := FourthStage(s, resp);
      r.ok ==> r.session == s.(jar := Merge(s.jar, resp.value.setCookie.value))
  {
  }

  /** Stage 2 sends what the session holds: the `GAPS` cookie, `gxf` and
      the user name. */
  lemma LookupRequestCarries(c: Credentials, s: SessionState)
    requires WellFormed(s)
    ensures var r := SecondRequest(c, s);
      && r.verb == Post && r.url == Some(LookupUrl)
      && Field(r.headers, "Cookie") == Some("GAPS=" + s.jar["GAPS"])
      && Field(r.form, "gxf") == Some(s.form["gxf"])
      && Field(r.form, "Email") == Some(c.user)
  {
    var r := SecondRequest(c, s);
    FormNamesFirst();
    FieldAt(r.headers, 0, "Cookie");
    FieldAt(r.form, 1, "gxf");
    FieldAt(r.form, 9, "Email");
  }

  /** Stage 3 sends what the session holds: `GAPS` and `GALX` from the jar,
      the three form tokens and the credentials. */
  lemma PasswordRequestCarries(c: Credentials, s: SessionState)
    requires WellFormed(s)
    ensures var r := ThirdRequest(c, s);
      && r.verb == Post && r.url == Some(PasswordUrl)
      && Field(r.headers, "Cookie") == Some("GAPS=" + s.jar["GAPS"] + "; " + "GALX=" + s.jar["GALX"])
      && Field(r.form, "GALX") == Some(s.jar["GALX"])
      && Field(r.form, "gxf") == Some(s.form["gxf"])
      && Field(r.form, "ProfileInformation") == Some(s.form["ProfileInformation"])
      && Field(r.form, "SessionState") == Some(s.form["SessionState"])
      && Field(r.form, "Email") == Some(c.user)
      && Field(r.form, "Passwd") == Some(c.pass)
  {
    var r := ThirdRequest(c, s);
    FormNamesFirst();
    FieldAt(r.headers, 0, "Cookie");
    FieldAt(r.form, 1, "GALX");
    FieldAt(r.form, 2, "gxf");
    FieldAt(r.form, 6, "ProfileInformation");
    FieldAt(r.form, 7, "SessionState");
    FieldAt(r.form, 11, "Email");
    FieldAt(r.form, 13, "Passwd");
  }

  /** Where the fields the session fills first occur in the two forms. */
  lemma FormNamesFirst()
    ensures LookupFormNames[1] == "gxf" && forall k :: 0 <= k < 1 ==> LookupFormNames[k] != "gxf"
    ensures LookupFormNames[9] == "Email" && forall k :: 0 <= k < 9 ==> LookupFormNames[k] != "Email"
    ensures PasswordFormNames[1] == "GALX" && forall k :: 0 <= k < 1 ==> PasswordFormNames[k] != "GALX"
    ensures PasswordFormNames[2] == "gxf" && forall k :: 0 <= k < 2 ==> PasswordFormNames[k] != "gxf"
    ensures PasswordFormNames[6] == "ProfileInformation"
    ensures forall k :: 0 <= k < 6 ==> PasswordFormNames[k] != "ProfileInformation"
    ensures PasswordFormNames[7] == "SessionState" && forall k :: 0 <= k < 7 ==> PasswordFormNames[k] != "SessionState"
    ensures PasswordFormNames[11] == "Email" && forall k :: 0 <= k < 11 ==> PasswordFormNames[k] != "Email"
    ensures PasswordFormNames[13] == "Passwd" && forall k :: 0 <= k < 13 ==> PasswordFormNames[k] != "Passwd"
  {
  }

  /** After a successful stage 3, stage 4 posts to exactly the `Location` the
      redirect gave, with the rendering of the jar stage 3 left. */
  lemma RedirectFollowed(s: SessionState, resp: Option<Response>)
    requires WellFormed(s) && ThirdStage(s, resp).ok
    ensures var s3 := ThirdStage(s, resp).session; var r := FourthRequest(s3);
      && r.verb == Post
      && r.url == resp.value.location
      && Field(r.headers, "Cookie") == Some(Render(Merge(s.jar, resp.value.setCookie.value)))
  {
  }

  datatype Outcome = Authenticated | FailedAt(stage: nat)

  /** What one stage did: the request it sent and its result. */
  datatype Attempt = Attempt(request: Request, result: StageResult)

  /** Stage `stage` on session `s`: build its request, send it, run the stage
      on what comes back. */
  function StageAttempt(stage: nat, c: Credentials, s: SessionState, net: Transport): (a: Attempt)
    requires 1 <= stage <= 4 && WellFormed(s)
    ensures a.request == StageRequest(stage, c, s)
    ensures a.result == RunStage(stage, s, net(a.request))
  {
    var req := StageRequest(stage, c, s);
    Attempt(req, RunStage(stage, s, net(req)))
  }

  /** The stages of one sign-in as a total function of the stage number and
      the session; a session that is not well formed does not occur. */
  function StageSteps(c: Credentials, net: Transport): (nat, SessionState) -> Attempt
  {
    (stage: nat, s: SessionState) =>
      if 1 <= stage <= 4 && WellFormed(s) then StageAttempt(stage, c, s, net)
      else Attempt(FirstRequest(), StageResult(false, s))
  }

  /** A sign-in run: how it ended, the final session, the requests it sent
      and the session each of those stages started from. */
  datatype Run = Run(outcome: Outcome, session: SessionState, sent: seq<Request>, before: seq<SessionState>)

  /** Stages `stage`..4 in order, each run on the session the previous one
      left, stopping at the first that fails (main.js:129-159).  The run does
      not depend on what the stages do, which `attempt` gives. */
  function ConnectFrom(attempt: (nat, SessionState) -> Attempt, s: SessionState, stage: nat): (run: Run)
    requires 1 <= stage <= 5
    ensures |run.before| == |run.sent| <= 5 - stage
    decreases 5 - stage
  {
    if stage == 5 then Run(Authenticated, s, [], [])
    else
      var a := attempt(stage, s);
      if !a.result.ok then Run(FailedAt(stage), a.result.session, [a.request], [s])
      else
        var rest := ConnectFrom(attempt, a.result.session, stage + 1);
        Run(rest.outcome, rest.session, [a.request] + rest.sent, [s] + rest.before)
  }

  /** `connectToGoogle`: the four stages from the given session. */
  function Connect(c: Credentials, s: SessionState, net: Transport): (run: Run)
    requires WellFormed(s)
    ensures run.sent != []
  {
    ConnectFrom(StageSteps(c, net), s, 1)
  }

  /** A run that has stages left starts with the given stage on the given session. */
  lemma ConnectStart(attempt: (nat, SessionState) -> Attempt, s: SessionState, stage: nat)
    requires 1 <= stage < 5
    ensures var run := ConnectFrom(attempt, s, stage);
      |run.sent| >= 1 && run.before[0] == s && run.sent[0] == attempt(stage, s).request
  {
  }

  /** Request `i` of a run is the request of stage `stage + i` on the
      session that stage started from. */
  lemma {:induction false} ConnectRequestAt(attempt: (nat, SessionState) -> Attempt, s: SessionState, stage: nat, i: nat)
    requires 1 <= stage <= 5 && i < |ConnectFrom(attempt, s, stage).sent|
    ensures var run := ConnectFrom(attempt, s, stage);
      run.sent[i] == attempt(stage + i, run.before[i]).request
    decreases i
  {
    var a := attempt(stage, s);
    if i > 0 {
      ConnectRequestAt(attempt, a.result.session, stage + 1, i - 1);
    }
  }

  /** Stage `stage + i` of a run, when it is not the last, succeeded and left
      the session the next one started from. */
  lemma {:induction false} ConnectLinkAt(attempt: (nat, SessionState) -> Attempt, s: SessionState, stage: nat, i: nat)
    requires 1 <= stage <= 5 && i + 1 < |ConnectFrom(attempt, s, stage).sent|
    ensures var run := ConnectFrom(attempt, s, stage);
      attempt(stage + i, run.before[i]).result == StageResult(true, run.before[i + 1])
    decreases i
  {
    var a := attempt(stage, s);
    if i > 0 {
      ConnectLinkAt(attempt, a.result.session, stage + 1, i - 1);
    } else {
      ConnectStart(attempt, a.result.session, stage + 1);
    }
  }

  /** A run ends with its last stage: the session is the one that stage
      left, the run authenticated exactly when that stage succeeded, which
      only the fourth stage can end with, and otherwise it failed there. */
  lemma {:induction false} ConnectEnd(attempt: (nat, SessionState) -> Attempt, s: SessionState, stage: nat)
    requires 1 <= stage <= 5
    ensures var run := ConnectFrom(attempt, s, stage);
      run.sent == [] ==> run.session == s && run.outcome == Authenticated && stage == 5
    ensures var run := ConnectFrom(attempt, s, stage);
      run.sent != [] ==>
        var last := |run.sent| - 1;
        var r := attempt(stage + last, run.before[last]).result;
        && run.session == r.session
        && (run.outcome == Authenticated <==> r.ok)
        && (r.ok ==> |run.sent| == 5 - stage)
        && (!r.ok ==> run.outcome == FailedAt(stage + last))
    decreases 5 - stage
  {
    if stage < 5 {
      var a := attempt(stage, s);
      if a.result.ok {
        ConnectEnd(attempt, a.result.session, stage + 1);
        var rest := ConnectFrom(attempt, a.result.session, stage + 1);
        var run := ConnectFrom(attempt, s, stage);
        if rest.sent != [] {
          var last := |run.sent| - 1;
          assert run.before[last] == rest.before[last - 1];
        }
      }
    }
  }

  /** Every session a run passes through satisfies an invariant the stages keep. */
  lemma {:induction false} ConnectKeeps(attempt: (nat, SessionState) -> Attempt, inv: SessionState -> bool,
                                        s: SessionState, stage: nat)
    requires 1 <= stage <= 5 && inv(s)
    requires forall k: nat, t :: inv(t) ==> inv(attempt(k, t).result.session)
    ensures var run := ConnectFrom(attempt, s, stage);
      inv(run.session) && forall i :: 0 <= i < |run.before| ==> inv(run.before[i])
    decreases 5 - stage
  {
    if stage < 5 {
      var a := attempt(stage, s);
      if a.result.ok {
        ConnectKeeps(attempt, inv, a.result.session, stage + 1);
        var rest := ConnectFrom(attempt, a.result.session, stage + 1);
        var run := ConnectFrom(attempt, s, stage);
        forall i | 1 <= i < |run.before| ensures inv(run.before[i]) {
          assert run.before[i] == rest.before[i - 1];
        }
      }
    }
  }

  /** The stages keep the session well formed. */
  lemma StagesKeepWellFormed(c: Credentials, net: Transport)
    ensures forall k: nat, t :: WellFormed(t) ==> WellFormed(StageSteps(c, net)(k, t).result.session)
  {
  }

  /** Every session a sign-in from a well-formed session passes through is
      well formed. */
  lemma ConnectWellFormed(c: Credentials, s: SessionState, net: Transport)
    requires WellFormed(s)
    ensures var run := Connect(c, s, net);
      WellFormed(run.session) && forall i :: 0 <= i < |run.before| ==> WellFormed(run.before[i])
  {
    StagesKeepWellFormed(c, net);
    ConnectKeeps(StageSteps(c, net), WellFormed, s, 1);
  }

  /** Sign-in runs the stages in the order 1, 2, 3, 4: the first starts from
      the given session and each request is that stage's request on the
      session it started from. */
  lemma ConnectInOrder(c: Credentials, s: SessionState, net: Transport)
    requires WellFormed(s)
    ensures var run := Connect(c, s, net);
      && 1 <= |run.sent| && run.before[0] == s
      && (forall i :: 0 <= i < |run.sent| ==>
            WellFormed(run.before[i]) && run.sent[i] == StageRequest(i + 1, c, run.before[i]))
  {
    var run := Connect(c, s, net);
    ConnectStart(StageSteps(c, net), s, 1);
    ConnectWellFormed(c, s, net);
    forall i | 0 <= i < |run.sent| ensures run.sent[i] == StageRequest(i + 1, c, run.before[i]) {
      ConnectStep(c, s, net, i);
    }
  }

  /** Stage `i + 1` of a sign-in: its request and what it made of the answer. */
  lemma ConnectStep(c: Credentials, s: SessionState, net: Transport, i: nat)
    requires WellFormed(s) && i < |Connect(c, s, net).sent|
    ensures var run := Connect(c, s, net);
      && WellFormed(run.before[i])
      && run.sent[i] == StageRequest(i + 1, c, run.before[i])
      && StageSteps(c, net)(1 + i, run.before[i]).result == RunStage(i + 1, run.before[i], net(run.sent[i]))
  {
    var run := Connect(c, s, net);
    ConnectWellFormed(c, s, net);
    var t := run.before[i];
    assert WellFormed(t);
    ConnectRequestAt(StageSteps(c, net), s, 1, i);
    StagesAttempt(c, net, i + 1, t);
  }

  /** Stage `i + 1`, when it is not the last of a sign-in, succeeded on the
      answer to its request and left the session the next stage started from. */
  lemma ConnectLink(c: Credentials, s: SessionState, net: Transport, i: nat)
    requires WellFormed(s) && i + 1 < |Connect(c, s, net).sent|
    ensures var run := Connect(c, s, net);
      && WellFormed(run.before[i])
      && RunStage(i + 1, run.before[i], net(run.sent[i])) == StageResult(true, run.before[i + 1])
  {
    ConnectStep(c, s, net, i);
    ConnectLinkAt(StageSteps(c, net), s, 1, i);
  }

  /** Every stage but the last succeeded on the answer to its request and
      left the session the next stage started from. */
  lemma ConnectChained(c: Credentials, s: SessionState, net: Transport)
    requires WellFormed(s)
    ensures var run := Connect(c, s, net);
      && (forall i :: 0 <= i < |run.before| ==> WellFormed(run.before[i]))
      && (forall i :: 0 <= i < |run.sent| - 1 ==>
            RunStage(i + 1, run.before[i], net(run.sent[i])) == StageResult(true, run.before[i + 1]))
  {
    var run := Connect(c, s, net);
    ConnectWellFormed(c, s, net);
    forall i | 0 <= i < |run.sent| - 1
      ensures RunStage(i + 1, run.before[i], net(run.sent[i])) == StageResult(true, run.before[i + 1])
    {
      ConnectLink(c, s, net, i);
    }
  }

  /** The last stage a sign-in ran decides it: the final session is the one
      that stage left, the run authenticated exactly when that stage
      succeeded, which only the fourth can, and otherwise it failed there. */
  lemma ConnectLast(c: Credentials, s: SessionState, net: Transport)
    requires WellFormed(s)
    ensures var run := Connect(c, s, net);
      && 1 <= |run.sent| <= 4
      && WellFormed(run.before[|run.sent| - 1])
      && var last := |run.sent| - 1;
         var r := RunStage(last + 1, run.before[last], net(run.sent[last]));
         && run.session == r.session
         && (run.outcome == Authenticated <==> r.ok)
         && (r.ok ==> |run.sent| == 4)
         && (!r.ok ==> run.outcome == FailedAt(|run.sent|))
  {
    var run := Connect(c, s, net);
    ConnectEnd(StageSteps(c, net), s, 1);
    var last := |run.sent| - 1;
    ConnectStep(c, s, net, last);
    assert WellFormed(run.before[last]);
  }

  /** One step of a sign-in: stage `stage` sends its request; if it fails
      the run ends there, otherwise the rest of the run follows on the
      session it left. */
  lemma ConnectUnfold(c: Credentials, net: Transport, s: SessionState, stage: nat)
    requires 1 <= stage <= 4 && WellFormed(s)
    ensures var req := StageRequest(stage, c, s);
      var r := RunStage(stage, s, net(req));
      ConnectFrom(StageSteps(c, net), s, stage) ==
        if !r.ok then Run(FailedAt(stage), r.session, [req], [s])
        else
          var rest := ConnectFrom(StageSteps(c, net), r.session, stage + 1);
          Run(rest.outcome, rest.session, [req] + rest.sent, [s] + rest.before)
  {
    StagesAttempt(c, net, stage, s);
  }

  /** What the stage function does on a stage that exists. */
  lemma StagesAttempt(c: Credentials, net: Transport, stage: nat, s: SessionState)
    requires 1 <= stage <= 4 && WellFormed(s)
    ensures StageSteps(c, net)(stage, s) == Attempt(StageRequest(stage, c, s), RunStage(stage, s, net(StageRequest(stage, c, s))))
  {
  }

  /** The first failure ends sign-in: a run that failed at stage `k` sent
      exactly `k` requests, so no later stage ran, and the run authenticates
      exactly when the fourth stage ran and succeeded (the earlier ones then
      succeeded too, by `ConnectChained`). */
  lemma ConnectShortCircuits(c: Credentials, s: SessionState, net: Transport)
    requires WellFormed(s)
    ensures var run := Connect(c, s, net);
      && 1 <= |run.sent| <= 4
      && (forall i :: 0 <= i < |run.before| ==> WellFormed(run.before[i]))
      && (run.outcome.FailedAt? ==> run.outcome.stage == |run.sent|)
      && (run.outcome == Authenticated <==>
            |run.sent| == 4 && RunStage(4, run.before[3], net(run.sent[3])).ok)
  {
    ConnectWellFormed(c, s, net);
    ConnectLast(c, s, net);
  }

  /** A stage keeps the jar's values free of `;` and `=`. */
  lemma RunStageClean(stage: nat, s: SessionState, resp: Option<Response>)
    requires 1 <= stage <= 4 && WellFormed(s) && CleanValues(s.jar)
    ensures CleanValues(RunStage(stage, s, resp).session.jar)
  {
    match Admit(resp, ExpectedStatus(stage))
    case None =>
    case Some(hs) => MergeClean(s.jar, hs);
  }

  /** Every jar a sign-in passes through, from a jar whose values hold no
      `;` or `=`, still holds none. */
  lemma ConnectClean(c: Credentials, s: SessionState, net: Transport)
    requires WellFormed(s) && CleanValues(s.jar)
    ensures var run := Connect(c, s, net);
      CleanValues(run.session.jar) && forall i :: 0 <= i < |run.before| ==> CleanValues(run.before[i].jar)
  {
    var inv := (t: SessionState) => WellFormed(t) && CleanValues(t.jar);
    forall k: nat, t | inv(t) ensures inv(StageSteps(c, net)(k, t).result.session) {
      if 1 <= k <= 4 {
        StagesAttempt(c, net, k, t);
        RunStageClean(k, t, net(StageRequest(k, c, t)));
      }
    }
    ConnectKeeps(StageSteps(c, net), inv, s, 1);
  }

  /** The `Cookie` headers a sign-in from the start renders read back as the
      jars they render: stage 4's header (from the session it started on)
      and the header the location fetch sends (from the final session). */
  lemma SignInHeadersReadBack(c: Credentials, net: Transport)
    ensures var run := Connect(c, InitialSession(), net);
      && IsJar(run.session.jar)
      && Split(Render(run.session.jar), ';') == Entries(run.session.jar)
      && Merge(EmptyJar(), Split(Render(run.session.jar), ';')) == run.session.jar
      && forall i :: 0 <= i < |run.before| ==>
           IsJar(run.before[i].jar) && Split(Render(run.before[i].jar), ';') == Entries(run.before[i].jar)
  {
    var s := InitialSession();
    var run := Connect(c, s, net);
    ConnectClean(c, s, net);
    ConnectWellFormed(c, s, net);
    RenderRoundTrip(run.session.jar, EmptyJar());
    forall i | 0 <= i < |run.before| ensures Split(Render(run.before[i].jar), ';') == Entries(run.before[i].jar) {
      RenderRoundTrip(run.before[i].jar, EmptyJar());
    }
  }
}
