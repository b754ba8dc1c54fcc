/** The program's globals and the functions that update them in place:
    the four sign-in stages, `connectToGoogle`, `getSharedLocations` and
    `querySharedLocations`.  Each method is tied to the pure transition of
    the same step, so what is proved about those transitions holds of it. */
module Session {
  import opened Wrappers
  import opened Cookies
  import opened HiddenFields
  import opened Stages
  import opened Locations

  class Globals {
    /** `google_cookies` (main.js:40-56). */
    const jar: CookieJar
    /** `google_form` (main.js:57-61). */
    var form: map<string, string>
    /** `google_fourth_location_url` (main.js:38); `None` is `undefined`. */
    var fourthLocationUrl: Option<string>
    /** The account from the command line. */
    const credentials: Credentials

    ghost predicate Valid()
      reads this, jar
    {
      jar.Valid() && form.Keys == FormKeys
    }

    /** The globals as a value. */
    function State(): SessionState
      reads this, jar
    {
      SessionState(jar.cookies, form, fourthLocationUrl)
    }

    constructor (c: Credentials)
      ensures Valid() && fresh(jar)
      ensures State() == InitialSession() && credentials == c
    {
      jar := new CookieJar();
      form := map["gxf" := "", "ProfileInformation" := "", "SessionState" := ""];
      fourthLocationUrl := Some("");
      credentials := c;
    }

    /** `connectFirstStage`: fetch the sign-in page; on a 200 with cookies
        store `gxf`, then the cookies. */
    method ConnectFirstStage(net: Transport) returns (ok: bool, req: Request)
      requires Valid()
      modifies this, jar
      ensures Valid() && req == StageRequest(1, credentials, old(State()))
      ensures StageResult(ok, State()) == RunStage(1, old(State()), net(req))
    {
      req := FirstRequest();
      var response := net(req);
      if response.None? || response.value.status != 200 || response.value.setCookie.None? {
        return false, req;
      }
      var gxf := ExtractField(response.value.body, Literals(GxfTag), 5);
      if gxf.None? {
        return false, req;
      }
      form := form["gxf" := gxf.value];
      jar.SaveConnectionCookies(response.value.setCookie.value);
      ok := true;
    }

    /** `connectSecondStage`: send the e-mail address; on a 200 with cookies
        store the cookies, then `ProfileInformation`, then `SessionState`. */
    method ConnectSecondStage(net: Transport) returns (ok: bool, req: Request)
      requires Valid()
      modifies this, jar
      ensures Valid() && req == StageRequest(2, credentials, old(State()))
      ensures StageResult(ok, State()) == RunStage(2, old(State()), net(req))
    {
      req := SecondRequest(credentials, State());
      var response := net(req);
      if response.None? || response.value.status != 200 || response.value.setCookie.None? {
        return false, req;
      }
      jar.SaveConnectionCookies(response.value.setCookie.value);
      var profileInformation := ExtractField(response.value.body, Literals(ProfileInformationTag), 7);
      if profileInformation.None? {
        return false, req;
      }
      form := form["ProfileInformation" := profileInformation.value];
      var sessionState := ExtractField(response.value.body, Literals(SessionStateTag), 7);
      if sessionState.None? {
        return false, req;
      }
      form := form["SessionState" := sessionState.value];
      ok := true;
    }

    /** `connectThirdStage`: send the password; on a 302 with cookies store
        the cookies and the redirect URL. */
    method ConnectThirdStage(net: Transport) returns (ok: bool, req: Request)
      requires Valid()
      modifies this, jar
      ensures Valid() && req == StageRequest(3, credentials, old(State()))
      ensures StageResult(ok, State()) == RunStage(3, old(State()), net(req))
    {
      req := ThirdRequest(credentials, State());
      var response := net(req);
      if response.None? || response.value.status != 302 || response.value.setCookie.None? {
        return false, req;
      }
      jar.SaveConnectionCookies(response.value.setCookie.value);
      fourthLocationUrl := response.value.location;
      ok := true;
    }

    /** `connectFourthStage`: follow the redirect with the whole jar; on a
        302 with cookies store the cookies. */
    method ConnectFourthStage(net: Transport) returns (ok: bool, req: Request)
      requires Valid()
      modifies this, jar
      ensures Valid() && req == StageRequest(4, credentials, old(State()))
      ensures StageResult(ok, State()) == RunStage(4, old(State()), net(req))
    {
      var cookieheader := jar.GetCookieHeader();
      req := Request(Post, fourthLocationUrl, [("Cookie", cookieheader)], [], []);
      var response := net(req);
      if response.None? || response.value.status != 302 || response.value.setCookie.None? {
        return false, req;
      }
      jar.SaveConnectionCookies(response.value.setCookie.value);
      ok := true;
    }

    /** `connectToGoogle`: the four stages in order, stopping at the first
        that fails; the outcome, the requests and the new globals are those
        of the sign-in run. */
    method ConnectToGoogle(net: Transport) returns (outcome: Outcome, sent: seq<Request>)
      requires Valid()
      modifies this, jar
      ensures Valid()
      ensures var run := Connect(credentials, old(State()), net);
        outcome == run.outcome && sent == run.sent && State() == run.session
    {
      ghost var s0 := State();
      var ok, req := ConnectFirstStage(net);
      ConnectUnfold(credentials, net, s0, 1);
      if !ok {
        return FailedAt(1), [req];
      }
      ghost var s1 := State();
      var req2;
      ok, req2 := ConnectSecondStage(net);
      ConnectUnfold(credentials, net, s1, 2);
      if !ok {
        return FailedAt(2), [req, req2];
      }
      ghost var s2 := State();
      var req3;
      ok, req3 := ConnectThirdStage(net);
      ConnectUnfold(credentials, net, s2, 3);
      if !ok {
        Consed3(req, req2, req3);
        return FailedAt(3), [req, req2, req3];
      }
      ghost var s3 := State();
      var req4;
      ok, req4 := ConnectFourthStage(net);
      ConnectUnfold(credentials, net, s3, 4);
      Consed4(req, req2, req3, req4);
      if !ok {
        return FailedAt(4), [req, req2, req3, req4];
      }
      outcome, sent := Authenticated, [req, req2, req3, req4];
    }

    /** `getSharedLocations`: query the roster with the whole jar; a 200
        answer is de-framed, parsed and turned into records. */
    method GetSharedLocations(net: Transport, parse: string -> Option<Json>, now: nat)
      returns (users: Option<seq<User>>, req: Request)
      requires Valid()
      ensures req == FetchRequest(State()) && users == Fetch(net(req), parse, now)
    {
      var cookieheader := jar.GetCookieHeader();
      req := Request(Get, Some(MapsUrl), [("Cookie", cookieheader)], [("authuser", "0"), ("pb", "")], []);
      var response := net(req);
      if response.None? || response.value.status != 200 {
        return None, req;
      }
      var locationdata := parse(Deframe(response.value.body));
      if locationdata.None? {
        return None, req;
      }
      users := ParseLocationData(locationdata.value, now);
    }

    /** `querySharedLocations`: sign in, fetch the roster and print one line
        per user; the outcome is the query's. */
    method QuerySharedLocations(net: Transport, parse: string -> Option<Json>, now: nat)
      returns (ok: bool, lines: seq<string>, sent: seq<Request>)
      requires Valid()
      modifies this, jar
      ensures Valid()
      ensures var q := Query(credentials, old(State()), net, parse, now);
        ok == q.ok && lines == q.lines && sent == q.sent && State() == q.session
    {
      var outcome;
      outcome, sent := ConnectToGoogle(net);
      if outcome != Authenticated {
        return false, [], sent;
      }
      var users, req := GetSharedLocations(net, parse, now);
      sent := sent + [req];
      if users.None? {
        return false, [], sent;
      }
      lines, ok := EmitUsers(users.value);
    }
  }

  /** A sequence of three written as the sign-in run builds it. */
  lemma Consed3<T>(a: T, b: T, c: T)
    ensures [a, b, c] == [a] + ([b] + [c])
  {
  }

  /** A sequence of four written as the sign-in run builds it. */
  lemma Consed4<T>(a: T, b: T, c: T, d: T)
    ensures [a, b, c, d] == [a] + ([b] + ([c] + [d]))
    ensures [a, b, c, d] == [a] + ([b] + ([c] + ([d] + [])))
  {
    assert [d] + [] == [d];
  }
}
