/** The location fetch (main.js:385-423): the de-framing of the response
    body, the roster mapping of the parsed JSON (main.js:477-512) and the
    output line of each user (main.js:78-87). */
module Locations {
  import opened Wrappers
  import opened Text
  import opened Cookies
  import opened Stages

  /** `body.split('\n').slice(1, -1).join('')`: the lines of the body without
      the first and the last, concatenated. */
  function Deframe(body: string): (r: string)
    ensures '\n' !in r
  {
    SplitPieces(body, '\n');
    JoinWithout(Middle(Split(body, '\n')), '\n');
    Join(Middle(Split(body, '\n')), "")
  }

  /** `lines.slice(1, -1)`: empty when there are at most two lines. */
  function Middle(lines: seq<string>): seq<string>
  {
    if |lines| <= 2 then [] else lines[1..|lines| - 1]
  }

  /** A body made of lines without line breaks de-frames to its inner lines
      concatenated. */
  lemma DeframeLines(lines: seq<string>)
    requires |lines| >= 1
    requires forall k :: 0 <= k < |lines| ==> '\n' !in lines[k]
    ensures Deframe(Join(lines, "\n")) == Join(Middle(lines), "")
  {
    SplitJoin(lines, '\n');
  }

  /** A three-line body de-frames to exactly its middle line. */
  lemma DeframeThreeLines(first: string, middle: string, last: string)
    requires '\n' !in first && '\n' !in middle && '\n' !in last
    ensures Deframe(first + "\n" + middle + "\n" + last) == middle
  {
    var lines := [first, middle, last];
    assert Join(lines[1..], "\n") == middle + "\n" + last by {
      assert lines[1..][1..] == [last];
    }
    assert Join(lines, "\n") == first + "\n" + middle + "\n" + last;
    assert forall k :: 0 <= k < |lines| ==> '\n' !in lines[k];
    DeframeLines(lines);
    assert Middle(lines) == [middle];
    assert Join([middle], "") == middle;
  }

  /** A body of at most two lines de-frames to "". */
  lemma DeframeShort(body: string)
    requires multiset(body)['\n'] <= 1
    ensures Deframe(body) == ""
  {
    SplitCount(body, '\n');
  }

  /** Joining pieces without `c` with no separator gives a string without `c`. */
  lemma {:induction false} JoinWithout(parts: seq<string>, c: char)
    requires forall k :: 0 <= k < |parts| ==> c !in parts[k]
    ensures c !in Join(parts, "")
  {
    if |parts| > 1 {
      JoinWithout(parts[1..], c);
      assert Join(parts, "") == parts[0] + Join(parts[1..], "");
    }
  }

  /** A JSON value.  Numbers are kept as the text JavaScript renders them
      with; no arithmetic is done on them. */
  datatype Json =
    | JNull
    | JBool(b: bool)
    | JNumber(text: string)
    | JString(s: string)
    | JArray(items: seq<Json>)
    | JObject(members: map<string, Json>)

  /** The outcome of `x[i]` in JavaScript: a TypeError, or a value that may be
      `undefined` (`None`). */
  datatype Access = Fails | Got(v: Option<Json>)

  /** A value that is neither `undefined` nor `null`: indexing it does not throw. */
  predicate Defined(x: Option<Json>)
  {
    x.Some? && x.value != JNull
  }

  /** `x[i]`: indexing `undefined` or `null` throws; an array or a string
      gives its element (a one-character string) or `undefined` past the end;
      an object gives its member named by the decimal text of `i`; anything
      else gives `undefined`. */
  function Index(x: Option<Json>, i: nat): (a: Access)
    ensures a.Fails? <==> !Defined(x)
  {
    if !Defined(x) then Fails
    else match x.value
      case JArray(items) => Got(if i < |items| then Some(items[i]) else None)
      case JString(s) => Got(if i < |s| then Some(JString([s[i]])) else None)
      case JObject(members) => Got(if NatText(i) in members then Some(members[NatText(i)]) else None)
      case _ => Got(None)
  }

  /** `x[p0][p1]...`: the first TypeError ends the walk. */
  function Path(x: Option<Json>, path: seq<nat>): (a: Access)
    ensures path == [] ==> a == Got(x)
    ensures path != [] && !Defined(x) ==> a.Fails?
    ensures path != [] && a.Got? ==> Defined(x)
    decreases |path|
  {
    if path == [] then Got(x)
    else match Index(x, path[0])
      case Fails => Fails
      case Got(y) => Path(y, path[1..])
  }

  /** The decimal text of a natural number, as `String(n)` writes it. */
  function NatText(n: nat): (t: string)
    ensures |t| >= 1 && forall k :: 0 <= k < |t| ==> '0' <= t[k] <= '9'
  {
    if n < 10 then [Digit(n)] else NatText(n / 10) + [Digit(n % 10)]
  }

  function Digit(d: nat): char
    requires d < 10
  {
    ('0' as int + d) as char
  }

  /** The number a string of decimal digits denotes. */
  function DigitsValue(t: string): nat
    requires forall k :: 0 <= k < |t| ==> '0' <= t[k] <= '9'
  {
    if t == [] then 0 else DigitsValue(t[..|t| - 1]) * 10 + (t[|t| - 1] as int - '0' as int)
  }

  /** The decimal text of `n` reads back as `n`. */
  lemma {:induction false} NatTextValue(n: nat)
    ensures DigitsValue(NatText(n)) == n
  {
    if n >= 10 {
      NatTextValue(n / 10);
      var t := NatText(n);
      assert t[..|t| - 1] == NatText(n / 10);
    }
  }

  /** One user's record (main.js:502-509).  The fields other than the time are
      copied from the JSON, `None` where the source reads `undefined`. */
  datatype User = User(
    time: nat,
    id: Option<Json>,
    photoURL: Option<Json>,
    name: Option<Json>,
    lat: Option<Json>,
    long: Option<Json>)

  /** `extractUserLocationData`: the record of one element of the roster, or
      `None` where reading a position throws.  `now` is the clock reading in
      seconds. */
  function ExtractUser(userdata: Json, now: nat): (r: Option<User>)
    ensures r.Some? ==> userdata != JNull && r.value.time == now
  {
    var u := Some(userdata);
    match (Path(u, [0, 0]), Path(u, [0, 1]), Path(u, [0, 3]), Path(u, [1, 1, 2]), Path(u, [1, 1, 1]))
    case (Got(id), Got(photo), Got(name), Got(lat), Got(long)) => Some(User(now, id, photo, name, lat, long))
    case _ => None
  }

  /** Indexing twice: the first step gives a value, the second indexes it. */
  lemma PathTwo(x: Option<Json>, i: nat, j: nat)
    ensures Path(x, [i, j]) == (match Index(x, i) case Fails => Fails case Got(y) => Index(y, j))
  {
    assert [i, j][1..] == [j] && [j][1..] == [];
    if Index(x, i).Got? {
      var y := Index(x, i).v;
      assert Path(y, [j]) == (match Index(y, j) case Fails => Fails case Got(z) => Path(z, []));
    }
  }

  lemma PathThree(x: Option<Json>, i: nat, j: nat, k: nat)
    ensures Path(x, [i, j, k]) == (match Index(x, i) case Fails => Fails case Got(y) => Path(y, [j, k]))
  {
    assert [i, j, k][1..] == [j, k];
  }

  /** A record exists exactly when the element, its position 0, its position
      1 and position 1 of that are all defined; then each field is read from
      its fixed position: `id` from [0][0], `photoURL` from [0][1], `name`
      from [0][3], `lat` from [1][1][2] and `long` from [1][1][1]. */
  lemma ExtractUserPositions(userdata: Json, now: nat)
    ensures var u := Some(userdata);
      ExtractUser(userdata, now).Some? <==>
        && userdata != JNull
        && Defined(Index(u, 0).v)
        && Defined(Index(u, 1).v)
        && Defined(Index(Index(u, 1).v, 1).v)
    ensures var u := Some(userdata); var r := ExtractUser(userdata, now);
      r.Some? ==>
        var first, loc := Index(u, 0).v, Index(Index(u, 1).v, 1).v;
        && r.value.time == now
        && r.value.id == Index(first, 0).v
        && r.value.photoURL == Index(first, 1).v
        && r.value.name == Index(first, 3).v
        && r.value.lat == Index(loc, 2).v
        && r.value.long == Index(loc, 1).v
  {
    var u := Some(userdata);
    PathTwo(u, 0, 0);
    PathTwo(u, 0, 1);
    PathTwo(u, 0, 3);
    PathThree(u, 1, 1, 2);
    PathThree(u, 1, 1, 1);
    if Index(u, 1).Got? {
      PathTwo(Index(u, 1).v, 1, 2);
      PathTwo(Index(u, 1).v, 1, 1);
    }
  }

  /** The record `[["id1", "photo1", _, "Alice"], [_, [_, 12.5, 55.1]]]`:
      longitude is position 1 and latitude position 2 of the inner array. */
  lemma ExampleUser(filler: Json, now: nat)
    ensures var userdata := JArray([
        JArray([JString("id1"), JString("photo1"), filler, JString("Alice")]),
        JArray([filler, JArray([filler, JNumber("12.5"), JNumber("55.1")])])]);
      ExtractUser(userdata, now) ==
        Some(User(now, Some(JString("id1")), Some(JString("photo1")), Some(JString("Alice")),
                  Some(JNumber("55.1")), Some(JNumber("12.5"))))
  {
    var userdata := JArray([
        JArray([JString("id1"), JString("photo1"), filler, JString("Alice")]),
        JArray([filler, JArray([filler, JNumber("12.5"), JNumber("55.1")])])]);
    ExtractUserPositions(userdata, now);
  }

  /** The records of the elements, in order; `None` when one of them cannot be read. */
  function MapUsers(es: seq<Json>, now: nat): (r: Option<seq<User>>)
    ensures r.None? <==> exists i :: 0 <= i < |es| && ExtractUser(es[i], now).None?
    ensures r.Some? ==> |r.value| == |es| && forall i :: 0 <= i < |es| ==> ExtractUser(es[i], now) == Some(r.value[i])
  {
    if es == [] then Some([])
    else
      var init, last := es[..|es| - 1], es[|es| - 1];
      assert forall i :: 0 <= i < |init| ==> init[i] == es[i];
      match MapUsers(init, now)
      case None => None
      case Some(us) =>
        match ExtractUser(last, now)
        case None => None
        case Some(u) => Some(us + [u])
  }

  /** The elements `perlocarr` is looped over when `perlocarr && perlocarr.length > 0`:
      those of a non-empty array, or the characters of a non-empty string;
      `None` for every other value, which has no positive `length`. */
  function Elements(x: Option<Json>): (r: Option<seq<Json>>)
    ensures r.Some? <==> x.Some? && ((x.value.JArray? && |x.value.items| > 0) || (x.value.JString? && |x.value.s| > 0))
    ensures r.Some? && x.value.JArray? ==> r.value == x.value.items
    ensures r.Some? && x.value.JString? ==> |r.value| == |x.value.s|
  {
    match x
    case Some(JArray(items)) => if |items| > 0 then Some(items) else None
    case Some(JString(s)) => if |s| > 0 then Some(seq(|s|, k requires 0 <= k < |s| => JString([s[k]]))) else None
    case _ => None
  }

  /** `parseLocationData` with the empty roster given as no users: the records
      of `locationdata[0]`, none when it is absent or empty, and `None` where
      reading a position throws. */
  function Roster(data: Json, now: nat): (r: Option<seq<User>>)
    ensures data == JNull ==> r.None?
    ensures data == JArray([]) ==> r == Some([])
  {
    match Index(Some(data), 0)
    case Fails => None
    case Got(perlocarr) =>
      match Elements(perlocarr)
      case None => Some([])
      case Some(es) => MapUsers(es, now)
  }

  /** One record per element of `locationdata[0]`, in order; an absent or
      empty first element gives no records. */
  lemma RosterRecords(data: Json, now: nat)
    requires data != JNull
    ensures var first := Index(Some(data), 0).v;
      first.None? || first == Some(JArray([])) ==> Roster(data, now) == Some([])
    ensures var first := Index(Some(data), 0).v;
      first.Some? && first.value.JArray? && Roster(data, now).Some? ==>
        var items, us := first.value.items, Roster(data, now).value;
        |us| == |items| && forall i :: 0 <= i < |items| ==> ExtractUser(items[i], now) == Some(us[i])
  {
  }

  /** How `parseLocationData` hands its result on as the source writes it. */
  datatype RosterOutcome = Crashes | NoUsers | Users(users: seq<User>)

  /** `parseLocationData` as written: when there is nothing to loop over the
      callback gets no `users` at all (main.js:496). */
  function RosterAsWritten(data: Json, now: nat): RosterOutcome
  {
    match Index(Some(data), 0)
    case Fails => Crashes
    case Got(perlocarr) =>
      match Elements(perlocarr)
      case None => NoUsers
      case Some(es) =>
        match MapUsers(es, now)
        case None => Crashes
        case Some(us) => Users(us)
  }

  /** `emitUsers` as reached from the source: `users.length` of `undefined`
      throws (main.js:80), so no lines come out and the run fails. */
  function EmitAsWritten(outcome: RosterOutcome): Output
  {
    match outcome
    case Users(us) => Emit(us)
    case _ => Output([], false)
  }

  /** A payload whose first element is an empty array: the source's roster
      step gives no `users`, and emitting them fails instead of printing zero
      lines, while the corrected roster gives zero records and zero lines. */
  lemma EmptyRosterFails(now: nat)
    ensures RosterAsWritten(JArray([JArray([])]), now) == NoUsers
    ensures EmitAsWritten(RosterAsWritten(JArray([JArray([])]), now)) == Output([], false)
    ensures Roster(JArray([JArray([])]), now) == Some([])
    ensures Emit([]) == Output([], true)
  {
  }

  /** The corrected roster agrees with the source wherever the source has
      users to emit. */
  lemma RosterAgrees(data: Json, now: nat)
    ensures RosterAsWritten(data, now).Users? ==> Roster(data, now) == Some(RosterAsWritten(data, now).users)
    ensures RosterAsWritten(data, now).Crashes? <==> Roster(data, now).None?
  {
  }

  /** How a field reads in `[...].join(...)`: `null` as "", arrays as their
      elements joined by ",", and objects as "[object Object]".  An object
      with its own `toString` member cannot be converted: JSON gives no
      callable there, and `valueOf` gives back the object, so the
      conversion throws (`None`). */
  function ValueText(v: Json): (r: Option<string>)
    ensures v.JObject? ==> (r.None? <==> "toString" in v.members)
    ensures v.JObject? && r.Some? ==> r.value == "[object Object]"
    ensures v.JArray? ==> (r.None? <==> exists k :: 0 <= k < |v.items| && ValueText(v.items[k]).None?)
    decreases v
  {
    match v
    case JNull => Some("")
    case JBool(b) => Some(if b then "true" else "false")
    case JNumber(t) => Some(t)
    case JString(s) => Some(s)
    case JArray(items) =>
      if forall k :: 0 <= k < |items| ==> ValueText(items[k]).Some? then
        Some(Join(seq(|items|, k requires 0 <= k < |items| => ValueText(items[k]).value), ","))
      else None
    case JObject(members) => if "toString" in members then None else Some("[object Object]")
  }

  /** How a field of the record reads: `undefined` and `null` as "". */
  function FieldText(x: Option<Json>): (r: Option<string>)
    ensures x.None? || x == Some(JNull) ==> r == Some("")
    ensures x.Some? && x.value.JString? ==> r == Some(x.value.s)
  {
    if x.Some? then ValueText(x.value) else Some("")
  }

  /** Every field of the record converts to text. */
  predicate Printable(u: User)
  {
    FieldText(u.id).Some? && FieldText(u.lat).Some? && FieldText(u.long).Some?
      && FieldText(u.name).Some? && FieldText(u.photoURL).Some?
  }

  /** The six fields of an output line, in output order. */
  function Cells(u: User): seq<string>
    requires Printable(u)
  {
    [NatText(u.time), FieldText(u.id).value, FieldText(u.lat).value, FieldText(u.long).value,
     FieldText(u.name).value, FieldText(u.photoURL).value]
  }

  /** The output line of one user (main.js:82), `None` where the `join`
      throws.  The line opens with the time. */
  function UserLine(u: User): (line: Option<string>)
    ensures line.Some? <==> Printable(u)
    ensures u.id.Some? && u.id.value.JObject? && "toString" in u.id.value.members ==> line.None?
    ensures line.Some? ==> NatText(u.time) + " , " <= line.value
  {
    if Printable(u) then Some(Join(Cells(u), " , ")) else None
  }

  /** What `emitUsers` prints and whether it gets to its callback. */
  datatype Output = Output(lines: seq<string>, ok: bool)

  /** `emitUsers` (main.js:78-87): the line of each user in order, up to the
      first user whose line throws; the callback is reached only when every
      line was printed. */
  function Emit(us: seq<User>): (out: Output)
    ensures |out.lines| <= |us|
  {
    if us == [] then Output([], true)
    else match UserLine(us[0])
      case None => Output([], false)
      case Some(l) =>
        var rest := Emit(us[1..]);
        Output([l] + rest.lines, rest.ok)
  }

  /** What `emitUsers` prints: the lines of the users before the first one
      whose line throws, in order; it finishes exactly when it printed one
      line per user, and otherwise it stopped at a user without a line. */
  lemma {:induction false} EmitPrints(us: seq<User>)
    ensures var out := Emit(us);
      && (forall j :: 0 <= j < |out.lines| ==> UserLine(us[j]) == Some(out.lines[j]))
      && (out.ok <==> |out.lines| == |us|)
      && (!out.ok ==> UserLine(us[|out.lines|]).None?)
  {
    if us != [] && UserLine(us[0]).Some? {
      EmitPrints(us[1..]);
      var out, rest := Emit(us), Emit(us[1..]);
      forall j | 1 <= j < |out.lines| ensures UserLine(us[j]) == Some(out.lines[j]) {
        assert us[1..][j - 1] == us[j] && out.lines[j] == rest.lines[j - 1];
      }
      if !out.ok {
        assert us[|out.lines|] == us[1..][|rest.lines|];
      }
    }
  }

  /** The pieces a line splits into at the commas: each field with the space
      the separator puts before it (all but the first) and after it (all but
      the last).  `lead` is what goes before the first of `c`. */
  function Padded(c: seq<string>, lead: string): (p: seq<string>)
    requires |c| >= 1
    ensures |p| == |c|
  {
    if |c| == 1 then [lead + c[0]] else [lead + c[0] + " "] + Padded(c[1..], " ")
  }

  /** Joining with `" " + t + " "` is joining the padded fields with `t`. */
  lemma {:induction false} JoinPadded(c: seq<string>, t: string, lead: string)
    requires |c| >= 1
    ensures lead + Join(c, " " + t + " ") == Join(Padded(c, lead), t)
  {
    if |c| > 1 {
      JoinPadded(c[1..], t, " ");
      assert Padded(c, lead)[1..] == Padded(c[1..], " ");
    }
  }

  /** A padded piece holds a character only if the field or the padding does. */
  lemma {:induction false} PaddedPieces(c: seq<string>, lead: string, x: char)
    requires |c| >= 1 && x != ' ' && x !in lead
    requires forall k :: 0 <= k < |c| ==> x !in c[k]
    ensures forall k :: 0 <= k < |c| ==> x !in Padded(c, lead)[k]
  {
    if |c| > 1 {
      PaddedPieces(c[1..], " ", x);
      assert Padded(c, lead)[1..] == Padded(c[1..], " ");
      assert x !in lead + c[0] + " ";
    } else {
      assert x !in lead + c[0];
    }
  }

  /** The line is `time , id , lat , long , name , photoURL`: when no field
      holds a comma, splitting it at the commas gives the six fields back in
      that order, each with the spaces the separator puts around it. */
  lemma UserLineFields(u: User)
    requires Printable(u)
    requires forall k :: 0 <= k < 6 ==> ',' !in Cells(u)[k]
    ensures Split(UserLine(u).value, ',') == Padded(Cells(u), "")
    ensures |Split(UserLine(u).value, ',')| == 6
    ensures Split(UserLine(u).value, ',')[0] == NatText(u.time) + " "
    ensures Split(UserLine(u).value, ',')[5] == " " + FieldText(u.photoURL).value
  {
    var c := Cells(u);
    assert " , " == " " + [','] + " ";
    JoinPadded(c, [','], "");
    assert "" + Join(c, " , ") == Join(c, " , ");
    PaddedPieces(c, "", ',');
    SplitJoin(Padded(c, ""), ',');
    PaddedEnds(c, "");
    assert "" + c[0] == c[0];
  }

  /** The first padded piece has no space before it; the last, of two or
      more, has one before it and none after. */
  lemma {:induction false} PaddedEnds(c: seq<string>, lead: string)
    requires |c| >= 2
    ensures Padded(c, lead)[0] == lead + c[0] + " "
    ensures Padded(c, lead)[|c| - 1] == " " + c[|c| - 1]
  {
    if |c| > 2 {
      PaddedEnds(c[1..], " ");
      assert Padded(c, lead)[|c| - 1] == Padded(c[1..], " ")[|c| - 2];
    }
  }

  const MapsUrl := "https://www.google.com/maps/preview/locationsharing/read"

  /** The location query, sent with the whole jar (main.js:387-397). */
  function FetchRequest(s: SessionState): (r: Request)
    requires WellFormed(s)
    ensures Field(r.headers, "Cookie") == Some(Render(s.jar))
  {
    Request(Get, Some(MapsUrl), [("Cookie", Render(s.jar))], [("authuser", "0"), ("pb", "")], [])
  }

  /** `getSharedLocations` from the answer on: a 200 is required, the
      de-framed body goes to `parse` (JSON.parse, `None` where it throws), and
      the roster of the result is the outcome. */
  function Fetch(resp: Option<Response>, parse: string -> Option<Json>, now: nat): (r: Option<seq<User>>)
    ensures r.Some? ==> resp.Some? && resp.value.status == 200
  {
    if resp.Some? && resp.value.status == 200 then
      match parse(Deframe(resp.value.body))
      case None => None
      case Some(data) => Roster(data, now)
    else None
  }

  /** The fetch fails unless the status is exactly 200. */
  lemma FetchNeedsOk(resp: Option<Response>, parse: string -> Option<Json>, now: nat)
    ensures Fetch(resp, parse, now).Some? ==> resp.Some? && resp.value.status == 200
    ensures resp.Some? && resp.value.status != 200 ==> Fetch(resp, parse, now).None?
  {
  }

  /** With a three-line body, what is parsed is the middle line. */
  lemma FetchMiddleLine(resp: Response, parse: string -> Option<Json>, now: nat, first: string, middle: string, last: string)
    requires resp.status == 200 && resp.body == first + "\n" + middle + "\n" + last
    requires '\n' !in first && '\n' !in middle && '\n' !in last
    ensures Fetch(Some(resp), parse, now) == (match parse(middle) case None => None case Some(d) => Roster(d, now))
  {
    DeframeThreeLines(first, middle, last);
    assert Deframe(resp.body) == middle;
  }

  /** `parseLocationData`: the loop over `locationdata[0]` that fills the
      array of records. */
  method ParseLocationData(locationdata: Json, now: nat) returns (users: Option<seq<User>>)
    ensures users == Roster(locationdata, now)
  {
    var perlocarr := Index(Some(locationdata), 0);
    if perlocarr.Fails? {
      return None;
    }
    var es := Elements(perlocarr.v);
    if es.None? {
      return Some([]);
    }
    var elements := es.value;
    var userdataobjarr: seq<User> := [];
    for i := 0 to |elements|
      invariant MapUsers(elements[..i], now) == Some(userdataobjarr)
    {
      var obj := ExtractUser(elements[i], now);
      if obj.None? {
        assert ExtractUser(elements[i], now).None?;
        return None;
      }
      assert elements[..i + 1][..i] == elements[..i];
      userdataobjarr := userdataobjarr + [obj.value];
    }
    assert elements[..|elements|] == elements;
    users := Some(userdataobjarr);
  }

  /** `emitUsers`: one output line per user, in order, stopping where a line
      throws. */
  method EmitUsers(users: seq<User>) returns (lines: seq<string>, ok: bool)
    ensures Output(lines, ok) == Emit(users)
  {
    lines := [];
    assert users[0..] == users;
    for j := 0 to |users|
      invariant lines + Emit(users[j..]).lines == Emit(users).lines
      invariant Emit(users[j..]).ok == Emit(users).ok
    {
      var u := users[j];
      EmitStep(users, j);
      if !Printable(u) {
        return lines, false;
      }
      var userline := Join(Cells(u), " , ");
      ghost var rest := Emit(users[j + 1..]).lines;
      assert lines + [userline] + rest == lines + ([userline] + rest);
      lines := lines + [userline];
    }
    assert users[|users|..] == [];
    ok := true;
  }

  /** One step of `Emit` taken at user `j`. */
  lemma EmitStep(us: seq<User>, j: nat)
    requires j < |us|
    ensures UserLine(us[j]).None? ==> Emit(us[j..]) == Output([], false)
    ensures UserLine(us[j]).Some? ==>
      Emit(us[j..]) == Output([UserLine(us[j]).value] + Emit(us[j + 1..]).lines, Emit(us[j + 1..]).ok)
  {
    assert us[j..][0] == us[j];
    assert us[j..][1..] == us[j + 1..];
  }

  /** The outcome of `querySharedLocations`: whether it ended without error,
      the lines it printed, the requests it sent and the session it left. */
  datatype QueryResult = QueryResult(ok: bool, lines: seq<string>, sent: seq<Request>, session: SessionState)

  /** `querySharedLocations` (main.js:111-127): sign in, then fetch with the
      jar sign-in left, then print the roster. */
  function Query(c: Credentials, s: SessionState, net: Transport, parse: string -> Option<Json>, now: nat): (q: QueryResult)
    requires WellFormed(s)
    ensures WellFormed(q.session)
    ensures |q.sent| < 5 ==> !q.ok && q.lines == []
    ensures q.ok ==> |q.sent| == 5
  {
    var run := Connect(c, s, net);
    ConnectWellFormed(c, s, net);
    ConnectShortCircuits(c, s, net);
    if run.outcome != Authenticated then QueryResult(false, [], run.sent, run.session)
    else
      var req := FetchRequest(run.session);
      match Fetch(net(req), parse, now)
      case None => QueryResult(false, [], run.sent + [req], run.session)
      case Some(us) =>
        var out := Emit(us);
        QueryResult(out.ok, out.lines, run.sent + [req], run.session)
  }

  /** The fetch runs only after sign-in succeeded, as the one request after
      the four stages, carrying the jar sign-in left; a failed fetch prints
      nothing, the records of a successful one are printed as `emitUsers`
      prints them, and the query succeeds only after a 200. */
  lemma QueryAfterSignIn(c: Credentials, s: SessionState, net: Transport, parse: string -> Option<Json>, now: nat)
    requires WellFormed(s)
    ensures var run, q := Connect(c, s, net), Query(c, s, net, parse, now);
      && WellFormed(run.session)
      && (run.outcome != Authenticated ==> !q.ok && q.sent == run.sent)
      && (run.outcome == Authenticated ==>
            && |q.sent| == 5 && q.sent[..4] == run.sent
            && q.sent[4] == FetchRequest(run.session)
            && Field(q.sent[4].headers, "Cookie") == Some(Render(run.session.jar))
            && (Fetch(net(q.sent[4]), parse, now).None? ==> !q.ok && q.lines == [])
            && (Fetch(net(q.sent[4]), parse, now).Some? ==>
                  Output(q.lines, q.ok) == Emit(Fetch(net(q.sent[4]), parse, now).value))
            && (q.ok ==> net(q.sent[4]).value.status == 200))
  {
    var run := Connect(c, s, net);
    ConnectWellFormed(c, s, net);
    ConnectShortCircuits(c, s, net);
    if run.outcome == Authenticated {
      var req := FetchRequest(run.session);
      FetchNeedsOk(net(req), parse, now);
      assert (run.sent + [req])[..4] == run.sent;
    }
  }
}
