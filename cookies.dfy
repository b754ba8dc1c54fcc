/** The cookie jar of `google.com` (main.js:40-56, 456-474): a fixed
    allow-list of cookie names, the merge of `Set-Cookie` response headers
    into it, and its rendering as a `Cookie:` request header. */
module Cookies {
  import opened Wrappers
  import opened Text

  /** The tracked cookie names, in declaration order, which is also the order
      a `for ... in` loop visits them (none of them looks like an array index). */
  const Names: seq<string> :=
    ["GAPS", "GALX", "SID", "LSID", "SIDCC", "HSID", "SSID",
     "APISID", "SAPISID", "ACCOUNT_CHOOSER", "NID", "CONSENT", "1P_JAR"]

  const AllowList: set<string> := set n | n in Names

  /** Cookie name to value for the single domain the program keeps. */
  type Jar = map<string, string>

  /** The jar holds exactly the allow-listed names. */
  predicate IsJar(jar: Jar)
  {
    jar.Keys == AllowList
  }

  /** No value holds a `;` or an `=`: every value the merge stores is cut at both. */
  predicate CleanValues(jar: Jar)
  {
    forall n :: n in jar ==> ';' !in jar[n] && '=' !in jar[n]
  }

  /** The jar as the program starts: every name mapped to "". */
  function EmptyJar(): (jar: Jar)
    ensures IsJar(jar) && CleanValues(jar)
    ensures forall n :: n in jar ==> jar[n] == ""
  {
    map n | n in AllowList :: ""
  }

  /** Name and value of one `Set-Cookie` string: `h.split(';')[0].split('=')`
      gives the name as piece 0 and the value as piece 1, which is `undefined`
      (here `None`) when the part before the first `;` has no `=`.  Neither
      holds a `;` or an `=`. */
  function ParseSetCookie(h: string): (r: (string, Option<string>))
    ensures ';' !in r.0 && '=' !in r.0
    ensures r.1.Some? ==> ';' !in r.1.value && '=' !in r.1.value
  {
    var pair := Split(h, ';')[0];
    var kv := Split(pair, '=');
    SplitPieces(h, ';');
    SplitPieces(pair, '=');
    PieceWithin(pair, '=', 0, ';');
    if |kv| > 1 then
      PieceWithin(pair, '=', 1, ';');
      (kv[0], Some(kv[1]))
    else
      (kv[0], None)
  }

  /** A piece of a string without `x` has no `x` either. */
  lemma PieceWithin(s: string, c: char, k: nat, x: char)
    requires x !in s && k < |Split(s, c)|
    ensures x !in Split(s, c)[k]
  {
    PiecesWithin(s, c, "", x);
  }

  lemma {:induction false} PiecesWithin(s: string, c: char, cur: string, x: char)
    requires x !in s && x !in cur
    ensures forall k :: 0 <= k < |SplitFrom(s, c, cur)| ==> x !in SplitFrom(s, c, cur)[k]
    decreases |s|
  {
    if s != [] {
      assert s[0] in s;
      assert x !in s[1..];
      PiecesWithin(s[1..], c, if s[0] == c then "" else cur + [s[0]], x);
    }
  }

  /** The name without `split`: the longest prefix of `h` without `;` or
      `=`; there is a value exactly when that prefix is followed by `=`. */
  lemma ParseSetCookieName(h: string)
    ensures var r := ParseSetCookie(h);
      && |r.0| <= |h| && h[..|r.0|] == r.0
      && (|r.0| < |h| ==> h[|r.0|] == '=' || h[|r.0|] == ';')
      && (r.1.Some? <==> |r.0| < |h| && h[|r.0|] == '=')
  {
    var pair := Split(h, ';')[0];
    var name := Split(pair, '=')[0];
    SplitFirst(h, ';');
    SplitFirst(pair, '=');
    SplitPieces(h, ';');
    SplitPieces(pair, '=');
    SplitCount(pair, '=');
    assert h[..|name|] == pair[..|name|];
    if |name| < |pair| {
      assert pair[|name|] == '=' && pair[|name|] in pair;
    } else {
      assert name == pair;
    }
  }

  /** The value without `split`: the longest run without `;` or `=` after
      the `=` that ends the name. */
  lemma ParseSetCookieValue(h: string)
    requires ParseSetCookie(h).1.Some?
    ensures var r := ParseSetCookie(h);
      var v, start := r.1.value, |r.0| + 1;
      && start + |v| <= |h| && h[start..start + |v|] == v
      && (start + |v| == |h| || h[start + |v|] == '=' || h[start + |v|] == ';')
  {
    var pair := Split(h, ';')[0];
    var name := Split(pair, '=')[0];
    ParseSetCookieName(h);
    SplitFirst(h, ';');
    SplitFirst(pair, '=');
    SplitPieces(pair, '=');
    SplitCount(pair, '=');
    assert |name| < |pair| by {
      assert '=' in multiset(pair);
      assert '=' !in name;
    }
    var rest := pair[|name| + 1..];
    assert pair == name + ['='] + rest;
    SplitConcat(name, rest, '=');
    SplitWithout(name, '=');
    var v := Split(rest, '=')[0];
    assert Split(pair, '=')[1] == v;
    SplitFirst(rest, '=');
    var e := |name| + 1 + |v|;
    assert pair[|name| + 1..e] == h[|name| + 1..e];
    if e < |pair| {
      assert rest[|v|] == pair[e] == h[e];
    }
  }

  /** True when the header `h` sets the cookie `n` (to some value). */
  predicate Sets(h: string, n: string)
  {
    ParseSetCookie(h).0 == n && ParseSetCookie(h).1.Some?
  }

  /** One iteration of the merge loop: overwrite the named entry if the jar has it. */
  function MergeOne(jar: Jar, h: string): (r: Jar)
    ensures r.Keys == jar.Keys
    ensures forall n :: n in jar && n != ParseSetCookie(h).0 ==> r[n] == jar[n]
  {
    var (name, value) := ParseSetCookie(h);
    if name in jar && value.Some? then jar[name := value.value] else jar
  }

  /** The jar after merging the headers `hs` in order.  The set of names never changes. */
  function Merge(jar: Jar, hs: seq<string>): (r: Jar)
    ensures r.Keys == jar.Keys
    decreases |hs|
  {
    if hs == [] then jar else MergeOne(Merge(jar, hs[..|hs| - 1]), hs[|hs| - 1])
  }

  /** Last write wins: a name set by header `j` and by no later header ends
      with header `j`'s value. */
  lemma {:induction false} MergeLastWins(jar: Jar, hs: seq<string>, j: nat, n: string)
    requires n in jar && j < |hs| && Sets(hs[j], n)
    requires forall k :: j < k < |hs| ==> !Sets(hs[k], n)
    ensures Merge(jar, hs)[n] == ParseSetCookie(hs[j]).1.value
    decreases |hs|
  {
    var init := hs[..|hs| - 1];
    if j < |hs| - 1 {
      MergeLastWins(jar, init, j, n);
    }
  }

  /** A name no header sets keeps its value; in particular a header naming a
      cookie outside the allow-list changes nothing. */
  lemma {:induction false} MergeKeeps(jar: Jar, hs: seq<string>, n: string)
    requires n in jar
    requires forall k :: 0 <= k < |hs| ==> !Sets(hs[k], n)
    ensures Merge(jar, hs)[n] == jar[n]
    decreases |hs|
  {
    if hs != [] {
      MergeKeeps(jar, hs[..|hs| - 1], n);
    }
  }

  /** A merge keeps the jar free of `;` and `=` in its values. */
  lemma {:induction false} MergeClean(jar: Jar, hs: seq<string>)
    requires CleanValues(jar)
    ensures CleanValues(Merge(jar, hs))
    decreases |hs|
  {
    if hs != [] {
      MergeClean(jar, hs[..|hs| - 1]);
      var h := hs[|hs| - 1];
      if ParseSetCookie(h).1.Some? {
        ParseSetCookieValue(h);
      }
    }
  }

  /** The `name=value` pairs of the jar in allow-list order. */
  function Entries(jar: Jar): (es: seq<string>)
    requires IsJar(jar)
    ensures |es| == |Names|
  {
    seq(|Names|, k requires 0 <= k < |Names| => Names[k] + "=" + jar[Names[k]])
  }

  /** The `Cookie:` header: every entry, empty ones included, joined by `;`
      with no spaces and no trailing `;`. */
  function Render(jar: Jar): (r: string)
    requires IsJar(jar)
    ensures Entries(jar)[0] + ";" <= r
  {
    Join(Entries(jar), ";")
  }

  /** What the loop of `getCookieHeader` accumulates: each entry followed by `;`. */
  function Terminated(es: seq<string>): string
  {
    if es == [] then "" else Terminated(es[..|es| - 1]) + es[|es| - 1] + ";"
  }

  /** Cutting the last `;` off the accumulated string gives the joined entries. */
  lemma {:induction false} TerminatedJoin(es: seq<string>)
    requires |es| >= 1
    ensures Terminated(es) == Join(es, ";") + ";"
  {
    var init, last := es[..|es| - 1], es[|es| - 1];
    if |es| > 1 {
      TerminatedJoin(init);
      JoinSnoc(init, last, ";");
      assert init + [last] == es;
    }
  }

  /** No allow-listed name holds a `;` or an `=`, and no two are equal. */
  lemma NamesPlain()
    ensures forall k :: 0 <= k < |Names| ==> ';' !in Names[k] && '=' !in Names[k]
    ensures forall i, j :: 0 <= i < j < |Names| ==> Names[i] != Names[j]
  {
  }

  /** The entry `n=v` of a clean jar reads back as the name `n` with the value `v`. */
  lemma ParseEntry(n: string, v: string)
    requires ';' !in n && '=' !in n && ';' !in v && '=' !in v
    ensures ParseSetCookie(n + "=" + v) == (n, Some(v))
  {
    var e := n + "=" + v;
    assert ';' !in e;
    SplitWithout(e, ';');
    assert Join([n, v], "=") == e;
    SplitJoin([n, v], '=');
  }

  /** The rendered header, read back through the merge, is the jar itself:
      its pieces between `;` are the entries, and merging them in order into
      any jar with the same names restores every value. */
  lemma RenderRoundTrip(jar: Jar, other: Jar)
    requires IsJar(jar) && CleanValues(jar) && IsJar(other)
    ensures Split(Render(jar), ';') == Entries(jar)
    ensures Merge(other, Split(Render(jar), ';')) == jar
  {
    var es := Entries(jar);
    NamesPlain();
    SplitJoin(es, ';');
    forall n | n in jar
      ensures Merge(other, es)[n] == jar[n]
    {
      var k :| 0 <= k < |Names| && Names[k] == n;
      ParseEntry(Names[k], jar[Names[k]]);
      forall k' | k < k' < |es|
        ensures !Sets(es[k'], n)
      {
        ParseEntry(Names[k'], jar[Names[k']]);
      }
      MergeLastWins(other, es, k, n);
    }
  }

  /** Pieces each one longer than their counterparts add up to one more per piece. */
  lemma {:induction false} TotalLengthPlusOne(es: seq<string>, ns: seq<string>)
    requires |es| == |ns|
    requires forall k :: 0 <= k < |es| ==> |es[k]| == |ns[k]| + 1
    ensures TotalLength(es) == TotalLength(ns) + |ns|
  {
    if es != [] {
      TotalLengthPlusOne(es[1..], ns[1..]);
    }
  }

  /** One step of `TotalLength` taken at position `k`. */
  lemma TotalLengthAt(s: seq<string>, k: nat)
    requires k < |s|
    ensures TotalLength(s[k..]) == |s[k]| + TotalLength(s[k + 1..])
  {
    assert s[k..][1..] == s[k + 1..];
  }

  /** The last six names have 44 characters in all. */
  lemma LastNamesLength()
    ensures TotalLength(Names[7..]) == 44
  {
    assert Names[13..] == [];
    TotalLengthAt(Names, 12);
    TotalLengthAt(Names, 11);
    TotalLengthAt(Names, 10);
    TotalLengthAt(Names, 9);
    TotalLengthAt(Names, 8);
    TotalLengthAt(Names, 7);
  }

  /** The thirteen names have 72 characters in all. */
  lemma NamesTotalLength()
    ensures TotalLength(Names) == 72
  {
    LastNamesLength();
    TotalLengthAt(Names, 6);
    TotalLengthAt(Names, 5);
    TotalLengthAt(Names, 4);
    TotalLengthAt(Names, 3);
    TotalLengthAt(Names, 2);
    TotalLengthAt(Names, 1);
    TotalLengthAt(Names, 0);
    assert Names[0..] == Names;
  }

  /** An all-empty jar renders as `GAPS=;GALX=;...;1P_JAR=`: the sum of
      (length of name + 2) over the names, minus 1, which is 97 characters. */
  lemma RenderEmptyLength()
    ensures |Render(EmptyJar())| == TotalLength(Names) + 2 * |Names| - 1
    ensures |Render(EmptyJar())| == 97
  {
    var es := Entries(EmptyJar());
    TotalLengthPlusOne(es, Names);
    JoinLength(es, ";");
    NamesTotalLength();
  }

  /** The jar of one run (`google_cookies['google.com']`). */
  class CookieJar {
    var cookies: Jar

    ghost predicate Valid()
      reads this
    {
      IsJar(cookies)
    }

    constructor ()
      ensures Valid() && cookies == EmptyJar()
    {
      cookies := EmptyJar();
    }

    /** `saveConnectionCookies`: merge the `Set-Cookie` strings in order. */
    method SaveConnectionCookies(setcookies: seq<string>)
      requires Valid()
      modifies this
      ensures Valid()
      ensures cookies == Merge(old(cookies), setcookies)
    {
      for i := 0 to |setcookies|
        invariant cookies == Merge(old(cookies), setcookies[..i])
      {
        var (key, val) := ParseSetCookie(setcookies[i]);
        if key in cookies && val.Some? {
          cookies := cookies[key := val.value];
        }
        assert setcookies[..i + 1][..i] == setcookies[..i];
      }
      assert setcookies[..|setcookies|] == setcookies;
    }

    /** `getCookieHeader`: accumulate `name=value;` per entry, then drop the last character. */
    method GetCookieHeader() returns (header: string)
      requires Valid()
      ensures header == Render(cookies)
    {
      var cookiestr := "";
      ghost var es := Entries(cookies);
      for i := 0 to |Names|
        invariant cookiestr == Terminated(es[..i])
      {
        assert es[i] == Names[i] + "=" + cookies[Names[i]];
        cookiestr := cookiestr + Names[i] + "=" + cookies[Names[i]] + ";";
        assert es[..i + 1][..i] == es[..i];
      }
      assert es[..|Names|] == es;
      TerminatedJoin(es);
      assert cookiestr == Join(es, ";") + ";";
      header := if |cookiestr| > 0 then cookiestr[..|cookiestr| - 1] else "";
      assert header == Join(es, ";");
    }
  }
}
