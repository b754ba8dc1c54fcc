/** The two string operations the session code leans on: JavaScript's
    `String.prototype.split` with a one-character separator, and
    `Array.prototype.join`.  Strings are `seq<char>`. */
module Text {

  /** `s.split(c)`: the pieces of `s` between occurrences of `c`, left to
      right.  There is always at least one piece, so even "" splits into [""]. */
  function Split(s: string, c: char): (parts: seq<string>)
  {
    SplitFrom(s, c, "")
  }

  /** The scan behind `Split`: `cur` is the piece read so far. */
  function SplitFrom(s: string, c: char, cur: string): (parts: seq<string>)
    ensures |parts| >= 1
    decreases |s|
  {
    if s == [] then [cur]
    else if s[0] == c then [cur] + SplitFrom(s[1..], c, "")
    else SplitFrom(s[1..], c, cur + [s[0]])
  }

  /** No piece holds the separator. */
  lemma SplitPieces(s: string, c: char)
    ensures forall k :: 0 <= k < |Split(s, c)| ==> c !in Split(s, c)[k]
  {
    SplitFromPieces(s, c, "");
  }

  lemma {:induction false} SplitFromPieces(s: string, c: char, cur: string)
    requires c !in cur
    ensures forall k :: 0 <= k < |SplitFrom(s, c, cur)| ==> c !in SplitFrom(s, c, cur)[k]
    decreases |s|
  {
    if s != [] {
      if s[0] == c {
        SplitFromPieces(s[1..], c, "");
      } else {
        SplitFromPieces(s[1..], c, cur + [s[0]]);
      }
    }
  }

  /** There is one more piece than there are separators. */
  lemma SplitCount(s: string, c: char)
    ensures |Split(s, c)| == multiset(s)[c] + 1
  {
    SplitFromCount(s, c, "");
  }

  lemma {:induction false} SplitFromCount(s: string, c: char, cur: string)
    ensures |SplitFrom(s, c, cur)| == multiset(s)[c] + 1
    decreases |s|
  {
    if s != [] {
      assert s == [s[0]] + s[1..];
      SplitFromCount(s[1..], c, if s[0] == c then "" else cur + [s[0]]);
    }
  }

  /** The first piece is the longest prefix of `s` without `c`: it is followed
      by `c` unless it is all of `s`. */
  lemma SplitFirst(s: string, c: char)
    ensures var p := Split(s, c)[0];
      |p| <= |s| && s[..|p|] == p && (|p| < |s| ==> s[|p|] == c)
  {
    SplitFromFirst(s, c, "");
  }

  lemma {:induction false} SplitFromFirst(s: string, c: char, cur: string)
    ensures var p := SplitFrom(s, c, cur)[0];
      && |cur| <= |p| <= |cur| + |s|
      && p == cur + s[..|p| - |cur|]
      && (|p| - |cur| < |s| ==> s[|p| - |cur|] == c)
    decreases |s|
  {
    if s != [] && s[0] != c {
      SplitFromFirst(s[1..], c, cur + [s[0]]);
      var p := SplitFrom(s, c, cur)[0];
      assert s[..|p| - |cur|] == [s[0]] + s[1..][..|p| - |cur| - 1];
    }
  }

  /** `parts.join(sep)`. */
  function Join(parts: seq<string>, sep: string): string
  {
    if |parts| == 0 then ""
    else if |parts| == 1 then parts[0]
    else parts[0] + sep + Join(parts[1..], sep)
  }

  /** Sum of the lengths of `parts`. */
  function TotalLength(parts: seq<string>): nat
  {
    if parts == [] then 0 else |parts[0]| + TotalLength(parts[1..])
  }

  /** A joined string is as long as its pieces plus one separator between each
      two of them. */
  lemma {:induction false} JoinLength(parts: seq<string>, sep: string)
    requires |parts| >= 1
    ensures |Join(parts, sep)| == TotalLength(parts) + (|parts| - 1) * |sep|
  {
    if |parts| > 1 {
      JoinLength(parts[1..], sep);
      calc {
        (|parts| - 1) * |sep|;
        (1 + (|parts[1..]| - 1)) * |sep|;
        |sep| + (|parts[1..]| - 1) * |sep|;
      }
    }
  }

  /** Joining `init + [last]` appends the separator and `last` to the join of `init`. */
  lemma {:induction false} JoinSnoc(init: seq<string>, last: string, sep: string)
    requires |init| >= 1
    ensures Join(init + [last], sep) == Join(init, sep) + sep + last
  {
    if |init| > 1 {
      assert (init + [last])[1..] == init[1..] + [last];
      JoinSnoc(init[1..], last, sep);
    }
  }

  /** Splitting at a separator placed between `a` and `b` splits `a` and `b`
      separately: the separator ends the last piece of `a` and starts the first
      piece of `b`. */
  lemma SplitConcat(a: string, b: string, c: char)
    ensures Split(a + [c] + b, c) == Split(a, c) + Split(b, c)
  {
    SplitFromConcat(a, b, c, "");
  }

  lemma {:induction false} SplitFromConcat(a: string, b: string, c: char, cur: string)
    ensures SplitFrom(a + [c] + b, c, cur) == SplitFrom(a, c, cur) + SplitFrom(b, c, "")
    decreases |a|
  {
    var s := a + [c] + b;
    if a == [] {
      assert s[0] == c && s[1..] == b;
    } else {
      assert s[0] == a[0] && s[1..] == a[1..] + [c] + b;
      if a[0] == c {
        SplitFromConcat(a[1..], b, c, "");
      } else {
        SplitFromConcat(a[1..], b, c, cur + [a[0]]);
      }
    }
  }

  /** A string without `c` is its own one piece. */
  lemma SplitWithout(s: string, c: char)
    requires c !in s
    ensures Split(s, c) == [s]
  {
    SplitFromWithout(s, c, "");
    assert "" + s == s;
  }

  lemma {:induction false} SplitFromWithout(s: string, c: char, cur: string)
    requires c !in s
    ensures SplitFrom(s, c, cur) == [cur + s]
    decreases |s|
  {
    if s == [] {
      assert cur + s == cur;
    } else {
      assert s[0] in s;
      SplitFromWithout(s[1..], c, cur + [s[0]]);
      assert cur + [s[0]] + s[1..] == cur + s;
    }
  }

  /** Splitting a join of `c`-free pieces on `c` gives the pieces back. */
  lemma {:induction false} SplitJoin(parts: seq<string>, c: char)
    requires |parts| >= 1
    requires forall k :: 0 <= k < |parts| ==> c !in parts[k]
    ensures Split(Join(parts, [c]), c) == parts
  {
    if |parts| == 1 {
      SplitWithout(parts[0], c);
    } else {
      SplitJoin(parts[1..], c);
      SplitWithout(parts[0], c);
      SplitConcat(parts[0], Join(parts[1..], [c]), c);
      assert [parts[0]] + parts[1..] == parts;
    }
  }

  /** The first piece of `t + r` is `t` when `t` has no `c` and `r` is empty
      or starts with `c`. */
  lemma FirstPiece(t: string, r: string, c: char)
    requires c !in t
    requires r == [] || r[0] == c
    ensures Split(t + r, c)[0] == t
  {
    if r == [] {
      assert t + r == t;
      SplitWithout(t, c);
    } else {
      assert t + r == t + [c] + r[1..];
      SplitConcat(t, r[1..], c);
      SplitWithout(t, c);
    }
  }
}
