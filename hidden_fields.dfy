/** Extraction of hidden form fields from an HTML body (main.js:192-193,
    256-259).  The source finds the first match of a regular expression of the
    shape `lit0\s+lit1\s+...\s+litN\S*` and takes one piece of the matched
    text split on `"`.

    The regular expression engine is modelled by a scan for the literals with
    one or more whitespace characters between them.  Every literal after the
    first starts with a character that is not whitespace, so a run of
    whitespace can only end where the next literal starts; `\s+` therefore
    has exactly one way to match and consuming all of the whitespace is
    what the engine does too.  The trailing `\S*` is greedy and always
    matches, so the leftmost match is the leftmost place the literals
    match. */
module HiddenFields {
  import opened Wrappers
  import opened Text

  /** JavaScript's `\s`. */
  predicate IsSpace(ch: char)
  {
    || ch == '\t' || ch == '\n' || ch == '\U{000B}' || ch == '\U{000C}' || ch == '\r'
    || ch == ' ' || ch == '\U{00A0}' || ch == '\U{1680}' || ('\U{2000}' <= ch <= '\U{200A}')
    || ch == '\U{2028}' || ch == '\U{2029}' || ch == '\U{202F}' || ch == '\U{205F}'
    || ch == '\U{3000}' || ch == '\U{FEFF}'
  }

  /** A tag pattern: the element, then attributes written `name="value"`,
      then the name of the attribute whose value is wanted, written `name="`. */
  datatype Tag = Tag(element: string, attributes: seq<(string, string)>, wanted: string)

  /** `name="value"`. */
  function Attribute(name: string, value: string): string
  {
    name + "=\"" + value + "\""
  }

  /** The literals of a tag, in the order the pattern matches them. */
  function Literals(t: Tag): (lits: seq<string>)
    ensures |lits| == |t.attributes| + 2
  {
    [t.element] + AttributeLiterals(t.attributes) + [t.wanted + "=\""]
  }

  function AttributeLiterals(attrs: seq<(string, string)>): (lits: seq<string>)
    ensures |lits| == |attrs|
  {
    if attrs == [] then [] else [Attribute(attrs[0].0, attrs[0].1)] + AttributeLiterals(attrs[1..])
  }

  /** No name or value of the tag holds a `"`. */
  predicate QuoteFree(t: Tag)
  {
    && '"' !in t.element && '"' !in t.wanted
    && forall k :: 0 <= k < |t.attributes| ==> '"' !in t.attributes[k].0 && '"' !in t.attributes[k].1
  }

  /** The `gxf` input of the sign-in page (main.js:192). */
  const GxfTag := Tag("<input", [("type", "hidden"), ("name", "gxf")], "value")

  /** The `ProfileInformation` input of the lookup page (main.js:256). */
  const ProfileInformationTag :=
    Tag("<input", [("id", "profile-information"), ("name", "ProfileInformation"), ("type", "hidden")], "value")

  /** The `SessionState` input of the lookup page (main.js:258). */
  const SessionStateTag :=
    Tag("<input", [("id", "session-state"), ("name", "SessionState"), ("type", "hidden")], "value")

  /** `lit` occurs in `s` at position `i`. */
  predicate LiteralAt(s: string, i: nat, lit: string)
  {
    i + |lit| <= |s| && s[i..i + |lit|] == lit
  }

  /** End of the run of whitespace that starts at `i`. */
  function SpaceEnd(s: string, i: nat): (j: nat)
    requires i <= |s|
    ensures i <= j <= |s|
    ensures forall k :: i <= k < j ==> IsSpace(s[k])
    ensures j < |s| ==> !IsSpace(s[j])
    decreases |s| - i
  {
    if i < |s| && IsSpace(s[i]) then SpaceEnd(s, i + 1) else i
  }

  /** `\s+lit` for each of `lits` in turn, from position `i`: where the match ends. */
  function MatchRest(s: string, i: nat, lits: seq<string>): (r: Option<nat>)
    requires i <= |s|
    ensures r.Some? ==> i <= r.value <= |s|
    decreases |lits|
  {
    if lits == [] then Some(i)
    else
      var j := SpaceEnd(s, i);
      if j > i && LiteralAt(s, j, lits[0]) then MatchRest(s, j + |lits[0]|, lits[1..])
      else None
  }

  /** The literals of a tag matched from position `i`: where the match ends. */
  function MatchAt(s: string, i: nat, lits: seq<string>): (r: Option<nat>)
    requires i <= |s| && |lits| >= 1
    ensures r.Some? ==> i <= r.value <= |s|
  {
    if LiteralAt(s, i, lits[0]) then MatchRest(s, i + |lits[0]|, lits[1..]) else None
  }

  /** The leftmost match at or after `from`, as its start and the end of its literals. */
  function FirstMatch(s: string, lits: seq<string>, from: nat): (r: Option<(nat, nat)>)
    requires from <= |s| && |lits| >= 1
    ensures r.Some? ==> from <= r.value.0 <= |s| && MatchAt(s, r.value.0, lits) == Some(r.value.1)
    ensures r.Some? ==> forall i :: from <= i < r.value.0 ==> MatchAt(s, i, lits).None?
    ensures r.None? ==> forall i :: from <= i <= |s| ==> MatchAt(s, i, lits).None?
    decreases |s| - from
  {
    match MatchAt(s, from, lits)
    case Some(k) => Some((from, k))
    case None => if from == |s| then None else FirstMatch(s, lits, from + 1)
  }

  /** End of the `\S*` that starts at `k`. */
  function NonSpaceEnd(s: string, k: nat): (e: nat)
    requires k <= |s|
    ensures k <= e <= |s|
    ensures forall j :: k <= j < e ==> !IsSpace(s[j])
    ensures e < |s| ==> IsSpace(s[e])
    decreases |s| - k
  {
    if k < |s| && !IsSpace(s[k]) then NonSpaceEnd(s, k + 1) else k
  }

  /** End of the run of characters that are neither whitespace nor `"` from `k`. */
  function TokenEnd(s: string, k: nat): (e: nat)
    requires k <= |s|
    ensures k <= e <= |s|
    ensures forall j :: k <= j < e ==> !IsSpace(s[j]) && s[j] != '"'
    ensures e < |s| ==> IsSpace(s[e]) || s[e] == '"'
    decreases |s| - k
  {
    if k < |s| && !IsSpace(s[k]) && s[k] != '"' then TokenEnd(s, k + 1) else k
  }

  /** `s.match(re)[0]`: the text of the leftmost match, `None` for a `null` match. */
  function MatchText(s: string, lits: seq<string>): (r: Option<string>)
    requires |lits| >= 1
    ensures r.None? <==> forall i :: 0 <= i <= |s| ==> MatchAt(s, i, lits).None?
  {
    match FirstMatch(s, lits, 0)
    case None => None
    case Some((i, k)) => Some(s[i..NonSpaceEnd(s, k)])
  }

  /** `s.match(re)[0].split('"')[field]`, as the source writes it.  The source
      dereferences a `null` match and throws; here that is `None`, and so is a
      field past the last piece (`undefined` in the source). */
  function ExtractField(s: string, lits: seq<string>, field: nat): (r: Option<string>)
    requires |lits| >= 1
    ensures r.Some? ==> MatchText(s, lits).Some? && '"' !in r.value
  {
    match MatchText(s, lits)
    case None => None
    case Some(m) =>
      var parts := Split(m, '"');
      SplitPieces(m, '"');
      if field < |parts| then Some(parts[field]) else None
  }

  /** What the extraction is meant to give: the run of characters that are
      neither whitespace nor `"` right after the literals of the leftmost
      match (after `value="`), or `None` when nothing matches. */
  function ValueToken(s: string, lits: seq<string>): (r: Option<string>)
    requires |lits| >= 1
    ensures r.None? <==> forall i :: 0 <= i <= |s| ==> MatchAt(s, i, lits).None?
    ensures r.Some? ==> forall j :: 0 <= j < |r.value| ==> !IsSpace(r.value[j]) && r.value[j] != '"'
  {
    match FirstMatch(s, lits, 0)
    case None => None
    case Some((i, k)) => Some(s[k..TokenEnd(s, k)])
  }

  /** Number of `"` in the literals of a tag. */
  function QuoteCount(lits: seq<string>): nat
  {
    if lits == [] then 0 else multiset(lits[0])['"'] + QuoteCount(lits[1..])
  }

  /** Counting in a slice is counting in its two halves. */
  lemma CountSlices(s: string, a: nat, b: nat, c: nat)
    requires a <= b <= c <= |s|
    ensures multiset(s[a..c]) == multiset(s[a..b]) + multiset(s[b..c])
  {
    assert s[a..c] == s[a..b] + s[b..c];
  }

  /** Slicing at a middle point splits a slice in two. */
  lemma SliceConcat(s: string, a: nat, b: nat, c: nat)
    requires a <= b <= c <= |s|
    ensures s[a..c] == s[a..b] + s[b..c]
  {
  }

  /** A run of whitespace holds no `"`. */
  lemma SpacesHoldNoQuote(s: string, i: nat, j: nat)
    requires i <= j <= |s|
    requires forall x :: i <= x < j ==> IsSpace(s[x])
    ensures multiset(s[i..j])['"'] == 0
  {
    assert !IsSpace('"');
    assert '"' !in s[i..j] by {
      forall x | i <= x < j ensures s[x] != '"' { assert IsSpace(s[x]); }
    }
  }

  /** The text matched by `\s+lit...` holds exactly the `"` of the literals:
      whitespace holds none. */
  lemma {:induction false} MatchRestQuotes(s: string, i: nat, lits: seq<string>)
    requires i <= |s| && MatchRest(s, i, lits).Some?
    ensures multiset(s[i..MatchRest(s, i, lits).value])['"'] == QuoteCount(lits)
    decreases |lits|
  {
    if lits == [] {
      assert s[i..i] == [];
    } else {
      var j := SpaceEnd(s, i);
      var k := j + |lits[0]|;
      assert MatchRest(s, i, lits) == MatchRest(s, k, lits[1..]);
      var e := MatchRest(s, k, lits[1..]).value;
      MatchRestQuotes(s, k, lits[1..]);
      SpacesHoldNoQuote(s, i, j);
      assert s[j..k] == lits[0];
      CountSlices(s, i, j, e);
      CountSlices(s, j, k, e);
    }
  }

  /** The text of a match holds the `"` of its literals. */
  lemma MatchQuotes(s: string, i: nat, lits: seq<string>)
    requires i <= |s| && |lits| >= 1 && MatchAt(s, i, lits).Some?
    ensures multiset(s[i..MatchAt(s, i, lits).value])['"'] == QuoteCount(lits)
  {
    var k := i + |lits[0]|;
    var e := MatchAt(s, i, lits).value;
    MatchRestQuotes(s, k, lits[1..]);
    CountSlices(s, i, k, e);
  }

  /** A match ends with its last literal. */
  lemma MatchEndsWithLast(s: string, i: nat, lits: seq<string>)
    requires i <= |s| && |lits| >= 1 && MatchAt(s, i, lits).Some?
    ensures var e, last := MatchAt(s, i, lits).value, lits[|lits| - 1];
      i + |last| <= e && s[e - |last|..e] == last
  {
    if |lits| == 1 {
      assert MatchRest(s, i + |lits[0]|, []) == Some(i + |lits[0]|);
    } else {
      MatchRestEndsWithLast(s, i + |lits[0]|, lits[1..]);
    }
  }

  lemma {:induction false} MatchRestEndsWithLast(s: string, i: nat, lits: seq<string>)
    requires i <= |s| && |lits| >= 1 && MatchRest(s, i, lits).Some?
    ensures var e, last := MatchRest(s, i, lits).value, lits[|lits| - 1];
      i + |last| <= e && s[e - |last|..e] == last
    decreases |lits|
  {
    var j := SpaceEnd(s, i);
    var k := j + |lits[0]|;
    if |lits| == 1 {
      assert MatchRest(s, k, []) == Some(k);
    } else {
      MatchRestEndsWithLast(s, k, lits[1..]);
    }
  }

  /** The index of the piece after every `"` of a tag's literals: the piece
      that starts right after `wanted="`. */
  function ValueField(t: Tag): nat
  {
    2 * |t.attributes| + 1
  }

  lemma QuoteCountConcat(a: seq<string>, b: seq<string>)
    ensures QuoteCount(a + b) == QuoteCount(a) + QuoteCount(b)
  {
    if a != [] {
      assert (a + b)[1..] == a[1..] + b;
      QuoteCountConcat(a[1..], b);
    } else {
      assert a + b == b;
    }
  }

  lemma AttributeQuotes(name: string, value: string)
    requires '"' !in name && '"' !in value
    ensures multiset(Attribute(name, value))['"'] == 2
  {
    assert multiset("=\"")['"'] == 1 by { assert "=\"" == ['='] + ['"']; }
  }

  lemma {:induction false} AttributeLiteralsQuotes(attrs: seq<(string, string)>)
    requires forall k :: 0 <= k < |attrs| ==> '"' !in attrs[k].0 && '"' !in attrs[k].1
    ensures QuoteCount(AttributeLiterals(attrs)) == 2 * |attrs|
  {
    if attrs != [] {
      AttributeQuotes(attrs[0].0, attrs[0].1);
      AttributeLiteralsQuotes(attrs[1..]);
      QuoteCountConcat([Attribute(attrs[0].0, attrs[0].1)], AttributeLiterals(attrs[1..]));
    }
  }

  /** A tag without `"` in its names and values has `ValueField` quotes in its
      literals, and its last literal ends with one. */
  lemma LiteralsQuotes(t: Tag)
    requires QuoteFree(t)
    ensures QuoteCount(Literals(t)) == ValueField(t)
    ensures var lits := Literals(t); var last := lits[|lits| - 1]; |last| >= 1 && last[|last| - 1] == '"'
  {
    AttributeLiteralsQuotes(t.attributes);
    var w := t.wanted + "=\"";
    assert multiset(w)['"'] == 1 by { assert w == t.wanted + ['='] + ['"']; }
    QuoteCountConcat([t.element] + AttributeLiterals(t.attributes), [w]);
    QuoteCountConcat([t.element], AttributeLiterals(t.attributes));
  }

  /** Splitting on `"` text that has `q - 1` quotes before a quote, then a
      quote-free `t`, then either nothing or a quote: piece `q` is `t`. */
  lemma PieceAfterQuotes(p: string, t: string, r: string, q: nat)
    requires q >= 1 && multiset(p)['"'] == q - 1
    requires '"' !in t && (r == [] || r[0] == '"')
    ensures var parts := Split(p + ['"'] + (t + r), '"'); q < |parts| && parts[q] == t
  {
    SplitCount(p, '"');
    SplitConcat(p, t + r, '"');
    FirstPiece(t, r, '"');
  }

  /** The run of non-whitespace after a match is the value token followed by
      nothing or by a `"`. */
  lemma TokenWithin(s: string, k: nat)
    requires k <= |s|
    ensures TokenEnd(s, k) <= NonSpaceEnd(s, k)
    ensures TokenEnd(s, k) < NonSpaceEnd(s, k) ==> s[TokenEnd(s, k)] == '"'
  {
  }

  /** Piece `q` of a slice `s[i..e]` that holds `q` quotes up to `k`, the last
      of them at `k - 1`, is the quote-free run `s[k..v]` when `s[v..e]` is
      empty or starts with a quote. */
  lemma SlicePiece(s: string, i: nat, k: nat, v: nat, e: nat, q: nat)
    requires i < k <= v <= e <= |s| && q >= 1
    requires s[k - 1] == '"' && multiset(s[i..k])['"'] == q
    requires forall x :: k <= x < v ==> s[x] != '"'
    requires v < e ==> s[v] == '"'
    ensures var parts := Split(s[i..e], '"'); q < |parts| && parts[q] == s[k..v]
  {
    var p := s[i..k - 1];
    CountSlices(s, i, k - 1, k);
    assert s[k - 1..k] == ['"'];
    SliceConcat(s, i, k - 1, e);
    SliceConcat(s, k - 1, k, e);
    SliceConcat(s, k, v, e);
    assert s[i..e] == p + ['"'] + (s[k..v] + s[v..e]);
    assert '"' !in s[k..v] by {
      forall x | k <= x < v ensures s[x] != '"' { }
    }
    PieceAfterQuotes(p, s[k..v], s[v..e], q);
  }

  /** The piece of the matched text the source picks is the value token: for
      a tag whose names and values hold no `"`, the index `ValueField` picks
      exactly the characters after `wanted="` up to the next whitespace or `"`. */
  lemma ExtractFieldIsValue(s: string, t: Tag)
    requires QuoteFree(t)
    ensures ExtractField(s, Literals(t), ValueField(t)) == ValueToken(s, Literals(t))
  {
    var lits := Literals(t);
    var found := FirstMatch(s, lits, 0);
    if found.Some? {
      var i, k := found.value.0, found.value.1;
      var e, v := NonSpaceEnd(s, k), TokenEnd(s, k);
      LiteralsQuotes(t);
      MatchQuotes(s, i, lits);
      MatchEndsWithLast(s, i, lits);
      TokenWithin(s, k);
      var last := lits[|lits| - 1];
      assert i < k && s[k - 1] == '"' by {
        assert s[k - 1] == s[k - |last|..k][|last| - 1];
      }
      SlicePiece(s, i, k, v, e, ValueField(t));
      assert MatchText(s, lits) == Some(s[i..e]);
      assert ValueToken(s, lits) == Some(s[k..v]);
    }
  }

  /** The three tags of the source hold no `"` in their names and values, and
      their value fields are 5, 7 and 7: the indexes main.js:193, 257 and 259
      use. */
  lemma SourceTags()
    ensures QuoteFree(GxfTag) && ValueField(GxfTag) == 5
    ensures QuoteFree(ProfileInformationTag) && ValueField(ProfileInformationTag) == 7
    ensures QuoteFree(SessionStateTag) && ValueField(SessionStateTag) == 7
  {
  }
}
