/** The JavaScript string operations the storefront relies on:
    `includes`, `toLowerCase`/`toUpperCase`, `trim`, `split` on one
    character, `join`, the `||` fallback on optional strings, decimal
    rendering of non-negative integers (`${n}` and `n.toFixed(2)`), and the
    comma-separated tag parsing shared by the admin form and the photo
    upload. */
module Text {
  import opened Wrappers
  import opened Seqs

  // ---------------------------------------------------------------------
  // Substring search: String.prototype.includes

  predicate IsPrefix(p: string, s: string) {
    |p| <= |s| && s[..|p|] == p
  }

  predicate IsSuffix(p: string, s: string) {
    |p| <= |s| && s[|s| - |p|..] == p
  }

  /** `s.includes(t)`. */
  predicate Contains(s: string, t: string)
    decreases |s|
  {
    IsPrefix(t, s) || (|s| > 0 && Contains(s[1..], t))
  }

  ghost predicate OccursAt(s: string, t: string, i: int) {
    0 <= i && i + |t| <= |s| && s[i..i + |t|] == t
  }

  /** `Contains` agrees with the positional definition of an occurrence. */
  lemma {:induction false} ContainsIffOccurs(s: string, t: string)
    ensures Contains(s, t) <==> exists i :: OccursAt(s, t, i)
    decreases |s|
  {
    if |s| == 0 {
      if Contains(s, t) {
        assert OccursAt(s, t, 0);
      }
      if exists i :: OccursAt(s, t, i) {
        var i :| OccursAt(s, t, i);
        assert IsPrefix(t, s);
      }
    } else {
      ContainsIffOccurs(s[1..], t);
      if Contains(s, t) {
        if IsPrefix(t, s) {
          assert OccursAt(s, t, 0);
        } else {
          var i :| OccursAt(s[1..], t, i);
          assert s[1..][i..i + |t|] == s[i + 1..i + 1 + |t|];
          assert OccursAt(s, t, i + 1);
        }
      }
      if exists i :: OccursAt(s, t, i) {
        var i :| OccursAt(s, t, i);
        if i == 0 {
          assert IsPrefix(t, s);
        } else {
          assert s[1..][i - 1..i - 1 + |t|] == s[i..i + |t|];
          assert OccursAt(s[1..], t, i - 1);
        }
      }
    }
  }

  /** Whatever is spliced into a string can be found in it again. */
  lemma ContainsInfix(a: string, t: string, b: string)
    ensures Contains(a + t + b, t)
  {
    assert (a + t + b)[|a|..|a| + |t|] == t;
    assert OccursAt(a + t + b, t, |a|);
    ContainsIffOccurs(a + t + b, t);
  }

  /** What occurs in a piece occurs in any string the piece is spliced into. */
  lemma ContainsWithin(a: string, x: string, b: string, t: string)
    requires Contains(x, t)
    ensures Contains(a + x + b, t)
  {
    ContainsIffOccurs(x, t);
    var i :| OccursAt(x, t, i);
    assert (a + x + b)[|a| + i..|a| + i + |t|] == x[i..i + |t|];
    assert OccursAt(a + x + b, t, |a| + i);
    ContainsIffOccurs(a + x + b, t);
  }

  /** What occurs in a string still occurs once more text follows it. */
  lemma ContainsExtended(x: string, y: string, t: string)
    requires Contains(x, t)
    ensures Contains(x + y, t)
  {
    ContainsIffOccurs(x, t);
    var i :| OccursAt(x, t, i);
    assert (x + y)[i..i + |t|] == x[i..i + |t|];
    assert OccursAt(x + y, t, i);
    ContainsIffOccurs(x + y, t);
  }

  // ---------------------------------------------------------------------
  // Case mapping: toLowerCase / toUpperCase on the ASCII and Latin-1 letters

  function LowerChar(c: char): char {
    if 'A' <= c <= 'Z' || ('\U{C0}' <= c <= '\U{DE}' && c != '\U{D7}') then (c as int + 32) as char
    else c
  }

  function UpperChar(c: char): char {
    if 'a' <= c <= 'z' || ('\U{E0}' <= c <= '\U{FE}' && c != '\U{F7}') then (c as int - 32) as char
    else if c == '\U{FF}' then '\U{178}'
    else c
  }

  /** `s.toLowerCase()`. */
  function ToLower(s: string): (r: string)
    ensures |r| == |s|
  {
    seq(|s|, i requires 0 <= i < |s| => LowerChar(s[i]))
  }

  /** `s.toUpperCase()`. */
  function ToUpper(s: string): (r: string)
    ensures |r| == |s|
  {
    seq(|s|, i requires 0 <= i < |s| => UpperChar(s[i]))
  }

  /** Comparing lower-cased forms is comparing without regard to case:
      lower-casing twice changes nothing more. */
  lemma ToLowerIdempotent(s: string)
    ensures ToLower(ToLower(s)) == ToLower(s)
  {
  }

  // ---------------------------------------------------------------------
  // String.prototype.trim

  /** The code points `trim` removes: ECMAScript's WhiteSpace and
      LineTerminator productions. */
  predicate IsJsWhitespace(c: char) {
    c == '\t' || c == '\n' || c == '\U{B}' || c == '\U{C}' || c == '\r' || c == ' '
    || c == '\U{A0}' || c == '\U{1680}' || ('\U{2000}' <= c <= '\U{200A}')
    || c == '\U{2028}' || c == '\U{2029}' || c == '\U{202F}' || c == '\U{205F}'
    || c == '\U{3000}' || c == '\U{FEFF}'
  }

  predicate AllWhitespace(s: string) {
    forall i :: 0 <= i < |s| ==> IsJsWhitespace(s[i])
  }

  /** Neither begins nor ends with whitespace. */
  predicate IsTrimmed(s: string) {
    s == [] || (!IsJsWhitespace(s[0]) && !IsJsWhitespace(s[|s| - 1]))
  }

  function TrimStart(s: string): string
    decreases |s|
  {
    if |s| > 0 && IsJsWhitespace(s[0]) then TrimStart(s[1..]) else s
  }

  function TrimEnd(s: string): string
    decreases |s|
  {
    if |s| > 0 && IsJsWhitespace(s[|s| - 1]) then TrimEnd(s[..|s| - 1]) else s
  }

  /** `trimStart` keeps a suffix and drops only whitespace before it. */
  lemma {:induction false} TrimStartSpec(s: string)
    ensures IsSuffix(TrimStart(s), s)
    ensures AllWhitespace(s[..|s| - |TrimStart(s)|])
    ensures TrimStart(s) == [] || !IsJsWhitespace(TrimStart(s)[0])
    decreases |s|
  {
    if |s| > 0 && IsJsWhitespace(s[0]) {
      var rest := s[1..];
      var r := TrimStart(rest);
      TrimStartSpec(rest);
      assert TrimStart(s) == r;
      assert s[|s| - |r|..] == rest[|rest| - |r|..];
      var dropped := s[..|s| - |r|];
      forall k | 0 <= k < |dropped|
        ensures IsJsWhitespace(dropped[k])
      {
        if k > 0 {
          assert dropped[k] == rest[..|rest| - |r|][k - 1];
        }
      }
    }
  }

  /** `trimEnd` keeps a prefix and drops only whitespace after it. */
  lemma {:induction false} TrimEndSpec(s: string)
    ensures IsPrefix(TrimEnd(s), s)
    ensures AllWhitespace(s[|TrimEnd(s)|..])
    ensures TrimEnd(s) == [] || !IsJsWhitespace(TrimEnd(s)[|TrimEnd(s)| - 1])
    decreases |s|
  {
    if |s| > 0 && IsJsWhitespace(s[|s| - 1]) {
      var init := s[..|s| - 1];
      var r := TrimEnd(init);
      TrimEndSpec(init);
      assert TrimEnd(s) == r;
      assert s[..|r|] == init[..|r|];
      var dropped := s[|r|..];
      forall k | 0 <= k < |dropped|
        ensures IsJsWhitespace(dropped[k])
      {
        if |r| + k < |init| {
          assert dropped[k] == init[|r|..][k];
        }
      }
    }
  }

  lemma PrefixMembers(p: string, s: string)
    requires IsPrefix(p, s)
    ensures forall c :: c in p ==> c in s
  {
    forall c | c in p
      ensures c in s
    {
      var i :| 0 <= i < |p| && p[i] == c;
      assert s[i] == c;
    }
  }

  lemma SuffixMembers(p: string, s: string)
    requires IsSuffix(p, s)
    ensures forall c :: c in p ==> c in s
  {
    forall c | c in p
      ensures c in s
    {
      var i :| 0 <= i < |p| && p[i] == c;
      assert s[|s| - |p| + i] == c;
    }
  }

  /** `s.trim()`. */
  function Trim(s: string): (r: string)
    ensures IsTrimmed(r)
    ensures forall c :: c in r ==> c in s
  {
    TrimProperties(s);
    TrimEnd(TrimStart(s))
  }

  lemma TrimProperties(s: string)
    ensures IsTrimmed(TrimEnd(TrimStart(s)))
    ensures forall c :: c in TrimEnd(TrimStart(s)) ==> c in s
  {
    var t := TrimStart(s);
    var r := TrimEnd(t);
    TrimStartSpec(s);
    TrimEndSpec(t);
    PrefixMembers(r, t);
    SuffixMembers(t, s);
    if r != [] {
      assert r[0] == t[0];
    }
  }

  /** What `trim` removes is whitespace on either side of what it keeps. */
  lemma TrimSplits(s: string) returns (u: string, v: string)
    ensures s == u + Trim(s) + v
    ensures AllWhitespace(u) && AllWhitespace(v)
  {
    var t := TrimStart(s);
    var r := TrimEnd(t);
    TrimStartSpec(s);
    TrimEndSpec(t);
    u, v := s[..|s| - |t|], t[|r|..];
    SplitAt(t, |r|);
    SplitAt(s, |s| - |t|);
    assert s == u + (r + v);
    ConcatAssociative(u, r, v);
    assert Trim(s) == r;
  }

  lemma ConcatAssociative(a: string, b: string, c: string)
    ensures a + (b + c) == a + b + c
  {
  }

  lemma SplitAt(s: string, k: nat)
    requires k <= |s|
    ensures s == s[..k] + s[k..]
  {
  }

  lemma {:induction false} TrimStartSkips(u: string, w: string)
    requires AllWhitespace(u)
    requires w == [] || !IsJsWhitespace(w[0])
    ensures TrimStart(u + w) == w
    decreases |u|
  {
    if |u| == 0 {
      assert u + w == w;
    } else {
      assert (u + w)[1..] == u[1..] + w;
      TrimStartSkips(u[1..], w);
    }
  }

  lemma {:induction false} TrimEndSkips(w: string, v: string)
    requires AllWhitespace(v)
    requires w == [] || !IsJsWhitespace(w[|w| - 1])
    ensures TrimEnd(w + v) == w
    decreases |v|
  {
    if |v| == 0 {
      assert w + v == w;
    } else {
      assert (w + v)[..|w + v| - 1] == w + v[..|v| - 1];
      TrimEndSkips(w, v[..|v| - 1]);
    }
  }

  /** `trim` removes exactly the surrounding whitespace: with `TrimSplits`
      this pins `Trim` down completely. */
  lemma TrimExactly(u: string, m: string, v: string)
    requires AllWhitespace(u) && AllWhitespace(v) && IsTrimmed(m)
    ensures Trim(u + m + v) == m
  {
    if m == [] {
      assert u + m + v == (u + v) + [];
      TrimStartSkips(u + v, []);
      assert TrimEnd([]) == [];
    } else {
      assert u + m + v == u + (m + v);
      TrimStartSkips(u, m + v);
      TrimEndSkips(m, v);
    }
  }

  // ---------------------------------------------------------------------
  // split on one character, join

  /** `s.split(sep)` for a one-character separator: always at least one
      piece, and no piece holds the separator. */
  function Split(s: string, sep: char): (parts: seq<string>)
    ensures |parts| >= 1
    ensures forall i :: 0 <= i < |parts| ==> sep !in parts[i]
    decreases |s|
  {
    if |s| == 0 then [""]
    else
      var rest := Split(s[1..], sep);
      if s[0] == sep then [""] + rest
      else [[s[0]] + rest[0]] + rest[1..]
  }

  /** `parts.join(sep)`. */
  function Join(parts: seq<string>, sep: string): string
    decreases |parts|
  {
    if |parts| == 0 then ""
    else if |parts| == 1 then parts[0]
    else parts[0] + sep + Join(parts[1..], sep)
  }

  /** Joining with an empty separator appends the last piece. */
  lemma {:induction false} ConcatSnoc(parts: seq<string>, x: string)
    ensures Join(parts + [x], "") == Join(parts, "") + x
    decreases |parts|
  {
    if |parts| == 1 {
      assert (parts + [x])[1..] == [x];
    } else if |parts| > 1 {
      assert (parts + [x])[1..] == parts[1..] + [x];
      ConcatSnoc(parts[1..], x);
    }
  }

  lemma ContainsTransitive(s: string, t: string, u: string)
    requires Contains(s, t) && Contains(t, u)
    ensures Contains(s, u)
  {
    ContainsIffOccurs(s, t);
    ContainsIffOccurs(t, u);
    var j :| OccursAt(s, t, j);
    var k :| OccursAt(t, u, k);
    forall q | 0 <= q < |u|
      ensures s[j + k + q] == u[q]
    {
      assert u[q] == t[k + q];
      assert t[k + q] == s[j..j + |t|][k + q];
    }
    assert s[j + k..j + k + |u|] == u;
    assert OccursAt(s, u, j + k);
    ContainsIffOccurs(s, u);
  }

  /** Every piece can be found in the joined string. */
  lemma {:induction false} JoinContainsPart(parts: seq<string>, sep: string, i: nat)
    requires i < |parts|
    ensures Contains(Join(parts, sep), parts[i])
    decreases |parts|
  {
    if |parts| == 1 {
      ContainsInfix("", parts[0], "");
      assert "" + parts[0] + "" == parts[0];
    } else {
      var rest := Join(parts[1..], sep);
      assert Join(parts, sep) == parts[0] + sep + rest;
      if i == 0 {
        ContainsInfix("", parts[0], sep + rest);
        assert "" + parts[0] + (sep + rest) == parts[0] + sep + rest;
      } else {
        JoinContainsPart(parts[1..], sep, i - 1);
        ContainsWithin(parts[0] + sep, rest, "", parts[i]);
        assert parts[0] + sep + rest + "" == parts[0] + sep + rest;
      }
    }
  }

  /** Joining the pieces of a split gives the string back. */
  lemma {:induction false} JoinSplit(s: string, sep: char)
    ensures Join(Split(s, sep), [sep]) == s
    decreases |s|
  {
    if |s| > 0 {
      var rest := Split(s[1..], sep);
      JoinSplit(s[1..], sep);
      if s[0] != sep && |rest| > 1 {
        assert Join(rest, [sep]) == rest[0] + [sep] + Join(rest[1..], [sep]);
        assert ([[s[0]] + rest[0]] + rest[1..])[1..] == rest[1..];
      } else if s[0] == sep {
        assert ([""] + rest)[1..] == rest;
      }
    }
  }

  lemma {:induction false} SplitWithoutSeparator(a: string, sep: char)
    requires sep !in a
    ensures Split(a, sep) == [a]
    decreases |a|
  {
    if |a| > 0 {
      SplitWithoutSeparator(a[1..], sep);
      assert a[0] in a;
      assert [a[0]] + a[1..] == a;
    }
  }

  lemma {:induction false} SplitAtFirstSeparator(a: string, b: string, sep: char)
    requires sep !in a
    ensures Split(a + [sep] + b, sep) == [a] + Split(b, sep)
    decreases |a|
  {
    if |a| == 0 {
      assert a + [sep] + b == [sep] + b;
      assert ([sep] + b)[1..] == b;
    } else {
      var s := a + [sep] + b;
      assert s[1..] == a[1..] + [sep] + b;
      SplitAtFirstSeparator(a[1..], b, sep);
      var rest := Split(s[1..], sep);
      assert rest == [a[1..]] + Split(b, sep);
      assert a[0] in a;
      assert s[0] != sep;
      assert [a[0]] + a[1..] == a;
      assert rest[1..] == Split(b, sep);
    }
  }

  /** Splitting a join gives the pieces back when none holds the separator. */
  lemma {:induction false} SplitJoin(parts: seq<string>, sep: char)
    requires |parts| >= 1
    requires forall i :: 0 <= i < |parts| ==> sep !in parts[i]
    ensures Split(Join(parts, [sep]), sep) == parts
    decreases |parts|
  {
    if |parts| == 1 {
      SplitWithoutSeparator(parts[0], sep);
    } else {
      SplitJoin(parts[1..], sep);
      SplitAtFirstSeparator(parts[0], Join(parts[1..], [sep]), sep);
      assert [parts[0]] + parts[1..] == parts;
    }
  }

  // ---------------------------------------------------------------------
  // The tag lists typed as "a, b, c"

  predicate IsNonEmpty(t: string) {
    t != ""
  }

  function PadSpace(t: string): string {
    " " + t
  }

  /** `input.split(',').map(t => t.trim()).filter(t => t !== '')`: every tag
      is non-empty, has no surrounding whitespace and holds no comma. */
  function ParseTags(input: string): (tags: seq<string>)
    ensures forall i :: 0 <= i < |tags| ==> tags[i] != "" && IsTrimmed(tags[i]) && ',' !in tags[i]
  {
    var tags := Filter(Map(Split(input, ','), Trim), IsNonEmpty);
    ParsedTagsAreClean(input, tags);
    tags
  }

  lemma ParsedTagsAreClean(input: string, tags: seq<string>)
    requires tags == Filter(Map(Split(input, ','), Trim), IsNonEmpty)
    ensures forall i :: 0 <= i < |tags| ==> tags[i] != "" && IsTrimmed(tags[i]) && ',' !in tags[i]
  {
    var pieces := Split(input, ',');
    var trimmed := Map(pieces, Trim);
    assert forall t :: t in trimmed ==> IsTrimmed(t) && ',' !in t by {
      forall t | t in trimmed
        ensures IsTrimmed(t) && ',' !in t
      {
        var k :| 0 <= k < |trimmed| && trimmed[k] == t;
        assert t == Trim(pieces[k]);
      }
    }
    assert tags == Filter(trimmed, IsNonEmpty);
    assert forall i :: 0 <= i < |tags| ==> tags[i] in tags;
  }

  lemma JoinPadFirst(x: string, rest: seq<string>, sep: string)
    ensures Join([PadSpace(x)] + rest, sep) == " " + Join([x] + rest, sep)
  {
    if |rest| > 0 {
      assert ([PadSpace(x)] + rest)[1..] == rest;
      assert ([x] + rest)[1..] == rest;
    }
  }

  /** "a, b, c" is "a", " b", " c" joined by ",". */
  lemma {:induction false} JoinCommaSpace(tags: seq<string>)
    requires |tags| >= 1
    ensures Join(tags, ", ") == Join([tags[0]] + Map(tags[1..], PadSpace), ",")
    decreases |tags|
  {
    if |tags| == 1 {
      assert [tags[0]] + Map(tags[1..], PadSpace) == [tags[0]];
    } else {
      var tail := Map(tags[2..], PadSpace);
      JoinCommaSpace(tags[1..]);
      assert tags[1..][0] == tags[1] && tags[1..][1..] == tags[2..];
      var j := Join([tags[1]] + tail, ",");
      assert Join(tags, ", ") == tags[0] + ", " + j;
      JoinPadFirst(tags[1], tail, ",");
      var pieces := [tags[0]] + Map(tags[1..], PadSpace);
      assert pieces == [tags[0]] + ([PadSpace(tags[1])] + tail);
      assert pieces[1..] == [PadSpace(tags[1])] + tail;
      assert Join(pieces, ",") == tags[0] + "," + (" " + j);
      assert tags[0] + ", " + j == tags[0] + "," + (" " + j);
    }
  }

  lemma TrimPieces(tags: seq<string>)
    requires |tags| >= 1
    requires forall i :: 0 <= i < |tags| ==> IsTrimmed(tags[i])
    ensures Map([tags[0]] + Map(tags[1..], PadSpace), Trim) == tags
  {
    var padded := Map(tags[1..], PadSpace);
    var pieces := [tags[0]] + padded;
    var trimmed := Map(pieces, Trim);
    assert |trimmed| == |tags|;
    forall i | 0 <= i < |tags|
      ensures trimmed[i] == tags[i]
    {
      if i == 0 {
        TrimOfTrimmed(tags[0]);
      } else {
        assert pieces[i] == padded[i - 1] == PadSpace(tags[i]);
        TrimOfPadded(tags[i]);
      }
    }
    assert trimmed == tags;
  }

  lemma TrimOfTrimmed(t: string)
    requires IsTrimmed(t)
    ensures Trim(t) == t
  {
    TrimExactly("", t, "");
    assert "" + t + "" == t;
  }

  lemma TrimOfPadded(t: string)
    requires IsTrimmed(t)
    ensures Trim(PadSpace(t)) == t
  {
    assert IsJsWhitespace(' ');
    TrimExactly(" ", t, "");
    assert " " + t + "" == PadSpace(t);
  }

  lemma ParseTagsUnfold(input: string)
    ensures ParseTags(input) == Filter(Map(Split(input, ','), Trim), IsNonEmpty)
  {
  }

  /** A tag list written out as "a, b, c" parses back to itself. */
  lemma ParseTagsRoundTrip(tags: seq<string>)
    requires forall i :: 0 <= i < |tags| ==> tags[i] != "" && IsTrimmed(tags[i]) && ',' !in tags[i]
    ensures ParseTags(Join(tags, ", ")) == tags
  {
    if |tags| == 0 {
      ParseTagsOfEmpty();
    } else {
      var joined := Join(tags, ", ");
      var pieces := [tags[0]] + Map(tags[1..], PadSpace);
      ParseTagsUnfold(joined);
      SplitCommaSpace(tags);
      assert Split(joined, ',') == pieces;
      TrimPieces(tags);
      assert Map(pieces, Trim) == tags;
      FilterKeepsAll(tags, IsNonEmpty);
    }
  }

  /** An empty input has no tags. */
  lemma ParseTagsOfEmpty()
    ensures ParseTags("") == []
  {
    ParseTagsUnfold("");
    TrimExactly("", "", "");
    assert "" + "" + "" == "";
    assert Map([""], Trim) == [""];
  }

  lemma SplitCommaSpace(tags: seq<string>)
    requires |tags| >= 1
    requires forall i :: 0 <= i < |tags| ==> ',' !in tags[i]
    ensures Split(Join(tags, ", "), ',') == [tags[0]] + Map(tags[1..], PadSpace)
  {
    var pieces := [tags[0]] + Map(tags[1..], PadSpace);
    JoinCommaSpace(tags);
    forall i | 0 <= i < |pieces|
      ensures ',' !in pieces[i]
    {
      if i > 0 {
        assert pieces[i] == " " + tags[i];
      }
    }
    SplitJoin(pieces, ',');
  }

  // ---------------------------------------------------------------------
  // The `||` fallback on a possibly missing string

  /** `o || fallback`: a missing or empty string falls through. */
  function OrElse(o: Option<string>, fallback: string): string {
    if o.Some? && o.value != "" then o.value else fallback
  }

  // ---------------------------------------------------------------------
  // Decimal rendering of non-negative integers

  predicate IsDigits(s: string) {
    forall i :: 0 <= i < |s| ==> '0' <= s[i] <= '9'
  }

  function DigitChar(d: nat): (c: char)
    requires d < 10
    ensures '0' <= c <= '9'
  {
    ('0' as int + d) as char
  }

  /** `String(n)` for a non-negative integer: canonical decimal digits. */
  function NatToString(n: nat): (r: string)
    ensures |r| >= 1 && IsDigits(r)
    ensures r[0] == '0' <==> n == 0
    ensures n == 0 ==> r == "0"
    decreases n
  {
    if n < 10 then [DigitChar(n)] else NatToString(n / 10) + [DigitChar(n % 10)]
  }

  /** The value a string of decimal digits denotes. */
  function DigitsValue(s: string): nat
    requires IsDigits(s)
    decreases |s|
  {
    if |s| == 0 then 0 else 10 * DigitsValue(s[..|s| - 1]) + (s[|s| - 1] as int - '0' as int)
  }

  /** Rendering is read back as the same number. */
  lemma {:induction false} NatToStringRoundTrip(n: nat)
    ensures DigitsValue(NatToString(n)) == n
    decreases n
  {
    if n >= 10 {
      var r := NatToString(n);
      assert r[..|r| - 1] == NatToString(n / 10);
      NatToStringRoundTrip(n / 10);
    }
  }

  /** `n.toFixed(2)` for an integer `n >= 0`. */
  function Fixed2(n: nat): (r: string)
    ensures IsSuffix(".00", r) && IsPrefix(NatToString(n), r)
  {
    NatToString(n) + ".00"
  }
}
